/**
 Gateway path templates: compiling a template into literals and tokens, matching a path against it by
 greedy backtracking, and what the captures mean.
 */
module PathTemplates {
  import opened Text

  /** A literal, or a token: `{name}` captures one path segment or a part of it, `{name:path}` anything. */
  datatype Part = Lit(text: string) | Token(name: string, whole: bool)

  // ---------------------------------------------------------------------------
  // Matching
  // ---------------------------------------------------------------------------

  /** The character classes of the two kinds of token: [^/] and the dot. */
  predicate Allowed(whole: bool, c: char) {
    if whole then c != '\n' else c != '/'
  }

  predicate AllAllowed(whole: bool, s: string) {
    forall i :: 0 <= i < |s| ==> Allowed(whole, s[i])
  }

  /** How far a token can reach. */
  function Reach(whole: bool, s: string): (n: nat)
    ensures n <= |s| && AllAllowed(whole, s[..n])
    ensures n < |s| ==> !Allowed(whole, s[n])
  {
    if s == "" || !Allowed(whole, s[0]) then 0 else 1 + Reach(whole, s[1..])
  }

  /** The dollar sign: the end, or just before a final line feed. */
  predicate AtEnd(s: string) {
    s == "" || s == "\n"
  }

  /** The captures of the first match, tokens taking as much as they can from left to right. */
  function MatchParts(parts: seq<Part>, s: string): Option<seq<string>>
    decreases |parts|, |s| + 1
  {
    if parts == [] then
      if AtEnd(s) then Some([]) else None
    else
      match parts[0]
      case Lit(text) => if text <= s then MatchParts(parts[1..], s[|text|..]) else None
      case Token(_, whole) => TryToken(parts[1..], s, Reach(whole, s))
  }

  /** Gives the token n characters, then fewer. */
  function TryToken(rest: seq<Part>, s: string, n: nat): Option<seq<string>>
    requires n <= |s|
    decreases |rest| + 1, n
  {
    if n == 0 then None
    else
      match MatchParts(rest, s[n..])
      case Some(caps) => Some([s[..n]] + caps)
      case None => TryToken(rest, s, n - 1)
  }

  // ---------------------------------------------------------------------------
  // What a match means
  // ---------------------------------------------------------------------------

  /** One non-empty capture of the right characters for every token. */
  predicate Fits(parts: seq<Part>, caps: seq<string>) {
    if parts == [] then caps == []
    else if parts[0].Lit? then Fits(parts[1..], caps)
    else caps != [] && caps[0] != "" && AllAllowed(parts[0].whole, caps[0]) && Fits(parts[1..], caps[1..])
  }

  /** The template with captures in place of its tokens. */
  function Fill(parts: seq<Part>, caps: seq<string>): string
    requires Fits(parts, caps)
  {
    if parts == [] then ""
    else if parts[0].Lit? then parts[0].text + Fill(parts[1..], caps)
    else caps[0] + Fill(parts[1..], caps[1..])
  }

  ghost predicate Decomposes(parts: seq<Part>, caps: seq<string>, s: string) {
    Fits(parts, caps) && (s == Fill(parts, caps) || s == Fill(parts, caps) + "\n")
  }

  /** Greedy preference: at the first difference the left capture is the longer one. */
  predicate Preferred(a: seq<string>, b: seq<string>) {
    a == [] || b == [] || |a[0]| > |b[0]| || (|a[0]| == |b[0]| && Preferred(a[1..], b[1..]))
  }

  lemma {:induction false} MatchIsSound(parts: seq<Part>, s: string)
    requires MatchParts(parts, s).Some?
    ensures Decomposes(parts, MatchParts(parts, s).value, s)
    decreases |parts|, |s| + 1
  {
    if parts != [] {
      match parts[0]
      case Lit(text) =>
        MatchIsSound(parts[1..], s[|text|..]);
        assert s == text + s[|text|..];
      case Token(_, whole) => TryIsSound(parts, s, Reach(whole, s));
    }
  }

  lemma {:induction false} TryIsSound(parts: seq<Part>, s: string, n: nat)
    requires parts != [] && parts[0].Token? && n <= |s| && AllAllowed(parts[0].whole, s[..n])
    requires TryToken(parts[1..], s, n).Some?
    ensures Decomposes(parts, TryToken(parts[1..], s, n).value, s)
    decreases |parts|, n
  {
    var r := MatchParts(parts[1..], s[n..]);
    if r.Some? {
      MatchIsSound(parts[1..], s[n..]);
      assert ([s[..n]] + r.value)[1..] == r.value;
      assert s == s[..n] + s[n..];
    } else {
      assert s[..n - 1] == s[..n][..n - 1];
      TryIsSound(parts, s, n - 1);
    }
  }

  lemma {:induction false} MatchIsBest(parts: seq<Part>, caps: seq<string>, s: string)
    requires Decomposes(parts, caps, s)
    ensures MatchParts(parts, s).Some? && Preferred(MatchParts(parts, s).value, caps)
    decreases |parts|, |s| + 1
  {
    if parts != [] {
      var tail := if s == Fill(parts, caps) then "" else "\n";
      match parts[0]
      case Lit(text) =>
        var rest := Fill(parts[1..], caps) + tail;
        assert s == text + rest && s[|text|..] == rest;
        MatchIsBest(parts[1..], caps, rest);
      case Token(_, whole) =>
        var rest := Fill(parts[1..], caps[1..]) + tail;
        assert s == caps[0] + rest;
        ReachCovers(whole, caps[0], rest);
        TryIsBest(parts, caps, s, rest, Reach(whole, s));
    }
  }

  lemma {:induction false} ReachCovers(whole: bool, cap: string, rest: string)
    requires AllAllowed(whole, cap)
    ensures |cap| <= Reach(whole, cap + rest)
  {
    assert forall i :: 0 <= i < |cap| ==> (cap + rest)[i] == cap[i];
  }

  lemma {:induction false} TryIsBest(parts: seq<Part>, caps: seq<string>, s: string, rest: string, n: nat)
    requires parts != [] && parts[0].Token? && Fits(parts, caps) && s == caps[0] + rest
    requires Decomposes(parts[1..], caps[1..], rest) && |caps[0]| <= n <= |s|
    ensures TryToken(parts[1..], s, n).Some? && Preferred(TryToken(parts[1..], s, n).value, caps)
    decreases |parts|, n
  {
    var r := MatchParts(parts[1..], s[n..]);
    if n == |caps[0]| {
      assert s[n..] == rest;
      MatchIsBest(parts[1..], caps[1..], rest);
      assert ([s[..n]] + r.value)[1..] == r.value;
    } else if r.None? {
      TryIsBest(parts, caps, s, rest, n - 1);
    }
  }

  /** A path matches exactly when it decomposes, and the captures are the greediest decomposition. */
  lemma MatchTheorem(parts: seq<Part>, s: string)
    ensures MatchParts(parts, s).Some? <==> exists caps :: Decomposes(parts, caps, s)
    ensures MatchParts(parts, s).Some? ==>
              var best := MatchParts(parts, s).value;
              && Decomposes(parts, best, s)
              && ('\n' !in s ==> s == Fill(parts, best))
              && (forall caps :: Decomposes(parts, caps, s) ==> Preferred(best, caps))
              // where the captures of another decomposition first differ in length, the match has the longer one
              && (forall caps :: Decomposes(parts, caps, s) ==> |caps| == |best|)
              && forall caps, i :: Decomposes(parts, caps, s) && 0 <= i < |best|
                                   && (forall j :: 0 <= j < i ==> |best[j]| == |caps[j]|)
                   ==> |best[i]| >= |caps[i]|
  {
    if MatchParts(parts, s).Some? {
      MatchIsSound(parts, s);
      var best := MatchParts(parts, s).value;
      assert s == Fill(parts, best) + "\n" ==> s[|s| - 1] == '\n';
    }
    forall caps | Decomposes(parts, caps, s)
      ensures MatchParts(parts, s).Some? && Preferred(MatchParts(parts, s).value, caps)
      ensures |caps| == |MatchParts(parts, s).value|
    {
      MatchIsBest(parts, caps, s);
      OneCapturePerToken(parts, caps, MatchParts(parts, s).value);
    }
    forall caps, i | Decomposes(parts, caps, s) && MatchParts(parts, s).Some? && 0 <= i < |MatchParts(parts, s).value|
                     && (forall j :: 0 <= j < i ==> |MatchParts(parts, s).value[j]| == |caps[j]|)
      ensures |MatchParts(parts, s).value[i]| >= |caps[i]|
    {
      PreferredIsLonger(MatchParts(parts, s).value, caps, i);
    }
  }

  lemma {:induction false} PreferredIsLonger(a: seq<string>, b: seq<string>, i: nat)
    requires Preferred(a, b) && i < |a| && |a| == |b| && forall j :: 0 <= j < i ==> |a[j]| == |b[j]|
    ensures |a[i]| >= |b[i]|
  {
    if i > 0 {
      assert |a[0]| == |b[0]|;
      assert forall j :: 0 <= j < i - 1 ==> a[1..][j] == a[j + 1] && b[1..][j] == b[j + 1];
      PreferredIsLonger(a[1..], b[1..], i - 1);
    }
  }

  lemma {:induction false} OneCapturePerToken(parts: seq<Part>, a: seq<string>, b: seq<string>)
    requires Fits(parts, a) && Fits(parts, b)
    ensures |a| == |b|
  {
    if parts != [] {
      if parts[0].Lit? {
        OneCapturePerToken(parts[1..], a, b);
      } else {
        OneCapturePerToken(parts[1..], a[1..], b[1..]);
      }
    }
  }

  // ---------------------------------------------------------------------------
  // When the captures are determined
  // ---------------------------------------------------------------------------

  predicate TokenFree(parts: seq<Part>) {
    parts == [] || (parts[0].Lit? && TokenFree(parts[1..]))
  }

  /** There is a slash in the literals before the next token. */
  predicate SlashFirst(parts: seq<Part>) {
    parts != [] && parts[0].Lit? && ('/' in parts[0].text || SlashFirst(parts[1..]))
  }

  predicate WholeFree(parts: seq<Part>) {
    parts == [] || (!(parts[0].Token? && parts[0].whole) && WholeFree(parts[1..]))
  }

  /** Between any two consecutive tokens the literal text contains a slash. */
  predicate SlashBetween(parts: seq<Part>) {
    parts == []
    || (SlashBetween(parts[1..]) && (parts[0].Token? ==> TokenFree(parts[1..]) || SlashFirst(parts[1..])))
  }

  /** At most one token takes whole paths. */
  predicate OneWhole(parts: seq<Part>) {
    parts == [] || (OneWhole(parts[1..]) && (parts[0].Token? && parts[0].whole ==> WholeFree(parts[1..])))
  }

  predicate Separated(parts: seq<Part>) {
    SlashBetween(parts) && OneWhole(parts)
  }

  /** Where the first slash is. */
  function FirstSlash(s: string): (i: nat)
    ensures i <= |s| && (i < |s| ==> s[i] == '/')
    ensures '/' !in s[..i]
  {
    if s == "" || s[0] == '/' then 0 else 1 + FirstSlash(s[1..])
  }

  lemma {:induction false} FirstSlashBehind(before: string, s: string)
    requires '/' !in before
    ensures FirstSlash(before + s) == |before| + FirstSlash(s)
  {
    if before == "" {
      assert before + s == s;
    } else {
      assert (before + s)[1..] == before[1..] + s;
      FirstSlashBehind(before[1..], s);
    }
  }

  lemma {:induction false} FirstSlashInFront(s: string, after: string)
    requires '/' in s
    ensures FirstSlash(s + after) == FirstSlash(s)
  {
    if s[0] != '/' {
      assert (s + after)[1..] == s[1..] + after;
      FirstSlashInFront(s[1..], after);
    }
  }

  /** The literals in front of the next token fix where the first slash is, whatever the captures. */
  lemma {:induction false} SlashIsFixed(parts: seq<Part>, a: seq<string>, b: seq<string>)
    requires Fits(parts, a) && Fits(parts, b) && SlashFirst(parts)
    ensures FirstSlash(Fill(parts, a)) == FirstSlash(Fill(parts, b))
  {
    var text := parts[0].text;
    if '/' in text {
      FirstSlashInFront(text, Fill(parts[1..], a));
      FirstSlashInFront(text, Fill(parts[1..], b));
    } else {
      SlashIsFixed(parts[1..], a, b);
      FirstSlashBehind(text, Fill(parts[1..], a));
      FirstSlashBehind(text, Fill(parts[1..], b));
    }
  }

  lemma {:induction false} TokenFreeFillsOneWay(parts: seq<Part>, a: seq<string>, b: seq<string>)
    requires Fits(parts, a) && Fits(parts, b) && TokenFree(parts)
    ensures a == b == []
  {
    if parts != [] {
      TokenFreeFillsOneWay(parts[1..], a, b);
    }
  }

  function Slashes(s: string): nat {
    if s == "" then 0 else (if s[0] == '/' then 1 else 0) + Slashes(s[1..])
  }

  lemma {:induction false} SlashesAdd(s: string, t: string)
    ensures Slashes(s + t) == Slashes(s) + Slashes(t)
  {
    if s == "" {
      assert s + t == t;
    } else {
      assert (s + t)[1..] == s[1..] + t;
      SlashesAdd(s[1..], t);
    }
  }

  lemma {:induction false} NoSlashes(s: string)
    ensures Slashes(s) == 0 <==> '/' !in s
  {
    if s != "" {
      NoSlashes(s[1..]);
      assert s == [s[0]] + s[1..];
    }
  }

  /** Plain tokens leave the number of slashes to the literals. */
  lemma {:induction false} SlashesAreFixed(parts: seq<Part>, a: seq<string>, b: seq<string>)
    requires Fits(parts, a) && Fits(parts, b) && WholeFree(parts)
    ensures Slashes(Fill(parts, a)) == Slashes(Fill(parts, b))
  {
    if parts == [] {
    } else if parts[0].Lit? {
      SlashesAreFixed(parts[1..], a, b);
      SlashesAdd(parts[0].text, Fill(parts[1..], a));
      SlashesAdd(parts[0].text, Fill(parts[1..], b));
    } else {
      SlashesAreFixed(parts[1..], a[1..], b[1..]);
      SlashesAdd(a[0], Fill(parts[1..], a[1..]));
      SlashesAdd(b[0], Fill(parts[1..], b[1..]));
      NoSlashes(a[0]);
      NoSlashes(b[0]);
    }
  }

  /** Behind plain tokens two ends of one text are equally long: the longer one would only add a slash-free start. */
  lemma EndsAreEqual(parts: seq<Part>, a: seq<string>, b: seq<string>, start: string)
    requires Fits(parts, a) && Fits(parts, b) && WholeFree(parts) && SlashFirst(parts)
    requires Fill(parts, a) == start + Fill(parts, b)
    ensures start == ""
  {
    SlashesAreFixed(parts, a, b);
    SlashesAdd(start, Fill(parts, b));
    NoSlashes(start);
    SlashIsFixed(parts, a, b);
    FirstSlashBehind(start, Fill(parts, b));
  }

  lemma FirstIsFixed(parts: seq<Part>, a: seq<string>, b: seq<string>)
    requires parts != [] && parts[0].Token? && Separated(parts)
    requires Fits(parts, a) && Fits(parts, b) && Fill(parts, a) == Fill(parts, b)
    ensures |a[0]| == |b[0]|
  {
    var rest, s := parts[1..], Fill(parts, a);
    var u, v := Fill(rest, a[1..]), Fill(rest, b[1..]);
    if TokenFree(rest) {
      TokenFreeFillsOneWay(rest, a[1..], b[1..]);
    } else if !parts[0].whole {
      SlashIsFixed(rest, a[1..], b[1..]);
      FirstSlashBehind(a[0], u);
      FirstSlashBehind(b[0], v);
    } else if |u| >= |v| {
      assert u == s[|s| - |u|..] && v == s[|s| - |v|..];
      assert u == u[..|u| - |v|] + v;
      EndsAreEqual(rest, a[1..], b[1..], u[..|u| - |v|]);
    } else {
      assert u == s[|s| - |u|..] && v == s[|s| - |v|..];
      assert v == v[..|v| - |u|] + u;
      EndsAreEqual(rest, b[1..], a[1..], v[..|v| - |u|]);
    }
  }

  /** A separated template decomposes a path in one way only. */
  lemma {:induction false} DecompositionIsUnique(parts: seq<Part>, a: seq<string>, b: seq<string>)
    requires Separated(parts) && Fits(parts, a) && Fits(parts, b) && Fill(parts, a) == Fill(parts, b)
    ensures a == b
  {
    if parts != [] {
      var s, rest := Fill(parts, a), parts[1..];
      if parts[0].Lit? {
        assert Fill(rest, a) == s[|parts[0].text|..] == Fill(rest, b);
        DecompositionIsUnique(rest, a, b);
      } else {
        FirstIsFixed(parts, a, b);
        assert a[0] == s[..|a[0]|] == b[0];
        assert Fill(rest, a[1..]) == s[|a[0]|..] == Fill(rest, b[1..]);
        DecompositionIsUnique(rest, a[1..], b[1..]);
        assert a == [a[0]] + a[1..] && b == [b[0]] + b[1..];
      }
    }
  }

  /** On a path without line feeds such a template finds the one decomposition there is. */
  lemma MatchIsTheDecomposition(parts: seq<Part>, caps: seq<string>, s: string)
    requires Separated(parts) && '\n' !in s
    ensures MatchParts(parts, s) == Some(caps) <==> Decomposes(parts, caps, s)
  {
    MatchTheorem(parts, s);
    if Decomposes(parts, caps, s) {
      assert '\n' in Fill(parts, caps) + "\n";
      DecompositionIsUnique(parts, caps, MatchParts(parts, s).value);
    }
  }

  // ---------------------------------------------------------------------------
  // Every other template is ambiguous
  // ---------------------------------------------------------------------------

  predicate LineFree(parts: seq<Part>) {
    forall part :: part in parts && part.Lit? ==> '\n' !in part.text
  }

  /** A text that every token can capture. */
  predicate Neutral(x: string) {
    x != "" && '/' !in x && '\n' !in x
  }

  /** The same capture for every token. */
  function Copies(parts: seq<Part>, x: string): seq<string> {
    if parts == [] then []
    else if parts[0].Lit? then Copies(parts[1..], x)
    else [x] + Copies(parts[1..], x)
  }

  lemma {:induction false} CopiesFit(parts: seq<Part>, x: string)
    requires Neutral(x) && LineFree(parts)
    ensures Fits(parts, Copies(parts, x)) && '\n' !in Fill(parts, Copies(parts, x))
  {
    if parts != [] {
      CopiesFit(parts[1..], x);
      if parts[0].Token? {
        assert ([x] + Copies(parts[1..], x))[1..] == Copies(parts[1..], x);
      }
    }
  }

  lemma FillToken(token: Part, cap: string, rest: seq<Part>, caps: seq<string>)
    requires token.Token? && cap != "" && AllAllowed(token.whole, cap) && Fits(rest, caps)
    ensures Fits([token] + rest, [cap] + caps) && Fill([token] + rest, [cap] + caps) == cap + Fill(rest, caps)
  {
    assert ([token] + rest)[1..] == rest && ([cap] + caps)[1..] == caps;
  }

  lemma FillLiteral(lit: Part, rest: seq<Part>, caps: seq<string>)
    requires lit.Lit? && Fits(rest, caps)
    ensures Fits([lit] + rest, caps) && Fill([lit] + rest, caps) == lit.text + Fill(rest, caps)
  {
    assert ([lit] + rest)[1..] == rest;
  }

  lemma Reassociated<T>(a: seq<T>, b: seq<T>, c: seq<T>)
    ensures a + b + c == a + (b + c)
  {
  }

  lemma {:induction false} FillConcat(p: seq<Part>, a: seq<string>, q: seq<Part>, b: seq<string>)
    requires Fits(p, a) && Fits(q, b)
    ensures Fits(p + q, a + b) && Fill(p + q, a + b) == Fill(p, a) + Fill(q, b)
  {
    if p == [] {
      assert p + q == q && a + b == b;
    } else if p[0].Lit? {
      FillConcat(p[1..], a, q, b);
      FillLiteral(p[0], p[1..] + q, a + b);
      assert p + q == [p[0]] + (p[1..] + q);
      Reassociated(p[0].text, Fill(p[1..], a), Fill(q, b));
    } else {
      FillConcat(p[1..], a[1..], q, b);
      FillToken(p[0], a[0], p[1..] + q, a[1..] + b);
      assert p + q == [p[0]] + (p[1..] + q) && a + b == [a[0]] + (a[1..] + b);
      Reassociated(a[0], Fill(p[1..], a[1..]), Fill(q, b));
    }
  }

  /** Captures u and v for two tokens, and copies of x for the others. */
  lemma FillTwo(f: Part, middle: seq<Part>, g: Part, after: seq<Part>, x: string, u: string, v: string)
    requires Neutral(x) && LineFree(middle) && LineFree(after) && f.Token? && g.Token?
    requires u != "" && v != "" && AllAllowed(f.whole, u) && AllAllowed(g.whole, v)
    ensures var parts := [f] + (middle + ([g] + after));
            var caps := [u] + (Copies(middle, x) + ([v] + Copies(after, x)));
            && Fits(middle, Copies(middle, x)) && Fits(after, Copies(after, x)) && Fits(parts, caps)
            && Fill(parts, caps)
               == u + (Fill(middle, Copies(middle, x)) + (v + Fill(after, Copies(after, x))))
  {
    CopiesFit(middle, x);
    CopiesFit(after, x);
    FillToken(g, v, after, Copies(after, x));
    FillConcat(middle, Copies(middle, x), [g] + after, [v] + Copies(after, x));
    FillToken(f, u, middle + ([g] + after), Copies(middle, x) + ([v] + Copies(after, x)));
  }

  lemma Rotate(x: string, m: string, end: string)
    ensures x + m + x + (m + (x + end)) == x + (m + (x + m + x + end))
  {
    assert x + m + x + (m + (x + end)) == x + m + x + m + x + end;
    assert x + (m + (x + m + x + end)) == x + m + x + m + x + end;
  }

  lemma JoinAllowed(whole: bool, x: string, m: string)
    requires Neutral(x) && AllAllowed(whole, m)
    ensures AllAllowed(whole, x + m + x)
  {
  }

  /** Two tokens that can both capture the text m between them decompose x m x m x in two ways. */
  lemma TwoWays(f: Part, middle: seq<Part>, g: Part, after: seq<Part>, x: string)
    returns (s: string, a: seq<string>, b: seq<string>)
    requires Neutral(x) && LineFree(middle) && LineFree(after) && f.Token? && g.Token?
    requires Fits(middle, Copies(middle, x))
    requires AllAllowed(f.whole, Fill(middle, Copies(middle, x)))
    requires AllAllowed(g.whole, Fill(middle, Copies(middle, x)))
    ensures var parts := [f] + (middle + ([g] + after));
            && '\n' !in s && a != b
            && Fits(parts, a) && s == Fill(parts, a) && Fits(parts, b) && s == Fill(parts, b)
  {
    CopiesFit(middle, x);
    CopiesFit(after, x);
    var m, end := Fill(middle, Copies(middle, x)), Fill(after, Copies(after, x));
    var long := x + m + x;
    JoinAllowed(f.whole, x, m);
    JoinAllowed(g.whole, x, m);
    FillTwo(f, middle, g, after, x, long, x);
    FillTwo(f, middle, g, after, x, x, long);
    Rotate(x, m, end);
    s := x + (m + (long + end));
    a := [long] + (Copies(middle, x) + ([x] + Copies(after, x)));
    b := [x] + (Copies(middle, x) + ([long] + Copies(after, x)));
    assert |a[0]| > |b[0]|;
  }

  /** The next token stands behind literals without a slash. */
  lemma {:induction false} NextToken(parts: seq<Part>, x: string) returns (k: nat)
    requires !TokenFree(parts) && !SlashFirst(parts)
    ensures k < |parts| && parts[k].Token? && Copies(parts[..k], x) == []
    ensures Fits(parts[..k], []) && '/' !in Fill(parts[..k], [])
  {
    if parts[0].Token? {
      k := 0;
    } else {
      var j := NextToken(parts[1..], x);
      k := j + 1;
      assert parts[..k][1..] == parts[1..][..j] && parts[..k][0] == parts[0];
    }
  }

  lemma {:induction false} NextWhole(parts: seq<Part>) returns (k: nat)
    requires !WholeFree(parts)
    ensures k < |parts| && parts[k].Token? && parts[k].whole
  {
    if parts[0].Token? && parts[0].whole {
      k := 0;
    } else {
      var j := NextWhole(parts[1..]);
      k := j + 1;
    }
  }

  /** A later token that can capture, as the first one can, the text between them. */
  lemma Rival(first: Part, rest: seq<Part>, x: string) returns (k: nat)
    requires Neutral(x) && LineFree(rest) && first.Token?
    requires (!TokenFree(rest) && !SlashFirst(rest)) || (first.whole && !WholeFree(rest))
    ensures k < |rest| && rest[k].Token? && Fits(rest[..k], Copies(rest[..k], x))
    ensures AllAllowed(first.whole, Fill(rest[..k], Copies(rest[..k], x)))
    ensures AllAllowed(rest[k].whole, Fill(rest[..k], Copies(rest[..k], x)))
  {
    if !TokenFree(rest) && !SlashFirst(rest) {
      k := NextToken(rest, x);
    } else {
      k := NextWhole(rest);
    }
    CopiesFit(rest[..k], x);
  }

  lemma AmbiguousHead(first: Part, rest: seq<Part>, x: string) returns (s: string, a: seq<string>, b: seq<string>)
    requires Neutral(x) && LineFree(rest) && first.Token?
    requires (!TokenFree(rest) && !SlashFirst(rest)) || (first.whole && !WholeFree(rest))
    ensures '\n' !in s && a != b
    ensures Fits([first] + rest, a) && s == Fill([first] + rest, a)
    ensures Fits([first] + rest, b) && s == Fill([first] + rest, b)
  {
    var k := Rival(first, rest, x);
    s, a, b := TwoWays(first, rest[..k], rest[k], rest[k + 1..], x);
    assert rest == rest[..k] + ([rest[k]] + rest[k + 1..]);
  }

  /** A template that is not separated decomposes some path without line feeds in two ways. */
  lemma {:induction false} AmbiguousPath(parts: seq<Part>, x: string)
    returns (s: string, a: seq<string>, b: seq<string>)
    requires Neutral(x) && LineFree(parts) && !Separated(parts)
    ensures '\n' !in s && a != b
    ensures Fits(parts, a) && s == Fill(parts, a) && Fits(parts, b) && s == Fill(parts, b)
  {
    if Separated(parts[1..]) {
      s, a, b := AmbiguousHead(parts[0], parts[1..], x);
      assert parts == [parts[0]] + parts[1..];
    } else {
      var s', a', b' := AmbiguousPath(parts[1..], x);
      if parts[0].Lit? {
        s, a, b := parts[0].text + s', a', b';
      } else {
        FillToken(parts[0], x, parts[1..], a');
        FillToken(parts[0], x, parts[1..], b');
        assert parts == [parts[0]] + parts[1..];
        s, a, b := x + s', [x] + a', [x] + b';
        assert a[1..] == a' && b[1..] == b';
      }
    }
  }

  /**
   Every path without line feeds decomposes in at most one way exactly when the template has a slash
   between any two consecutive tokens and at most one whole token.
   */
  lemma SeparatedTheorem(parts: seq<Part>)
    requires LineFree(parts)
    ensures Separated(parts)
            <==> forall s, a, b :: '\n' !in s && Decomposes(parts, a, s) && Decomposes(parts, b, s) ==> a == b
  {
    if Separated(parts) {
      forall s, a, b | '\n' !in s && Decomposes(parts, a, s) && Decomposes(parts, b, s)
        ensures a == b
      {
        MatchIsTheDecomposition(parts, a, s);
        MatchIsTheDecomposition(parts, b, s);
      }
    } else {
      var s, a, b := AmbiguousPath(parts, "x");
      assert Decomposes(parts, a, s) && Decomposes(parts, b, s);
    }
  }

  /** An instance: two plain tokens with a hyphen between them. */
  lemma AmbiguousWithoutSlash()
    ensures var parts := [Token("a", false), Lit("-"), Token("b", false)];
            && !Separated(parts)
            && Decomposes(parts, ["x-x", "x"], "x-x-x") && Decomposes(parts, ["x", "x-x"], "x-x-x")
  {
    var a, lit, b := Token("a", false), Lit("-"), Token("b", false);
    assert [a, lit, b][1..] == [lit, b] && [lit, b][1..] == [b] && [b][1..] == [];
    assert ["x-x", "x"][1..] == ["x"] && ["x"][1..] == [] && ["x", "x-x"][1..] == ["x-x"] && ["x-x"][1..] == [];
    assert Fits([b], ["x"]) && Fits([lit, b], ["x"]) && Fits([b], ["x-x"]) && Fits([lit, b], ["x-x"]);
    assert Fill([b], ["x"]) == "x" + Fill([], []) && Fill([lit, b], ["x"]) == "-" + Fill([b], ["x"]);
    assert Fill([b], ["x-x"]) == "x-x" + Fill([], []) && Fill([lit, b], ["x-x"]) == "-" + Fill([b], ["x-x"]);
    assert !TokenFree([b]) && !TokenFree([lit, b]) && !SlashFirst([b]) && !SlashFirst([lit, b]);
  }

  // ---------------------------------------------------------------------------
  // Compiling a template
  // ---------------------------------------------------------------------------

  predicate Letter(c: char) {
    'a' <= c <= 'z' || 'A' <= c <= 'Z' || c == '_'
  }

  predicate NameChar(c: char) {
    Letter(c) || '0' <= c <= '9'
  }

  /** Length of the longest run of name characters. */
  function NameRun(s: string): (n: nat)
    ensures n <= |s|
  {
    if s == "" || !NameChar(s[0]) then 0 else 1 + NameRun(s[1..])
  }

  lemma {:induction false} NameRunIsLongest(s: string)
    ensures forall i :: 0 <= i < NameRun(s) ==> NameChar(s[i])
    ensures NameRun(s) < |s| ==> !NameChar(s[NameRun(s)])
  {
    if s != "" && NameChar(s[0]) {
      NameRunIsLongest(s[1..]);
      assert forall i :: 0 < i < |s| ==> s[i] == s[1..][i - 1];
    }
  }

  const WHOLE_END := ":path}"
  const PLAIN_END := "}"

  /** The token at the start of s, with its length. */
  function TokenAt(s: string): (r: Option<(Part, nat)>)
    ensures r.Some? ==> 0 < r.value.1 <= |s| && r.value.0.Token?
  {
    if s == "" || s[0] != '{' then None
    else
      var n := NameRun(s[1..]);
      if n == 0 || !Letter(s[1]) then None
      else
        var name, after := s[1..n + 1], s[n + 1..];
        if WHOLE_END <= after then Some((Token(name, true), n + 7))
        else if PLAIN_END <= after then Some((Token(name, false), n + 2))
        else None
  }

  /** Literals and tokens in turn; `lit` is the literal read so far. */
  function Parse(lit: string, s: string): seq<Part>
    decreases |s|
  {
    if s == "" then [Lit(lit)]
    else
      match TokenAt(s)
      case Some((token, n)) => [Lit(lit), token] + Parse("", s[n..])
      case None => Parse(lit + [s[0]], s[1..])
  }

  function Names(parts: seq<Part>): seq<string> {
    if parts == [] then []
    else (if parts[0].Token? then [parts[0].name] else []) + Names(parts[1..])
  }

  predicate NoRepeats(names: seq<string>) {
    names == [] || (names[0] !in names[1..] && NoRepeats(names[1..]))
  }

  /** A template does not compile when it defines a group twice. */
  function Compile(template: string): Option<seq<Part>> {
    var parts := Parse("", template);
    if NoRepeats(Names(parts)) then Some(parts) else None
  }

  lemma ParseToken(lit: string, s: string, token: Part, n: nat, rest: string)
    requires s != "" && TokenAt(s) == Some((token, n)) && rest == s[n..]
    ensures Parse(lit, s) == [Lit(lit), token] + Parse("", rest)
  {
  }

  lemma ParseChar(lit: string, s: string, longer: string, rest: string)
    requires s != "" && TokenAt(s) == None && longer == lit + [s[0]] && rest == s[1..]
    ensures Parse(lit, s) == Parse(longer, rest)
  {
  }

  /** What has been compiled, and the rest of the template, make up the whole. */
  ghost predicate Scanned(template: string, parts: seq<Part>, lastIndex: nat, i: nat)
    requires lastIndex <= i <= |template|
  {
    parts + Parse(template[lastIndex..i], template[i..]) == Parse("", template)
  }

  lemma NothingScanned(template: string)
    ensures Scanned(template, [], 0, 0)
  {
    assert template[0..0] == "" && template[0..] == template;
  }

  lemma TakeToken(whole: seq<Part>, parts: seq<Part>, lit: string, s: string, token: Part, n: nat, rest: string)
    requires s != "" && TokenAt(s) == Some((token, n)) && rest == s[n..] && parts + Parse(lit, s) == whole
    ensures parts + [Lit(lit), token] + Parse("", rest) == whole
  {
    ParseToken(lit, s, token, n, rest);
    Reassociated(parts, [Lit(lit), token], Parse("", rest));
  }

  lemma SliceAgain(s: string, i: nat, n: nat)
    requires i + n <= |s|
    ensures s[i..][n..] == s[i + n..] && s[i + n..i + n] == ""
  {
  }

  lemma TokenScanned(template: string, parts: seq<Part>, lastIndex: nat, i: nat, token: Part, n: nat, more: seq<Part>)
    requires lastIndex <= i < |template| && Scanned(template, parts, lastIndex, i)
    requires TokenAt(template[i..]) == Some((token, n)) && more == parts + [Lit(template[lastIndex..i]), token]
    ensures n > 0 && i + n <= |template| && Scanned(template, more, i + n, i + n)
  {
    SliceAgain(template, i, n);
    TakeToken(Parse("", template), parts, template[lastIndex..i], template[i..], token, n, template[i + n..]);
  }

  lemma CharScanned(template: string, parts: seq<Part>, lastIndex: nat, i: nat)
    requires lastIndex <= i < |template| && Scanned(template, parts, lastIndex, i)
    requires TokenAt(template[i..]) == None
    ensures Scanned(template, parts, lastIndex, i + 1)
  {
    ParseChar(template[lastIndex..i], template[i..], template[lastIndex..i + 1], template[i + 1..]);
  }

  lemma AllScanned(template: string, parts: seq<Part>, lastIndex: nat)
    requires lastIndex <= |template| && Scanned(template, parts, lastIndex, |template|)
    ensures parts + [Lit(template[lastIndex..])] == Parse("", template)
  {
    assert template[lastIndex..|template|] == template[lastIndex..] && template[|template|..] == "";
  }

  /** The loop over the tokens that the pattern finds. */
  method ScanTemplate(template: string) returns (parts: seq<Part>)
    ensures parts == Parse("", template)
  {
    parts := [];
    var lastIndex, i := 0, 0;
    NothingScanned(template);
    while i < |template|
      invariant 0 <= lastIndex <= i <= |template|
      invariant Scanned(template, parts, lastIndex, i)
      decreases |template| - i
    {
      var found := TokenAt(template[i..]);
      if found.Some? {
        ghost var before := parts;
        parts := parts + [Lit(template[lastIndex..i]), found.value.0];
        TokenScanned(template, before, lastIndex, i, found.value.0, found.value.1, parts);
        i := i + found.value.1;
        lastIndex := i;
      } else {
        CharScanned(template, parts, lastIndex, i);
        i := i + 1;
      }
    }
    AllScanned(template, parts, lastIndex);
    parts := parts + [Lit(template[lastIndex..])];
  }

  method CompileGatewayPath(template: string) returns (compiled: Option<seq<Part>>)
    ensures compiled == Compile(template)
  {
    var parts := ScanTemplate(template);
    compiled := if NoRepeats(Names(parts)) then Some(parts) else None;
  }

  // ---------------------------------------------------------------------------
  // Templates and parts are two forms of the same thing
  // ---------------------------------------------------------------------------

  function Written(part: Part): string {
    match part
    case Lit(text) => text
    case Token(name, whole) => "{" + name + (if whole then WHOLE_END else PLAIN_END)
  }

  function Render(parts: seq<Part>): string {
    if parts == [] then "" else Written(parts[0]) + Render(parts[1..])
  }

  lemma Glue(lit: string, s: string, n: nat)
    requires n <= |s|
    ensures lit + (s[..n] + s[n..]) == lit + s
    ensures n == 1 ==> lit + [s[0]] + s[1..] == lit + s
  {
    assert s[..n] + s[n..] == s;
  }

  /** Compiling loses nothing. */
  lemma {:induction false} RenderParse(lit: string, s: string)
    ensures Render(Parse(lit, s)) == lit + s
    decreases |s|
  {
    if s == "" {
      assert [Lit(lit)][1..] == [];
    } else if TokenAt(s).Some? {
      var (token, n) := TokenAt(s).value;
      ParseToken(lit, s, token, n, s[n..]);
      TokenIsWritten(s);
      RenderParse("", s[n..]);
      RenderTwo(lit, token, Parse("", s[n..]), s, n);
    } else {
      ParseChar(lit, s, lit + [s[0]], s[1..]);
      RenderParse(lit + [s[0]], s[1..]);
      Glue(lit, s, 1);
    }
  }

  lemma RenderTwo(lit: string, token: Part, rest: seq<Part>, s: string, n: nat)
    requires n <= |s| && Written(token) == s[..n] && Render(rest) == s[n..]
    ensures Render([Lit(lit), token] + rest) == lit + s
  {
    var all := [Lit(lit), token] + rest;
    assert all[1..] == [token] + rest && all[1..][1..] == rest;
    assert Render(all) == lit + Render(all[1..]);
    assert Render(all[1..]) == s[..n] + s[n..];
    Glue(lit, s, n);
  }

  lemma TokenIsWritten(s: string)
    requires TokenAt(s).Some?
    ensures Written(TokenAt(s).value.0) == s[..TokenAt(s).value.1]
  {
    var n := NameRun(s[1..]);
    var name, after := s[1..n + 1], s[n + 1..];
    var end := if WHOLE_END <= after then WHOLE_END else PLAIN_END;
    assert s == "{" + name + after;
    assert after[..|end|] == end;
  }

  /** A brace, an identifier of ASCII letters, digits and underscores, an optional ":path" and a brace make a token. */
  lemma TokenTheorem(name: string, rest: string)
    requires name != "" && !('0' <= name[0] <= '9')
    requires forall i :: 0 <= i < |name| ==>
               'a' <= name[i] <= 'z' || 'A' <= name[i] <= 'Z' || '0' <= name[i] <= '9' || name[i] == '_'
    ensures TokenAt("{" + name + ("}" + rest)) == Some((Token(name, false), |name| + 2))
    ensures TokenAt("{" + name + (":path}" + rest)) == Some((Token(name, true), |name| + 7))
  {
    TokenIs(name, false, "}" + rest);
    TokenIs(name, true, ":path}" + rest);
  }

  lemma TokenIs(name: string, whole: bool, after: string)
    requires name != "" && Letter(name[0]) && forall i :: 0 <= i < |name| ==> NameChar(name[i])
    requires (if whole then WHOLE_END else PLAIN_END) <= after
    ensures TokenAt("{" + name + after) == Some((Token(name, whole), |name| + if whole then 7 else 2))
  {
    var s := "{" + name + after;
    assert after[0] == if whole then ':' else '}';
    assert s[1..] == name + after;
    NameRunStops(name, after);
    TokenAtIs(s, name, whole, after);
  }

  /** And nothing else does. */
  lemma TokensAreOnly(s: string)
    requires TokenAt(s).Some?
    ensures var (token, n) := TokenAt(s).value;
            && token.Token? && token.name != "" && !('0' <= token.name[0] <= '9')
            && (forall i :: 0 <= i < |token.name| ==>
                  var c := token.name[i];
                  'a' <= c <= 'z' || 'A' <= c <= 'Z' || '0' <= c <= '9' || c == '_')
            && s[..n] == "{" + token.name + (if token.whole then ":path}" else "}")
  {
    TokenIsWritten(s);
    NameRunIsLongest(s[1..]);
    assert forall i :: 0 <= i < NameRun(s[1..]) ==> s[1..][i] == s[1..NameRun(s[1..]) + 1][i];
  }

  /** A template compiles exactly when no two of its tokens have the same name. */
  lemma CompileTheorem(template: string, parts: seq<Part>)
    requires parts == Parse("", template)
    ensures Compile(template).Some? ==> Compile(template).value == parts
    ensures Compile(template).Some? <==>
              forall i, j :: 0 <= i < j < |parts| && parts[i].Token? && parts[j].Token? ==> parts[i].name != parts[j].name
  {
    NoRepeatsMeans(parts);
  }

  lemma {:induction false} NoRepeatsMeans(parts: seq<Part>)
    ensures forall name :: name in Names(parts) <==> exists i :: 0 <= i < |parts| && parts[i].Token? && parts[i].name == name
    ensures NoRepeats(Names(parts)) <==>
              forall i, j :: 0 <= i < j < |parts| && parts[i].Token? && parts[j].Token? ==> parts[i].name != parts[j].name
  {
    if parts != [] {
      var rest := parts[1..];
      NoRepeatsMeans(rest);
      assert forall i :: 0 <= i < |rest| ==> rest[i] == parts[i + 1];
      assert parts[0].Token? ==> ([parts[0].name] + Names(rest))[1..] == Names(rest);
      assert parts[0].Lit? ==> Names(parts) == Names(rest);
    }
  }

  predicate IsName(s: string) {
    s != "" && Letter(s[0]) && forall i :: 0 <= i < |s| ==> NameChar(s[i])
  }

  /** No token starts and ends inside the text. */
  predicate PlainText(t: string) {
    forall i :: 0 <= i < |t| ==> TokenAt(t[i..]).None?
  }

  /** Plain literals, possibly empty, with a token between any two of them. */
  predicate Canonical(parts: seq<Part>) {
    && parts != [] && parts[0].Lit? && PlainText(parts[0].text)
    && (|parts| == 1 || (parts[1].Token? && IsName(parts[1].name) && Canonical(parts[2..])))
  }

  lemma {:induction false} NameRunStops(name: string, after: string)
    requires forall i :: 0 <= i < |name| ==> NameChar(name[i])
    requires after == "" || !NameChar(after[0])
    ensures NameRun(name + after) == |name|
  {
    var s, n := name + after, NameRun(name + after);
    NameRunIsLongest(s);
    assert forall i :: 0 <= i < |name| ==> s[i] == name[i];
    assert after != "" ==> s[|name|] == after[0];
  }

  lemma TokenAtIs(s: string, name: string, whole: bool, after: string)
    requires s == "{" + name + after && name != "" && Letter(name[0]) && NameRun(s[1..]) == |name|
    requires (if whole then WHOLE_END else PLAIN_END) <= after
    ensures TokenAt(s) == Some((Token(name, whole), |name| + if whole then 7 else 2))
  {
    assert s[1] == name[0];
    assert s[1..|name| + 1] == name && s[|name| + 1..] == after;
    assert after[0] == if whole then ':' else '}';
  }

  lemma Regroup(open: string, name: string, end: string, rest: string)
    requires |open| == 1
    ensures open + name + end + rest == open + name + (end + rest)
    ensures (open + name + (end + rest))[1..] == name + (end + rest)
  {
  }

  lemma TokenAtWritten(token: Part, rest: string)
    requires token.Token? && IsName(token.name)
    ensures TokenAt(Written(token) + rest) == Some((token, |Written(token)|))
  {
    var name, end := token.name, if token.whole then WHOLE_END else PLAIN_END;
    Regroup("{", name, end, rest);
    NameRunStops(name, end + rest);
    TokenAtIs(Written(token) + rest, name, token.whole, end + rest);
  }

  /** A token is found again when more text follows. */
  lemma TokenAtExtends(t: string, rest: string)
    requires TokenAt(t).Some?
    ensures TokenAt(t + rest) == TokenAt(t)
  {
    var (token, n) := TokenAt(t).value;
    TokenIsWritten(t);
    TokenHasName(t);
    assert t + rest == Written(token) + (t[n..] + rest);
    TokenAtWritten(token, t[n..] + rest);
  }

  lemma TokenHasName(t: string)
    requires TokenAt(t).Some?
    ensures IsName(TokenAt(t).value.0.name) && |Written(TokenAt(t).value.0)| == TokenAt(t).value.1
  {
    TokenIsWritten(t);
    var n := NameRun(t[1..]);
    NameRunIsLongest(t[1..]);
    assert t[1..n + 1] == t[1..][..n];
  }

  /** A text without a token gets none from an opening brace behind it. */
  lemma NoTokenAcross(t: string, rest: string)
    requires t != "" && TokenAt(t) == None && (rest == "" || rest[0] == '{')
    ensures TokenAt(t + rest) == None
  {
    if TokenAt(t + rest).Some? && rest != "" {
      var (token, n) := TokenAt(t + rest).value;
      TokenIsWritten(t + rest);
      TokenHasName(t + rest);
      BraceOnlyInFront(token);
      assert (t + rest)[|t|] == rest[0];
      assert forall i :: 0 < i < n ==> (t + rest)[..n][i] != '{';
      assert t == Written(token) + t[n..];
      TokenAtWritten(token, t[n..]);
      assert false;
    } else {
      assert t + "" == t;
    }
  }

  lemma BraceOnlyInFront(token: Part)
    requires token.Token? && IsName(token.name)
    ensures forall i :: 0 < i < |Written(token)| ==> Written(token)[i] != '{'
  {
  }

  lemma {:induction false} ParseText(lit: string, t: string, rest: string)
    requires PlainText(t) && (rest == "" || rest[0] == '{')
    ensures Parse(lit, t + rest) == Parse(lit + t, rest)
    decreases |t|
  {
    if t == "" {
      assert t + rest == rest && lit + t == lit;
    } else {
      assert t[0..] == t;
      NoTokenAcross(t, rest);
      ParseChar(lit, t + rest, lit + [t[0]], t[1..] + rest);
      assert forall i :: 0 <= i < |t[1..]| ==> t[1..][i..] == t[i + 1..];
      ParseText(lit + [t[0]], t[1..], rest);
      assert lit + [t[0]] + t[1..] == lit + t;
    }
  }

  /** Canonical parts are read back from the template that they write. */
  lemma {:induction false} ParseRender(parts: seq<Part>)
    requires Canonical(parts)
    ensures Parse("", Render(parts)) == parts
    decreases |parts|
  {
    var text := parts[0].text;
    var rest := Render(parts[1..]);
    if |parts| == 1 {
      ParseText("", text, "");
      assert text + "" == text && "" + text == text && parts[1..] == [];
    } else {
      var token, after := parts[1], Render(parts[2..]);
      assert parts[1..][1..] == parts[2..];
      assert rest == Written(token) + after;
      assert Written(token)[0] == '{';
      ParseText("", text, rest);
      TokenAtWritten(token, after);
      assert rest[|Written(token)|..] == after;
      ParseToken(text, rest, token, |Written(token)|, after);
      ParseRender(parts[2..]);
      assert parts == [parts[0], token] + parts[2..] && "" + text == text;
    }
  }

  /** No token of the whole text starts inside `lit`. */
  predicate Passed(lit: string, s: string) {
    forall i :: 0 <= i < |lit| ==> TokenAt((lit + s)[i..]).None?
  }

  lemma PassedIsPlain(lit: string, s: string)
    requires Passed(lit, s)
    ensures PlainText(lit)
  {
    forall i | 0 <= i < |lit|
      ensures TokenAt(lit[i..]).None?
    {
      assert (lit + s)[i..] == lit[i..] + s;
      if TokenAt(lit[i..]).Some? {
        TokenAtExtends(lit[i..], s);
      }
    }
  }

  lemma {:induction false} ParseIsCanonical(lit: string, s: string)
    requires Passed(lit, s)
    ensures Canonical(Parse(lit, s))
    decreases |s|
  {
    if s == "" {
      PassedIsPlain(lit, s);
    } else if TokenAt(s).Some? {
      var (token, n) := TokenAt(s).value;
      ParseToken(lit, s, token, n, s[n..]);
      PassedIsPlain(lit, s);
      TokenHasName(s);
      ParseIsCanonical("", s[n..]);
      assert ([Lit(lit), token] + Parse("", s[n..]))[2..] == Parse("", s[n..]);
    } else {
      ParseChar(lit, s, lit + [s[0]], s[1..]);
      assert lit + [s[0]] + s[1..] == lit + s;
      assert (lit + s)[|lit|..] == s;
      ParseIsCanonical(lit + [s[0]], s[1..]);
    }
  }

  /** Templates and canonical part lists correspond one to one. */
  lemma TemplateTheorem(template: string, parts: seq<Part>)
    ensures Canonical(Parse("", template)) && Render(Parse("", template)) == template
    ensures Canonical(parts) ==> (Parse("", template) == parts <==> Render(parts) == template)
  {
    ParseIsCanonical("", template);
    RenderParse("", template);
    assert "" + template == template;
    if Canonical(parts) {
      ParseRender(parts);
    }
  }

  // ---------------------------------------------------------------------------
  // Parameters by name
  // ---------------------------------------------------------------------------

  /** The group dictionary of a match. */
  function Params(parts: seq<Part>, caps: seq<string>): map<string, string>
    requires Fits(parts, caps)
  {
    if parts == [] then map[]
    else if parts[0].Lit? then Params(parts[1..], caps)
    else Params(parts[1..], caps[1..])[parts[0].name := caps[0]]
  }

  /** The template with named values in place of its tokens. */
  function Substitute(parts: seq<Part>, params: map<string, string>): string {
    if parts == [] then ""
    else
      (match parts[0]
       case Lit(text) => text
       case Token(name, _) => if name in params then params[name] else "")
      + Substitute(parts[1..], params)
  }

  lemma {:induction false} ParamsAreNamed(parts: seq<Part>, caps: seq<string>)
    requires Fits(parts, caps)
    ensures forall name :: name in Params(parts, caps) <==> name in Names(parts)
  {
    if parts == [] {
    } else if parts[0].Lit? {
      ParamsAreNamed(parts[1..], caps);
      assert Names(parts) == Names(parts[1..]);
    } else {
      ParamsAreNamed(parts[1..], caps[1..]);
      assert Names(parts) == [parts[0].name] + Names(parts[1..]);
    }
  }

  lemma {:induction false} SubstituteFills(parts: seq<Part>, caps: seq<string>, params: map<string, string>)
    requires Fits(parts, caps) && NoRepeats(Names(parts))
    requires forall name :: name in Params(parts, caps) ==> name in params && params[name] == Params(parts, caps)[name]
    ensures Substitute(parts, params) == Fill(parts, caps)
  {
    if parts == [] {
    } else if parts[0].Lit? {
      assert Names(parts) == Names(parts[1..]);
      SubstituteFills(parts[1..], caps, params);
    } else {
      assert Names(parts) == [parts[0].name] + Names(parts[1..]);
      ParamsAreNamed(parts[1..], caps[1..]);
      SubstituteFills(parts[1..], caps[1..], params);
    }
  }

  lemma {:induction false} ParamsAreAllowed(parts: seq<Part>, caps: seq<string>, token: Part)
    requires Fits(parts, caps) && NoRepeats(Names(parts)) && token in parts && token.Token?
    ensures token.name in Params(parts, caps)
    ensures Params(parts, caps)[token.name] != "" && AllAllowed(token.whole, Params(parts, caps)[token.name])
  {
    ParamsAreNamed(parts[1..], if parts[0].Lit? then caps else caps[1..]);
    if parts[0].Lit? {
      assert Names(parts) == Names(parts[1..]);
      ParamsAreAllowed(parts[1..], caps, token);
    } else {
      assert Names(parts) == [parts[0].name] + Names(parts[1..]);
      if token in parts[1..] {
        ParamsAreAllowed(parts[1..], caps[1..], token);
      }
    }
  }

  /** A path that is the template with non-empty values in place of its tokens matches, if no plain value has a slash. */
  lemma FilledPathMatches(parts: seq<Part>, params: map<string, string>)
    requires forall token :: token in parts && token.Token? ==>
               && token.name in params && params[token.name] != ""
               && '\n' !in params[token.name] && (token.whole || '/' !in params[token.name])
    ensures MatchParts(parts, Substitute(parts, params)).Some?
  {
    var caps := CapturesOf(parts, params);
    assert Decomposes(parts, caps, Substitute(parts, params));
    MatchTheorem(parts, Substitute(parts, params));
  }

  lemma {:induction false} CapturesOf(parts: seq<Part>, params: map<string, string>) returns (caps: seq<string>)
    requires forall token :: token in parts && token.Token? ==>
               && token.name in params && params[token.name] != ""
               && '\n' !in params[token.name] && (token.whole || '/' !in params[token.name])
    ensures Fits(parts, caps) && Fill(parts, caps) == Substitute(parts, params)
  {
    caps := [];
    if parts != [] {
      var rest := CapturesOf(parts[1..], params);
      caps := rest;
      if parts[0].Token? {
        assert parts[0] in parts;
        caps := [params[parts[0].name]] + rest;
        assert caps[1..] == rest;
      }
    }
  }

  /**
   What a route gets from a path without line feeds: a value for exactly the names of its template,
   which put back into the template give the path; and no plain value has a slash in it.
   */
  lemma RouteParameters(template: string, path: string)
    requires Compile(template).Some? && MatchParts(Compile(template).value, path).Some? && '\n' !in path
    ensures var parts := Compile(template).value;
            var caps := MatchParts(parts, path).value;
            && Fits(parts, caps)
            && var params := Params(parts, caps);
               && (forall name :: name in params <==> exists i :: 0 <= i < |parts| && parts[i].Token? && parts[i].name == name)
               && Substitute(parts, params) == path
               && (forall token :: token in parts && token.Token? ==>
                     && token.name in params
                     && params[token.name] != ""
                     && (!token.whole ==> '/' !in params[token.name]))
  {
    var parts := Compile(template).value;
    var caps := MatchParts(parts, path).value;
    MatchTheorem(parts, path);
    NoRepeatsMeans(parts);
    ParamsAreNamed(parts, caps);
    SubstituteFills(parts, caps, Params(parts, caps));
    forall token | token in parts && token.Token?
      ensures token.name in Params(parts, caps) && Params(parts, caps)[token.name] != ""
      ensures AllAllowed(token.whole, Params(parts, caps)[token.name])
    {
      ParamsAreAllowed(parts, caps, token);
    }
  }
}
