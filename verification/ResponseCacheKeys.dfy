/**
 The key of a cached response: parts joined by bars. Which requests share one.
 */
module ResponseCacheKeys {
  import opened Text
  import opened Ordering
  import Responses

  /** What the key of a route's response depends on; `varying` names the headers of the cache configuration. */
  datatype Config = Config(slug: string, gatewayPath: string, byClient: bool, varying: seq<string>)

  datatype Request = Request(verb: string, path: string, client: Option<string>, query: map<string, string>,
                             body: string, headers: Responses.Headers)

  // ---------------------------------------------------------------------------
  // The key
  // ---------------------------------------------------------------------------

  const CLIENT := "client="
  const QUERY := "query:"
  const BODY := "body-sha256="
  const HEADER := "header:"
  const ANONYMOUS := "anonymous"

  /** The names of a query, each once, in order. */
  ghost predicate ListsNames(names: seq<string>, query: map<string, string>) {
    && multiset(names) == multiset(query.Keys)
    && Sorted(StringLe, names)
  }

  function QueryParts(names: seq<string>, query: map<string, string>): seq<string>
    requires forall n :: n in names ==> n in query
  {
    if names == [] then []
    else [QUERY + (names[0] + ("=" + query[names[0]]))] + QueryParts(names[1..], query)
  }

  function HeaderValue(h: Responses.Headers, name: string): string {
    var v := Responses.Get(h, name);
    if v.Some? then v.value else ""
  }

  function HeaderParts(varying: seq<string>, h: Responses.Headers): seq<string> {
    if varying == [] then []
    else [HEADER + (Lower(varying[0]) + ("=" + HeaderValue(h, varying[0])))] + HeaderParts(varying[1..], h)
  }

  function ClientName(q: Request): string {
    if q.client.Some? then q.client.value else ANONYMOUS
  }

  function ClientParts(c: Config, q: Request): seq<string> {
    if c.byClient then [CLIENT + ClientName(q)] else []
  }

  function BodyParts(digest: string -> string, q: Request): seq<string> {
    if q.body != "" then [BODY + digest(q.body)] else []
  }

  /** The parts that a request contributes. */
  function OwnParts(digest: string -> string, c: Config, q: Request, names: seq<string>): seq<string>
    requires forall n :: n in names ==> n in q.query
  {
    [q.verb, q.path] + ClientParts(c, q) + QueryParts(names, q.query) + BodyParts(digest, q) + HeaderParts(c.varying, q.headers)
  }

  function Join(parts: seq<string>): string {
    if parts == [] then ""
    else if |parts| == 1 then parts[0]
    else parts[0] + ("|" + Join(parts[1..]))
  }

  function CacheKey(digest: string -> string, c: Config, q: Request, names: seq<string>): string
    requires forall n :: n in names ==> n in q.query
  {
    Join([c.slug, c.gatewayPath] + OwnParts(digest, c, q, names))
  }

  // ---------------------------------------------------------------------------
  // Joined parts can be told apart
  // ---------------------------------------------------------------------------

  predicate BarFree(parts: seq<string>) {
    forall p :: p in parts ==> '|' !in p
  }

  /** Text before the first mark is determined. */
  lemma FirstMark(mark: char, a: string, b: string, x: string, y: string)
    requires a + ([mark] + x) == b + ([mark] + y) && mark !in a && mark !in b
    ensures a == b && x == y
  {
    var s := a + ([mark] + x);
    assert s[|a|] == mark && s[|b|] == mark;
    assert forall i :: 0 <= i < |a| ==> s[i] == a[i] && a[i] in a;
    assert forall i :: 0 <= i < |b| ==> s[i] == b[i] && b[i] in b;
    assert a == s[..|a|] == b;
    assert [mark] + x == s[|a|..] == [mark] + y;
    assert x == ([mark] + x)[1..] && y == ([mark] + y)[1..];
  }

  lemma JoinHasBar(parts: seq<string>)
    requires |parts| > 1
    ensures '|' in Join(parts)
  {
    assert Join(parts)[|parts[0]|] == '|';
  }

  lemma {:induction false} JoinIsOneToOne(a: seq<string>, b: seq<string>)
    requires a != [] && b != [] && BarFree(a) && BarFree(b) && Join(a) == Join(b)
    ensures a == b
  {
    assert a[0] in a && b[0] in b;
    if |a| > 1 {
      JoinHasBar(a);
    }
    if |b| > 1 {
      JoinHasBar(b);
    }
    if |a| == 1 {
      assert a == [a[0]] && b == [b[0]];
    } else {
      FirstMark('|', a[0], b[0], Join(a[1..]), Join(b[1..]));
      JoinIsOneToOne(a[1..], b[1..]);
      assert a == [a[0]] + a[1..] && b == [b[0]] + b[1..];
    }
  }

  lemma JoinBehind(slug: string, path: string, own: seq<string>)
    requires own != []
    ensures Join([slug, path] + own) == slug + ("|" + (path + ("|" + Join(own))))
  {
    var all := [slug, path] + own;
    assert all[1..] == [path] + own && all[1..][1..] == own;
  }

  /** The route's own parts are a fixed prefix: equal keys have equal contributions. */
  lemma OwnJoinsEqual(slug: string, path: string, a: seq<string>, b: seq<string>)
    requires a != [] && b != [] && Join([slug, path] + a) == Join([slug, path] + b)
    ensures Join(a) == Join(b)
  {
    JoinBehind(slug, path, a);
    JoinBehind(slug, path, b);
    var x, y := Join(a), Join(b);
    Cancel(slug + "|", path + ("|" + x), path + ("|" + y));
    Cancel(path + "|", x, y);
  }

  lemma Cancel(front: string, x: string, y: string)
    requires front != "" && front[..|front| - 1] + ([front[|front| - 1]] + x) == front[..|front| - 1] + ([front[|front| - 1]] + y)
    ensures x == y
  {
    var s := front[..|front| - 1] + ([front[|front| - 1]] + x);
    assert x == s[|front|..] == y;
  }

  lemma SamePrefix(front: string, x: string, y: string)
    requires front + x == front + y
    ensures x == y
  {
    assert x == (front + x)[|front|..] && y == (front + y)[|front|..];
  }

  // ---------------------------------------------------------------------------
  // Reading the parts back
  // ---------------------------------------------------------------------------

  lemma {:induction false} QueryPartsStart(names: seq<string>, query: map<string, string>)
    requires forall n :: n in names ==> n in query
    ensures |QueryParts(names, query)| == |names|
    ensures forall p :: p in QueryParts(names, query) ==> p != "" && p[0] == 'q'
  {
    if names != [] {
      QueryPartsStart(names[1..], query);
    }
  }

  lemma {:induction false} QueryPartsTell(a: seq<string>, p: map<string, string>, b: seq<string>, q: map<string, string>)
    requires (forall n :: n in a ==> n in p && '=' !in n) && (forall n :: n in b ==> n in q && '=' !in n)
    requires QueryParts(a, p) == QueryParts(b, q)
    ensures a == b && forall n :: n in a ==> p[n] == q[n]
  {
    QueryPartsStart(a, p);
    QueryPartsStart(b, q);
    if a != [] {
      assert QueryParts(a, p)[0] == QueryParts(b, q)[0];
      SamePrefix(QUERY, a[0] + ("=" + p[a[0]]), b[0] + ("=" + q[b[0]]));
      FirstMark('=', a[0], b[0], p[a[0]], q[b[0]]);
      assert QueryParts(a, p)[1..] == QueryParts(a[1..], p) && QueryParts(b, q)[1..] == QueryParts(b[1..], q);
      QueryPartsTell(a[1..], p, b[1..], q);
      assert a == [a[0]] + a[1..] && b == [b[0]] + b[1..];
    }
  }

  lemma {:induction false} HeaderPartsTell(varying: seq<string>, g: Responses.Headers, h: Responses.Headers)
    ensures |HeaderParts(varying, g)| == |varying|
    ensures HeaderParts(varying, g) == HeaderParts(varying, h) <==>
              forall n :: n in varying ==> HeaderValue(g, n) == HeaderValue(h, n)
  {
    if varying != [] {
      HeaderPartsTell(varying[1..], g, h);
      var a, b := HeaderParts(varying, g), HeaderParts(varying, h);
      assert a[1..] == HeaderParts(varying[1..], g) && b[1..] == HeaderParts(varying[1..], h);
      if a == b {
        var name := Lower(varying[0]);
        SamePrefix(HEADER, name + ("=" + HeaderValue(g, varying[0])), name + ("=" + HeaderValue(h, varying[0])));
        SamePrefix(name, "=" + HeaderValue(g, varying[0]), "=" + HeaderValue(h, varying[0]));
        SamePrefix("=", HeaderValue(g, varying[0]), HeaderValue(h, varying[0]));
      }
    }
  }

  /** Query parts and the body part are told apart by their first letters. */
  lemma SplitBody(a: seq<string>, x: seq<string>, b: seq<string>, y: seq<string>)
    requires a + x == b + y && |x| <= 1 && |y| <= 1
    requires forall p :: p in a || p in b ==> p != "" && p[0] == 'q'
    requires forall p :: p in x || p in y ==> p != "" && p[0] == 'b'
    ensures a == b && x == y
  {
    var s := a + x;
    LastLetter(a, x);
    LastLetter(b, y);
    assert |x| == |y|;
    assert a == s[..|a|] == b && x == s[|a|..] == y;
  }

  lemma LastLetter(a: seq<string>, x: seq<string>)
    requires |x| <= 1
    requires forall p :: p in a ==> p != "" && p[0] == 'q'
    requires forall p :: p in x ==> p != "" && p[0] == 'b'
    ensures var s := a + x;
            s != [] ==> s[|s| - 1] != "" && s[|s| - 1][0] == if x == [] then 'q' else 'b'
  {
    var s := a + x;
    if x != [] {
      assert s[|s| - 1] == x[0] && x[0] in x;
    } else if a != [] {
      assert s[|s| - 1] == a[|a| - 1] && a[|a| - 1] in a;
    }
  }

  lemma SplitParts(a: seq<string>, b: seq<string>, c: seq<string>, x: seq<string>, y: seq<string>, z: seq<string>)
    requires a + b + c == x + y + z && |a| == |x| && |c| == |z|
    ensures a == x && b == y && c == z
  {
    var s := a + b + c;
    assert a == s[..|a|] == x;
    assert c == s[|s| - |c|..] == z;
    assert b == s[|a|..|s| - |c|] == y;
  }

  // ---------------------------------------------------------------------------
  // Which requests share a key
  // ---------------------------------------------------------------------------

  /** Nothing that goes into the key has a bar in it, and no query name has an equals sign. */
  ghost predicate Clean(c: Config, q: Request) {
    && '|' !in q.verb && '|' !in q.path
    && (c.byClient ==> '|' !in ClientName(q))
    && (forall n :: n in q.query ==> '|' !in n && '=' !in n && '|' !in q.query[n])
    && (forall n :: n in c.varying ==> '|' !in n && '|' !in HeaderValue(q.headers, n))
  }

  /** The same response may be served: equal up to absent and empty headers, and up to a client called anonymous. */
  ghost predicate SameRequest(c: Config, p: Request, q: Request) {
    && p.verb == q.verb && p.path == q.path && p.query == q.query && p.body == q.body
    && (c.byClient ==> ClientName(p) == ClientName(q))
    && (forall n :: n in c.varying ==> HeaderValue(p.headers, n) == HeaderValue(q.headers, n))
  }

  /** Different bodies have different digests, and a digest has no bar in it. */
  ghost predicate GoodDigest(digest: string -> string) {
    && (forall a, b :: digest(a) == digest(b) ==> a == b)
    && (forall a :: '|' !in digest(a))
  }

  lemma {:induction false} QueryPartsAreBarFree(names: seq<string>, query: map<string, string>)
    requires forall n :: n in names ==> n in query && '|' !in n && '|' !in query[n]
    ensures BarFree(QueryParts(names, query))
  {
    if names != [] {
      QueryPartsAreBarFree(names[1..], query);
      NoBars(QUERY, names[0], query[names[0]]);
    }
  }

  lemma NoBars(front: string, name: string, value: string)
    requires '|' !in front && '|' !in name && '|' !in value
    ensures '|' !in front + (name + ("=" + value))
  {
  }

  lemma LowerHasNoBar(s: string)
    requires '|' !in s
    ensures '|' !in Lower(s)
  {
    assert forall i :: 0 <= i < |s| ==> s[i] in s && Lower(s)[i] == LowerChar(s[i]);
  }

  lemma {:induction false} HeaderPartsAreBarFree(varying: seq<string>, h: Responses.Headers)
    requires forall n :: n in varying ==> '|' !in n && '|' !in HeaderValue(h, n)
    ensures BarFree(HeaderParts(varying, h))
  {
    if varying != [] {
      HeaderPartsAreBarFree(varying[1..], h);
      LowerHasNoBar(varying[0]);
      NoBars(HEADER, Lower(varying[0]), HeaderValue(h, varying[0]));
    }
  }

  lemma OwnPartsAreBarFree(digest: string -> string, c: Config, q: Request, names: seq<string>)
    requires GoodDigest(digest) && Clean(c, q) && forall n :: n in names ==> n in q.query
    ensures BarFree(OwnParts(digest, c, q, names))
  {
    QueryPartsAreBarFree(names, q.query);
    HeaderPartsAreBarFree(c.varying, q.headers);
  }

  lemma NamesOf(names: seq<string>, query: map<string, string>)
    requires ListsNames(names, query)
    ensures forall n :: n in names <==> n in query
  {
    forall n
      ensures n in names <==> n in query
    {
      assert n in names <==> n in multiset(names);
      assert n in query.Keys <==> n in multiset(query.Keys);
    }
  }

  lemma BodyPartsTell(digest: string -> string, p: Request, q: Request)
    requires GoodDigest(digest)
    ensures BodyParts(digest, p) == BodyParts(digest, q) <==> p.body == q.body
    ensures |BodyParts(digest, q)| <= 1 && forall x :: x in BodyParts(digest, q) ==> x != "" && x[0] == 'b'
  {
    if BodyParts(digest, p) == BodyParts(digest, q) && p.body != "" {
      assert BodyParts(digest, p)[0] == BodyParts(digest, q)[0];
      SamePrefix(BODY, digest(p.body), digest(q.body));
    }
  }

  lemma FrontTells(c: Config, p: Request, q: Request)
    requires [p.verb, p.path] + ClientParts(c, p) == [q.verb, q.path] + ClientParts(c, q)
    ensures p.verb == q.verb && p.path == q.path && (c.byClient ==> ClientName(p) == ClientName(q))
  {
    var f, g := [p.verb, p.path] + ClientParts(c, p), [q.verb, q.path] + ClientParts(c, q);
    assert f[0] == p.verb && g[0] == q.verb && f[1] == p.path && g[1] == q.path;
    if c.byClient {
      assert f[2] == CLIENT + ClientName(p) && g[2] == CLIENT + ClientName(q);
      SamePrefix(CLIENT, ClientName(p), ClientName(q));
    }
  }

  lemma MiddleTells(digest: string -> string, p: Request, a: seq<string>, q: Request, b: seq<string>)
    requires GoodDigest(digest)
    requires ListsNames(a, p.query) && ListsNames(b, q.query)
    requires (forall n :: n in a ==> n in p.query && '=' !in n) && (forall n :: n in b ==> n in q.query && '=' !in n)
    requires QueryParts(a, p.query) + BodyParts(digest, p) == QueryParts(b, q.query) + BodyParts(digest, q)
    ensures p.query == q.query && p.body == q.body
  {
    BodyPartsTell(digest, p, q);
    BodyPartsTell(digest, q, p);
    QueryPartsStart(a, p.query);
    QueryPartsStart(b, q.query);
    SplitBody(QueryParts(a, p.query), BodyParts(digest, p), QueryParts(b, q.query), BodyParts(digest, q));
    QueryPartsTell(a, p.query, b, q.query);
    NamesOf(a, p.query);
    NamesOf(b, q.query);
  }

  /** What equal contributions tell. */
  lemma OwnPartsTell(digest: string -> string, c: Config, p: Request, a: seq<string>, q: Request, b: seq<string>)
    requires GoodDigest(digest) && ListsNames(a, p.query) && ListsNames(b, q.query)
    requires (forall n :: n in a ==> n in p.query && '=' !in n) && (forall n :: n in b ==> n in q.query && '=' !in n)
    requires OwnParts(digest, c, p, a) == OwnParts(digest, c, q, b)
    ensures SameRequest(c, p, q)
  {
    HeaderPartsTell(c.varying, p.headers, q.headers);
    HeaderPartsTell(c.varying, q.headers, p.headers);
    SplitOwn([p.verb, p.path] + ClientParts(c, p), QueryParts(a, p.query), BodyParts(digest, p), HeaderParts(c.varying, p.headers),
             [q.verb, q.path] + ClientParts(c, q), QueryParts(b, q.query), BodyParts(digest, q), HeaderParts(c.varying, q.headers));
    FrontTells(c, p, q);
    MiddleTells(digest, p, a, q, b);
  }

  lemma SplitOwn(f: seq<string>, m: seq<string>, x: seq<string>, h: seq<string>,
                 g: seq<string>, n: seq<string>, y: seq<string>, k: seq<string>)
    requires f + m + x + h == g + n + y + k && |f| == |g| && |h| == |k|
    ensures f == g && m + x == n + y && h == k
  {
    assert f + m + x + h == f + (m + x) + h && g + n + y + k == g + (n + y) + k;
    SplitParts(f, m + x, h, g, n + y, k);
  }

  lemma SameRequestMeans(c: Config, p: Request, q: Request)
    ensures SameRequest(c, p, q) <==>
              && p.verb == q.verb && p.path == q.path && p.query == q.query && p.body == q.body
              && (c.byClient ==>
                    (if p.client.Some? then p.client.value else "anonymous")
                    == (if q.client.Some? then q.client.value else "anonymous"))
              && forall n :: n in c.varying ==>
                   var g, h := Responses.Get(p.headers, n), Responses.Get(q.headers, n);
                   (if g.Some? then g.value else "") == (if h.Some? then h.value else "")
  {
    assert forall n :: n in c.varying ==>
             (var g := Responses.Get(p.headers, n); HeaderValue(p.headers, n) == if g.Some? then g.value else "");
  }

  /** The key of a request with one part of each kind, in full, and how its parts are joined. */
  lemma KeyInFull(digest: string -> string, c: Config, q: Request, name: string, header: string, first: string, rest: seq<string>)
    requires c.byClient && c.varying == [header] && name in q.query && q.body != "" && rest != []
    ensures CacheKey(digest, c, q, [name])
            == Join([c.slug, c.gatewayPath, q.verb, q.path,
                     "client=" + (if q.client.Some? then q.client.value else "anonymous"),
                     "query:" + (name + ("=" + q.query[name])),
                     "body-sha256=" + digest(q.body),
                     "header:" + (Lower(header) + ("=" + HeaderValue(q.headers, header)))])
    ensures Join([first]) == first && Join([first] + rest) == first + ("|" + Join(rest))
  {
    assert [name][1..] == [] && [header][1..] == [] && ([first] + rest)[1..] == rest;
    assert QueryParts([name], q.query) == [QUERY + (name + ("=" + q.query[name]))];
    assert HeaderParts(c.varying, q.headers) == [HEADER + (Lower(header) + ("=" + HeaderValue(q.headers, header)))];
    assert [c.slug, c.gatewayPath] + OwnParts(digest, c, q, [name])
        == [c.slug, c.gatewayPath, q.verb, q.path,
            CLIENT + ClientName(q), QUERY + (name + ("=" + q.query[name])), BODY + digest(q.body),
            HEADER + (Lower(header) + ("=" + HeaderValue(q.headers, header)))];
  }

  /**
   For one route and cache configuration, clean requests have the same cache key exactly when they
   agree on method, path, query, body, client name and the varying headers.
   */
  lemma CacheKeyTheorem(digest: string -> string, c: Config, p: Request, a: seq<string>, q: Request, b: seq<string>)
    requires GoodDigest(digest) && Clean(c, p) && Clean(c, q)
    requires ListsNames(a, p.query) && ListsNames(b, q.query)
    requires (forall n :: n in a ==> n in p.query) && (forall n :: n in b ==> n in q.query)
    ensures CacheKey(digest, c, p, a) == CacheKey(digest, c, q, b) <==>
              && p.verb == q.verb && p.path == q.path && p.query == q.query && p.body == q.body
              && (c.byClient ==>
                    (if p.client.Some? then p.client.value else "anonymous")
                    == (if q.client.Some? then q.client.value else "anonymous"))
              && forall n :: n in c.varying ==>
                   var g, h := Responses.Get(p.headers, n), Responses.Get(q.headers, n);
                   (if g.Some? then g.value else "") == (if h.Some? then h.value else "")
  {
    SameRequestMeans(c, p, q);
    if CacheKey(digest, c, p, a) == CacheKey(digest, c, q, b) {
      OwnPartsAreBarFree(digest, c, p, a);
      OwnPartsAreBarFree(digest, c, q, b);
      OwnJoinsEqual(c.slug, c.gatewayPath, OwnParts(digest, c, p, a), OwnParts(digest, c, q, b));
      JoinIsOneToOne(OwnParts(digest, c, p, a), OwnParts(digest, c, q, b));
      OwnPartsTell(digest, c, p, a, q, b);
    }
    if SameRequest(c, p, q) {
      StringOrder();
      SortedIsUnique(StringLe, a, b);
      HeaderPartsTell(c.varying, p.headers, q.headers);
    }
  }

  // ---------------------------------------------------------------------------
  // Why the requests must be clean
  // ---------------------------------------------------------------------------

  /** Two neighbouring parts cannot be told from one part with a bar in it. */
  lemma {:induction false} JoinMerges(front: seq<string>, a: string, b: string, back: seq<string>)
    ensures Join(front + [a, b] + back) == Join(front + [a + ("|" + b)] + back)
  {
    var s, t := front + [a, b] + back, front + [a + ("|" + b)] + back;
    if front == [] {
      assert s[1..] == [b] + back && ([b] + back)[1..] == back && t[1..] == back;
      assert back != [] ==> a + ("|" + (b + ("|" + Join(back)))) == a + ("|" + b) + ("|" + Join(back));
    } else {
      assert s[1..] == front[1..] + [a, b] + back && t[1..] == front[1..] + [a + ("|" + b)] + back;
      JoinMerges(front[1..], a, b, back);
    }
  }

  /** The names of a query without its second one. */
  lemma ListsFewer(names: seq<string>, query: map<string, string>, fewer: map<string, string>)
    requires ListsNames(names, query) && |names| >= 2 && fewer.Keys == query.Keys - {names[1]}
    ensures ListsNames([names[0]] + names[2..], fewer)
  {
    StringOrder();
    var rest := names[2..];
    assert names == [names[0], names[1]] + rest;
    Once(names, query.Keys, names[1]);
    assert multiset([names[0]] + rest) == multiset(names) - multiset{names[1]};
    assert multiset(fewer.Keys) == multiset(query.Keys) - multiset{names[1]};
    assert Sorted(StringLe, names[1..]) && names[1..][1..] == rest;
    assert rest != [] ==> names[1..][1] == rest[0];
    assert ([names[0]] + rest)[1..] == rest;
  }

  lemma NamesDiffer(names: seq<string>, query: map<string, string>)
    requires ListsNames(names, query) && |names| >= 2
    ensures names[0] != names[1] && names[0] !in names[2..] && names[1] !in names[2..]
  {
    assert names == [names[0], names[1]] + names[2..];
    Once(names, query.Keys, names[0]);
    Once(names, query.Keys, names[1]);
  }

  lemma Once(names: seq<string>, keys: set<string>, n: string)
    requires multiset(names) == multiset(keys) && n in names
    ensures n in keys && multiset(names)[n] == 1
  {
    assert n in multiset(names);
  }

  lemma {:induction false} QueryPartsAgree(names: seq<string>, p: map<string, string>, q: map<string, string>)
    requires forall n :: n in names ==> n in p && n in q && p[n] == q[n]
    ensures QueryParts(names, p) == QueryParts(names, q)
  {
    if names != [] {
      QueryPartsAgree(names[1..], p, q);
    }
  }

  /** Every request with two query parameters shares its key with another one, whose first value has a bar in it. */
  lemma CollideByBar(digest: string -> string, c: Config, q: Request, names: seq<string>) returns (p: Request)
    requires ListsNames(names, q.query) && |names| >= 2 && forall n :: n in names ==> n in q.query
    ensures p == q.(query := p.query)
    ensures var fewer := [names[0]] + names[2..];
            && ListsNames(fewer, p.query) && (forall n :: n in fewer ==> n in p.query)
            && CacheKey(digest, c, p, fewer) == CacheKey(digest, c, q, names)
            && !SameRequest(c, p, q)
  {
    var first, second, rest := names[0], names[1], names[2..];
    var tail := QUERY + (second + ("=" + q.query[second]));
    p := q.(query := (q.query - {second})[first := q.query[first] + ("|" + tail)]);
    NamesOf(names, q.query);
    NamesDiffer(names, q.query);
    assert p.query.Keys == q.query.Keys - {second};
    ListsFewer(names, q.query, p.query);
    var head := QueryPartsMerge(names, q.query, p.query, tail);
    OwnPartsMerge(digest, c, q, names, p, head, tail);
    assert second !in p.query;
  }

  lemma QueryPartsMerge(names: seq<string>, q: map<string, string>, p: map<string, string>, tail: string) returns (head: string)
    requires |names| >= 2 && (forall n :: n in names ==> n in q) && names[0] !in names[2..]
    requires tail == QUERY + (names[1] + ("=" + q[names[1]]))
    requires names[0] in p && p[names[0]] == q[names[0]] + ("|" + tail)
    requires forall n :: n in names[2..] ==> n in p && p[n] == q[n]
    ensures QueryParts(names, q) == [head, tail] + QueryParts(names[2..], q)
    ensures QueryParts([names[0]] + names[2..], p) == [head + ("|" + tail)] + QueryParts(names[2..], q)
  {
    var first, rest := names[0], names[2..];
    head := QUERY + (first + ("=" + q[first]));
    QueryPartsAgree(rest, p, q);
    assert names[1..][1..] == rest && ([first] + rest)[1..] == rest;
    assert QueryParts(names[1..], q) == [tail] + QueryParts(rest, q);
    assert QUERY + (first + ("=" + (q[first] + ("|" + tail)))) == head + ("|" + tail);
  }

  lemma OwnPartsMerge(digest: string -> string, c: Config, q: Request, names: seq<string>, p: Request, head: string, tail: string)
    requires |names| >= 2 && forall n :: n in names ==> n in q.query
    requires forall n :: n in [names[0]] + names[2..] ==> n in p.query
    requires p == q.(query := p.query)
    requires QueryParts(names, q.query) == [head, tail] + QueryParts(names[2..], q.query)
    requires QueryParts([names[0]] + names[2..], p.query) == [head + ("|" + tail)] + QueryParts(names[2..], q.query)
    ensures CacheKey(digest, c, p, [names[0]] + names[2..]) == CacheKey(digest, c, q, names)
  {
    SameElsewhere(digest, c, q, p);
    MergedKeys([c.slug, c.gatewayPath], [q.verb, q.path] + ClientParts(c, q), head, tail,
               QueryParts(names[2..], q.query), BodyParts(digest, q), HeaderParts(c.varying, q.headers));
  }

  lemma SameElsewhere(digest: string -> string, c: Config, q: Request, p: Request)
    requires p == q.(query := p.query)
    ensures [p.verb, p.path] + ClientParts(c, p) == [q.verb, q.path] + ClientParts(c, q)
    ensures BodyParts(digest, p) == BodyParts(digest, q) && p.headers == q.headers
  {
  }

  lemma MergedKeys(route: seq<string>, own: seq<string>, head: string, tail: string, rest: seq<string>, body: seq<string>, headers: seq<string>)
    ensures Join(route + (own + ([head, tail] + rest) + body + headers))
            == Join(route + (own + ([head + ("|" + tail)] + rest) + body + headers))
  {
    Regroup(route, own, [head, tail], rest, body, headers);
    Regroup(route, own, [head + ("|" + tail)], rest, body, headers);
    JoinMerges(route + own, head, tail, rest + body + headers);
  }

  lemma Regroup(route: seq<string>, own: seq<string>, x: seq<string>, rest: seq<string>, body: seq<string>, headers: seq<string>)
    ensures route + (own + (x + rest) + body + headers) == route + own + x + (rest + body + headers)
  {
  }

  /** An equals sign in a name can be taken for the one that ends it. */
  lemma CollideByEquals(digest: string -> string, c: Config, q: Request, name: string, x: string, y: string)
    requires q.query == map[name := x + ("=" + y)]
    ensures var p := q.(query := map[name + ("=" + x) := y]);
            && CacheKey(digest, c, p, [name + ("=" + x)]) == CacheKey(digest, c, q, [name])
            && !SameRequest(c, p, q)
  {
    var longer := name + ("=" + x);
    var p := q.(query := map[longer := y]);
    assert [name][1..] == [] && [longer][1..] == [];
    assert longer + ("=" + y) == name + ("=" + (x + ("=" + y)));
    assert QueryParts([longer], p.query) == QueryParts([name], q.query);
    assert |longer| != |name|;
    assert longer in p.query && longer !in q.query;
  }
}
