/**
 What a route's template says about its cache keys: which longer paths it matches, and hence which
 requests have a key of their own.
 */
module CacheKeyRoutes {
  import opened Text
  import opened PathTemplates
  import K = ResponseCacheKeys
  import opened CacheKeyCollisions

  /** The paths that match a compiled template. */
  function Matches(parts: seq<Part>): string -> bool {
    (path: string) => MatchParts(parts, path).Some?
  }

  // ---------------------------------------------------------------------------
  // Templates without tokens
  // ---------------------------------------------------------------------------

  /** Such a template matches one path, with or without a line feed behind it. */
  lemma FixedPath(parts: seq<Part>, path: string, part: string)
    requires TokenFree(parts) && MatchParts(parts, path).Some?
    ensures !MatchParts(parts, Longer(path, part)).Some?
  {
    MatchIsSound(parts, path);
    var longer := Longer(path, part);
    assert longer[|path|] == '|';
    if MatchParts(parts, longer).Some? {
      MatchIsSound(parts, longer);
      TokenFreeFillsOneWay(parts, MatchParts(parts, path).value, MatchParts(parts, longer).value);
    }
  }

  // ---------------------------------------------------------------------------
  // Templates with plain tokens only
  // ---------------------------------------------------------------------------

  /** All paths that match have as many slashes. */
  lemma SamePathSlashes(parts: seq<Part>, path: string, other: string)
    requires WholeFree(parts) && MatchParts(parts, path).Some? && MatchParts(parts, other).Some?
    ensures Slashes(path) == Slashes(other)
  {
    MatchIsSound(parts, path);
    MatchIsSound(parts, other);
    var a, b := MatchParts(parts, path).value, MatchParts(parts, other).value;
    SlashesAreFixed(parts, a, b);
    LineFeedIsNoSlash(Fill(parts, a));
    LineFeedIsNoSlash(Fill(parts, b));
  }

  lemma LineFeedIsNoSlash(s: string)
    ensures Slashes(s + "\n") == Slashes(s)
  {
    SlashesAdd(s, "\n");
    NoSlashes("\n");
  }

  lemma LongerSlashes(path: string, part: string)
    ensures Slashes(Longer(path, part)) == Slashes(path) <==> '/' !in part
  {
    SlashesAdd(path, "|" + part);
    SlashesAdd("|", part);
    NoSlashes("|");
    NoSlashes(part);
  }

  // ---------------------------------------------------------------------------
  // Templates that end in a token
  // ---------------------------------------------------------------------------

  /** A compiled template ends in a literal; here in an empty one behind a token. */
  predicate EndsInToken(parts: seq<Part>) {
    |parts| >= 2 && parts[|parts| - 1] == Lit("") && parts[|parts| - 2].Token?
  }

  /** The last token can capture what follows. */
  lemma {:induction false} LastTakes(parts: seq<Part>, caps: seq<string>, more: string) returns (longer: seq<string>)
    requires EndsInToken(parts) && Fits(parts, caps) && AllAllowed(parts[|parts| - 2].whole, more)
    ensures Fits(parts, longer) && Fill(parts, longer) == Fill(parts, caps) + more
    decreases |parts|
  {
    if |parts| == 2 {
      assert parts[1..] == [Lit("")] && [Lit("")][1..] == [];
      assert Fits(parts[1..], caps[1..]) && Fits(parts[1..][1..], caps[1..]);
      longer := [caps[0] + more];
      assert longer[1..] == [] == caps[1..];
    } else {
      var rest := parts[1..];
      if parts[0].Lit? {
        longer := LastTakes(rest, caps, more);
        assert parts[0].text + (Fill(rest, caps) + more) == parts[0].text + Fill(rest, caps) + more;
      } else {
        var tail := LastTakes(rest, caps[1..], more);
        longer := [caps[0]] + tail;
        assert longer[1..] == tail;
        assert caps[0] + (Fill(rest, caps[1..]) + more) == caps[0] + Fill(rest, caps[1..]) + more;
      }
    }
  }

  lemma LongerMatches(parts: seq<Part>, path: string, part: string)
    requires EndsInToken(parts) && MatchParts(parts, path).Some? && '\n' !in path
    requires AllAllowed(parts[|parts| - 2].whole, "|" + part)
    ensures MatchParts(parts, Longer(path, part)).Some?
  {
    MatchTheorem(parts, path);
    var caps := LastTakes(parts, MatchParts(parts, path).value, "|" + part);
    assert Decomposes(parts, caps, Longer(path, part));
    MatchTheorem(parts, Longer(path, part));
  }

  /** With plain tokens the longer path matches exactly when what is added has no slash. */
  lemma PlainPath(parts: seq<Part>, path: string, part: string)
    requires WholeFree(parts) && EndsInToken(parts) && MatchParts(parts, path).Some? && '\n' !in path
    ensures MatchParts(parts, Longer(path, part)).Some? <==> '/' !in part
  {
    if MatchParts(parts, Longer(path, part)).Some? {
      SamePathSlashes(parts, path, Longer(path, part));
      LongerSlashes(path, part);
    }
    if '/' !in part {
      WholeFreeAt(parts, |parts| - 2);
      LongerMatches(parts, path, part);
    }
  }

  lemma {:induction false} WholeFreeAt(parts: seq<Part>, k: nat)
    requires WholeFree(parts) && k < |parts| && parts[k].Token?
    ensures !parts[k].whole
  {
    if k > 0 {
      WholeFreeAt(parts[1..], k - 1);
    }
  }

  // ---------------------------------------------------------------------------
  // Which requests of a route have a key of their own
  // ---------------------------------------------------------------------------

  predicate Shareable(digest: string -> string, q: K.Request, names: seq<string>)
    requires forall n :: n in names ==> n in q.query
  {
    |Contents(digest, q, names)| >= 2 || exists n :: n in q.query && '=' in q.query[n]
  }

  /** On a route without tokens the path can take nothing over, with or without the client in the key. */
  lemma FixedRouteTheorem(digest: string -> string, c: K.Config, parts: seq<Part>, q: K.Request, names: seq<string>)
    requires K.GoodDigest(digest) && K.Clean(c, q) && K.ListsNames(names, q.query)
    requires TokenFree(parts) && Matches(parts)(q.path) && forall n :: n in names ==> n in q.query
    ensures (exists p, a :: Takes(digest, c, Matches(parts), p, a, q, names)) <==> Shareable(digest, q, names)
  {
    OwnKeyTheorem(digest, c, Matches(parts), q, names);
    if |Contents(digest, q, names)| == 1 {
      FixedPath(parts, q.path, Contents(digest, q, names)[0]);
    }
  }

  /** On a route with plain tokens, one at its end, the path can take over a single part without a slash. */
  lemma PlainRouteTheorem(digest: string -> string, c: K.Config, parts: seq<Part>, q: K.Request, names: seq<string>)
    requires K.GoodDigest(digest) && K.Clean(c, q) && K.ListsNames(names, q.query) && !c.byClient && '\n' !in q.path
    requires WholeFree(parts) && EndsInToken(parts) && Matches(parts)(q.path) && forall n :: n in names ==> n in q.query
    ensures (exists p, a :: Takes(digest, c, Matches(parts), p, a, q, names))
            <==> Shareable(digest, q, names)
                 || (|Contents(digest, q, names)| == 1 && '/' !in Contents(digest, q, names)[0])
  {
    OwnKeyTheorem(digest, c, Matches(parts), q, names);
    if |Contents(digest, q, names)| == 1 {
      PlainPath(parts, q.path, Contents(digest, q, names)[0]);
    }
  }
}
