/**
 For which requests the key of a cached response is theirs alone: no other request that the gateway
 matches to the route, with bars and equals signs wherever a caller can put them, has the same key.
 */
module CacheKeyCollisions {
  import opened Text
  import opened Ordering
  import opened ResponseCacheKeys
  import Responses

  // ---------------------------------------------------------------------------
  // Reading a key as pieces between bars
  // ---------------------------------------------------------------------------

  function Pieces(parts: seq<string>): seq<string> {
    if parts == [] then [] else SplitOn('|', parts[0]) + Pieces(parts[1..])
  }

  /** What one more character in front does to the pieces. */
  function Prepend(c: char, pieces: seq<string>): seq<string>
    requires pieces != []
  {
    if c == '|' then [""] + pieces else [[c] + pieces[0]] + pieces[1..]
  }

  lemma SplitStep(c: char, s: string)
    ensures SplitOn('|', [c] + s) == Prepend(c, SplitOn('|', s))
  {
    assert ([c] + s)[1..] == s;
  }

  lemma PrependConcat(c: char, a: seq<string>, b: seq<string>)
    requires a != []
    ensures Prepend(c, a + b) == Prepend(c, a) + b
  {
    assert (a + b)[0] == a[0] && (a + b)[1..] == a[1..] + b;
  }

  /** The pieces around a bar; `end` is the text from the bar on. */
  lemma {:induction false} SplitConcat(x: string, y: string, end: string)
    requires end == "|" + y
    ensures SplitOn('|', x + end) == SplitOn('|', x) + SplitOn('|', y)
  {
    if x == "" {
      SplitStep('|', y);
      assert x + end == ['|'] + y;
    } else {
      SplitConcat(x[1..], y, end);
      SplitStep(x[0], x[1..] + end);
      SplitStep(x[0], x[1..]);
      PrependConcat(x[0], SplitOn('|', x[1..]), SplitOn('|', y));
      assert x + end == [x[0]] + (x[1..] + end) && x == [x[0]] + x[1..];
    }
  }

  lemma {:induction false} SplitJoin(parts: seq<string>)
    requires parts != []
    ensures SplitOn('|', Join(parts)) == Pieces(parts)
  {
    if |parts| == 1 {
      assert parts[1..] == [];
    } else {
      SplitConcat(parts[0], Join(parts[1..]), "|" + Join(parts[1..]));
      SplitJoin(parts[1..]);
    }
  }

  lemma {:induction false} PiecesConcat(a: seq<string>, b: seq<string>)
    ensures Pieces(a + b) == Pieces(a) + Pieces(b)
  {
    if a == [] {
      assert a + b == b;
    } else {
      assert (a + b)[1..] == a[1..] + b;
      PiecesConcat(a[1..], b);
    }
  }

  lemma {:induction false} CleanPieces(parts: seq<string>)
    requires BarFree(parts)
    ensures Pieces(parts) == parts
  {
    if parts != [] {
      SplitOne('|', parts[0]);
      CleanPieces(parts[1..]);
    }
  }

  lemma {:induction false} OnePiece(s: string)
    requires |SplitOn('|', s)| == 1
    ensures '|' !in s
  {
    if s != "" {
      OnePiece(s[1..]);
      assert s == [s[0]] + s[1..];
    }
  }

  /** Every part has a piece, and when there are no more pieces than parts the parts have no bars. */
  lemma {:induction false} PiecesCount(parts: seq<string>)
    ensures |Pieces(parts)| >= |parts|
    ensures |Pieces(parts)| == |parts| ==> BarFree(parts)
  {
    if parts != [] {
      PiecesCount(parts[1..]);
      if |Pieces(parts)| == |parts| {
        OnePiece(parts[0]);
        assert forall p :: p in parts ==> p == parts[0] || p in parts[1..];
      }
    }
  }

  lemma AllOnePiece(parts: seq<string>, pieces: seq<string>)
    requires Pieces(parts) == pieces && |pieces| == |parts|
    ensures parts == pieces
  {
    PiecesCount(parts);
    CleanPieces(parts);
  }

  lemma FirstLetter(s: string)
    requires s != "" && s[0] != '|'
    ensures SplitOn('|', s)[0] != "" && SplitOn('|', s)[0][0] == s[0]
  {
  }

  // ---------------------------------------------------------------------------
  // Own keys
  // ---------------------------------------------------------------------------

  /** The parts in front of the headers: query and body. */
  function Contents(digest: string -> string, q: Request, names: seq<string>): seq<string>
    requires forall n :: n in names ==> n in q.query
  {
    QueryParts(names, q.query) + BodyParts(digest, q)
  }

  lemma ContentsLength(digest: string -> string, q: Request, names: seq<string>)
    requires forall n :: n in names ==> n in q.query
    ensures |Contents(digest, q, names)| == |names| + |BodyParts(digest, q)|
    ensures |BodyParts(digest, q)| == if q.body != "" then 1 else 0
  {
    QueryPartsStart(names, q.query);
  }

  /**
   Another request of the same route with the key of q. `accepts` says which paths the gateway matches
   to the route; its methods have no bars in them, and client names are slugs.
   */
  ghost predicate Takes(digest: string -> string, c: Config, accepts: string -> bool,
                        p: Request, a: seq<string>, q: Request, names: seq<string>)
    requires forall n :: n in names ==> n in q.query
  {
    && accepts(p.path) && '|' !in p.verb
    && ListsNames(a, p.query) && (forall n :: n in a ==> n in p.query)
    && (c.byClient ==> '|' !in ClientName(p))
    && CacheKey(digest, c, p, a) == CacheKey(digest, c, q, names)
    && !SameRequest(c, p, q)
  }

  /** The path with a part of the key behind it. */
  function Longer(path: string, part: string): string {
    path + ("|" + part)
  }

  /** What makes a key ambiguous. */
  predicate Exposed(digest: string -> string, c: Config, accepts: string -> bool, q: Request, names: seq<string>)
    requires forall n :: n in names ==> n in q.query
  {
    var contents := Contents(digest, q, names);
    || |contents| >= 2
    || (exists n :: n in q.query && '=' in q.query[n])
    || (!c.byClient && |contents| == 1 && accepts(Longer(q.path, contents[0])))
  }

  /** A clean request's own parts are the pieces of every request with its key. */
  lemma PiecesOfKey(digest: string -> string, c: Config, p: Request, a: seq<string>, q: Request, names: seq<string>)
    requires GoodDigest(digest) && Clean(c, q)
    requires (forall n :: n in a ==> n in p.query) && (forall n :: n in names ==> n in q.query)
    requires CacheKey(digest, c, p, a) == CacheKey(digest, c, q, names)
    ensures Pieces(OwnParts(digest, c, p, a)) == OwnParts(digest, c, q, names)
  {
    var own, his := OwnParts(digest, c, q, names), OwnParts(digest, c, p, a);
    OwnPartsAreBarFree(digest, c, q, names);
    OwnJoinsEqual(c.slug, c.gatewayPath, his, own);
    SplitJoin(his);
    SplitJoin(own);
    CleanPieces(own);
  }

  /** The parts of a key by their places. */
  function Tail(digest: string -> string, c: Config, q: Request, names: seq<string>): seq<string>
    requires forall n :: n in names ==> n in q.query
  {
    QueryParts(names, q.query) + BodyParts(digest, q) + HeaderParts(c.varying, q.headers)
  }

  lemma OwnIs(digest: string -> string, c: Config, q: Request, names: seq<string>)
    requires forall n :: n in names ==> n in q.query
    ensures OwnParts(digest, c, q, names) == [q.verb, q.path] + (ClientParts(c, q) + Tail(digest, c, q, names))
  {
    OwnRegrouped([q.verb, q.path], ClientParts(c, q), QueryParts(names, q.query), BodyParts(digest, q),
                 HeaderParts(c.varying, q.headers));
  }

  lemma OwnRegrouped(front: seq<string>, client: seq<string>, query: seq<string>, body: seq<string>,
                     headers: seq<string>)
    ensures front + client + query + body + headers == front + (client + (query + body + headers))
  {
  }

  lemma TailLength(digest: string -> string, c: Config, q: Request, names: seq<string>)
    requires forall n :: n in names ==> n in q.query
    ensures |Tail(digest, c, q, names)| == |names| + |BodyParts(digest, q)| + |c.varying|
  {
    QueryPartsStart(names, q.query);
    HeaderPartsTell(c.varying, q.headers, q.headers);
  }

  /** The letters that the parts behind the client part start with. */
  predicate StartsTail(s: string) {
    s != "" && (s[0] == 'q' || s[0] == 'b' || s[0] == 'h')
  }

  lemma {:induction false} HeaderPartsStart(varying: seq<string>, h: Responses.Headers)
    ensures forall p :: p in HeaderParts(varying, h) ==> p != "" && p[0] == 'h'
  {
    if varying != [] {
      HeaderPartsStart(varying[1..], h);
    }
  }

  lemma TailStarts(digest: string -> string, c: Config, q: Request, names: seq<string>)
    requires GoodDigest(digest) && forall n :: n in names ==> n in q.query
    ensures forall p :: p in Tail(digest, c, q, names) ==> StartsTail(p)
  {
    QueryPartsStart(names, q.query);
    BodyPartsTell(digest, q, q);
    HeaderPartsStart(c.varying, q.headers);
  }

  /** The client part shows where the pieces in front of it end. */
  lemma ClientPartIsThird(front: seq<string>, client: string, rest: seq<string>, head: seq<string>, other: string,
                          tail: seq<string>)
    requires front + ([client] + rest) == head + ([other] + tail) && |front| >= |head|
    requires client != "" && client[0] == 'c' && forall p :: p in tail ==> StartsTail(p)
    ensures front == head && client == other && rest == tail
  {
    var all := front + ([client] + rest);
    assert all[|front|] == client;
    assert forall i :: 0 <= i < |tail| ==> all[|head| + 1 + i] == tail[i] && tail[i] in tail;
    assert |front| == |head|;
    assert front == all[..|front|] == head;
    assert [client] + rest == all[|front|..] == [other] + tail;
    assert rest == ([client] + rest)[1..] && tail == ([other] + tail)[1..];
    assert client == ([client] + rest)[0] && other == ([other] + tail)[0];
  }

  /** Behind the client part: parts that cannot be shared when there is at most one before the headers. */
  lemma TailsAreEqual(digest: string -> string, c: Config, p: Request, a: seq<string>, q: Request, names: seq<string>)
    requires GoodDigest(digest) && (forall n :: n in a ==> n in p.query) && (forall n :: n in names ==> n in q.query)
    requires |names| + |BodyParts(digest, q)| <= 1
    requires Pieces(Tail(digest, c, p, a)) == Tail(digest, c, q, names)
    ensures Tail(digest, c, p, a) == Tail(digest, c, q, names)
    ensures |a| + |BodyParts(digest, p)| == |names| + |BodyParts(digest, q)|
  {
    var own, his := Tail(digest, c, q, names), Tail(digest, c, p, a);
    TailLength(digest, c, p, a);
    TailLength(digest, c, q, names);
    PiecesCount(his);
    if |his| == |own| {
      AllOnePiece(his, own);
    } else {
      OnlyHeaders(digest, c, p, a, q, names);
    }
  }

  /** Header parts do not start like the query or the body part that they would have to contain. */
  lemma OnlyHeaders(digest: string -> string, c: Config, p: Request, a: seq<string>, q: Request, names: seq<string>)
    requires GoodDigest(digest) && (forall n :: n in a ==> n in p.query) && (forall n :: n in names ==> n in q.query)
    requires |a| + |BodyParts(digest, p)| == 0 && |names| + |BodyParts(digest, q)| == 1
    ensures Pieces(Tail(digest, c, p, a)) != Tail(digest, c, q, names)
  {
    var headers := HeaderParts(c.varying, p.headers);
    var front := QueryParts(names, q.query) + BodyParts(digest, q);
    assert Tail(digest, c, p, a) == headers;
    QueryPartsStart(names, q.query);
    BodyPartsTell(digest, q, q);
    HeaderPartsStart(c.varying, p.headers);
    assert front[0] in front && Tail(digest, c, q, names)[0] == front[0];
    if headers != [] {
      assert headers[0] in headers;
      FirstLetter(headers[0]);
      assert Pieces(headers)[0] == SplitOn('|', headers[0])[0];
    }
  }

  lemma OneEquals(a: string, x: string, b: string, y: string)
    requires a + ("=" + x) == b + ("=" + y) && '=' !in b && '=' !in y
    ensures a == b
  {
    var s := a + ("=" + x);
    assert s[|a|] == '=' && s[|b|] == '=';
    assert forall i :: 0 <= i < |b| ==> s[i] == b[i] && b[i] in b;
    assert forall i :: 0 <= i < |y| ==> s[|b| + 1 + i] == y[i] && y[i] in y;
    assert a == s[..|a|] && b == s[..|b|];
  }

  /** A single query part without a second equals sign fixes its name. */
  lemma NameIsFixed(a: seq<string>, p: map<string, string>, x: seq<string>,
                    names: seq<string>, q: map<string, string>, y: seq<string>)
    requires (forall n :: n in a ==> n in p) && (forall n :: n in names ==> n in q && '=' !in n && '=' !in q[n])
    requires QueryParts(a, p) + x == QueryParts(names, q) + y && |a| + |x| == |names| + |y| <= 1
    requires forall s :: s in x || s in y ==> s != "" && s[0] == 'b'
    ensures forall n :: n in a ==> '=' !in n
  {
    QueryPartsStart(a, p);
    QueryPartsStart(names, q);
    SplitBody(QueryParts(a, p), x, QueryParts(names, q), y);
    if |a| == 1 {
      assert a[0] in a && names[0] in names;
      assert QueryParts(a, p)[0] == QueryParts(names, q)[0];
      SamePrefix(QUERY, a[0] + ("=" + p[a[0]]), names[0] + ("=" + q[names[0]]));
      OneEquals(a[0], p[a[0]], names[0], q[names[0]]);
    }
  }

  /** Equal in front, at most one part before the headers, and no second equals sign: the same request. */
  lemma TailTells(digest: string -> string, c: Config, p: Request, a: seq<string>, q: Request, names: seq<string>)
    requires GoodDigest(digest) && Clean(c, q)
    requires |names| + |BodyParts(digest, q)| <= 1 && forall n :: n in names ==> n in q.query && '=' !in q.query[n]
    requires ListsNames(a, p.query) && ListsNames(names, q.query) && forall n :: n in a ==> n in p.query
    requires p.verb == q.verb && p.path == q.path && ClientParts(c, p) == ClientParts(c, q)
    requires Pieces(Tail(digest, c, p, a)) == Tail(digest, c, q, names)
    ensures SameRequest(c, p, q)
  {
    TailsAreEqual(digest, c, p, a, q, names);
    OwnIs(digest, c, p, a);
    OwnIs(digest, c, q, names);
    SameMiddle(digest, c, p, a, q, names);
    NameIsFixed(a, p.query, BodyParts(digest, p), names, q.query, BodyParts(digest, q));
    OwnPartsTell(digest, c, p, a, q, names);
  }

  /** With the client part in the middle nothing can be taken. */
  lemma LittleToTake(digest: string -> string, c: Config, p: Request, a: seq<string>, q: Request, names: seq<string>)
    requires GoodDigest(digest) && Clean(c, q) && c.byClient && '|' !in ClientName(p)
    requires |names| + |BodyParts(digest, q)| <= 1 && forall n :: n in names ==> n in q.query && '=' !in q.query[n]
    requires ListsNames(a, p.query) && ListsNames(names, q.query) && forall n :: n in a ==> n in p.query
    requires CacheKey(digest, c, p, a) == CacheKey(digest, c, q, names)
    ensures SameRequest(c, p, q)
  {
    PiecesOfKey(digest, c, p, a, q, names);
    FrontIsEqual(digest, c, p, a, q, names);
    assert p.verb == [p.verb, p.path][0] == q.verb && p.path == [p.verb, p.path][1] == q.path;
    TailTells(digest, c, p, a, q, names);
  }

  lemma {:induction false} JoinSplit(s: string)
    ensures Join(SplitOn('|', s)) == s
  {
    if s != "" {
      JoinSplit(s[1..]);
      var rest := SplitOn('|', s[1..]);
      if s[0] == '|' {
        assert ([""] + rest)[1..] == rest;
      } else {
        assert ([[s[0]] + rest[0]] + rest[1..])[1..] == rest[1..];
      }
      assert s == [s[0]] + s[1..];
    }
  }

  lemma PiecesInFront(verb: string, path: string, tail: seq<string>)
    requires '|' !in verb
    ensures Pieces([verb, path] + tail) == [verb] + (SplitOn('|', path) + Pieces(tail))
  {
    PiecesConcat([verb, path], tail);
    PiecesConcat([verb], [path]);
    CleanPieces([verb]);
    assert [verb] + [path] == [verb, path] && Pieces([path]) == SplitOn('|', path) + Pieces([path][1..]);
    assert Pieces([path][1..]) == [];
  }

  lemma FrontOf(verb: string, s: seq<string>, rest: seq<string>, other: string, path: string, tail: seq<string>)
    requires [verb] + (s + rest) == [other, path] + tail && s != []
    ensures verb == other && s[0] == path && s[1..] + rest == tail
  {
    var all := [verb] + (s + rest);
    assert all[0] == verb == other && all[1] == s[0] == path;
    assert s[1..] + rest == all[2..] == tail;
  }

  /** Without a client part another request can only have taken the one part into its path. */
  lemma PathMustTake(digest: string -> string, c: Config, p: Request, a: seq<string>, q: Request, names: seq<string>)
    requires GoodDigest(digest) && Clean(c, q) && !c.byClient && '|' !in p.verb
    requires |names| + |BodyParts(digest, q)| <= 1 && forall n :: n in names ==> n in q.query && '=' !in q.query[n]
    requires ListsNames(a, p.query) && ListsNames(names, q.query) && forall n :: n in a ==> n in p.query
    requires CacheKey(digest, c, p, a) == CacheKey(digest, c, q, names)
    ensures SameRequest(c, p, q)
            || (|Contents(digest, q, names)| == 1 && p.path == Longer(q.path, Contents(digest, q, names)[0]))
  {
    var s, rest, tail := SplitOn('|', p.path), Pieces(Tail(digest, c, p, a)), Tail(digest, c, q, names);
    PiecesOfKey(digest, c, p, a, q, names);
    NoClient(digest, c, p, a);
    NoClient(digest, c, q, names);
    PiecesInFront(p.verb, p.path, Tail(digest, c, p, a));
    FrontOf(p.verb, s, rest, q.verb, q.path, tail);
    TailLength(digest, c, p, a);
    TailLength(digest, c, q, names);
    PiecesCount(Tail(digest, c, p, a));
    ContentsLength(digest, q, names);
    JoinSplit(p.path);
    if |s| == 1 {
      assert s == [q.path] && s[1..] + rest == rest;
      TailTells(digest, c, p, a, q, names);
    } else {
      TakenPart(s, q.path, rest, Contents(digest, q, names), HeaderParts(c.varying, q.headers), tail);
    }
  }

  lemma TakenPart(s: seq<string>, path: string, rest: seq<string>, contents: seq<string>, headers: seq<string>,
                  tail: seq<string>)
    requires |s| == 2 && s[0] == path && s[1..] + rest == tail && tail == contents + headers && |contents| == 1
    ensures Join(s) == Longer(path, contents[0])
  {
    assert tail[0] == s[1] == contents[0];
    assert s[1..] == [s[1]];
  }

  lemma SameMiddle(digest: string -> string, c: Config, p: Request, a: seq<string>, q: Request, names: seq<string>)
    requires GoodDigest(digest) && (forall n :: n in a ==> n in p.query) && (forall n :: n in names ==> n in q.query)
    requires Tail(digest, c, p, a) == Tail(digest, c, q, names)
    ensures QueryParts(a, p.query) + BodyParts(digest, p) == QueryParts(names, q.query) + BodyParts(digest, q)
    ensures forall x :: x in BodyParts(digest, p) || x in BodyParts(digest, q) ==> x != "" && x[0] == 'b'
  {
    HeaderPartsTell(c.varying, p.headers, q.headers);
    HeaderPartsTell(c.varying, q.headers, p.headers);
    BodyPartsTell(digest, p, p);
    BodyPartsTell(digest, q, q);
    SameStart(QueryParts(a, p.query) + BodyParts(digest, p), HeaderParts(c.varying, p.headers),
              QueryParts(names, q.query) + BodyParts(digest, q), HeaderParts(c.varying, q.headers));
  }

  lemma SameStart(a: seq<string>, c: seq<string>, x: seq<string>, z: seq<string>)
    requires a + c == x + z && |c| == |z|
    ensures a == x
  {
    assert a == (a + c)[..|a|] && x == (x + z)[..|x|];
  }

  lemma PiecesAround(front: seq<string>, client: string, tail: seq<string>)
    requires '|' !in client
    ensures Pieces(front + ([client] + tail)) == Pieces(front) + ([client] + Pieces(tail))
  {
    PiecesConcat(front, [client] + tail);
    PiecesConcat([client], tail);
    CleanPieces([client]);
  }

  lemma ClientIsThird(digest: string -> string, c: Config, q: Request, names: seq<string>)
    requires c.byClient && forall n :: n in names ==> n in q.query
    ensures OwnParts(digest, c, q, names) == [q.verb, q.path] + ([CLIENT + ClientName(q)] + Tail(digest, c, q, names))
    ensures ClientParts(c, q) == [CLIENT + ClientName(q)]
  {
    OwnIs(digest, c, q, names);
  }

  lemma FrontIsEqual(digest: string -> string, c: Config, p: Request, a: seq<string>, q: Request, names: seq<string>)
    requires GoodDigest(digest) && c.byClient && '|' !in ClientName(p)
    requires (forall n :: n in a ==> n in p.query) && (forall n :: n in names ==> n in q.query)
    requires Pieces(OwnParts(digest, c, p, a)) == OwnParts(digest, c, q, names)
    ensures [p.verb, p.path] == [q.verb, q.path] && ClientParts(c, p) == ClientParts(c, q)
    ensures Pieces(Tail(digest, c, p, a)) == Tail(digest, c, q, names)
  {
    ClientIsThird(digest, c, p, a);
    ClientIsThird(digest, c, q, names);
    TailStarts(digest, c, q, names);
    ReadFront([p.verb, p.path], CLIENT + ClientName(p), Tail(digest, c, p, a),
              [q.verb, q.path], CLIENT + ClientName(q), Tail(digest, c, q, names));
  }

  lemma ReadFront(front: seq<string>, client: string, rest: seq<string>, head: seq<string>, other: string,
                  tail: seq<string>)
    requires Pieces(front + ([client] + rest)) == head + ([other] + tail) && |front| == |head|
    requires client != "" && client[0] == 'c' && '|' !in client && forall p :: p in tail ==> StartsTail(p)
    ensures front == head && client == other && Pieces(rest) == tail
  {
    PiecesAround(front, client, rest);
    FrontsAgree(front, Pieces(front), client, Pieces(rest), head, other, tail);
  }

  lemma FrontsAgree(front: seq<string>, pieces: seq<string>, client: string, rest: seq<string>,
                    head: seq<string>, other: string, tail: seq<string>)
    requires pieces == Pieces(front) && pieces + ([client] + rest) == head + ([other] + tail) && |front| == |head|
    requires client != "" && client[0] == 'c' && forall p :: p in tail ==> StartsTail(p)
    ensures front == head && client == other && rest == tail
  {
    PiecesCount(front);
    ClientPartIsThird(pieces, client, rest, head, other, tail);
    AllOnePiece(front, head);
  }

  // ---------------------------------------------------------------------------
  // Requests that take a key
  // ---------------------------------------------------------------------------

  /** The names of a query without its first one. */
  lemma ListsRest(names: seq<string>, query: map<string, string>, fewer: map<string, string>)
    requires ListsNames(names, query) && names != [] && fewer.Keys == query.Keys - {names[0]}
    ensures ListsNames(names[1..], fewer)
    ensures forall n :: n in names[1..] ==> n in fewer
  {
    var first, rest := names[0], names[1..];
    assert names == [first] + rest;
    Once(names, query.Keys, first);
    assert multiset(rest) == multiset(names) - multiset{first};
    assert multiset(fewer.Keys) == multiset(query.Keys) - multiset{first};
    NamesOf(rest, fewer);
  }

  lemma PathTakes(route: seq<string>, verb: string, path: string, part: string, tail: seq<string>)
    ensures Join(route + ([verb, path] + ([part] + tail))) == Join(route + ([verb, path + ("|" + part)] + tail))
  {
    JoinMerges(route + [verb], path, part, tail);
    assert route + [verb] + [path, part] + tail == route + ([verb, path] + ([part] + tail));
    assert route + [verb] + [path + ("|" + part)] + tail == route + ([verb, path + ("|" + part)] + tail);
  }

  lemma NoClient(digest: string -> string, c: Config, q: Request, names: seq<string>)
    requires !c.byClient && forall n :: n in names ==> n in q.query
    ensures OwnParts(digest, c, q, names) == [q.verb, q.path] + Tail(digest, c, q, names)
  {
    OwnIs(digest, c, q, names);
    assert [] + Tail(digest, c, q, names) == Tail(digest, c, q, names);
  }

  lemma TailOfRest(digest: string -> string, c: Config, q: Request, names: seq<string>, p: Request)
    requires names != [] && (forall n :: n in names ==> n in q.query)
    requires forall n :: n in names[1..] ==> n in p.query && p.query[n] == q.query[n]
    requires p.body == q.body && p.headers == q.headers
    ensures Tail(digest, c, q, names)
            == [QUERY + (names[0] + ("=" + q.query[names[0]]))] + Tail(digest, c, p, names[1..])
  {
    QueryPartsAgree(names[1..], p.query, q.query);
    Regrouped([QUERY + (names[0] + ("=" + q.query[names[0]]))], QueryParts(names[1..], q.query),
              BodyParts(digest, q), HeaderParts(c.varying, q.headers));
  }

  lemma Regrouped(x: seq<string>, rest: seq<string>, body: seq<string>, headers: seq<string>)
    ensures x + rest + body + headers == x + (rest + body + headers)
  {
  }

  /** The path takes over the first query part. */
  lemma PathTakesQuery(digest: string -> string, c: Config, accepts: string -> bool, q: Request, names: seq<string>)
    returns (p: Request, a: seq<string>)
    requires !c.byClient && ListsNames(names, q.query) && names != [] && forall n :: n in names ==> n in q.query
    requires '|' !in q.verb && accepts(Longer(q.path, QUERY + (names[0] + ("=" + q.query[names[0]]))))
    ensures Takes(digest, c, accepts, p, a, q, names)
  {
    var first := names[0];
    var part := QUERY + (first + ("=" + q.query[first]));
    a := names[1..];
    p := q.(path := Longer(q.path, part), query := q.query - {first});
    ListsRest(names, q.query, p.query);
    TailOfRest(digest, c, q, names, p);
    NoClient(digest, c, q, names);
    NoClient(digest, c, p, a);
    PathTakes([c.slug, c.gatewayPath], q.verb, q.path, part, Tail(digest, c, p, a));
    assert |p.path| > |q.path|;
  }

  lemma BodyInFront(part: string, headers: seq<string>)
    ensures [] + [part] + headers == [part] + ([] + [] + headers)
  {
  }

  /** The path takes over the body part. */
  lemma PathTakesBody(digest: string -> string, c: Config, accepts: string -> bool, q: Request, names: seq<string>)
    returns (p: Request, a: seq<string>)
    requires !c.byClient && ListsNames(names, q.query) && names == [] && q.body != ""
    requires '|' !in q.verb && accepts(Longer(q.path, BODY + digest(q.body)))
    ensures Takes(digest, c, accepts, p, a, q, names)
  {
    var part := BODY + digest(q.body);
    a := names;
    p := q.(path := Longer(q.path, part), body := "");
    NoClient(digest, c, q, names);
    NoClient(digest, c, p, a);
    BodyInFront(part, HeaderParts(c.varying, q.headers));
    PathTakes([c.slug, c.gatewayPath], q.verb, q.path, part, Tail(digest, c, p, a));
  }

  /** The only query value takes over the body part. */
  lemma ValueTakesBody(digest: string -> string, c: Config, accepts: string -> bool, q: Request, names: seq<string>)
    returns (p: Request, a: seq<string>)
    requires ListsNames(names, q.query) && |names| == 1 && names[0] in q.query && q.body != ""
    requires accepts(q.path) && '|' !in q.verb && (c.byClient ==> '|' !in ClientName(q))
    ensures Takes(digest, c, accepts, p, a, q, names)
  {
    var name, part := names[0], BODY + digest(q.body);
    var head := QUERY + (name + ("=" + q.query[name]));
    a := names;
    p := q.(query := q.query[name := q.query[name] + ("|" + part)], body := "");
    assert p.query.Keys == q.query.Keys && names[1..] == [];
    assert QueryParts(names, q.query) == [head];
    assert QUERY + (name + ("=" + (q.query[name] + ("|" + part)))) == head + ("|" + part);
    assert QueryParts(names, p.query) == [head + ("|" + part)];
    BodyMerges([c.slug, c.gatewayPath], [q.verb, q.path] + ClientParts(c, q), head, part,
               HeaderParts(c.varying, q.headers));
  }

  lemma BodyMerges(route: seq<string>, own: seq<string>, head: string, part: string, headers: seq<string>)
    ensures Join(route + (own + [head] + [part] + headers))
            == Join(route + (own + [head + ("|" + part)] + [] + headers))
  {
    JoinMerges(route + own, head, part, headers);
    assert route + own + [head, part] + headers == route + (own + [head] + [part] + headers);
    assert route + own + [head + ("|" + part)] + headers == route + (own + [head + ("|" + part)] + [] + headers);
  }

  lemma SplitAtEquals(v: string) returns (x: string, y: string)
    requires '=' in v
    ensures v == x + ("=" + y)
  {
    var i :| 0 <= i < |v| && v[i] == '=';
    x, y := v[..i], v[i + 1..];
  }

  /** The only query name takes over the start of its value. */
  lemma NameTakesValue(digest: string -> string, c: Config, accepts: string -> bool, q: Request, names: seq<string>)
    returns (p: Request, a: seq<string>)
    requires ListsNames(names, q.query) && |names| == 1 && names[0] in q.query && '=' in q.query[names[0]]
    requires accepts(q.path) && '|' !in q.verb && (c.byClient ==> '|' !in ClientName(q))
    ensures Takes(digest, c, accepts, p, a, q, names)
  {
    var name := names[0];
    var x, y := SplitAtEquals(q.query[name]);
    NamesOf(names, q.query);
    assert names == [name] && q.query == map[name := x + ("=" + y)];
    CollideByEquals(digest, c, q, name, x, y);
    var longer := name + ("=" + x);
    a := [longer];
    p := q.(query := map[longer := y]);
    assert multiset(a) == multiset(p.query.Keys) by {
      assert p.query.Keys == {longer};
    }
  }

  /** The first of two query values takes over the second query part. */
  lemma ValueTakesQuery(digest: string -> string, c: Config, accepts: string -> bool, q: Request, names: seq<string>)
    returns (p: Request, a: seq<string>)
    requires ListsNames(names, q.query) && |names| >= 2 && forall n :: n in names ==> n in q.query
    requires accepts(q.path) && '|' !in q.verb && (c.byClient ==> '|' !in ClientName(q))
    ensures Takes(digest, c, accepts, p, a, q, names)
  {
    p := CollideByBar(digest, c, q, names);
    a := [names[0]] + names[2..];
  }

  lemma FirstPart(digest: string -> string, q: Request, names: seq<string>)
    requires forall n :: n in names ==> n in q.query
    ensures names != [] ==>
              Contents(digest, q, names) != []
              && Contents(digest, q, names)[0] == QUERY + (names[0] + ("=" + q.query[names[0]]))
    ensures names == [] && q.body != "" ==> Contents(digest, q, names) == [BODY + digest(q.body)]
  {
  }

  lemma FindTaker(digest: string -> string, c: Config, accepts: string -> bool, q: Request, names: seq<string>)
    returns (p: Request, a: seq<string>)
    requires Clean(c, q) && accepts(q.path) && ListsNames(names, q.query) && forall n :: n in names ==> n in q.query
    requires Exposed(digest, c, accepts, q, names)
    ensures Takes(digest, c, accepts, p, a, q, names)
  {
    ContentsLength(digest, q, names);
    FirstPart(digest, q, names);
    NamesOf(names, q.query);
    if |names| >= 2 {
      p, a := ValueTakesQuery(digest, c, accepts, q, names);
    } else if |names| == 1 && q.body != "" {
      p, a := ValueTakesBody(digest, c, accepts, q, names);
    } else if |names| == 1 && '=' in q.query[names[0]] {
      p, a := NameTakesValue(digest, c, accepts, q, names);
    } else if |names| == 1 {
      p, a := PathTakesQuery(digest, c, accepts, q, names);
    } else {
      p, a := PathTakesBody(digest, c, accepts, q, names);
    }
  }

  lemma NotExposed(digest: string -> string, c: Config, accepts: string -> bool,
                   p: Request, a: seq<string>, q: Request, names: seq<string>)
    requires GoodDigest(digest) && Clean(c, q) && ListsNames(names, q.query) && forall n :: n in names ==> n in q.query
    requires !Exposed(digest, c, accepts, q, names)
    ensures !Takes(digest, c, accepts, p, a, q, names)
  {
    ContentsLength(digest, q, names);
    if Takes(digest, c, accepts, p, a, q, names) {
      if c.byClient {
        LittleToTake(digest, c, p, a, q, names);
      } else {
        PathMustTake(digest, c, p, a, q, names);
      }
    }
  }

  /**
   A clean request of a route shares its key with another request of the route exactly when it is
   exposed: it has two or more query and body parts together, or an equals sign in a query value, or,
   where the client is not in the key, a single part that its path can take over and still be accepted.
   */
  lemma OwnKeyTheorem(digest: string -> string, c: Config, accepts: string -> bool, q: Request, names: seq<string>)
    requires GoodDigest(digest) && Clean(c, q) && accepts(q.path)
    requires ListsNames(names, q.query) && forall n :: n in names ==> n in q.query
    ensures (exists p, a :: Takes(digest, c, accepts, p, a, q, names)) <==> Exposed(digest, c, accepts, q, names)
  {
    if Exposed(digest, c, accepts, q, names) {
      var p, a := FindTaker(digest, c, accepts, q, names);
      assert Takes(digest, c, accepts, p, a, q, names);
    } else {
      forall p, a
        ensures !Takes(digest, c, accepts, p, a, q, names)
      {
        NotExposed(digest, c, accepts, p, a, q, names);
      }
    }
  }
}
