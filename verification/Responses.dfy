/**
 Outgoing responses as values: the ordered header dictionary, the case-insensitive header merge,
 and the copies the gateway makes of a response: for the cache, for a cache hit, and for a request
 that waited on another one.
 */
module Responses {
  import opened Text

  datatype Header = Header(name: string, value: string)

  /** A header dictionary in insertion order. */
  type Headers = seq<Header>

  datatype Response = Response(status: int, headers: Headers, body: string, streaming: bool)

  // ---------------------------------------------------------------------------
  // Case-insensitive lookup and removal
  // ---------------------------------------------------------------------------

  /** Position of the first header whose name equals `name` up to case; |h| when there is none. */
  function IndexOf(h: Headers, name: string): (i: nat)
    ensures i <= |h|
    ensures i < |h| ==> Lower(h[i].name) == Lower(name)
    ensures forall j :: 0 <= j < i ==> Lower(h[j].name) != Lower(name)
  {
    if h == [] then 0
    else if Lower(h[0].name) == Lower(name) then 0
    else 1 + IndexOf(h[1..], name)
  }

  function Get(h: Headers, name: string): Option<string> {
    var i := IndexOf(h, name);
    if i < |h| then Some(h[i].value) else None
  }

  /** Drops every header whose lower-cased name is in `names`. */
  function Without(h: Headers, names: set<string>): Headers {
    if h == [] then []
    else if Lower(h[0].name) in names then Without(h[1..], names)
    else [h[0]] + Without(h[1..], names)
  }

  lemma {:induction false} WithoutConcat(g: Headers, h: Headers, names: set<string>)
    ensures Without(g + h, names) == Without(g, names) + Without(h, names)
  {
    if g == [] {
      assert g + h == h;
    } else {
      assert (g + h)[1..] == g[1..] + h;
      WithoutConcat(g[1..], h, names);
    }
  }

  lemma {:induction false} WithoutHasNone(h: Headers, names: set<string>)
    ensures forall x :: x in Without(h, names) ==> Lower(x.name) !in names && x in h
  {
    if h != [] {
      WithoutHasNone(h[1..], names);
    }
  }

  lemma {:induction false} WithoutNothing(h: Headers, names: set<string>)
    requires forall x :: x in h ==> Lower(x.name) !in names
    ensures Without(h, names) == h
  {
    if h != [] {
      assert h[0] in h;
      WithoutNothing(h[1..], names);
      assert h == [h[0]] + h[1..];
    }
  }

  /** Two headers lists that differ only at one dropped name lose the same thing. */
  lemma {:induction false} WithoutUpdate(h: Headers, i: nat, x: Header, names: set<string>)
    requires i < |h|
    requires Lower(h[i].name) in names && Lower(x.name) in names
    ensures Without(h[i := x], names) == Without(h, names)
  {
    var front, back := h[..i], h[i + 1..];
    assert h == front + ([h[i]] + back);
    assert h[i := x] == front + ([x] + back);
    WithoutConcat(front, [h[i]] + back, names);
    WithoutConcat(front, [x] + back, names);
    WithoutConcat([h[i]], back, names);
    WithoutConcat([x], back, names);
  }

  // ---------------------------------------------------------------------------
  // Merging
  // ---------------------------------------------------------------------------

  /** The comma-separated items of a Vary value, blanks around each removed, empty ones dropped. */
  function Items(value: string): seq<string> {
    NonEmpty(StripAll(SplitOn(',', value)))
  }

  function NonEmpty(parts: seq<string>): seq<string> {
    if parts == [] then []
    else if parts[0] == "" then NonEmpty(parts[1..])
    else [parts[0]] + NonEmpty(parts[1..])
  }

  function JoinComma(items: seq<string>): string {
    if items == [] then ""
    else if |items| == 1 then items[0]
    else items[0] + ", " + JoinComma(items[1..])
  }

  function MergeVary(current: string, added: string): string {
    JoinComma(Distinct(Items(current) + Items(added)))
  }

  /** Adds one header: overwrites the first header of that name, merges Vary, appends otherwise. */
  function Put(h: Headers, x: Header): Headers {
    var i := IndexOf(h, x.name);
    if i == |h| then h + [x]
    else if Lower(x.name) == "vary" then h[i := Header(h[i].name, MergeVary(h[i].value, x.value))]
    else h[i := Header(h[i].name, x.value)]
  }

  function Merge(h: Headers, extra: Headers): Headers {
    if extra == [] then h else Put(Merge(h, extra[..|extra| - 1]), extra[|extra| - 1])
  }

  method MergeResponseHeaders(headers: Headers, extra: Headers) returns (merged: Headers)
    ensures merged == Merge(headers, extra)
  {
    merged := headers;
    for n := 0 to |extra|
      invariant merged == Merge(headers, extra[..n])
    {
      var x := extra[n];
      var existing := 0;
      while existing < |merged| && Lower(merged[existing].name) != Lower(x.name)
        invariant existing <= |merged|
        invariant forall j :: 0 <= j < existing ==> Lower(merged[j].name) != Lower(x.name)
      {
        existing := existing + 1;
      }
      assert existing == IndexOf(merged, x.name);
      assert extra[..n + 1][..n] == extra[..n];
      if existing == |merged| {
        merged := merged + [x];
      } else if Lower(x.name) == "vary" {
        merged := merged[existing := Header(merged[existing].name, MergeVary(merged[existing].value, x.value))];
      } else {
        merged := merged[existing := Header(merged[existing].name, x.value)];
      }
    }
    assert extra[..|extra|] == extra;
  }

  /** The position of a name is determined by what IndexOf promises. */
  lemma IndexOfIs(h: Headers, name: string, i: nat)
    requires i <= |h|
    requires i < |h| ==> Lower(h[i].name) == Lower(name)
    requires forall j :: 0 <= j < i ==> Lower(h[j].name) != Lower(name)
    ensures IndexOf(h, name) == i
  {
  }

  lemma PutGet(h: Headers, x: Header)
    requires Lower(x.name) != "vary"
    ensures Get(Put(h, x), x.name) == Some(x.value)
  {
    IndexOfIs(Put(h, x), x.name, IndexOf(h, x.name));
  }

  lemma PutGetOther(h: Headers, x: Header, name: string)
    requires Lower(x.name) != Lower(name)
    ensures Get(Put(h, x), name) == Get(h, name)
  {
    var i, p := IndexOf(h, name), Put(h, x);
    IndexOfIs(p, name, if i < |h| then i else |p|);
  }

  /**
   A merged header takes the place of the first one of its name, keeping that one's spelling and
   everything around it; a new name goes to the end.
   */
  lemma PutTheorem(front: Headers, prior: Header, back: Headers, x: Header)
    requires Lower(prior.name) == Lower(x.name)
    requires forall y :: y in front ==> Lower(y.name) != Lower(x.name)
    ensures Put(front, x) == front + [x]
    ensures Put(front + [prior] + back, x)
            == front + [Header(prior.name, if Lower(x.name) == "vary" then MergeVary(prior.value, x.value) else x.value)] + back
  {
    IndexOfIs(front, x.name, |front|);
    var h := front + [prior] + back;
    assert forall j :: 0 <= j < |front| ==> h[j] == front[j];
    IndexOfIs(h, x.name, |front|);
    var value := if Lower(x.name) == "vary" then MergeVary(prior.value, x.value) else x.value;
    assert h[|front| := Header(prior.name, value)] == front + [Header(prior.name, value)] + back;
  }

  /** After a merge a name that is merged in has the last of its new values. */
  lemma {:induction false} MergeGet(h: Headers, extra: Headers, i: nat, name: string)
    requires i < |extra| && Lower(extra[i].name) == Lower(name) != "vary"
    requires forall j :: i < j < |extra| ==> Lower(extra[j].name) != Lower(name)
    ensures Get(Merge(h, extra), name) == Some(extra[i].value)
  {
    var n := |extra| - 1;
    if i < n {
      MergeGet(h, extra[..n], i, name);
      PutGetOther(Merge(h, extra[..n]), extra[n], name);
    } else {
      PutGet(Merge(h, extra[..n]), extra[n]);
      SameNameGet(Merge(h, extra), extra[n].name, name);
    }
  }

  /** A name that is not merged in keeps its value. */
  lemma {:induction false} MergeGetOther(h: Headers, extra: Headers, name: string)
    requires forall j :: 0 <= j < |extra| ==> Lower(extra[j].name) != Lower(name)
    ensures Get(Merge(h, extra), name) == Get(h, name)
  {
    if extra != [] {
      var n := |extra| - 1;
      MergeGetOther(h, extra[..n], name);
      PutGetOther(Merge(h, extra[..n]), extra[n], name);
    }
  }

  lemma SameNameGet(h: Headers, a: string, b: string)
    requires Lower(a) == Lower(b)
    ensures Get(h, a) == Get(h, b)
  {
    IndexOfIs(h, a, IndexOf(h, b));
  }

  lemma PutKeepsOthers(h: Headers, x: Header, names: set<string>)
    requires Lower(x.name) in names
    ensures Without(Put(h, x), names) == Without(h, names)
  {
    var i := IndexOf(h, x.name);
    if i == |h| {
      WithoutConcat(h, [x], names);
    } else {
      WithoutUpdate(h, i, Put(h, x)[i], names);
    }
  }

  /** A merge touches only headers whose names it carries. */
  lemma {:induction false} MergeKeepsOthers(h: Headers, extra: Headers, names: set<string>)
    requires forall x :: x in extra ==> Lower(x.name) in names
    ensures Without(Merge(h, extra), names) == Without(h, names)
  {
    if extra != [] {
      var front := extra[..|extra| - 1];
      MergeKeepsOthers(h, front, names);
      PutKeepsOthers(Merge(h, front), extra[|extra| - 1], names);
    }
  }

  // ---------------------------------------------------------------------------
  // The copies of a response
  // ---------------------------------------------------------------------------

  const REQUEST_ID := "X-Request-ID"
  const CACHE_MARK := "X-NapiGate-Cache"
  const COALESCED_MARK := "X-NapiGate-Coalesced"
  const OWN_NAMES := {"x-request-id", "x-napigate-cache", "x-napigate-coalesced"}

  lemma OwnNamesLowered()
    ensures Lower(REQUEST_ID) == "x-request-id"
    ensures Lower(CACHE_MARK) == "x-napigate-cache"
    ensures Lower(COALESCED_MARK) == "x-napigate-coalesced"
  {
    assert Lower(REQUEST_ID) == "x-request-id";
    assert Lower(CACHE_MARK) == "x-napigate-cache";
    assert Lower(COALESCED_MARK) == "x-napigate-coalesced";
  }

  /** What goes into the cache. */
  function StoredCopy(r: Response): Response {
    Response(r.status, Without(r.headers, OWN_NAMES), r.body, false)
  }

  function HitMarks(requestId: string): Headers {
    [Header(REQUEST_ID, requestId), Header(CACHE_MARK, "HIT")]
  }

  /** What a cache hit serves. */
  function HitCopy(r: Response, requestId: string): Response {
    Response(r.status, Merge(r.headers, HitMarks(requestId)), r.body, false)
  }

  function CoalescedMarks(requestId: string): Headers {
    [Header(REQUEST_ID, requestId), Header(COALESCED_MARK, "true")]
  }

  /** What a waiting request serves, given the leader's snapshot. */
  function CoalescedCopy(r: Response, requestId: string): Response {
    Response(r.status, Merge(Without(r.headers, {"x-request-id"}), CoalescedMarks(requestId)), r.body, false)
  }

  ghost predicate SameButOwn(a: Response, b: Response) {
    && a.status == b.status
    && a.body == b.body
    && Without(a.headers, OWN_NAMES) == Without(b.headers, OWN_NAMES)
  }

  lemma MergeTwo(h: Headers, x: Header, y: Header)
    ensures Merge(h, [x, y]) == Put(Put(h, x), y)
  {
    assert [x, y][..1] == [x];
    assert [x][..0] == [];
    assert Merge(h, [x]) == Put(Merge(h, []), x);
  }

  lemma {:induction false} WithoutTwice(h: Headers, some: set<string>, more: set<string>)
    requires some <= more
    ensures Without(Without(h, some), more) == Without(h, more)
  {
    if h != [] {
      WithoutTwice(h[1..], some, more);
      if Lower(h[0].name) !in some {
        assert Without(h, some) == [h[0]] + Without(h[1..], some);
        WithoutConcat([h[0]], Without(h[1..], some), more);
        assert [h[0]] + h[1..] == h;
        WithoutConcat([h[0]], h[1..], more);
      }
    }
  }

  /** A coalesced copy is the snapshot, up to its own request id and the coalesced marker. */
  lemma CoalescedCopyIsFaithful(r: Response, requestId: string)
    ensures var c := CoalescedCopy(r, requestId);
            && c.status == r.status && c.body == r.body && !c.streaming
            && Without(c.headers, {"x-request-id", "x-napigate-coalesced"})
               == Without(r.headers, {"x-request-id", "x-napigate-coalesced"})
            && Get(c.headers, REQUEST_ID) == Some(requestId)
            && Get(c.headers, COALESCED_MARK) == Some("true")
  {
    OwnNamesLowered();
    var names := {"x-request-id", "x-napigate-coalesced"};
    var base := Without(r.headers, {"x-request-id"});
    var x, y := Header(REQUEST_ID, requestId), Header(COALESCED_MARK, "true");
    MergeTwo(base, x, y);
    MergeKeepsOthers(base, CoalescedMarks(requestId), names);
    WithoutTwice(r.headers, {"x-request-id"}, names);
    PutGet(base, x);
    PutGetOther(Put(base, x), y, REQUEST_ID);
    PutGet(Put(base, x), y);
  }

  /** Where the snapshot has no marker of its own, the new id and the marker come behind its other headers. */
  lemma CoalescedCopyInOrder(r: Response, requestId: string)
    requires forall x :: x in r.headers ==> Lower(x.name) != "x-napigate-coalesced"
    ensures CoalescedCopy(r, requestId).headers
            == Without(r.headers, {"x-request-id"})
               + [Header("X-Request-ID", requestId), Header("X-NapiGate-Coalesced", "true")]
  {
    OwnNamesLowered();
    var base := Without(r.headers, {"x-request-id"});
    var x, y := Header(REQUEST_ID, requestId), Header(COALESCED_MARK, "true");
    WithoutHasNone(r.headers, {"x-request-id"});
    MergeTwo(base, x, y);
    PutTheorem(base, x, [], x);
    PutTheorem(base + [x], y, [], y);
    assert base + [x] + [y] == base + [x, y];
  }

  /**
   A hit on a stored response has its status and body, its headers without the gateway's own ones, in
   order, and behind them the requester's id and the mark.
   */
  lemma HitCopyIsFaithful(r: Response, requestId: string)
    ensures var hit, kept := HitCopy(StoredCopy(r), requestId),
                             Without(r.headers, {"x-request-id", "x-napigate-cache", "x-napigate-coalesced"});
            && hit.status == r.status && hit.body == r.body && !hit.streaming
            && hit.headers == kept + [Header("X-Request-ID", requestId), Header("X-NapiGate-Cache", "HIT")]
            && Get(hit.headers, "X-Request-ID") == Some(requestId)
            && Get(hit.headers, "X-NapiGate-Cache") == Some("HIT")
    ensures SameButOwn(HitCopy(StoredCopy(r), requestId), r)
  {
    OwnNamesLowered();
    var base := StoredCopy(r).headers;
    var x, y := Header(REQUEST_ID, requestId), Header(CACHE_MARK, "HIT");
    WithoutHasNone(r.headers, OWN_NAMES);
    MergeTwo(base, x, y);
    PutTheorem(base, x, [], x);
    PutTheorem(base + [x], y, [], y);
    assert base + [x] + [y] == base + [x, y];
    PutGet(base + [x], y);
    PutGet(base, x);
    PutGetOther(base + [x], y, REQUEST_ID);
    MergeKeepsOthers(base, HitMarks(requestId), OWN_NAMES);
    WithoutNothing(base, OWN_NAMES);
  }
}
