/**
 What the requests of the coalescing protocol serve: the rendering of replies and errors, and that it
 is faithful to what the leader and the cache hold.
 */
module CoalescingServed {
  import opened Text
  import opened Responses
  import opened Coalescing
  import opened CoalescingSafety
  import opened CoalescingCache

  /** The bytes of a reply as its producer holds them. */
  function Rendered(c: Setup, reply: Reply): (r: Response)
    requires reply.Hit? ==> reply.requester < |c.ids|
  {
    match reply
    case Fresh(response) => response
    case Hit(original, requester) => HitCopy(StoredCopy(original), c.ids[requester])
  }

  /** The response request r sends when it ends with a reply, and None when it ends with an error. */
  function ServedReply(c: Setup, r: RequestId, f: Final): Option<Response>
    requires r < |c.ids|
    requires (f.Led? || f.Joined? || f.Unshared?) && f.outcome.Replied? && f.outcome.reply.Hit?
             ==> f.outcome.reply.requester < |c.ids|
  {
    match f
    case FromCache(original) => Some(HitCopy(StoredCopy(original), c.ids[r]))
    case Led(o) => if o.Replied? then Some(Rendered(c, o.reply)) else None
    case Unshared(o) => if o.Replied? then Some(Rendered(c, o.reply)) else None
    case Joined(_, o) => if o.Replied? then Some(CoalescedCopy(Rendered(c, o.reply), c.ids[r])) else None
    case JoinedEmpty(_) => None
  }

  function EmptyError(requestId: string): Failure {
    GatewayFailure(500, "Coalesced request completed without a response.", CoalescedMarks(requestId))
  }

  /** The error request r raises out of the coalescing function. */
  function RaisedError(c: Setup, r: RequestId, f: Final): Option<Failure>
    requires r < |c.ids|
  {
    match f
    case FromCache(_) => None
    case Led(o) => if o.Failed? then Some(o.failure) else None
    case Unshared(o) => if o.Failed? then Some(o.failure) else None
    case Joined(_, o) => if o.Failed? then Some(CoalescedFailure(o.failure, c.ids[r])) else None
    case JoinedEmpty(_) => Some(EmptyError(c.ids[r]))
  }

  /** An error keeps its status and detail when it is passed on to a waiting request. */
  lemma ErrorsStayTheSame(f: Failure, requestId: string)
    ensures Shown(CoalescedFailure(f, requestId)) == Shown(f)
    ensures match f
            case GatewayFailure(status, detail, _) => Shown(f) == Some((status, detail))
            case TransportFailure(_) => Shown(f) == Some((502, "Upstream request failed."))
            case InternalFailure(_) => Shown(f) == Some((500, "Gateway internal error."))
            case Interrupt(_) => Shown(f) == None
    ensures f.Interrupt? ==> CoalescedFailure(f, requestId) == f
    ensures !f.Interrupt? ==>
              var g := CoalescedFailure(f, requestId);
              && g.GatewayFailure?
              && Get(g.headers, "X-Request-ID") == Some(requestId)
              && Get(g.headers, "X-NapiGate-Coalesced") == Some("true")
              && Without(g.headers, {"x-request-id", "x-napigate-coalesced"})
                 == Without(if f.GatewayFailure? then f.headers else [], {"x-request-id", "x-napigate-coalesced"})
  {
    if !f.Interrupt? {
      OwnNamesLowered();
      var before: Headers := if f.GatewayFailure? then f.headers else [];
      var x, y := Header(REQUEST_ID, requestId), Header(COALESCED_MARK, "true");
      MergeTwo(before, x, y);
      MergeKeepsOthers(before, CoalescedMarks(requestId), {"x-request-id", "x-napigate-coalesced"});
      PutGet(before, x);
      PutGetOther(Put(before, x), y, REQUEST_ID);
      PutGet(Put(before, x), y);
      MarksAlone(requestId);
    }
  }

  /** Merged into nothing, the marks are just themselves. */
  lemma MarksAlone(requestId: string)
    ensures Merge([], CoalescedMarks(requestId)) == CoalescedMarks(requestId)
  {
    OwnNamesLowered();
    var x, y := Header(REQUEST_ID, requestId), Header(COALESCED_MARK, "true");
    MergeTwo([], x, y);
    PutTheorem([], x, [], x);
    PutTheorem([x], y, [], y);
    assert [] + [x] == [x] && [x] + [y] == [x, y];
  }

  /**
   A request that waited sends its leader's response, in status, body and every header but its own
   request id and the coalesced marker; or it fails with its leader's status and detail.
   */
  lemma CoalescedIsFaithful(c: Setup, s: State, w: RequestId)
    requires Reachable(c, s) && w < |s.procs| && s.procs[w].pc.Done? && s.procs[w].pc.final.Joined?
    ensures var l, o := s.procs[w].pc.final.leader, s.procs[w].pc.final.outcome;
            && l < |s.procs| && |c.ids| == |s.procs|
            && (s.procs[l].pc.Done? ==> s.procs[l].pc.final == Led(o))
            && match o
               case Replied(reply) =>
                 && (reply.Hit? ==> reply.requester == l)
                 && var led, served := ServedReply(c, l, Led(o)), ServedReply(c, w, s.procs[w].pc.final);
                    && led.Some? && served.Some?
                    && served.value.status == led.value.status && served.value.body == led.value.body
                    && Without(served.value.headers, {"x-request-id", "x-napigate-coalesced"})
                       == Without(led.value.headers, {"x-request-id", "x-napigate-coalesced"})
                    && Get(served.value.headers, REQUEST_ID) == Some(c.ids[w])
                    && Get(served.value.headers, COALESCED_MARK) == Some("true")
               case Failed(failure) =>
                 && RaisedError(c, l, Led(o)) == Some(failure)
                 && RaisedError(c, w, s.procs[w].pc.final).Some?
                 && Shown(RaisedError(c, w, s.procs[w].pc.final).value) == Shown(failure)
  {
    var o := s.procs[w].pc.final.outcome;
    WaiterTheorem(c, s, w);
    HitTheorem(c, s, w);
    ReachableIsSafe(c, s);
    if o.Replied? {
      CoalescedCopyIsFaithful(Rendered(c, o.reply), c.ids[w]);
    } else {
      ErrorsStayTheSame(o.failure, c.ids[w]);
    }
  }

  /** A cache hit sends a stored success, up to its own request id and the markers. */
  lemma HitIsFaithful(c: Setup, s: State, r: RequestId)
    requires Reachable(c, s) && r < |s.procs| && s.procs[r].pc.Done?
    requires s.procs[r].pc.final.FromCache?
             || (s.procs[r].pc.final.Led? && s.procs[r].pc.final.outcome.Replied? && s.procs[r].pc.final.outcome.reply.Hit?)
    ensures |c.ids| == |s.procs|
    ensures var f := s.procs[r].pc.final;
            && (f.Led? ==> f.outcome.reply.requester == r)
            && var original, served :=
                 if f.FromCache? then f.original else f.outcome.reply.original, ServedReply(c, r, f);
               && original.status < 400
               && LookupKey(c.requests[r]).Some? && (LookupKey(c.requests[r]).value, original) in s.stored
               && served.Some? && served.value.status == original.status && served.value.body == original.body
               && served.value.headers
                  == Without(original.headers, {"x-request-id", "x-napigate-cache", "x-napigate-coalesced"})
                     + [Header("X-Request-ID", c.ids[r]), Header("X-NapiGate-Cache", "HIT")]
  {
    HitTheorem(c, s, r);
    ReachableIsSafe(c, s);
    var f := s.procs[r].pc.final;
    HitCopyIsFaithful(if f.FromCache? then f.original else f.outcome.reply.original, c.ids[r]);
  }
}
