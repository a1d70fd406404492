/**
 Request coalescing with a response cache, as a transition system.

 Any number of requests run concurrently. Each has a program counter; one step is one atomic action
 of the code: a read of the cache under its lock, the clock test that follows it, the critical
 section that registers a request, the write of an in-flight slot, the setting of the event, the
 critical section that removes the entry. Steps of different requests interleave freely, and three
 environment steps interleave with them: the clock advances, the cache is cleared, and a straggling
 worker of an earlier parallel race stores a response.
 */
module Coalescing {
  import opened Text
  import opened Responses

  /** Requests are numbered; an in-flight entry is identified by the request that created it. */
  type RequestId = nat

  datatype Key = CacheBacked(route: nat, cacheKey: string) | Fingerprint(digest: string)

  /** What the configuration makes of a request. */
  datatype Request =
    | Cached(route: nat, cacheKey: string)   // response caching applies, no bypass header
    | Solo(cacheKey: string)                 // as Cached, but a target of the route streams: not shared
    | Shared(digest: string)                 // GET or HEAD without caching, all targets buffered
    | Bypass(storeKey: Option<string>)       // bypass header: no lookup, no sharing, stores if caching applies
    | Alone                                  // neither cached nor eligible for sharing

  function CoalescingKey(q: Request): Option<Key> {
    match q
    case Cached(route, ck) => Some(CacheBacked(route, ck))
    case Solo(_) => None
    case Shared(digest) => Some(Fingerprint(digest))
    case Bypass(_) => None
    case Alone => None
  }

  function LookupKey(q: Request): Option<string> {
    if q.Cached? || q.Solo? then Some(q.cacheKey) else None
  }

  function StoreKey(q: Request): Option<string> {
    match q
    case Cached(_, ck) => Some(ck)
    case Solo(ck) => Some(ck)
    case Bypass(ck) => ck
    case Shared(_) => None
    case Alone => None
  }

  /** One configuration generation: the requests, their X-Request-IDs and the lifetime of each cache key. */
  datatype Setup = Setup(requests: seq<Request>, ids: seq<string>, ttl: map<string, real>)

  ghost predicate ValidSetup(c: Setup) {
    && |c.ids| == |c.requests|
    && (forall r :: 0 <= r < |c.requests| && StoreKey(c.requests[r]).Some? ==> StoreKey(c.requests[r]).value in c.ttl)
    && (forall ck :: ck in c.ttl ==> c.ttl[ck] > 0.0)
  }

  // ---------------------------------------------------------------------------
  // Outcomes
  // ---------------------------------------------------------------------------

  datatype Failure =
    | GatewayFailure(status: int, detail: string, headers: Headers)
    | TransportFailure(message: string)
    | InternalFailure(message: string)
    | Interrupt(name: string)               // a BaseException that is not an Exception

  /** A reply, before it is rendered for the requester: a target's response, or a cache hit by `requester`. */
  datatype Reply = Fresh(response: Response) | Hit(original: Response, requester: RequestId)

  datatype Outcome = Replied(reply: Reply) | Failed(failure: Failure)

  const STREAMING_ERROR := InternalFailure("Streaming responses cannot be coalesced.")

  /** The error a waiting request raises when its leader failed. */
  function CoalescedFailure(f: Failure, requestId: string): Failure {
    match f
    case GatewayFailure(status, detail, headers) =>
      GatewayFailure(status, detail, Merge(headers, CoalescedMarks(requestId)))
    case TransportFailure(_) => GatewayFailure(502, "Upstream request failed.", CoalescedMarks(requestId))
    case InternalFailure(_) => GatewayFailure(500, "Gateway internal error.", CoalescedMarks(requestId))
    case Interrupt(_) => f
  }

  /** Status and detail the proxy handler shows for a failure; an interrupt passes through it. */
  function Shown(f: Failure): Option<(int, string)> {
    match f
    case GatewayFailure(status, detail, _) => Some((status, detail))
    case TransportFailure(_) => Some((502, "Upstream request failed."))
    case InternalFailure(_) => Some((500, "Gateway internal error."))
    case Interrupt(_) => None
  }

  /** How a request ended. */
  datatype Final =
    | FromCache(original: Response)                  // hit at the first lookup
    | Led(outcome: Outcome)                          // led: ran the route, or hit at the second lookup
    | Joined(leader: RequestId, outcome: Outcome)    // waited, and read this from the leader's slots
    | JoinedEmpty(leader: RequestId)                 // waited, and found both slots empty
    | Unshared(outcome: Outcome)                     // ran the route outside the registry

  // ---------------------------------------------------------------------------
  // State
  // ---------------------------------------------------------------------------

  /** A cache slot; what a hit serves is rendered from the response that was stored. */
  datatype Slot = Slot(expiry: real, original: Response)

  datatype InFlight = InFlight(event: bool, result: Option<Reply>, error: Option<Failure>, waiters: nat)

  datatype PC =
    | Start
    | LookedUp(got: Option<Slot>)
    | Registering
    | Waiting(leader: RequestId)
    | Woken(leader: RequestId)
    | Rechecking
    | Rechecked(got: Option<Slot>)
    | Executing(since: Mark, kept: set<Kept>)
    | Publishing(outcome: Outcome)
    | Signalling(outcome: Outcome)
    | Removing(outcome: Outcome)
    | Done(final: Final)

  // History, for stating the theorems: when an execution began, and what it put into the cache.
  datatype Mark = Mark(step: nat, time: real, clears: nat)
  datatype Kept = Kept(response: Response, expiry: real, clears: nat)
  datatype Run = Run(since: Mark, until: nat, ok: Option<Kept>)

  datatype Proc = Proc(pc: PC, begun: nat, joined: nat, run: Option<Run>, ended: nat)

  datatype State = State(
    steps: nat,
    now: real,
    clears: nat,
    cache: map<string, Slot>,
    inflight: map<Key, RequestId>,
    entries: map<RequestId, InFlight>,
    procs: seq<Proc>,
    stored: set<(string, Response)>)      // every response ever put into the cache

  const FRESH := InFlight(false, None, None, 0)
  const IDLE := Proc(Start, 0, 0, None, 0)

  function Initial(c: Setup): State {
    State(0, 0.0, 0, map[], map[], map[], seq(|c.requests|, _ => IDLE), {})
  }

  /** Every reference in the state resolves. */
  ghost predicate WellFormed(c: Setup, s: State) {
    && |s.procs| == |c.requests|
    && (forall k :: k in s.inflight ==> s.inflight[k] in s.entries)
    && (forall r :: 0 <= r < |s.procs| ==> Resolves(c.requests[r], s, r))
  }

  /** Past registration and not yet removed. */
  predicate InFlightPC(pc: PC) {
    pc.Rechecking? || pc.Rechecked? || pc.Publishing? || pc.Signalling? || pc.Removing?
  }

  /** The registered leader of its key: between registration and removal. */
  predicate Leading(q: Request, pc: PC) {
    InFlightPC(pc) || (pc.Executing? && CoalescingKey(q).Some?)
  }

  ghost predicate Resolves(q: Request, s: State, r: RequestId)
    requires r < |s.procs|
  {
    var pc := s.procs[r].pc;
    && (pc.LookedUp? ==> LookupKey(q).Some?)
    && (pc.Registering? ==> CoalescingKey(q).Some?)
    && (InFlightPC(pc) ==> CoalescingKey(q).Some?)
    && (Leading(q, pc) ==> r in s.entries)
    && (pc.Waiting? || pc.Woken? ==> pc.leader in s.entries)
  }

  // ---------------------------------------------------------------------------
  // Steps
  // ---------------------------------------------------------------------------

  datatype Step =
    // environment
    | Tick(time: real)
    | ClearCache
    | Straggle(ck: string, late: Response)
    // requests
    | Lookup(r: RequestId)
    | CheckLookup(r: RequestId)
    | Register(r: RequestId)
    | Recheck(r: RequestId)
    | CheckRecheck(r: RequestId)
    | Abort(r: RequestId, failure: Failure)
    | Store(r: RequestId, response: Response)
    | Return(r: RequestId, outcome: Outcome, ok: Option<Kept>)
    | Publish(r: RequestId)
    | Signal(r: RequestId)
    | Remove(r: RequestId)
    | Wake(r: RequestId)
    | ReadResult(r: RequestId)

  /** What caching stores: a success that is not a stream. */
  predicate Cacheable(response: Response) {
    response.status < 400 && !response.streaming
  }

  /** A route execution may end with any outcome; a cacheable success has been stored before it returns. */
  predicate Returns(q: Request, stored: set<Kept>, outcome: Outcome, ok: Option<Kept>) {
    && !(outcome.Replied? && outcome.reply.Hit?)
    && if StoreKey(q).Some? && outcome.Replied? && Cacheable(outcome.reply.response) then
         ok.Some? && ok.value in stored && ok.value.response == outcome.reply.response
       else
         ok.None?
  }

  predicate Enabled(c: Setup, s: State, step: Step) {
    match step
    case Tick(time) => s.now <= time
    case ClearCache => true
    case Straggle(ck, late) => ck in c.ttl && Cacheable(late)
    case Lookup(r) => r < |s.procs| && s.procs[r].pc.Start?
    case CheckLookup(r) => r < |s.procs| && s.procs[r].pc.LookedUp?
    case Register(r) => r < |s.procs| && s.procs[r].pc.Registering?
    case Recheck(r) => r < |s.procs| && s.procs[r].pc.Rechecking?
    case CheckRecheck(r) => r < |s.procs| && s.procs[r].pc.Rechecked?
    case Abort(r, _) => r < |s.procs| && (s.procs[r].pc.Rechecking? || s.procs[r].pc.Rechecked?)
    case Store(r, response) =>
      && r < |s.procs| && r < |c.requests| && s.procs[r].pc.Executing?
      && StoreKey(c.requests[r]).Some? && Cacheable(response)
    case Return(r, outcome, ok) =>
      && r < |s.procs| && r < |c.requests| && s.procs[r].pc.Executing?
      && Returns(c.requests[r], s.procs[r].pc.kept, outcome, ok)
    case Publish(r) => r < |s.procs| && s.procs[r].pc.Publishing?
    case Signal(r) => r < |s.procs| && s.procs[r].pc.Signalling?
    case Remove(r) => r < |s.procs| && s.procs[r].pc.Removing?
    case Wake(r) =>
      && r < |s.procs| && s.procs[r].pc.Waiting?
      && s.procs[r].pc.leader in s.entries && s.entries[s.procs[r].pc.leader].event
    case ReadResult(r) => r < |s.procs| && s.procs[r].pc.Woken?
  }

  function Find(cache: map<string, Slot>, ck: string): Option<Slot> {
    if ck in cache then Some(cache[ck]) else None
  }

  predicate Live(got: Option<Slot>, now: real) {
    got.Some? && now < got.value.expiry
  }

  function Update(s: State, r: RequestId, p: Proc): State
    requires r < |s.procs|
  {
    s.(procs := s.procs[r := p], steps := s.steps + 1)
  }

  function BeginRun(s: State, p: Proc): Proc {
    p.(pc := Executing(Mark(s.steps, s.now, s.clears), {}))
  }

  function Finish(s: State, p: Proc, final: Final): Proc {
    p.(pc := Done(final), ended := s.steps)
  }

  function CachePut(c: Setup, s: State, ck: string, response: Response): State
    requires ck in c.ttl
  {
    s.(cache := s.cache[ck := Slot(s.now + c.ttl[ck], response)], stored := s.stored + {(ck, response)})
  }

  /** What the leader publishes: a response that cannot be snapshot turns into an error. */
  function Snapshot(o: Outcome): Outcome {
    if o.Replied? && o.reply.Fresh? && o.reply.response.streaming then Failed(STREAMING_ERROR) else o
  }

  function Published(e: InFlight, o: Outcome): InFlight {
    match o
    case Replied(reply) => e.(result := Some(reply))
    case Failed(failure) => e.(error := Some(failure))
  }

  function Look(c: Setup, s: State, r: RequestId): (t: State)
    requires WellFormed(c, s) && Enabled(c, s, Lookup(r))
    ensures WellFormed(c, t)
  {
    var q, p := c.requests[r], s.procs[r].(begun := s.steps);
    if LookupKey(q).Some? then
      Update(s, r, p.(pc := LookedUp(Find(s.cache, LookupKey(q).value))))
    else if CoalescingKey(q).Some? then
      Update(s, r, p.(pc := Registering))
    else
      Update(s, r, BeginRun(s, p))
  }

  function Serve(c: Setup, s: State, r: RequestId): (t: State)
    requires WellFormed(c, s) && Enabled(c, s, CheckLookup(r))
    ensures WellFormed(c, t)
  {
    var p := s.procs[r];
    if Live(p.pc.got, s.now) then
      Update(s, r, Finish(s, p, FromCache(p.pc.got.value.original)))
    else if CoalescingKey(c.requests[r]).Some? then
      Update(s, r, p.(pc := Registering))
    else
      Update(s, r, BeginRun(s, p))
  }

  /** The critical section in which a request finds the in-flight entry of its key, or creates it. */
  function Join(c: Setup, s: State, r: RequestId): (t: State)
    requires WellFormed(c, s) && Enabled(c, s, Register(r))
    ensures WellFormed(c, t)
  {
    var key, p := CoalescingKey(c.requests[r]).value, s.procs[r].(joined := s.steps);
    if key in s.inflight then
      var l := s.inflight[key];
      var e := s.entries[l];
      Update(s.(entries := s.entries[l := e.(waiters := e.waiters + 1)]), r, p.(pc := Waiting(l)))
    else
      Update(s.(inflight := s.inflight[key := r], entries := s.entries[r := FRESH]), r, p.(pc := Rechecking))
  }

  function LookAgain(c: Setup, s: State, r: RequestId): (t: State)
    requires WellFormed(c, s) && Enabled(c, s, Recheck(r))
    ensures WellFormed(c, t)
  {
    var q, p := c.requests[r], s.procs[r];
    if LookupKey(q).Some? then
      Update(s, r, p.(pc := Rechecked(Find(s.cache, LookupKey(q).value))))
    else
      Update(s, r, BeginRun(s, p))
  }

  function ServeOrRun(c: Setup, s: State, r: RequestId): (t: State)
    requires WellFormed(c, s) && Enabled(c, s, CheckRecheck(r))
    ensures WellFormed(c, t)
  {
    var p := s.procs[r];
    if Live(p.pc.got, s.now) then
      Update(s, r, p.(pc := Publishing(Replied(Hit(p.pc.got.value.original, r)))))
    else
      Update(s, r, BeginRun(s, p))
  }

  /** The second lookup raises. */
  function GiveUp(c: Setup, s: State, r: RequestId, failure: Failure): (t: State)
    requires WellFormed(c, s) && Enabled(c, s, Abort(r, failure))
    ensures WellFormed(c, t)
  {
    Update(s, r, s.procs[r].(pc := Publishing(Failed(failure))))
  }

  /** A target of a running execution stores its response. */
  function Keep(c: Setup, s: State, r: RequestId, response: Response): (t: State)
    requires ValidSetup(c) && WellFormed(c, s) && Enabled(c, s, Store(r, response))
    ensures WellFormed(c, t)
  {
    var p, ck := s.procs[r], StoreKey(c.requests[r]).value;
    var kept := Kept(response, s.now + c.ttl[ck], s.clears);
    Update(CachePut(c, s, ck, response), r, p.(pc := p.pc.(kept := p.pc.kept + {kept})))
  }

  function EndRun(c: Setup, s: State, r: RequestId, outcome: Outcome, ok: Option<Kept>): (t: State)
    requires WellFormed(c, s) && Enabled(c, s, Return(r, outcome, ok))
    ensures WellFormed(c, t)
  {
    var p := s.procs[r].(run := Some(Run(s.procs[r].pc.since, s.steps, ok)));
    if CoalescingKey(c.requests[r]).Some? then
      Update(s, r, p.(pc := Publishing(outcome)))
    else
      Update(s, r, Finish(s, p, Unshared(outcome)))
  }

  function WriteSlot(c: Setup, s: State, r: RequestId): (t: State)
    requires WellFormed(c, s) && Enabled(c, s, Publish(r))
    ensures WellFormed(c, t)
  {
    assert Resolves(c.requests[r], s, r);
    var p, o := s.procs[r], Snapshot(s.procs[r].pc.outcome);
    Update(s.(entries := s.entries[r := Published(s.entries[r], o)]), r, p.(pc := Signalling(o)))
  }

  function SetEvent(c: Setup, s: State, r: RequestId): (t: State)
    requires WellFormed(c, s) && Enabled(c, s, Signal(r))
    ensures WellFormed(c, t)
  {
    assert Resolves(c.requests[r], s, r);
    var p := s.procs[r];
    Update(s.(entries := s.entries[r := s.entries[r].(event := true)]), r, p.(pc := Removing(p.pc.outcome)))
  }

  /** The critical section in which a leader removes the entry of its key, if that is still its own. */
  function Leave(c: Setup, s: State, r: RequestId): (t: State)
    requires WellFormed(c, s) && Enabled(c, s, Remove(r))
    ensures WellFormed(c, t)
  {
    var key, p := CoalescingKey(c.requests[r]), s.procs[r];
    var own := key.Some? && key.value in s.inflight && s.inflight[key.value] == r;
    Update(s.(inflight := if own then s.inflight - {key.value} else s.inflight), r,
           Finish(s, p, Led(p.pc.outcome)))
  }

  function ReadError(c: Setup, s: State, r: RequestId): (t: State)
    requires WellFormed(c, s) && Enabled(c, s, Wake(r))
    ensures WellFormed(c, t)
  {
    var p, l := s.procs[r], s.procs[r].pc.leader;
    if s.entries[l].error.Some? then
      Update(s, r, Finish(s, p, Joined(l, Failed(s.entries[l].error.value))))
    else
      Update(s, r, p.(pc := Woken(l)))
  }

  function ReadSlot(c: Setup, s: State, r: RequestId): (t: State)
    requires WellFormed(c, s) && Enabled(c, s, ReadResult(r))
    ensures WellFormed(c, t)
  {
    assert Resolves(c.requests[r], s, r);
    var p, l := s.procs[r], s.procs[r].pc.leader;
    if s.entries[l].result.None? then
      Update(s, r, Finish(s, p, JoinedEmpty(l)))
    else
      Update(s, r, Finish(s, p, Joined(l, Replied(s.entries[l].result.value))))
  }

  function Apply(c: Setup, s: State, step: Step): (t: State)
    requires ValidSetup(c) && WellFormed(c, s) && Enabled(c, s, step)
    ensures WellFormed(c, t)
  {
    match step
    case Tick(time) => s.(now := time, steps := s.steps + 1)
    case ClearCache => s.(cache := map[], clears := s.clears + 1, steps := s.steps + 1)
    case Straggle(ck, late) => CachePut(c, s, ck, late).(steps := s.steps + 1)
    case Lookup(r) => Look(c, s, r)
    case CheckLookup(r) => Serve(c, s, r)
    case Register(r) => Join(c, s, r)
    case Recheck(r) => LookAgain(c, s, r)
    case CheckRecheck(r) => ServeOrRun(c, s, r)
    case Abort(r, failure) => GiveUp(c, s, r, failure)
    case Store(r, response) => Keep(c, s, r, response)
    case Return(r, outcome, ok) => EndRun(c, s, r, outcome, ok)
    case Publish(r) => WriteSlot(c, s, r)
    case Signal(r) => SetEvent(c, s, r)
    case Remove(r) => Leave(c, s, r)
    case Wake(r) => ReadError(c, s, r)
    case ReadResult(r) => ReadSlot(c, s, r)
  }

  // ---------------------------------------------------------------------------
  // Runs
  // ---------------------------------------------------------------------------

  /** The steps can be taken one after the other from `s`. */
  ghost predicate Legal(c: Setup, s: State, steps: seq<Step>)
    requires ValidSetup(c) && WellFormed(c, s)
    decreases |steps|
  {
    steps == [] || (Enabled(c, s, steps[0]) && Legal(c, Apply(c, s, steps[0]), steps[1..]))
  }

  ghost function After(c: Setup, s: State, steps: seq<Step>): (t: State)
    requires ValidSetup(c) && WellFormed(c, s) && Legal(c, s, steps)
    ensures WellFormed(c, t)
    decreases |steps|
  {
    if steps == [] then s else After(c, Apply(c, s, steps[0]), steps[1..])
  }

  /** A state that some run from the start reaches. */
  ghost predicate Reachable(c: Setup, s: State) {
    ValidSetup(c) && exists steps :: Legal(c, Initial(c), steps) && After(c, Initial(c), steps) == s
  }
}
