/**
 The cache during a run of the coalescing protocol, and the executions that fill it. Every hit is a
 stored success. Executions for one key never overlap, and between two of them that both end in a
 cacheable success the stored entry of the first has expired or the cache has been cleared.
 */
module CoalescingCache {
  import opened Text
  import opened Responses
  import opened Coalescing
  import opened CoalescingSafety

  // ---------------------------------------------------------------------------
  // Stored responses
  // ---------------------------------------------------------------------------

  ghost predicate IsStored(s: State, ck: string, response: Response) {
    (ck, response) in s.stored
  }

  ghost predicate SlotInv(c: Setup, s: State, ck: string)
    requires ck in s.cache
  {
    ck in c.ttl && IsStored(s, ck, s.cache[ck].original) && s.cache[ck].expiry <= s.now + c.ttl[ck]
  }

  ghost predicate CacheInv(c: Setup, s: State) {
    && (forall ck :: ck in s.cache ==> SlotInv(c, s, ck))
    && (forall x :: x in s.stored ==> x.1.status < 400)
  }

  /** A slot that request q has read, and a hit that it replies with, come from the store. */
  ghost predicate FromStore(q: Request, s: State, response: Response) {
    LookupKey(q).Some? && IsStored(s, LookupKey(q).value, response)
  }

  ghost predicate HitInv(q: Request, s: State, r: RequestId, o: Outcome) {
    o.Replied? && o.reply.Hit? ==> o.reply.requester == r && FromStore(q, s, o.reply.original)
  }

  // ---------------------------------------------------------------------------
  // Executions
  // ---------------------------------------------------------------------------

  /** When the execution of a request began, if it has. */
  function Began(p: Proc): Option<Mark> {
    if p.pc.Executing? then Some(p.pc.since)
    else if p.run.Some? then Some(p.run.value.since)
    else None
  }

  /** The stored entry is lost: cleared away, or expired. */
  predicate Lost(k: Kept, now: real, clears: nat) {
    k.clears < clears || k.expiry <= now
  }

  /** A stored entry is lost or still covered by the cache, possibly by a later store. */
  ghost predicate KeptInv(c: Setup, s: State, ck: string, k: Kept) {
    && ck in c.ttl && k.expiry <= s.now + c.ttl[ck] && k.clears <= s.clears
    && (Lost(k, s.now, s.clears) || (ck in s.cache && k.expiry <= s.cache[ck].expiry))
  }

  ghost predicate RunInv(c: Setup, s: State, r: RequestId)
    requires WellFormed(c, s) && r < |s.procs|
  {
    var q, p := c.requests[r], s.procs[r];
    && (p.pc.Executing? ==>
          && p.pc.since.step < s.steps && p.run == None
          && (StoreKey(q).Some? ==> forall k :: k in p.pc.kept ==> KeptInv(c, s, StoreKey(q).value, k)))
    && (p.run.Some? ==>
          && (p.pc.Publishing? || p.pc.Signalling? || p.pc.Removing? || p.pc.Done?)
          && p.run.value.since.step < p.run.value.until < s.steps
          && (p.run.value.ok.Some? ==> StoreKey(q).Some? && KeptInv(c, s, StoreKey(q).value, p.run.value.ok.value)))
    && (p.pc.LookedUp? && p.pc.got.Some? ==> FromStore(q, s, p.pc.got.value.original))
    && (p.pc.Rechecked? && p.pc.got.Some? ==> FromStore(q, s, p.pc.got.value.original))
    && (p.pc.Publishing? || p.pc.Signalling? || p.pc.Removing? ==>
          HitInv(q, s, r, p.pc.outcome) && Accounted(q, p.run, p.pc.outcome))
    && (p.pc.Done? ==> FinalInv(q, s, r, p.run, p.pc.final))
  }

  /** A success that the route produced for a cached key is on record as stored by that execution. */
  ghost predicate Accounted(q: Request, run: Option<Run>, o: Outcome) {
    o.Replied? && o.reply.Fresh? && Cacheable(o.reply.response) && StoreKey(q).Some? ==>
      run.Some? && run.value.ok.Some? && run.value.ok.value.response == o.reply.response
  }

  ghost predicate FinalInv(q: Request, s: State, r: RequestId, run: Option<Run>, f: Final) {
    match f
    case FromCache(original) => FromStore(q, s, original)
    case Led(outcome) => HitInv(q, s, r, outcome) && Accounted(q, run, outcome)
    case Unshared(outcome) => !(outcome.Replied? && outcome.reply.Hit?) && Accounted(q, run, outcome)
    case _ => true
  }

  /** l's execution ended before r's began; if it ended in a cacheable success, its entry was lost by then. */
  ghost predicate Before(s: State, l: RequestId, r: RequestId)
    requires l < |s.procs| && r < |s.procs|
  {
    && s.procs[l].run.Some? && Began(s.procs[r]).Some?
    && var u, m := s.procs[l].run.value, Began(s.procs[r]).value;
       && u.until < m.step
       && (u.ok.Some? ==> Lost(u.ok.value, m.time, m.clears))
  }

  ghost predicate PairInv(c: Setup, s: State, l: RequestId, r: RequestId)
    requires WellFormed(c, s) && l < |s.procs| && r < |s.procs|
  {
    SameKey(c, l, r) ==>
      && (Began(s.procs[l]).Some? && Began(s.procs[r]).Some? ==> Before(s, l, r) || Before(s, r, l))
      && RecheckInv(s, l, r)
  }

  /** Whatever l stored before is lost, or r's second lookup has seen an entry at least as long-lived. */
  ghost predicate RecheckInv(s: State, l: RequestId, r: RequestId)
    requires l < |s.procs| && r < |s.procs|
  {
    var got := s.procs[r].pc;
    got.Rechecked? && s.procs[l].run.Some? && s.procs[l].run.value.ok.Some? ==>
      var k := s.procs[l].run.value.ok.value;
      Lost(k, s.now, s.clears) || (got.got.Some? && k.expiry <= got.got.value.expiry)
  }

  ghost predicate RunsInv(c: Setup, s: State)
    requires WellFormed(c, s)
  {
    && CacheInv(c, s)
    && (forall r :: 0 <= r < |s.procs| ==> RunInv(c, s, r))
    && (forall l, r :: 0 <= l < |s.procs| && 0 <= r < |s.procs| ==> PairInv(c, s, l, r))
  }

  // ---------------------------------------------------------------------------
  // What time, clearing and storing do to kept entries
  // ---------------------------------------------------------------------------

  /** t is a later state: clock and clear counter grow, entries are only prolonged or cleared away. */
  ghost predicate Later(s: State, t: State) {
    && s.now <= t.now && s.clears <= t.clears && s.steps < t.steps && s.stored <= t.stored
    && (forall ck :: ck in s.cache ==>
          s.clears < t.clears || (ck in t.cache && s.cache[ck].expiry <= t.cache[ck].expiry))
  }

  lemma KeptStays(c: Setup, s: State, t: State, ck: string, k: Kept)
    requires Later(s, t) && KeptInv(c, s, ck, k)
    ensures KeptInv(c, t, ck, k)
  {
  }

  lemma RunStays(c: Setup, s: State, t: State, r: RequestId)
    requires WellFormed(c, s) && WellFormed(c, t) && r < |s.procs| == |t.procs| && t.procs[r] == s.procs[r]
    requires Later(s, t) && RunInv(c, s, r)
    ensures RunInv(c, t, r)
  {
    var q, p := c.requests[r], s.procs[r];
    if p.pc.Executing? && StoreKey(q).Some? {
      forall k | k in p.pc.kept
        ensures KeptInv(c, t, StoreKey(q).value, k)
      {
        KeptStays(c, s, t, StoreKey(q).value, k);
      }
    }
    if p.run.Some? && p.run.value.ok.Some? {
      KeptStays(c, s, t, StoreKey(q).value, p.run.value.ok.value);
    }
  }

  /** A step of request r keeps the executions in order if it keeps those of r. */
  lemma RunsFrame(c: Setup, s: State, t: State, r: RequestId)
    requires WellFormed(c, s) && WellFormed(c, t) && RunsInv(c, s)
    requires r < |s.procs| && t.procs == s.procs[r := t.procs[r]]
    requires Later(s, t) && CacheInv(c, t) && RunInv(c, t, r)
    requires forall l :: 0 <= l < |s.procs| && l != r ==> PairInv(c, t, l, r) && PairInv(c, t, r, l)
    ensures RunsInv(c, t)
  {
    forall i | 0 <= i < |t.procs| && i != r
      ensures RunInv(c, t, i)
    {
      assert RunInv(c, s, i);
      RunStays(c, s, t, i);
    }
    forall i, j | 0 <= i < |t.procs| && 0 <= j < |t.procs|
      ensures PairInv(c, t, i, j)
    {
      if i != r && j != r {
        assert PairInv(c, s, i, j);
      }
    }
  }

  /** A step that neither begins nor ends an execution nor looks at the cache again. */
  lemma RunsQuiet(c: Setup, s: State, t: State, r: RequestId)
    requires WellFormed(c, s) && WellFormed(c, t) && RunsInv(c, s)
    requires r < |s.procs| && t.procs == s.procs[r := t.procs[r]]
    requires Later(s, t) && CacheInv(c, t) && RunInv(c, t, r)
    requires Began(t.procs[r]) == Began(s.procs[r]) && t.procs[r].run == s.procs[r].run
    requires t.procs[r].pc.Rechecked? ==> t.procs[r].pc == s.procs[r].pc
    ensures RunsInv(c, t)
  {
    forall l | 0 <= l < |s.procs| && l != r
      ensures PairInv(c, t, l, r) && PairInv(c, t, r, l)
    {
      assert PairInv(c, s, l, r) && PairInv(c, s, r, l);
    }
    RunsFrame(c, s, t, r);
  }

  // ---------------------------------------------------------------------------
  // Every step keeps the executions in order
  // ---------------------------------------------------------------------------

  lemma CacheStays(c: Setup, s: State, t: State)
    requires CacheInv(c, s) && t.cache == s.cache && t.stored == s.stored && s.now <= t.now
    ensures CacheInv(c, t)
  {
    forall ck | ck in t.cache
      ensures SlotInv(c, t, ck)
    {
      assert SlotInv(c, s, ck);
    }
  }

  lemma LookKeepsRuns(c: Setup, s: State, r: RequestId)
    requires WellFormed(c, s) && Enabled(c, s, Lookup(r)) && RunsInv(c, s)
    ensures RunsInv(c, Look(c, s, r))
  {
    var q, t := c.requests[r], Look(c, s, r);
    assert RunInv(c, s, r);
    if LookupKey(q).Some? && LookupKey(q).value in s.cache {
      assert SlotInv(c, s, LookupKey(q).value);
    }
    CacheStays(c, s, t);
    if LookupKey(q).Some? || CoalescingKey(q).Some? {
      RunsQuiet(c, s, t, r);
    } else {
      RunsFrame(c, s, t, r);
    }
  }

  lemma ServeKeepsRuns(c: Setup, s: State, r: RequestId)
    requires WellFormed(c, s) && Enabled(c, s, CheckLookup(r)) && RunsInv(c, s)
    ensures RunsInv(c, Serve(c, s, r))
  {
    var t := Serve(c, s, r);
    assert RunInv(c, s, r);
    CacheStays(c, s, t);
    if Live(s.procs[r].pc.got, s.now) || CoalescingKey(c.requests[r]).Some? {
      RunsQuiet(c, s, t, r);
    } else {
      RunsFrame(c, s, t, r);
    }
  }

  lemma JoinKeepsRuns(c: Setup, s: State, r: RequestId)
    requires WellFormed(c, s) && Enabled(c, s, Register(r)) && RunsInv(c, s)
    ensures RunsInv(c, Join(c, s, r))
  {
    var t := Join(c, s, r);
    assert RunInv(c, s, r);
    CacheStays(c, s, t);
    RunsQuiet(c, s, t, r);
  }

  lemma GiveUpKeepsRuns(c: Setup, s: State, r: RequestId, failure: Failure)
    requires WellFormed(c, s) && Enabled(c, s, Abort(r, failure)) && RunsInv(c, s)
    ensures RunsInv(c, GiveUp(c, s, r, failure))
  {
    var t := GiveUp(c, s, r, failure);
    assert RunInv(c, s, r);
    CacheStays(c, s, t);
    RunsQuiet(c, s, t, r);
  }

  lemma WriteSlotKeepsRuns(c: Setup, s: State, r: RequestId)
    requires WellFormed(c, s) && Enabled(c, s, Publish(r)) && RunsInv(c, s)
    ensures RunsInv(c, WriteSlot(c, s, r))
  {
    var t := WriteSlot(c, s, r);
    assert RunInv(c, s, r);
    CacheStays(c, s, t);
    RunsQuiet(c, s, t, r);
  }

  lemma SetEventKeepsRuns(c: Setup, s: State, r: RequestId)
    requires WellFormed(c, s) && Enabled(c, s, Signal(r)) && RunsInv(c, s)
    ensures RunsInv(c, SetEvent(c, s, r))
  {
    var t := SetEvent(c, s, r);
    assert RunInv(c, s, r);
    CacheStays(c, s, t);
    RunsQuiet(c, s, t, r);
  }

  lemma LeaveKeepsRuns(c: Setup, s: State, r: RequestId)
    requires WellFormed(c, s) && Enabled(c, s, Remove(r)) && RunsInv(c, s)
    ensures RunsInv(c, Leave(c, s, r))
  {
    var t := Leave(c, s, r);
    assert RunInv(c, s, r);
    CacheStays(c, s, t);
    RunsQuiet(c, s, t, r);
  }

  lemma ReadErrorKeepsRuns(c: Setup, s: State, r: RequestId)
    requires WellFormed(c, s) && Enabled(c, s, Wake(r)) && RunsInv(c, s)
    ensures RunsInv(c, ReadError(c, s, r))
  {
    var t := ReadError(c, s, r);
    assert RunInv(c, s, r);
    CacheStays(c, s, t);
    RunsQuiet(c, s, t, r);
  }

  lemma ReadSlotKeepsRuns(c: Setup, s: State, r: RequestId)
    requires WellFormed(c, s) && Enabled(c, s, ReadResult(r)) && RunsInv(c, s)
    ensures RunsInv(c, ReadSlot(c, s, r))
  {
    var t := ReadSlot(c, s, r);
    assert RunInv(c, s, r);
    CacheStays(c, s, t);
    RunsQuiet(c, s, t, r);
  }

  /** Storing prolongs what was there: the lifetime of a key is fixed and the clock does not go back. */
  lemma PutIsLater(c: Setup, s: State, ck: string, response: Response)
    requires CacheInv(c, s) && ck in c.ttl && response.status < 400
    ensures var t := CachePut(c, s, ck, response).(steps := s.steps + 1); Later(s, t) && CacheInv(c, t)
  {
    var t := CachePut(c, s, ck, response).(steps := s.steps + 1);
    forall k | k in s.cache
      ensures k in t.cache && s.cache[k].expiry <= t.cache[k].expiry
    {
      assert SlotInv(c, s, k);
    }
    forall k | k in t.cache
      ensures SlotInv(c, t, k)
    {
      assert k != ck ==> SlotInv(c, s, k);
    }
  }

  lemma KeepKeepsRuns(c: Setup, s: State, r: RequestId, response: Response)
    requires ValidSetup(c) && WellFormed(c, s) && Enabled(c, s, Store(r, response)) && RunsInv(c, s)
    ensures RunsInv(c, Keep(c, s, r, response))
  {
    var t, ck := Keep(c, s, r, response), StoreKey(c.requests[r]).value;
    PutIsLater(c, s, ck, response);
    assert Later(s, t) && CacheInv(c, t) by {
      CacheStays(c, CachePut(c, s, ck, response).(steps := s.steps + 1), t);
    }
    assert RunInv(c, s, r);
    forall k | k in t.procs[r].pc.kept
      ensures KeptInv(c, t, ck, k)
    {
      if k in s.procs[r].pc.kept {
        KeptStays(c, s, t, ck, k);
      }
    }
    RunsQuiet(c, s, t, r);
  }

  /** An execution of a leader begins: every earlier execution for its key is over and its entry lost. */
  lemma BeginKeepsRuns(c: Setup, s: State, t: State, r: RequestId)
    requires WellFormed(c, s) && WellFormed(c, t) && SafeInv(c, s) && RunsInv(c, s)
    requires r < |s.procs| && Leading(c.requests[r], s.procs[r].pc) && Began(s.procs[r]) == None
    requires t == Update(s, r, BeginRun(s, s.procs[r]))
    requires forall l :: 0 <= l < |s.procs| && SameKey(c, l, r) && s.procs[l].run.Some? && s.procs[l].run.value.ok.Some?
                         ==> Lost(s.procs[l].run.value.ok.value, s.now, s.clears)
    ensures RunsInv(c, t)
  {
    CacheStays(c, s, t);
    forall l | 0 <= l < |s.procs| && l != r
      ensures PairInv(c, t, l, r) && PairInv(c, t, r, l)
    {
      if SameKey(c, l, r) && Began(s.procs[l]).Some? {
        assert HoldsKey(c, s, r);
        assert Leading(c.requests[l], s.procs[l].pc) ==> HoldsKey(c, s, l);
        assert RunInv(c, s, l);
        assert Before(t, l, r);
      }
    }
    RunsFrame(c, s, t, r);
  }

  lemma LookAgainKeepsRuns(c: Setup, s: State, r: RequestId)
    requires WellFormed(c, s) && Enabled(c, s, Recheck(r)) && SafeInv(c, s) && RunsInv(c, s)
    ensures RunsInv(c, LookAgain(c, s, r))
  {
    var q, t := c.requests[r], LookAgain(c, s, r);
    assert Resolves(q, s, r) && RunInv(c, s, r);
    forall l | 0 <= l < |s.procs| && SameKey(c, l, r) && s.procs[l].run.Some? && s.procs[l].run.value.ok.Some?
      ensures q.Cached? && KeptInv(c, s, q.cacheKey, s.procs[l].run.value.ok.value)
    {
      assert RunInv(c, s, l);
    }
    if q.Cached? {
      if q.cacheKey in s.cache {
        assert SlotInv(c, s, q.cacheKey);
      }
      CacheStays(c, s, t);
      forall l | 0 <= l < |s.procs| && l != r
        ensures PairInv(c, t, l, r) && PairInv(c, t, r, l)
      {
        assert PairInv(c, s, l, r) && PairInv(c, s, r, l);
      }
      RunsFrame(c, s, t, r);
    } else {
      BeginKeepsRuns(c, s, t, r);
    }
  }

  lemma ServeOrRunKeepsRuns(c: Setup, s: State, r: RequestId)
    requires WellFormed(c, s) && Enabled(c, s, CheckRecheck(r)) && SafeInv(c, s) && RunsInv(c, s)
    ensures RunsInv(c, ServeOrRun(c, s, r))
  {
    var t := ServeOrRun(c, s, r);
    assert RunInv(c, s, r);
    if Live(s.procs[r].pc.got, s.now) {
      CacheStays(c, s, t);
      RunsQuiet(c, s, t, r);
    } else {
      forall l | 0 <= l < |s.procs| && SameKey(c, l, r) && s.procs[l].run.Some? && s.procs[l].run.value.ok.Some?
        ensures Lost(s.procs[l].run.value.ok.value, s.now, s.clears)
      {
        assert PairInv(c, s, l, r);
      }
      BeginKeepsRuns(c, s, t, r);
    }
  }

  lemma EndRunKeepsRuns(c: Setup, s: State, r: RequestId, outcome: Outcome, ok: Option<Kept>)
    requires WellFormed(c, s) && Enabled(c, s, Return(r, outcome, ok)) && SafeInv(c, s) && RunsInv(c, s)
    ensures RunsInv(c, EndRun(c, s, r, outcome, ok))
  {
    var t := EndRun(c, s, r, outcome, ok);
    assert RunInv(c, s, r);
    CacheStays(c, s, t);
    forall l | 0 <= l < |s.procs| && l != r
      ensures PairInv(c, t, l, r) && PairInv(c, t, r, l)
    {
      assert PairInv(c, s, l, r) && PairInv(c, s, r, l);
      if SameKey(c, l, r) {
        assert HoldsKey(c, s, r);
        assert Leading(c.requests[l], s.procs[l].pc) ==> HoldsKey(c, s, l);
      }
    }
    RunsFrame(c, s, t, r);
  }

  lemma EnvironmentKeepsRuns(c: Setup, s: State, t: State)
    requires WellFormed(c, s) && WellFormed(c, t) && RunsInv(c, s)
    requires t.procs == s.procs && Later(s, t) && CacheInv(c, t)
    ensures RunsInv(c, t)
  {
    forall r | 0 <= r < |t.procs|
      ensures RunInv(c, t, r)
    {
      assert RunInv(c, s, r);
      RunStays(c, s, t, r);
    }
    forall l, r | 0 <= l < |t.procs| && 0 <= r < |t.procs|
      ensures PairInv(c, t, l, r)
    {
      assert PairInv(c, s, l, r);
    }
  }

  lemma EnvironmentStepKeepsRuns(c: Setup, s: State, step: Step)
    requires ValidSetup(c) && SafeInv(c, s) && RunsInv(c, s) && Enabled(c, s, step)
    requires step.Tick? || step.ClearCache? || step.Straggle?
    ensures RunsInv(c, Apply(c, s, step))
  {
    if step.Tick? {
      CacheStays(c, s, Apply(c, s, step));
    } else if step.Straggle? {
      PutIsLater(c, s, step.ck, step.late);
    }
    EnvironmentKeepsRuns(c, s, Apply(c, s, step));
  }

  lemma EarlyStepKeepsRuns(c: Setup, s: State, step: Step)
    requires ValidSetup(c) && SafeInv(c, s) && RunsInv(c, s) && Enabled(c, s, step)
    requires step.Lookup? || step.CheckLookup? || step.Register? || step.Recheck? || step.CheckRecheck? || step.Abort?
    ensures RunsInv(c, Apply(c, s, step))
  {
    match step
    case Lookup(r) => LookKeepsRuns(c, s, r);
    case CheckLookup(r) => ServeKeepsRuns(c, s, r);
    case Register(r) => JoinKeepsRuns(c, s, r);
    case Recheck(r) => LookAgainKeepsRuns(c, s, r);
    case CheckRecheck(r) => ServeOrRunKeepsRuns(c, s, r);
    case Abort(r, failure) => GiveUpKeepsRuns(c, s, r, failure);
  }

  lemma LateStepKeepsRuns(c: Setup, s: State, step: Step)
    requires ValidSetup(c) && SafeInv(c, s) && RunsInv(c, s) && Enabled(c, s, step)
    requires step.Store? || step.Return? || step.Publish? || step.Signal? || step.Remove? || step.Wake? || step.ReadResult?
    ensures RunsInv(c, Apply(c, s, step))
  {
    match step
    case Store(r, response) => KeepKeepsRuns(c, s, r, response);
    case Return(r, outcome, ok) => EndRunKeepsRuns(c, s, r, outcome, ok);
    case Publish(r) => WriteSlotKeepsRuns(c, s, r);
    case Signal(r) => SetEventKeepsRuns(c, s, r);
    case Remove(r) => LeaveKeepsRuns(c, s, r);
    case Wake(r) => ReadErrorKeepsRuns(c, s, r);
    case ReadResult(r) => ReadSlotKeepsRuns(c, s, r);
  }

  lemma StepKeepsRuns(c: Setup, s: State, step: Step)
    requires ValidSetup(c) && SafeInv(c, s) && RunsInv(c, s) && Enabled(c, s, step)
    ensures RunsInv(c, Apply(c, s, step))
  {
    if step.Tick? || step.ClearCache? || step.Straggle? {
      EnvironmentStepKeepsRuns(c, s, step);
    } else if step.Lookup? || step.CheckLookup? || step.Register? || step.Recheck? || step.CheckRecheck? || step.Abort? {
      EarlyStepKeepsRuns(c, s, step);
    } else {
      LateStepKeepsRuns(c, s, step);
    }
  }

  lemma {:induction false} RunKeepsRuns(c: Setup, s: State, steps: seq<Step>)
    requires ValidSetup(c) && SafeInv(c, s) && RunsInv(c, s) && Legal(c, s, steps)
    ensures RunsInv(c, After(c, s, steps))
    decreases |steps|
  {
    if steps != [] {
      StepIsSafe(c, s, steps[0]);
      StepKeepsRuns(c, s, steps[0]);
      RunKeepsRuns(c, Apply(c, s, steps[0]), steps[1..]);
    }
  }

  lemma InitialRuns(c: Setup)
    requires ValidSetup(c)
    ensures RunsInv(c, Initial(c))
  {
  }

  lemma InitialIsReachable(c: Setup)
    requires ValidSetup(c)
    ensures Reachable(c, Initial(c))
  {
    assert Legal(c, Initial(c), []) && After(c, Initial(c), []) == Initial(c);
  }

  lemma ReachableRuns(c: Setup, s: State)
    requires Reachable(c, s)
    ensures SafeInv(c, s) && RunsInv(c, s)
  {
    var steps :| Legal(c, Initial(c), steps) && After(c, Initial(c), steps) == s;
    ReachableIsSafe(c, s);
    InitialIsReachable(c);
    ReachableIsSafe(c, Initial(c));
    InitialRuns(c);
    RunKeepsRuns(c, Initial(c), steps);
  }

  // ---------------------------------------------------------------------------
  // Theorems
  // ---------------------------------------------------------------------------

  /** Two executions for one key never overlap: one has ended before the other begins. */
  lemma MutualExclusionTheorem(c: Setup, s: State, l: RequestId, r: RequestId)
    requires Reachable(c, s) && l < |s.procs| && r < |s.procs| && SameKey(c, l, r)
    requires Began(s.procs[l]).Some? && Began(s.procs[r]).Some?
    ensures || (s.procs[l].run.Some? && s.procs[l].run.value.until < Began(s.procs[r]).value.step)
            || (s.procs[r].run.Some? && s.procs[r].run.value.until < Began(s.procs[l]).value.step)
  {
    ReachableRuns(c, s);
    assert PairInv(c, s, l, r);
  }

  /** From the end of its execution on: the request leads with a success that its own execution produced. */
  ghost predicate ProducedSuccess(p: Proc, response: Response) {
    && Cacheable(response)
    && match p.pc
       case Publishing(outcome) => outcome == Replied(Fresh(response))
       case Signalling(outcome) => outcome == Replied(Fresh(response))
       case Removing(outcome) => outcome == Replied(Fresh(response))
       case Done(final) => final == Led(Replied(Fresh(response)))
       case _ => false
  }

  ghost predicate Separated(earlier: Run, later: Mark)
    requires earlier.ok.Some?
  {
    earlier.until < later.step && Lost(earlier.ok.value, later.time, later.clears)
  }

  /**
   Single execution per cache lifetime. Two executions for one cache-backed key that both ended in a
   success, whether or not it is published yet, are ordered, each stored what it produced, and when the
   later one began the entry stored by the earlier one had expired, or the cache had been cleared since.
   */
  lemma SingleExecutionTheorem(c: Setup, s: State, l: RequestId, r: RequestId, a: Response, b: Response)
    requires Reachable(c, s) && l < |s.procs| && r < |s.procs| && SameKey(c, l, r) && c.requests[l].Cached?
    requires ProducedSuccess(s.procs[l], a) && ProducedSuccess(s.procs[r], b)
    ensures s.procs[l].run.Some? && s.procs[r].run.Some?
    ensures var u, v := s.procs[l].run.value, s.procs[r].run.value;
            && u.ok.Some? && u.ok.value.response == a
            && v.ok.Some? && v.ok.value.response == b
            && (|| (u.until < v.since.step && (u.ok.value.expiry <= v.since.time || u.ok.value.clears < v.since.clears))
                || (v.until < u.since.step && (v.ok.value.expiry <= u.since.time || v.ok.value.clears < u.since.clears)))
  {
    ReachableRuns(c, s);
    assert RunInv(c, s, l) && RunInv(c, s, r) && PairInv(c, s, l, r);
  }

  /**
   No execution is begun in vain: once an execution for a key has ended in a stored success, any other
   execution for that key, finished in whatever way or still running, either had ended before the first
   began, or began when the stored entry was lost.
   */
  lemma ExecutionsAreNeeded(c: Setup, s: State, l: RequestId, r: RequestId)
    requires Reachable(c, s) && l < |s.procs| && r < |s.procs| && SameKey(c, l, r)
    requires s.procs[l].run.Some? && s.procs[l].run.value.ok.Some? && Began(s.procs[r]).Some?
    ensures var u, since := s.procs[l].run.value, Began(s.procs[r]).value;
            || (u.until < since.step && (u.ok.value.expiry <= since.time || u.ok.value.clears < since.clears))
            || (s.procs[r].run.Some? && s.procs[r].run.value.until < u.since.step)
  {
    ReachableRuns(c, s);
    assert RunInv(c, s, l) && PairInv(c, s, l, r);
  }

  /** Whatever is served as a hit, to a request, to a leader or to the waiters of a leader, was stored
      under the request's cache key as a success. */
  lemma HitTheorem(c: Setup, s: State, r: RequestId)
    requires Reachable(c, s) && r < |s.procs| && s.procs[r].pc.Done?
    ensures match s.procs[r].pc.final
            case FromCache(original) => StoredSuccess(c.requests[r], s, original)
            case Led(o) =>
              o.Replied? && o.reply.Hit? ==>
                o.reply.requester == r && StoredSuccess(c.requests[r], s, o.reply.original)
            case Joined(l, o) =>
              o.Replied? && o.reply.Hit? ==>
                o.reply.requester == l && StoredSuccess(c.requests[r], s, o.reply.original)
            case Unshared(o) => !(o.Replied? && o.reply.Hit?)
            case JoinedEmpty(_) => false
  {
    ReachableRuns(c, s);
    assert RunInv(c, s, r);
    WaiterTheorem(c, s, r);
    if s.procs[r].pc.final.Joined? {
      assert RunInv(c, s, s.procs[r].pc.final.leader);
    }
  }

  ghost predicate StoredSuccess(q: Request, s: State, response: Response) {
    LookupKey(q).Some? && (LookupKey(q).value, response) in s.stored && response.status < 400
  }
}
