/**
 What every run of the coalescing protocol keeps: the registry invariant, the published outcome,
 the bookkeeping of the cache, and from them that executions for one key never overlap and that two
 cacheable successes are separated by the loss of the stored entry.
 */
module CoalescingSafety {
  import opened Text
  import opened Responses
  import opened Coalescing

  ghost predicate SameKey(c: Setup, l: RequestId, r: RequestId)
    requires l < |c.requests| && r < |c.requests|
  {
    l != r && CoalescingKey(c.requests[l]).Some? && CoalescingKey(c.requests[l]) == CoalescingKey(c.requests[r])
  }

  // ---------------------------------------------------------------------------
  // The registry
  // ---------------------------------------------------------------------------

  ghost predicate RegistryInv(c: Setup, s: State)
    requires WellFormed(c, s)
  {
    && (forall k :: k in s.inflight ==> RegisteredBy(c, s, k))
    && (forall l :: 0 <= l < |s.procs| && Leading(c.requests[l], s.procs[l].pc) ==> HoldsKey(c, s, l))
    && (forall l :: l in s.entries ==> EntryInv(c, s, l))
  }

  ghost predicate RegisteredBy(c: Setup, s: State, k: Key)
    requires WellFormed(c, s) && k in s.inflight
  {
    var l := s.inflight[k];
    l < |s.procs| && CoalescingKey(c.requests[l]) == Some(k) && Leading(c.requests[l], s.procs[l].pc)
  }

  ghost predicate HoldsKey(c: Setup, s: State, l: RequestId)
    requires WellFormed(c, s) && l < |s.procs| && CoalescingKey(c.requests[l]).Some?
  {
    var k := CoalescingKey(c.requests[l]).value;
    k in s.inflight && s.inflight[k] == l && l in s.entries
  }

  /** Exactly one slot is filled, with what the outcome says. */
  ghost predicate Holds(e: InFlight, o: Outcome) {
    match o
    case Replied(reply) => e.result == Some(reply) && e.error == None
    case Failed(failure) => e.result == None && e.error == Some(failure)
  }

  ghost predicate Empty(e: InFlight) {
    e.result == None && e.error == None
  }

  /** An entry in step with the program counter of the request that created it. */
  ghost predicate EntryInv(c: Setup, s: State, l: RequestId)
    requires WellFormed(c, s) && l in s.entries
  {
    && l < |s.procs|
    && CoalescingKey(c.requests[l]).Some?
    && var e, pc := s.entries[l], s.procs[l].pc;
       && (Leading(c.requests[l], pc) || (pc.Done? && pc.final.Led?))
       && (e.event <==> pc.Removing? || pc.Done?)
       && (pc.Done? ==> Holds(e, pc.final.outcome))
       && (pc.Signalling? || pc.Removing? ==> Holds(e, pc.outcome))
       && (pc.Rechecking? || pc.Rechecked? || pc.Executing? || pc.Publishing? ==> Empty(e))
  }

  ghost predicate SameEntry(a: InFlight, b: InFlight) {
    a.event == b.event && a.result == b.result && a.error == b.error
  }

  /** A step of request r keeps the registry if r itself is left in order and nobody else is disturbed. */
  lemma RegistryFrame(c: Setup, s: State, t: State, r: RequestId)
    requires WellFormed(c, s) && WellFormed(c, t) && RegistryInv(c, s)
    requires r < |s.procs| && t.procs == s.procs[r := t.procs[r]]
    requires forall k :: k in s.inflight && s.inflight[k] != r ==> k in t.inflight && t.inflight[k] == s.inflight[k]
    requires forall k :: k in t.inflight && t.inflight[k] != r ==> k in s.inflight && t.inflight[k] == s.inflight[k]
    requires forall k :: k in t.inflight && t.inflight[k] == r ==> RegisteredBy(c, t, k)
    requires forall l :: l in t.entries && l != r ==> l in s.entries && SameEntry(t.entries[l], s.entries[l])
    requires Leading(c.requests[r], t.procs[r].pc) ==> HoldsKey(c, t, r)
    requires r in t.entries ==> EntryInv(c, t, r)
    ensures RegistryInv(c, t)
  {
    forall k | k in t.inflight && t.inflight[k] != r
      ensures RegisteredBy(c, t, k)
    {
      assert RegisteredBy(c, s, k);
    }
    forall l | 0 <= l < |t.procs| && l != r && Leading(c.requests[l], t.procs[l].pc)
      ensures HoldsKey(c, t, l)
    {
      assert HoldsKey(c, s, l);
    }
    forall l | l in t.entries && l != r
      ensures EntryInv(c, t, l)
    {
      assert EntryInv(c, s, l);
    }
  }

  /** A step that leaves registry and entries alone. */
  lemma RegistryQuiet(c: Setup, s: State, t: State, r: RequestId)
    requires WellFormed(c, s) && WellFormed(c, t) && RegistryInv(c, s)
    requires r < |s.procs| && t.procs == s.procs[r := t.procs[r]]
    requires t.inflight == s.inflight && t.entries == s.entries
    requires Leading(c.requests[r], t.procs[r].pc) == Leading(c.requests[r], s.procs[r].pc)
    requires r in t.entries ==> EntryInv(c, t, r)
    ensures RegistryInv(c, t)
  {
    forall k | k in t.inflight && t.inflight[k] == r
      ensures RegisteredBy(c, t, k)
    {
      assert RegisteredBy(c, s, k);
    }
    assert Leading(c.requests[r], s.procs[r].pc) ==> HoldsKey(c, s, r);
    RegistryFrame(c, s, t, r);
  }

  // ---------------------------------------------------------------------------
  // Calls: who waits on whom, and when
  // ---------------------------------------------------------------------------

  /** Request r joined leader l while l's call was under way. */
  ghost predicate JoinedOn(c: Setup, s: State, r: RequestId, l: RequestId)
    requires WellFormed(c, s) && r < |s.procs|
  {
    && l in s.entries && l < |s.procs|
    && SameKey(c, l, r)
    && s.procs[l].begun < s.procs[l].joined < s.procs[r].joined
    && (s.procs[l].pc.Done? ==> s.procs[r].joined < s.procs[l].ended)
  }

  /** Past the critical section that registers. */
  predicate HasRegistered(pc: PC) {
    || InFlightPC(pc) || pc.Waiting? || pc.Woken?
    || (pc.Done? && (pc.final.Led? || pc.final.Joined? || pc.final.JoinedEmpty?))
  }

  ghost predicate CallInv(c: Setup, s: State, r: RequestId)
    requires WellFormed(c, s) && r < |s.procs|
  {
    var p := s.procs[r];
    && (!p.pc.Start? ==> p.begun < s.steps)
    && (r in s.entries || HasRegistered(p.pc) ==> p.begun < p.joined < s.steps)
    && (p.pc.Done? ==> p.begun <= p.ended < s.steps)
    && (p.pc.Done? && HasRegistered(p.pc) ==> p.joined < p.ended)
    && (p.pc.Waiting? ==> JoinedOn(c, s, r, p.pc.leader))
    && (p.pc.Woken? ==>
          && JoinedOn(c, s, r, p.pc.leader)
          && s.entries[p.pc.leader].event && s.entries[p.pc.leader].error == None)
    && (p.pc.Done? ==> !p.pc.final.JoinedEmpty?)
    && (p.pc.Done? && p.pc.final.Joined? ==>
          && JoinedOn(c, s, r, p.pc.final.leader)
          && s.entries[p.pc.final.leader].event
          && Holds(s.entries[p.pc.final.leader], p.pc.final.outcome))
  }

  ghost predicate CallsInv(c: Setup, s: State)
    requires WellFormed(c, s)
  {
    forall r :: 0 <= r < |s.procs| ==> CallInv(c, s, r)
  }

  lemma CallsFrame(c: Setup, s: State, t: State, r: RequestId)
    requires WellFormed(c, s) && WellFormed(c, t) && CallsInv(c, s)
    requires r < |s.procs| && t.procs == s.procs[r := t.procs[r]] && t.steps == s.steps + 1
    requires s.entries.Keys <= t.entries.Keys && t.entries.Keys <= s.entries.Keys + {r}
    requires forall l :: l in s.entries && s.entries[l].event ==> SameEntry(t.entries[l], s.entries[l])
    requires r in s.entries ==> t.procs[r].begun == s.procs[r].begun && t.procs[r].joined == s.procs[r].joined
    requires t.procs[r].pc.Done? ==> t.procs[r].ended == s.steps
    requires CallInv(c, t, r)
    ensures CallsInv(c, t)
  {
    forall i | 0 <= i < |t.procs| && i != r
      ensures CallInv(c, t, i)
    {
      assert CallInv(c, s, i);
    }
  }

  // ---------------------------------------------------------------------------
  // Every step keeps both
  // ---------------------------------------------------------------------------

  ghost predicate SafeInv(c: Setup, s: State) {
    WellFormed(c, s) && RegistryInv(c, s) && CallsInv(c, s)
  }

  /** A request that neither leads nor is done has no entry. */
  lemma OutsiderHasNoEntry(c: Setup, s: State, r: RequestId)
    requires SafeInv(c, s) && r < |s.procs| && !s.procs[r].pc.Done? && !Leading(c.requests[r], s.procs[r].pc)
    ensures r !in s.entries
  {
    assert forall l :: l in s.entries ==> EntryInv(c, s, l);
  }

  /** A step of a request without an entry, which leads neither before nor after it. */
  lemma OutsiderIsSafe(c: Setup, s: State, t: State, r: RequestId)
    requires SafeInv(c, s) && WellFormed(c, t)
    requires r < |s.procs| && t.procs == s.procs[r := t.procs[r]] && t.steps == s.steps + 1
    requires t.inflight == s.inflight && t.entries == s.entries && r !in s.entries
    requires !Leading(c.requests[r], s.procs[r].pc) && !Leading(c.requests[r], t.procs[r].pc)
    requires t.procs[r].pc.Done? ==> t.procs[r].ended == s.steps
    requires CallInv(c, t, r)
    ensures SafeInv(c, t)
  {
    RegistryQuiet(c, s, t, r);
    CallsFrame(c, s, t, r);
  }

  lemma LookIsSafe(c: Setup, s: State, r: RequestId)
    requires SafeInv(c, s) && Enabled(c, s, Lookup(r))
    ensures SafeInv(c, Look(c, s, r))
  {
    OutsiderHasNoEntry(c, s, r);
    LookIsOutside(c, s, r);
    LookKeepsCall(c, s, r);
    OutsiderIsSafe(c, s, Look(c, s, r), r);
  }

  lemma LookIsOutside(c: Setup, s: State, r: RequestId)
    requires WellFormed(c, s) && Enabled(c, s, Lookup(r))
    ensures var t := Look(c, s, r);
            && t.procs == s.procs[r := t.procs[r]] && t.steps == s.steps + 1
            && t.inflight == s.inflight && t.entries == s.entries
            && !Leading(c.requests[r], t.procs[r].pc) && !t.procs[r].pc.Done?
  {
  }

  lemma LookKeepsCall(c: Setup, s: State, r: RequestId)
    requires SafeInv(c, s) && Enabled(c, s, Lookup(r)) && r !in s.entries
    ensures CallInv(c, Look(c, s, r), r)
  {
    assert CallInv(c, s, r);
  }

  lemma ServeIsSafe(c: Setup, s: State, r: RequestId)
    requires SafeInv(c, s) && Enabled(c, s, CheckLookup(r))
    ensures SafeInv(c, Serve(c, s, r))
  {
    OutsiderHasNoEntry(c, s, r);
    ServeIsOutside(c, s, r);
    ServeKeepsCall(c, s, r);
    OutsiderIsSafe(c, s, Serve(c, s, r), r);
  }

  lemma ServeIsOutside(c: Setup, s: State, r: RequestId)
    requires WellFormed(c, s) && Enabled(c, s, CheckLookup(r))
    ensures var t := Serve(c, s, r);
            && t.procs == s.procs[r := t.procs[r]] && t.steps == s.steps + 1
            && t.inflight == s.inflight && t.entries == s.entries
            && !Leading(c.requests[r], t.procs[r].pc) && (t.procs[r].pc.Done? ==> t.procs[r].ended == s.steps)
  {
  }

  lemma ServeKeepsCall(c: Setup, s: State, r: RequestId)
    requires SafeInv(c, s) && Enabled(c, s, CheckLookup(r)) && r !in s.entries
    ensures CallInv(c, Serve(c, s, r), r)
  {
    assert CallInv(c, s, r);
  }

  lemma LookAgainIsSafe(c: Setup, s: State, r: RequestId)
    requires SafeInv(c, s) && Enabled(c, s, Recheck(r))
    ensures SafeInv(c, LookAgain(c, s, r))
  {
    var t := LookAgain(c, s, r);
    assert Resolves(c.requests[r], s, r) && CallInv(c, s, r);
    assert EntryInv(c, s, r);
    RegistryQuiet(c, s, t, r);
    CallsFrame(c, s, t, r);
  }

  lemma ServeOrRunIsSafe(c: Setup, s: State, r: RequestId)
    requires SafeInv(c, s) && Enabled(c, s, CheckRecheck(r))
    ensures SafeInv(c, ServeOrRun(c, s, r))
  {
    var t := ServeOrRun(c, s, r);
    assert Resolves(c.requests[r], s, r) && CallInv(c, s, r);
    assert EntryInv(c, s, r);
    RegistryQuiet(c, s, t, r);
    CallsFrame(c, s, t, r);
  }

  lemma KeepIsSafe(c: Setup, s: State, r: RequestId, response: Response)
    requires ValidSetup(c) && SafeInv(c, s) && Enabled(c, s, Store(r, response))
    ensures SafeInv(c, Keep(c, s, r, response))
  {
    var t := Keep(c, s, r, response);
    assert Resolves(c.requests[r], s, r) && CallInv(c, s, r);
    assert r in s.entries ==> EntryInv(c, s, r);
    RegistryQuiet(c, s, t, r);
    CallsFrame(c, s, t, r);
  }

  lemma EndRunIsSafe(c: Setup, s: State, r: RequestId, outcome: Outcome, ok: Option<Kept>)
    requires SafeInv(c, s) && Enabled(c, s, Return(r, outcome, ok))
    ensures SafeInv(c, EndRun(c, s, r, outcome, ok))
  {
    EndRunKeepsCall(c, s, r, outcome, ok);
    EndRunKeepsEntry(c, s, r, outcome, ok);
    RegistryQuiet(c, s, EndRun(c, s, r, outcome, ok), r);
    CallsFrame(c, s, EndRun(c, s, r, outcome, ok), r);
  }

  lemma EndRunKeepsCall(c: Setup, s: State, r: RequestId, outcome: Outcome, ok: Option<Kept>)
    requires SafeInv(c, s) && Enabled(c, s, Return(r, outcome, ok))
    ensures CallInv(c, EndRun(c, s, r, outcome, ok), r)
  {
    assert Resolves(c.requests[r], s, r) && CallInv(c, s, r);
  }

  lemma EndRunKeepsEntry(c: Setup, s: State, r: RequestId, outcome: Outcome, ok: Option<Kept>)
    requires SafeInv(c, s) && Enabled(c, s, Return(r, outcome, ok))
    ensures var t := EndRun(c, s, r, outcome, ok);
            && (r in t.entries ==> EntryInv(c, t, r))
            && Leading(c.requests[r], t.procs[r].pc) == Leading(c.requests[r], s.procs[r].pc)
  {
    assert r in s.entries ==> EntryInv(c, s, r);
  }

  lemma ReadErrorKeepsCall(c: Setup, s: State, r: RequestId)
    requires SafeInv(c, s) && Enabled(c, s, Wake(r))
    ensures CallInv(c, ReadError(c, s, r), r)
  {
    assert CallInv(c, s, r);
    assert EntryInv(c, s, s.procs[r].pc.leader);
  }

  lemma ReadSlotKeepsCall(c: Setup, s: State, r: RequestId)
    requires SafeInv(c, s) && Enabled(c, s, ReadResult(r))
    ensures CallInv(c, ReadSlot(c, s, r), r)
  {
    assert Resolves(c.requests[r], s, r) && CallInv(c, s, r);
    assert EntryInv(c, s, s.procs[r].pc.leader);
    assert s.entries[s.procs[r].pc.leader].result.Some?;
  }

  lemma ReadErrorIsSafe(c: Setup, s: State, r: RequestId)
    requires SafeInv(c, s) && Enabled(c, s, Wake(r))
    ensures SafeInv(c, ReadError(c, s, r))
  {
    OutsiderHasNoEntry(c, s, r);
    ReadErrorKeepsCall(c, s, r);
    OutsiderIsSafe(c, s, ReadError(c, s, r), r);
  }

  lemma ReadSlotIsSafe(c: Setup, s: State, r: RequestId)
    requires SafeInv(c, s) && Enabled(c, s, ReadResult(r))
    ensures SafeInv(c, ReadSlot(c, s, r))
  {
    OutsiderHasNoEntry(c, s, r);
    ReadSlotKeepsCall(c, s, r);
    OutsiderIsSafe(c, s, ReadSlot(c, s, r), r);
  }

  lemma GiveUpIsSafe(c: Setup, s: State, r: RequestId, failure: Failure)
    requires SafeInv(c, s) && Enabled(c, s, Abort(r, failure))
    ensures SafeInv(c, GiveUp(c, s, r, failure))
  {
    var t := GiveUp(c, s, r, failure);
    assert Resolves(c.requests[r], s, r) && CallInv(c, s, r);
    assert EntryInv(c, s, r);
    RegistryQuiet(c, s, t, r);
    CallsFrame(c, s, t, r);
  }

  lemma WriteSlotIsSafe(c: Setup, s: State, r: RequestId)
    requires SafeInv(c, s) && Enabled(c, s, Publish(r))
    ensures SafeInv(c, WriteSlot(c, s, r))
  {
    WriteSlotKeepsCall(c, s, r);
    RegistryFrame(c, s, WriteSlot(c, s, r), r);
    CallsFrame(c, s, WriteSlot(c, s, r), r);
  }

  lemma WriteSlotKeepsCall(c: Setup, s: State, r: RequestId)
    requires SafeInv(c, s) && Enabled(c, s, Publish(r))
    ensures r in s.entries
    ensures var t := WriteSlot(c, s, r);
            CallInv(c, t, r) && r in t.entries && EntryInv(c, t, r) && HoldsKey(c, t, r)
    ensures forall k :: k in s.inflight && s.inflight[k] == r ==> RegisteredBy(c, WriteSlot(c, s, r), k)
  {
    assert Resolves(c.requests[r], s, r) && CallInv(c, s, r);
    assert EntryInv(c, s, r);
    assert HoldsKey(c, s, r);
    forall k | k in s.inflight && s.inflight[k] == r
      ensures RegisteredBy(c, WriteSlot(c, s, r), k)
    {
      assert RegisteredBy(c, s, k);
    }
  }

  lemma SetEventIsSafe(c: Setup, s: State, r: RequestId)
    requires SafeInv(c, s) && Enabled(c, s, Signal(r))
    ensures SafeInv(c, SetEvent(c, s, r))
  {
    var t := SetEvent(c, s, r);
    assert Resolves(c.requests[r], s, r) && CallInv(c, s, r);
    assert EntryInv(c, s, r);
    assert HoldsKey(c, s, r);
    RegistryFrame(c, s, t, r);
    CallsFrame(c, s, t, r);
  }

  lemma LeaveIsSafe(c: Setup, s: State, r: RequestId)
    requires SafeInv(c, s) && Enabled(c, s, Remove(r))
    ensures SafeInv(c, Leave(c, s, r))
  {
    var t := Leave(c, s, r);
    assert Resolves(c.requests[r], s, r) && CallInv(c, s, r);
    assert EntryInv(c, s, r);
    assert HoldsKey(c, s, r);
    forall k | k in s.inflight && s.inflight[k] == r
      ensures Some(k) == CoalescingKey(c.requests[r])
    {
      assert RegisteredBy(c, s, k);
    }
    RegistryFrame(c, s, t, r);
    CallsFrame(c, s, t, r);
  }

  lemma JoinEntryKeepsCall(c: Setup, s: State, r: RequestId, key: Key)
    requires SafeInv(c, s) && Enabled(c, s, Register(r))
    requires CoalescingKey(c.requests[r]) == Some(key) && key in s.inflight
    ensures CallInv(c, Join(c, s, r), r) && r !in s.entries
  {
    var l := s.inflight[key];
    OutsiderHasNoEntry(c, s, r);
    assert CallInv(c, s, r);
    assert RegisteredBy(c, s, key) && HoldsKey(c, s, l) && CallInv(c, s, l);
  }

  lemma JoinEntryKeepsRegistry(c: Setup, s: State, r: RequestId, key: Key)
    requires SafeInv(c, s) && Enabled(c, s, Register(r)) && r !in s.entries
    requires CoalescingKey(c.requests[r]) == Some(key) && key in s.inflight
    ensures RegistryInv(c, Join(c, s, r))
  {
    var t, l := Join(c, s, r), s.inflight[key];
    assert RegisteredBy(c, s, key) && HoldsKey(c, s, l);
    forall k | k in s.inflight
      ensures s.inflight[k] != r
    {
      assert RegisteredBy(c, s, k);
    }
    RegistryFrame(c, s, t, r);
  }

  lemma JoinEntryIsSafe(c: Setup, s: State, r: RequestId, key: Key)
    requires SafeInv(c, s) && Enabled(c, s, Register(r))
    requires CoalescingKey(c.requests[r]) == Some(key) && key in s.inflight
    ensures SafeInv(c, Join(c, s, r))
  {
    JoinEntryKeepsCall(c, s, r, key);
    JoinEntryKeepsRegistry(c, s, r, key);
    CallsFrame(c, s, Join(c, s, r), r);
  }

  lemma NewEntryIsSafe(c: Setup, s: State, r: RequestId, key: Key)
    requires SafeInv(c, s) && Enabled(c, s, Register(r))
    requires CoalescingKey(c.requests[r]) == Some(key) && key !in s.inflight
    ensures SafeInv(c, Join(c, s, r))
  {
    NewEntryIsOwn(c, s, r, key);
    RegistryFrame(c, s, Join(c, s, r), r);
    CallsFrame(c, s, Join(c, s, r), r);
  }

  lemma NewEntryIsOwn(c: Setup, s: State, r: RequestId, key: Key)
    requires SafeInv(c, s) && Enabled(c, s, Register(r))
    requires CoalescingKey(c.requests[r]) == Some(key) && key !in s.inflight
    ensures r !in s.entries
    ensures var t := Join(c, s, r);
            && t.inflight == s.inflight[key := r] && t.entries == s.entries[r := FRESH]
            && t.procs == s.procs[r := t.procs[r]] && t.steps == s.steps + 1
            && CallInv(c, t, r) && EntryInv(c, t, r) && HoldsKey(c, t, r)
            && forall k :: k in t.inflight && t.inflight[k] == r ==> RegisteredBy(c, t, k)
  {
    OutsiderHasNoEntry(c, s, r);
    assert CallInv(c, s, r);
    assert forall k :: k in s.inflight ==> RegisteredBy(c, s, k);
  }

  lemma EnvironmentIsSafe(c: Setup, s: State, t: State)
    requires SafeInv(c, s)
    requires t.procs == s.procs && t.entries == s.entries && t.inflight == s.inflight && t.steps == s.steps + 1
    ensures SafeInv(c, t)
  {
    forall r | 0 <= r < |t.procs|
      ensures Resolves(c.requests[r], t, r)
    {
      assert Resolves(c.requests[r], s, r);
    }
    assert WellFormed(c, t);
    forall k | k in t.inflight
      ensures RegisteredBy(c, t, k)
    {
      assert RegisteredBy(c, s, k);
    }
    forall l | 0 <= l < |t.procs| && Leading(c.requests[l], t.procs[l].pc)
      ensures HoldsKey(c, t, l)
    {
      assert HoldsKey(c, s, l);
    }
    forall l | l in t.entries
      ensures EntryInv(c, t, l)
    {
      assert EntryInv(c, s, l);
    }
    forall r | 0 <= r < |t.procs|
      ensures CallInv(c, t, r)
    {
      assert CallInv(c, s, r);
    }
  }

  lemma StepIsSafe(c: Setup, s: State, step: Step)
    requires ValidSetup(c) && SafeInv(c, s) && Enabled(c, s, step)
    ensures SafeInv(c, Apply(c, s, step))
  {
    match step
    case Tick(_) => EnvironmentIsSafe(c, s, Apply(c, s, step));
    case ClearCache => EnvironmentIsSafe(c, s, Apply(c, s, step));
    case Straggle(_, _) => EnvironmentIsSafe(c, s, Apply(c, s, step));
    case Lookup(r) => LookIsSafe(c, s, r);
    case CheckLookup(r) => ServeIsSafe(c, s, r);
    case Register(r) =>
      var key := CoalescingKey(c.requests[r]).value;
      if key in s.inflight { JoinEntryIsSafe(c, s, r, key); } else { NewEntryIsSafe(c, s, r, key); }
    case Recheck(r) => LookAgainIsSafe(c, s, r);
    case CheckRecheck(r) => ServeOrRunIsSafe(c, s, r);
    case Abort(r, failure) => GiveUpIsSafe(c, s, r, failure);
    case Store(r, response) => KeepIsSafe(c, s, r, response);
    case Return(r, outcome, ok) => EndRunIsSafe(c, s, r, outcome, ok);
    case Publish(r) => WriteSlotIsSafe(c, s, r);
    case Signal(r) => SetEventIsSafe(c, s, r);
    case Remove(r) => LeaveIsSafe(c, s, r);
    case Wake(r) => ReadErrorIsSafe(c, s, r);
    case ReadResult(r) => ReadSlotIsSafe(c, s, r);
  }

  lemma {:induction false} RunIsSafe(c: Setup, s: State, steps: seq<Step>)
    requires ValidSetup(c) && SafeInv(c, s) && Legal(c, s, steps)
    ensures SafeInv(c, After(c, s, steps))
    decreases |steps|
  {
    if steps != [] {
      StepIsSafe(c, s, steps[0]);
      RunIsSafe(c, Apply(c, s, steps[0]), steps[1..]);
    }
  }

  lemma ReachableIsSafe(c: Setup, s: State)
    requires Reachable(c, s)
    ensures SafeInv(c, s)
  {
    var steps :| Legal(c, Initial(c), steps) && After(c, Initial(c), steps) == s;
    RunIsSafe(c, Initial(c), steps);
  }

  // ---------------------------------------------------------------------------
  // Theorems
  // ---------------------------------------------------------------------------

  /**
   Per key at most one request is between registration and removal; it is the registered one, so the
   identity test before removal always succeeds; and the registry holds a key only while its leader
   is there.
   */
  lemma RegistryTheorem(c: Setup, s: State)
    requires Reachable(c, s)
    ensures forall l, r :: 0 <= l < |s.procs| && 0 <= r < |s.procs| && SameKey(c, l, r)
                           ==> !(Leading(c.requests[l], s.procs[l].pc) && Leading(c.requests[r], s.procs[r].pc))
    ensures forall r :: 0 <= r < |s.procs| && s.procs[r].pc.Removing?
                        ==> CoalescingKey(c.requests[r]).Some?
                            && CoalescingKey(c.requests[r]).value in s.inflight
                            && s.inflight[CoalescingKey(c.requests[r]).value] == r
    ensures forall k :: k in s.inflight
                        <==> exists l :: 0 <= l < |s.procs| && Leading(c.requests[l], s.procs[l].pc)
                                         && CoalescingKey(c.requests[l]) == Some(k)
  {
    ReachableIsSafe(c, s);
    forall l, r | 0 <= l < |s.procs| && 0 <= r < |s.procs| && SameKey(c, l, r)
      ensures !(Leading(c.requests[l], s.procs[l].pc) && Leading(c.requests[r], s.procs[r].pc))
    {
      assert Leading(c.requests[l], s.procs[l].pc) ==> HoldsKey(c, s, l);
      assert Leading(c.requests[r], s.procs[r].pc) ==> HoldsKey(c, s, r);
    }
    forall r | 0 <= r < |s.procs| && s.procs[r].pc.Removing?
      ensures CoalescingKey(c.requests[r]).Some? && HoldsKey(c, s, r)
    {
      assert Resolves(c.requests[r], s, r);
    }
    forall k | k in s.inflight
      ensures exists l :: 0 <= l < |s.procs| && Leading(c.requests[l], s.procs[l].pc) && CoalescingKey(c.requests[l]) == Some(k)
    {
      assert RegisteredBy(c, s, k);
    }
    forall l | 0 <= l < |s.procs| && Leading(c.requests[l], s.procs[l].pc)
      ensures CoalescingKey(c.requests[l]).Some? && HoldsKey(c, s, l)
    {
      assert Resolves(c.requests[l], s, l);
    }
  }

  /**
   Once an entry's event is set exactly one of its slots is filled, with the outcome its leader
   carries; the leader is past publication, and no later step changes the slots.
   */
  lemma PublishedTheorem(c: Setup, s: State, l: RequestId)
    requires Reachable(c, s) && l in s.entries && s.entries[l].event
    ensures s.entries[l].result.Some? <==> s.entries[l].error.None?
    ensures l < |s.procs|
    ensures var pc := s.procs[l].pc;
            || (pc.Removing? && Holds(s.entries[l], pc.outcome))
            || (pc.Done? && pc.final.Led? && Holds(s.entries[l], pc.final.outcome))
    ensures forall step :: Enabled(c, s, step) ==>
              l in Apply(c, s, step).entries && SameEntry(Apply(c, s, step).entries[l], s.entries[l])
  {
    ReachableIsSafe(c, s);
    assert EntryInv(c, s, l);
    forall step | Enabled(c, s, step)
      ensures l in Apply(c, s, step).entries && SameEntry(Apply(c, s, step).entries[l], s.entries[l])
    {
      EntryIsStable(c, s, l, step);
    }
  }

  lemma JoinIsStable(c: Setup, s: State, l: RequestId, r: RequestId)
    requires WellFormed(c, s) && l in s.entries && Enabled(c, s, Register(r)) && r !in s.entries
    ensures l in Join(c, s, r).entries && SameEntry(Join(c, s, r).entries[l], s.entries[l])
  {
  }

  lemma WriteSlotIsStable(c: Setup, s: State, l: RequestId, r: RequestId)
    requires WellFormed(c, s) && l in s.entries && l != r && Enabled(c, s, Publish(r))
    ensures l in WriteSlot(c, s, r).entries && SameEntry(WriteSlot(c, s, r).entries[l], s.entries[l])
  {
  }

  lemma SetEventIsStable(c: Setup, s: State, l: RequestId, r: RequestId)
    requires WellFormed(c, s) && l in s.entries && l != r && Enabled(c, s, Signal(r))
    ensures l in SetEvent(c, s, r).entries && SameEntry(SetEvent(c, s, r).entries[l], s.entries[l])
  {
  }

  lemma EntriesStay(c: Setup, s: State, step: Step)
    requires ValidSetup(c) && WellFormed(c, s) && Enabled(c, s, step)
    requires !step.Register? && !step.Publish? && !step.Signal?
    ensures Apply(c, s, step).entries == s.entries
  {
  }

  /** The steps that touch an entry are not those of a request whose own entry has its event set. */
  lemma WriterIsAnother(c: Setup, s: State, l: RequestId, step: Step)
    requires SafeInv(c, s) && l in s.entries && s.entries[l].event && Enabled(c, s, step)
    ensures step.Register? ==> step.r !in s.entries
    ensures step.Publish? || step.Signal? ==> step.r != l
  {
    assert EntryInv(c, s, l);
    if step.Register? {
      OutsiderHasNoEntry(c, s, step.r);
    }
  }

  lemma UntouchedEntryStays(c: Setup, s: State, l: RequestId, step: Step)
    requires ValidSetup(c) && WellFormed(c, s) && l in s.entries && Enabled(c, s, step)
    requires step.Register? ==> step.r !in s.entries
    requires step.Publish? || step.Signal? ==> step.r != l
    ensures l in Apply(c, s, step).entries && SameEntry(Apply(c, s, step).entries[l], s.entries[l])
  {
    match step
    case Register(r) => JoinIsStable(c, s, l, r);
    case Publish(r) => WriteSlotIsStable(c, s, l, r);
    case Signal(r) => SetEventIsStable(c, s, l, r);
    case _ => EntriesStay(c, s, step);
  }

  lemma EntryIsStable(c: Setup, s: State, l: RequestId, step: Step)
    requires ValidSetup(c) && SafeInv(c, s) && l in s.entries && s.entries[l].event && Enabled(c, s, step)
    ensures l in Apply(c, s, step).entries && SameEntry(Apply(c, s, step).entries[l], s.entries[l])
  {
    WriterIsAnother(c, s, l, step);
    UntouchedEntryStays(c, s, l, step);
  }

  /** The call of request l: from its first step to its last, or still open. */
  ghost predicate Overlap(p: Proc, q: Proc) {
    && (q.pc.Done? ==> p.begun < q.ended)
    && (p.pc.Done? ==> q.begun < p.ended)
  }

  /**
   A waiting request ends with the outcome of a leader of its own key whose call overlaps its own,
   and never with the "completed without a response" error.
   */
  lemma WaiterTheorem(c: Setup, s: State, w: RequestId)
    requires Reachable(c, s) && w < |s.procs| && s.procs[w].pc.Done?
    ensures !s.procs[w].pc.final.JoinedEmpty?
    ensures s.procs[w].pc.final.Joined? ==>
              var l := s.procs[w].pc.final.leader;
              && l < |s.procs| && SameKey(c, l, w) && Overlap(s.procs[l], s.procs[w])
              && (s.procs[l].pc.Removing? || s.procs[l].pc.Done?)
              && (s.procs[l].pc.Removing? ==> s.procs[w].pc.final.outcome == s.procs[l].pc.outcome)
              && (s.procs[l].pc.Done? ==> s.procs[l].pc.final == Led(s.procs[w].pc.final.outcome))
  {
    ReachableIsSafe(c, s);
    assert CallInv(c, s, w);
    if s.procs[w].pc.final.Joined? {
      var l := s.procs[w].pc.final.leader;
      assert EntryInv(c, s, l) && CallInv(c, s, l);
    }
  }
}
