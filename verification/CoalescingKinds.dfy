/**
 What the kind of a request decides in every run: the bypass header and a streaming target keep it from
 sharing, only kinds that look up are served from the cache, and no stream is ever shared. And what the
 history that the theorems speak of records.
 */
module CoalescingKinds {
  import opened Text
  import opened Responses
  import opened Coalescing
  import opened CoalescingSafety
  import opened CoalescingCache

  /** Leaders have a key, and whoever ran outside the registry has none. */
  predicate EndsAlike(q: Request, pc: PC) {
    pc.Done? ==> (pc.final.Led? ==> CoalescingKey(q).Some?) && (pc.final.Unshared? ==> CoalescingKey(q).None?)
  }

  /** What is published is no stream. */
  predicate Buffered(e: InFlight) {
    e.result.Some? && e.result.value.Fresh? ==> !e.result.value.response.streaming
  }

  ghost predicate KindInv(c: Setup, s: State)
    requires WellFormed(c, s)
  {
    && (forall r :: 0 <= r < |s.procs| ==> EndsAlike(c.requests[r], s.procs[r].pc))
    && (forall l :: l in s.entries ==> Buffered(s.entries[l]))
  }

  /** The environment may act in any state: time passes, the cache is cleared, a late worker stores a success. */
  lemma EnvironmentIsFree(c: Setup, s: State, time: real, ck: string, late: Response)
    ensures Enabled(c, s, ClearCache)
    ensures s.now <= time ==> Enabled(c, s, Tick(time))
    ensures ck in c.ttl && late.status < 400 && !late.streaming ==> Enabled(c, s, Straggle(ck, late))
  {
  }

  /** A step changes the program counter of nobody but the request that takes it. */
  lemma OthersStay(c: Setup, s: State, step: Step, r: RequestId)
    requires ValidSetup(c) && WellFormed(c, s) && Enabled(c, s, step) && r < |s.procs|
    requires step.Tick? || step.ClearCache? || step.Straggle? || step.r != r
    ensures Apply(c, s, step).procs[r] == s.procs[r]
  {
  }

  lemma StepEndsAlike(c: Setup, s: State, step: Step, r: RequestId)
    requires ValidSetup(c) && WellFormed(c, s) && Enabled(c, s, step) && r < |s.procs|
    requires EndsAlike(c.requests[r], s.procs[r].pc)
    ensures EndsAlike(c.requests[r], Apply(c, s, step).procs[r].pc)
  {
    if step.Tick? || step.ClearCache? || step.Straggle? || step.r != r {
      OthersStay(c, s, step, r);
    } else {
      assert Resolves(c.requests[r], s, r);
    }
  }

  lemma StepKeepsBuffered(c: Setup, s: State, step: Step, l: RequestId)
    requires ValidSetup(c) && WellFormed(c, s) && Enabled(c, s, step) && l in Apply(c, s, step).entries
    requires l in s.entries ==> Buffered(s.entries[l])
    ensures Buffered(Apply(c, s, step).entries[l])
  {
    match step
    case Register(r) => assert Resolves(c.requests[r], s, r);
    case Publish(r) => assert Resolves(c.requests[r], s, r);
    case Signal(r) => assert Resolves(c.requests[r], s, r);
    case _ => EntriesStay(c, s, step);
  }

  lemma StepKeepsKinds(c: Setup, s: State, step: Step)
    requires ValidSetup(c) && WellFormed(c, s) && Enabled(c, s, step) && KindInv(c, s)
    ensures KindInv(c, Apply(c, s, step))
  {
    var t := Apply(c, s, step);
    forall r | 0 <= r < |t.procs|
      ensures EndsAlike(c.requests[r], t.procs[r].pc)
    {
      StepEndsAlike(c, s, step, r);
    }
    forall l | l in t.entries
      ensures Buffered(t.entries[l])
    {
      StepKeepsBuffered(c, s, step, l);
    }
  }

  lemma {:induction false} RunKeepsKinds(c: Setup, s: State, steps: seq<Step>)
    requires ValidSetup(c) && WellFormed(c, s) && Legal(c, s, steps) && KindInv(c, s)
    ensures KindInv(c, After(c, s, steps))
    decreases |steps|
  {
    if steps != [] {
      StepKeepsKinds(c, s, steps[0]);
      RunKeepsKinds(c, Apply(c, s, steps[0]), steps[1..]);
    }
  }

  lemma ReachableKinds(c: Setup, s: State)
    requires Reachable(c, s)
    ensures WellFormed(c, s) && KindInv(c, s)
  {
    var steps :| Legal(c, Initial(c), steps) && After(c, Initial(c), steps) == s;
    RunKeepsKinds(c, Initial(c), steps);
  }

  /**
   A request with the bypass header, or one that is neither cached nor shared, runs its route itself and is never
   served from the cache, its own lookup's or a leader's; one on a route that streams shares with nobody; and a
   request that waited did so on a leader of its own kind and key.
   */
  lemma KindsTheorem(c: Setup, s: State, r: RequestId)
    requires Reachable(c, s) && r < |s.procs| && r < |c.requests| && s.procs[r].pc.Done?
    ensures var q, f := c.requests[r], s.procs[r].pc.final;
            match q
            case Bypass(_) => f.Unshared? && !(f.outcome.Replied? && f.outcome.reply.Hit?)
            case Alone => f.Unshared? && !(f.outcome.Replied? && f.outcome.reply.Hit?)
            case Solo(_) => f.FromCache? || (f.Unshared? && !(f.outcome.Replied? && f.outcome.reply.Hit?))
            case Shared(_) => (f.Led? || f.Joined?) && !(f.outcome.Replied? && f.outcome.reply.Hit?)
            case Cached(_, _) => f.FromCache? || f.Led? || f.Joined?
    ensures var q, f := c.requests[r], s.procs[r].pc.final;
            f.Joined? ==> f.leader < |c.requests| && f.leader != r && c.requests[f.leader] == q
  {
    ReachableKinds(c, s);
    ReachableRuns(c, s);
    HitTheorem(c, s, r);
    WaiterTheorem(c, s, r);
    assert EndsAlike(c.requests[r], s.procs[r].pc);
  }

  /** No waiter ever sends or reads a stream: what a leader publishes is buffered. */
  lemma StreamsAreNotShared(c: Setup, s: State, w: RequestId)
    requires Reachable(c, s) && w < |s.procs| && s.procs[w].pc.Done? && s.procs[w].pc.final.Joined?
    ensures var o := s.procs[w].pc.final.outcome;
            o.Replied? && o.reply.Fresh? ==> !o.reply.response.streaming
  {
    ReachableKinds(c, s);
    ReachableIsSafe(c, s);
    assert CallInv(c, s, w);
    assert Buffered(s.entries[s.procs[w].pc.final.leader]);
  }

  lemma LookupBegins(c: Setup, s: State, step: Step)
    requires ValidSetup(c) && WellFormed(c, s) && Enabled(c, s, step)
    requires step.Lookup? || step.CheckLookup? || step.Recheck? || step.CheckRecheck?
    ensures var q := Apply(c, s, step).procs[step.r];
            q.pc.Executing? ==> q.pc == Executing(Mark(s.steps, s.now, s.clears), {})
  {
  }

  lemma NothingElseBegins(c: Setup, s: State, step: Step)
    requires ValidSetup(c) && WellFormed(c, s) && Enabled(c, s, step)
    requires step.Register? || step.Abort? || step.Publish? || step.Signal? || step.Remove? || step.Wake? || step.ReadResult?
    ensures !Apply(c, s, step).procs[step.r].pc.Executing?
  {
  }

  /** An execution begins at the step, time and number of clearings of the state it begins in. */
  lemma BeginningIsRecorded(c: Setup, s: State, step: Step, r: RequestId)
    requires ValidSetup(c) && WellFormed(c, s) && Enabled(c, s, step) && r < |s.procs|
    requires !s.procs[r].pc.Executing? && Apply(c, s, step).procs[r].pc.Executing?
    ensures Apply(c, s, step).procs[r].pc == Executing(Mark(s.steps, s.now, s.clears), {})
  {
    if step.Tick? || step.ClearCache? || step.Straggle? || step.r != r {
      OthersStay(c, s, step, r);
    } else if step.Lookup? || step.CheckLookup? || step.Recheck? || step.CheckRecheck? {
      LookupBegins(c, s, step);
    } else if !step.Store? && !step.Return? {
      NothingElseBegins(c, s, step);
    }
  }

  /** What an execution stores is kept with the expiry that its cache slot gets. */
  lemma StoringIsRecorded(c: Setup, s: State, r: RequestId, response: Response)
    requires ValidSetup(c) && WellFormed(c, s) && Enabled(c, s, Store(r, response))
    ensures StoreKey(c.requests[r]).Some? && StoreKey(c.requests[r]).value in c.ttl && s.procs[r].pc.Executing?
    ensures var ck, t := StoreKey(c.requests[r]).value, Apply(c, s, Store(r, response));
            && t.procs[r] == s.procs[r].(pc := s.procs[r].pc.(kept := s.procs[r].pc.kept
                                                              + {Kept(response, s.now + c.ttl[ck], s.clears)}))
            && t.cache == s.cache[ck := Slot(s.now + c.ttl[ck], response)]
  {
  }

  /** An execution ends with the step that returns, and a success that caching applies to is one it stored. */
  lemma EndingIsRecorded(c: Setup, s: State, step: Step, r: RequestId)
    requires ValidSetup(c) && WellFormed(c, s) && Enabled(c, s, step) && r < |s.procs|
    requires s.procs[r].pc.Executing? && !Apply(c, s, step).procs[r].pc.Executing?
    ensures step.Return? && step.r == r
    ensures var p, q, o := s.procs[r], Apply(c, s, step).procs[r], step.outcome;
            && q.pc == (if CoalescingKey(c.requests[r]).Some? then Publishing(o) else Done(Unshared(o)))
            && q.run == Some(Run(p.pc.since, s.steps, step.ok))
            && if StoreKey(c.requests[r]).Some? && o.Replied? && o.reply.response.status < 400 && !o.reply.response.streaming
               then step.ok.Some? && step.ok.value in p.pc.kept && step.ok.value.response == o.reply.response
               else step.ok.None?
  {
    if step.Tick? || step.ClearCache? || step.Straggle? || step.r != r {
      OthersStay(c, s, step, r);
    }
  }
}
