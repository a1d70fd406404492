/**
 Progress of the coalescing protocol: no reachable state is stuck, nobody waits on an entry whose
 leader has gone without setting the event, and every step a request takes lowers a measure, so that
 if route executions return then all requests finish.
 */
module CoalescingProgress {
  import opened Text
  import opened Responses
  import opened Coalescing
  import opened CoalescingSafety

  /** Steps a request can still take; a waiter's do not depend on its leader's. */
  function Rank(pc: PC): nat {
    match pc
    case Start => 11
    case LookedUp(_) => 10
    case Registering => 9
    case Rechecking => 8
    case Rechecked(_) => 7
    case Executing(_, _) => 6
    case Publishing(_) => 5
    case Signalling(_) => 4
    case Removing(_) => 3
    case Waiting(_) => 2
    case Woken(_) => 1
    case Done(_) => 0
  }

  function Work(procs: seq<Proc>): nat {
    if procs == [] then 0 else Rank(procs[0].pc) + Work(procs[1..])
  }

  lemma {:induction false} WorkUpdate(procs: seq<Proc>, r: nat, p: Proc)
    requires r < |procs|
    ensures Work(procs[r := p]) + Rank(procs[r].pc) == Work(procs) + Rank(p.pc)
  {
    if r == 0 {
      assert procs[r := p][1..] == procs[1..];
    } else {
      assert procs[r := p][1..] == procs[1..][r - 1 := p];
      WorkUpdate(procs[1..], r - 1, p);
    }
  }

  lemma {:induction false} NoWorkMeansDone(procs: seq<Proc>)
    ensures Work(procs) == 0 <==> forall r :: 0 <= r < |procs| ==> procs[r].pc.Done?
  {
    if procs != [] {
      NoWorkMeansDone(procs[1..]);
      assert forall r :: 0 < r < |procs| ==> procs[r] == procs[1..][r - 1];
      assert forall r :: 0 <= r < |procs| - 1 ==> procs[1..][r] == procs[r + 1];
    }
  }

  /** A step in which a request moves on; the environment's steps and a store during execution are not. */
  predicate Moves(step: Step) {
    !step.Tick? && !step.ClearCache? && !step.Straggle? && !step.Store?
  }

  /** A step of request r changes no other program counter and lowers its own rank. */
  ghost predicate LowersOwnRank(s: State, t: State, r: RequestId) {
    && r < |s.procs| && |t.procs| == |s.procs| && t.procs == s.procs[r := t.procs[r]]
    && Rank(t.procs[r].pc) < Rank(s.procs[r].pc)
  }

  lemma EarlyStepLowersRank(c: Setup, s: State, step: Step)
    requires ValidSetup(c) && WellFormed(c, s) && Enabled(c, s, step)
    requires step.Lookup? || step.CheckLookup? || step.Register? || step.Recheck?
    ensures LowersOwnRank(s, Apply(c, s, step), step.r)
  {
  }

  lemma MiddleStepLowersRank(c: Setup, s: State, step: Step)
    requires ValidSetup(c) && WellFormed(c, s) && Enabled(c, s, step)
    requires step.CheckRecheck? || step.Abort? || step.Return? || step.Publish?
    ensures LowersOwnRank(s, Apply(c, s, step), step.r)
  {
  }

  lemma LateStepLowersRank(c: Setup, s: State, step: Step)
    requires ValidSetup(c) && WellFormed(c, s) && Enabled(c, s, step)
    requires step.Signal? || step.Remove? || step.Wake? || step.ReadResult?
    ensures LowersOwnRank(s, Apply(c, s, step), step.r)
  {
  }

  lemma StoreKeepsRank(c: Setup, s: State, step: Step)
    requires ValidSetup(c) && WellFormed(c, s) && Enabled(c, s, step) && step.Store?
    ensures var t := Apply(c, s, step);
            && |t.procs| == |s.procs| && t.procs == s.procs[step.r := t.procs[step.r]]
            && Rank(t.procs[step.r].pc) == Rank(s.procs[step.r].pc)
  {
  }

  lemma StepLowersWork(c: Setup, s: State, step: Step)
    requires ValidSetup(c) && WellFormed(c, s) && Enabled(c, s, step)
    ensures Moves(step) ==> Work(Apply(c, s, step).procs) < Work(s.procs)
    ensures !Moves(step) ==> Work(Apply(c, s, step).procs) == Work(s.procs)
  {
    if Moves(step) {
      if step.Lookup? || step.CheckLookup? || step.Register? || step.Recheck? {
        EarlyStepLowersRank(c, s, step);
      } else if step.CheckRecheck? || step.Abort? || step.Return? || step.Publish? {
        MiddleStepLowersRank(c, s, step);
      } else {
        LateStepLowersRank(c, s, step);
      }
      WorkUpdate(s.procs, step.r, Apply(c, s, step).procs[step.r]);
    } else if step.Store? {
      StoreKeepsRank(c, s, step);
      WorkUpdate(s.procs, step.r, Apply(c, s, step).procs[step.r]);
    }
  }

  function CountMoves(steps: seq<Step>): nat {
    if steps == [] then 0 else (if Moves(steps[0]) then 1 else 0) + CountMoves(steps[1..])
  }

  /** However a run is scheduled, the requests take at most `Work` steps between them. */
  lemma {:induction false} BoundedRunTheorem(c: Setup, s: State, steps: seq<Step>)
    requires ValidSetup(c) && WellFormed(c, s) && Legal(c, s, steps)
    ensures Work(After(c, s, steps).procs) + CountMoves(steps) <= Work(s.procs)
    decreases |steps|
  {
    if steps != [] {
      StepLowersWork(c, s, steps[0]);
      BoundedRunTheorem(c, Apply(c, s, steps[0]), steps[1..]);
    }
  }

  lemma {:induction false} InitialWork(c: Setup)
    ensures Work(Initial(c).procs) == 11 * |c.requests|
  {
    IdleWork(|c.requests|);
  }

  lemma {:induction false} IdleWork(n: nat)
    ensures Work(seq(n, _ => IDLE)) == 11 * n
  {
    if n > 0 {
      IdleWork(n - 1);
      assert seq(n, _ => IDLE)[1..] == seq(n - 1, _ => IDLE);
    }
  }

  /** However its steps are scheduled, no run from the start makes more than eleven moves per request. */
  lemma RunsAreShort(c: Setup, steps: seq<Step>)
    requires ValidSetup(c) && Legal(c, Initial(c), steps)
    ensures CountMoves(steps) <= 11 * |c.requests|
  {
    BoundedRunTheorem(c, Initial(c), steps);
    InitialWork(c);
  }

  /** A step that request r can take on its own, other than having its route execution return. */
  ghost predicate CanMove(c: Setup, s: State, r: RequestId) {
    exists step :: Enabled(c, s, step) && Moves(step) && !step.Return? && step.r == r
  }

  /** The one step that a program counter calls for, when there is one. */
  function NextStep(r: RequestId, pc: PC): Option<Step> {
    match pc
    case Start => Some(Lookup(r))
    case LookedUp(_) => Some(CheckLookup(r))
    case Registering => Some(Register(r))
    case Rechecking => Some(Recheck(r))
    case Rechecked(_) => Some(CheckRecheck(r))
    case Publishing(_) => Some(Publish(r))
    case Signalling(_) => Some(Signal(r))
    case Removing(_) => Some(Remove(r))
    case Waiting(_) => Some(Wake(r))
    case Woken(_) => Some(ReadResult(r))
    case Executing(_, _) => None
    case Done(_) => None
  }

  /** Only a running execution, the end, and an event not yet set hold a request up. */
  lemma NextStepIsEnabled(c: Setup, s: State, r: RequestId)
    requires r < |s.procs| && !s.procs[r].pc.Executing? && !s.procs[r].pc.Done?
    requires s.procs[r].pc.Waiting? ==> s.procs[r].pc.leader in s.entries && s.entries[s.procs[r].pc.leader].event
    ensures CanMove(c, s, r)
  {
    var step := NextStep(r, s.procs[r].pc).value;
    assert Enabled(c, s, step) && Moves(step) && !step.Return? && step.r == r;
  }

  /**
   In every reachable state a request that has not finished can move, or its route execution is still
   running, or it waits on a leader of its key that can move or whose route execution is still
   running. In particular no waiter is left on an entry whose leader is gone and whose event is unset.
   */
  lemma ProgressTheorem(c: Setup, s: State, r: RequestId)
    requires Reachable(c, s) && r < |s.procs| && !s.procs[r].pc.Done?
    ensures || CanMove(c, s, r)
            || s.procs[r].pc.Executing?
            || (&& s.procs[r].pc.Waiting?
                && var l := s.procs[r].pc.leader;
                   l < |s.procs| && SameKey(c, l, r) && !s.procs[l].pc.Done? && (CanMove(c, s, l) || s.procs[l].pc.Executing?))
    ensures s.procs[r].pc.Waiting? ==>
              var l := s.procs[r].pc.leader;
              l in s.entries && l < |s.procs| && (s.procs[l].pc.Done? ==> s.entries[l].event)
  {
    ReachableIsSafe(c, s);
    assert CallInv(c, s, r) && Resolves(c.requests[r], s, r);
    if s.procs[r].pc.Waiting? {
      var l := s.procs[r].pc.leader;
      assert EntryInv(c, s, l);
      if s.entries[l].event {
        NextStepIsEnabled(c, s, r);
      } else if !s.procs[l].pc.Executing? {
        NextStepIsEnabled(c, s, l);
      }
    } else if !s.procs[r].pc.Executing? {
      NextStepIsEnabled(c, s, r);
    }
  }

  /** An execution may return with any outcome that stored nothing, so nothing in the protocol holds it back. */
  lemma ExecutionMayReturn(c: Setup, s: State, r: RequestId, failure: Failure)
    requires WellFormed(c, s) && r < |s.procs| && s.procs[r].pc.Executing?
    ensures Enabled(c, s, Return(r, Failed(failure), None))
  {
  }

  /**
   If executions return, everything finishes: a reachable state in which no request can move, and
   none is executing, has all requests done.
   */
  lemma QuiescenceTheorem(c: Setup, s: State)
    requires Reachable(c, s)
    requires forall r :: 0 <= r < |s.procs| ==> !CanMove(c, s, r) && !s.procs[r].pc.Executing?
    ensures forall r :: 0 <= r < |s.procs| ==> s.procs[r].pc.Done?
    ensures s.inflight == map[]
  {
    forall r | 0 <= r < |s.procs|
      ensures s.procs[r].pc.Done?
    {
      if !s.procs[r].pc.Done? {
        ProgressTheorem(c, s, r);
      }
    }
    RegistryTheorem(c, s);
  }
}
