/**
 The two strategies for routes with several targets: failover tries them in order, the parallel race
 takes them as they finish. Both refine one specification.
 */
module Strategies {
  import opened Text

  /** How the execution of one target ends. */
  datatype Outcome =
    | Answer(status: int, body: string)
    | GatewayError(status: int, detail: string)
    | TransportError(message: string)
    | OtherError(message: string)

  /** How a strategy ends: with a target's response, or by raising. */
  datatype Ending = Returned(answer: Outcome) | Raised(error: Outcome)

  /** An outcome that ends the search: a response or a gateway error below 500, or an unforeseen exception. */
  predicate Decisive(o: Outcome) {
    match o
    case Answer(status, _) => status < 500
    case GatewayError(status, _) => status < 500
    case TransportError(_) => false
    case OtherError(_) => true
  }

  predicate HealthyAnswer(o: Outcome) {
    o.Answer? && o.status < 500
  }

  predicate Healthy(e: Ending) {
    e.Returned? && HealthyAnswer(e.answer)
  }

  // ---------------------------------------------------------------------------
  // The specification
  // ---------------------------------------------------------------------------

  /** Position of the first decisive outcome; |os| when there is none. */
  function First(os: seq<Outcome>): (n: nat)
    ensures n <= |os| && (n < |os| ==> Decisive(os[n]))
    ensures forall i :: 0 <= i < n ==> !Decisive(os[i])
  {
    if os == [] || Decisive(os[0]) then 0 else 1 + First(os[1..])
  }

  /** How many targets are tried. */
  function Tried(os: seq<Outcome>): (n: nat)
    ensures n <= |os|
  {
    if First(os) < |os| then First(os) + 1 else |os|
  }

  function LastAnswer(os: seq<Outcome>): (r: Option<Outcome>)
    ensures r.None? <==> forall o :: o in os ==> !o.Answer?
    ensures r.Some? ==> r.value in os && r.value.Answer?
  {
    if os == [] then None
    else if os[|os| - 1].Answer? then Some(os[|os| - 1])
    else LastAnswer(os[..|os| - 1])
  }

  function LastError(os: seq<Outcome>): (r: Option<Outcome>)
    ensures r.None? <==> forall o :: o in os ==> o.Answer?
    ensures r.Some? ==> r.value in os && !r.value.Answer?
  {
    if os == [] then None
    else if !os[|os| - 1].Answer? then Some(os[|os| - 1])
    else LastError(os[..|os| - 1])
  }

  function Conclude(o: Outcome): Ending {
    if o.Answer? then Returned(o) else Raised(o)
  }

  /** When every target failed: its last response, else its last gateway error, else a summary. */
  function Exhausted(last: Option<Outcome>, lastError: Option<Outcome>, summary: string): Ending {
    if last.Some? then Returned(last.value)
    else if lastError.Some? && lastError.value.GatewayError? then Raised(lastError.value)
    else Raised(GatewayError(502, summary))
  }

  /** What a strategy makes of the outcomes in the order in which it sees them. */
  function Verdict(os: seq<Outcome>, summary: string): Ending {
    if First(os) < |os| then Conclude(os[First(os)])
    else Exhausted(LastAnswer(os), LastError(os), summary)
  }

  // ---------------------------------------------------------------------------
  // Failover
  // ---------------------------------------------------------------------------

  /** The targets' side of an execution: what is called, and what each call ends with. */
  class Upstream {
    const outcome: (nat, nat) -> Outcome   // of a target, when that many calls came before
    var calls: seq<nat>

    constructor (outcome: (nat, nat) -> Outcome)
      ensures this.outcome == outcome && calls == []
    {
      this.outcome, calls := outcome, [];
    }

    method Execute(target: nat) returns (o: Outcome)
      modifies this
      ensures calls == old(calls) + [target] && o == outcome(target, |old(calls)|)
    {
      o := outcome(target, |calls|);
      calls := calls + [target];
    }
  }

  /** Nothing decisive among the first n outcomes, and these are the last response and the last error. */
  ghost predicate Undecided(os: seq<Outcome>, n: nat, last: Option<Outcome>, lastError: Option<Outcome>) {
    && n <= |os|
    && (forall i :: 0 <= i < n ==> !Decisive(os[i]))
    && last == LastAnswer(os[..n]) && lastError == LastError(os[..n])
  }

  lemma StillUndecided(os: seq<Outcome>, n: nat, last: Option<Outcome>, lastError: Option<Outcome>)
    requires n < |os| && Undecided(os, n, last, lastError) && !Decisive(os[n])
    ensures if os[n].Answer? then Undecided(os, n + 1, Some(os[n]), lastError) else Undecided(os, n + 1, last, Some(os[n]))
  {
    assert os[..n + 1][..n] == os[..n];
  }

  lemma Decided(os: seq<Outcome>, n: nat, last: Option<Outcome>, lastError: Option<Outcome>, summary: string)
    requires n < |os| && Undecided(os, n, last, lastError) && Decisive(os[n])
    ensures Verdict(os, summary) == Conclude(os[n]) && Tried(os) == n + 1
  {
    FirstIs(os, n);
  }

  lemma Judged(os: seq<Outcome>, n: nat, last: Option<Outcome>, lastError: Option<Outcome>, summary: string)
    requires n < |os| && Undecided(os, n, last, lastError)
    ensures if Decisive(os[n]) then Verdict(os, summary) == Conclude(os[n]) && Tried(os) == n + 1
            else if os[n].Answer? then Undecided(os, n + 1, Some(os[n]), lastError)
            else Undecided(os, n + 1, last, Some(os[n]))
  {
    if Decisive(os[n]) {
      Decided(os, n, last, lastError, summary);
    } else {
      StillUndecided(os, n, last, lastError);
    }
  }

  lemma NeverDecided(os: seq<Outcome>, last: Option<Outcome>, lastError: Option<Outcome>, summary: string)
    requires Undecided(os, |os|, last, lastError)
    ensures Verdict(os, summary) == Exhausted(last, lastError, summary) && Tried(os) == |os|
  {
    FirstIs(os, |os|);
    assert os[..|os|] == os;
  }

  lemma OneMoreCalled(before: seq<nat>, targets: seq<nat>, n: nat)
    requires n < |targets|
    ensures before + targets[..n] + [targets[n]] == before + targets[..n + 1]
  {
    assert targets[..n + 1] == targets[..n] + [targets[n]];
  }

  /** `os` are the outcomes of the targets, were they all called in order. */
  method ExecuteFailover(up: Upstream, targets: seq<nat>, ghost os: seq<Outcome>) returns (e: Ending)
    requires |os| == |targets| && forall i :: 0 <= i < |os| ==> os[i] == up.outcome(targets[i], |up.calls| + i)
    modifies up
    ensures e == Verdict(os, "All route targets failed.")
    ensures up.calls == old(up.calls) + targets[..Tried(os)]
  {
    var summary := "All route targets failed.";
    var lastResponse: Option<Outcome> := None;
    var lastError: Option<Outcome> := None;
    for n := 0 to |targets|
      invariant up.calls == old(up.calls) + targets[..n]
      invariant Undecided(os, n, lastResponse, lastError)
    {
      var result := up.Execute(targets[n]);
      OneMoreCalled(old(up.calls), targets, n);
      match result
      case Answer(status, _) =>
        if status < 500 {
          Decided(os, n, lastResponse, lastError, summary);
          return Returned(result);
        }
        StillUndecided(os, n, lastResponse, lastError);
        lastResponse := Some(result);
      case GatewayError(status, _) =>
        if status < 500 {
          Decided(os, n, lastResponse, lastError, summary);
          return Raised(result);
        }
        StillUndecided(os, n, lastResponse, lastError);
        lastError := Some(result);
      case TransportError(_) =>
        StillUndecided(os, n, lastResponse, lastError);
        lastError := Some(result);
      case OtherError(_) =>
        Decided(os, n, lastResponse, lastError, summary);
        return Raised(result);
    }
    NeverDecided(os, lastResponse, lastError, summary);
    assert targets[..|targets|] == targets;
    return Exhausted(lastResponse, lastError, summary);
  }

  lemma FirstIs(os: seq<Outcome>, n: nat)
    requires n <= |os| && (n < |os| ==> Decisive(os[n]))
    requires forall i :: 0 <= i < n ==> !Decisive(os[i])
    ensures First(os) == n
  {
  }

  // ---------------------------------------------------------------------------
  // The parallel race
  // ---------------------------------------------------------------------------

  /** The outcomes in the order in which the workers finish. */
  function InOrder(os: seq<Outcome>, order: seq<nat>): seq<Outcome>
    requires forall i :: 0 <= i < |order| ==> order[i] < |os|
  {
    seq(|order|, i requires 0 <= i < |order| => os[order[i]])
  }

  method ExecuteParallelRace(os: seq<Outcome>, completed: seq<nat>) returns (e: Ending)
    requires forall i :: 0 <= i < |completed| ==> completed[i] < |os|
    ensures e == Verdict(seq(|completed|, i requires 0 <= i < |completed| => os[completed[i]]),
                         "All parallel route targets failed.")
  {
    ghost var seen := InOrder(os, completed);
    var summary := "All parallel route targets failed.";
    assert seen == seq(|completed|, i requires 0 <= i < |completed| => os[completed[i]]);
    var lastResponse: Option<Outcome> := None;
    var lastError: Option<Outcome> := None;
    for n := 0 to |completed|
      invariant Undecided(seen, n, lastResponse, lastError)
    {
      var result := os[completed[n]];
      assert result == seen[n];
      Judged(seen, n, lastResponse, lastError, summary);
      match result
      case Answer(status, _) =>
        if status < 500 {
          return Returned(result);
        }
        lastResponse := Some(result);
      case GatewayError(status, _) =>
        if status < 500 {
          return Raised(result);
        }
        lastError := Some(result);
      case TransportError(_) => lastError := Some(result);
      case OtherError(_) => return Raised(result);
    }
    NeverDecided(seen, lastResponse, lastError, summary);
    return Exhausted(lastResponse, lastError, summary);
  }

  // ---------------------------------------------------------------------------
  // What the specification promises
  // ---------------------------------------------------------------------------

  /** A response with nothing but errors behind it. */
  predicate LastResponseAt(os: seq<Outcome>, n: nat) {
    n < |os| && os[n].Answer? && forall m :: n < m < |os| ==> !os[m].Answer?
  }

  lemma {:induction false} LastAnswerIs(os: seq<Outcome>) returns (n: nat)
    requires LastAnswer(os).Some?
    ensures LastResponseAt(os, n) && LastAnswer(os) == Some(os[n])
  {
    var front := os[..|os| - 1];
    assert os == front + [os[|os| - 1]];
    n := |os| - 1;
    if !os[n].Answer? {
      n := LastAnswerIs(front);
    }
  }

  /**
   The first outcome that ends the search is the result. When none does, the result is the last
   response; without any response it is the last error if that came from the gateway, and else a summary.
   */
  lemma VerdictTheorem(os: seq<Outcome>, summary: string)
    ensures Healthy(Verdict(os, summary)) <==>
              exists n :: 0 <= n < |os| && HealthyAnswer(os[n]) && forall i :: 0 <= i < n ==> !Decisive(os[i])
    ensures forall n :: 0 <= n < |os| && Decisive(os[n]) && (forall i :: 0 <= i < n ==> !Decisive(os[i])) ==>
              Verdict(os, summary) == if os[n].Answer? then Returned(os[n]) else Raised(os[n])
    ensures (forall o :: o in os ==> !Decisive(o)) ==>
              match Verdict(os, summary)
              case Returned(answer) => exists n: nat :: LastResponseAt(os, n) && os[n] == answer
              case Raised(error) =>
                && (forall o :: o in os ==> !o.Answer?)
                && error == if os != [] && os[|os| - 1].GatewayError? then os[|os| - 1] else GatewayError(502, summary)
  {
    var f := First(os);
    if f < |os| {
      FirstDecides(os, summary);
    } else {
      NothingDecides(os, summary);
    }
  }

  lemma FirstDecides(os: seq<Outcome>, summary: string)
    requires First(os) < |os|
    ensures Verdict(os, summary) == if os[First(os)].Answer? then Returned(os[First(os)]) else Raised(os[First(os)])
    ensures Healthy(Verdict(os, summary)) <==> HealthyAnswer(os[First(os)])
    ensures forall n :: 0 <= n < |os| && Decisive(os[n]) && (forall i :: 0 <= i < n ==> !Decisive(os[i])) ==> n == First(os)
    ensures exists o :: o in os && Decisive(o)
  {
    assert os[First(os)] in os;
  }

  lemma NothingDecides(os: seq<Outcome>, summary: string)
    requires First(os) == |os|
    ensures forall n :: 0 <= n < |os| ==> !Decisive(os[n])
    ensures !Healthy(Verdict(os, summary))
    ensures match Verdict(os, summary)
            case Returned(answer) => exists n: nat :: LastResponseAt(os, n) && os[n] == answer
            case Raised(error) =>
              && (forall o :: o in os ==> !o.Answer?)
              && error == if os != [] && os[|os| - 1].GatewayError? then os[|os| - 1] else GatewayError(502, summary)
  {
    if LastAnswer(os).Some? {
      var n := LastAnswerIs(os);
    } else if os != [] {
      assert os[|os| - 1] in os;
    }
  }

  /**
   What ends the search, in terms of the outcomes alone. Behind outcomes that are responses or gateway
   errors of 500 and more, or lost connections, the next target is asked; its response below 500 is
   returned, its gateway error below 500 and its unforeseen exception are raised, and nobody is asked
   after it.
   */
  lemma FailoverTheorem(os: seq<Outcome>, n: nat, summary: string)
    requires n < |os|
    requires forall i :: 0 <= i < n ==>
               match os[i]
               case Answer(status, _) => status >= 500
               case GatewayError(status, _) => status >= 500
               case TransportError(_) => true
               case OtherError(_) => false
    ensures match os[n]
            case Answer(status, _) => status < 500 ==> Verdict(os, summary) == Returned(os[n]) && Tried(os) == n + 1
            case GatewayError(status, _) => status < 500 ==> Verdict(os, summary) == Raised(os[n]) && Tried(os) == n + 1
            case OtherError(_) => Verdict(os, summary) == Raised(os[n]) && Tried(os) == n + 1
            case TransportError(_) => true
    ensures Tried(os) > n
  {
    assert forall i :: 0 <= i < n ==> !Decisive(os[i]);
    if Decisive(os[n]) {
      FirstIs(os, n);
    }
  }

  /**
   When all targets are lost connections or answer with 500 and more, all are asked, and the result is
   the last response; without one it is the last target's gateway error, and else a summary.
   */
  lemma ExhaustedTheorem(os: seq<Outcome>, summary: string)
    requires forall i :: 0 <= i < |os| ==>
               match os[i]
               case Answer(status, _) => status >= 500
               case GatewayError(status, _) => status >= 500
               case TransportError(_) => true
               case OtherError(_) => false
    ensures Tried(os) == |os|
    ensures forall n :: 0 <= n < |os| && os[n].Answer? && (forall m :: n < m < |os| ==> !os[m].Answer?) ==>
              Verdict(os, summary) == Returned(os[n])
    ensures (forall n :: 0 <= n < |os| ==> !os[n].Answer?) ==>
              Verdict(os, summary)
              == Raised(if os != [] && os[|os| - 1].GatewayError? then os[|os| - 1] else GatewayError(502, summary))
  {
    assert forall i :: 0 <= i < |os| ==> !Decisive(os[i]);
    FirstIs(os, |os|);
    if LastAnswer(os).Some? {
      var n := LastAnswerIs(os);
    } else {
      assert forall n :: 0 <= n < |os| ==> os[n] in os;
    }
  }

  lemma {:induction false} MultisetKnows(a: seq<Outcome>, b: seq<Outcome>, o: Outcome)
    requires multiset(a) == multiset(b)
    ensures o in a <==> o in b
  {
    assert o in a <==> o in multiset(a);
    assert o in b <==> o in multiset(b);
  }

  predicate DecisiveError(o: Outcome) {
    Decisive(o) && !o.Answer?
  }

  /**
   A race is healthy however its workers finish exactly when some target is healthy and none ends
   with a gateway error below 500 or an unforeseen exception. Without such errors, it is healthy
   in one order exactly when it is in every other.
   */
  lemma RaceTheorem(os: seq<Outcome>, summary: string)
    ensures (forall p: seq<Outcome> :: multiset(p) == multiset(os) ==>
               Verdict(p, summary).Returned? && Verdict(p, summary).answer.Answer? && Verdict(p, summary).answer.status < 500)
            <==> (exists o :: o in os && o.Answer? && o.status < 500)
                 && (forall o :: o in os ==> !o.OtherError? && (o.GatewayError? ==> o.status >= 500))
    ensures (forall o :: o in os ==> !o.OtherError? && (o.GatewayError? ==> o.status >= 500)) ==>
              forall p: seq<Outcome> :: multiset(p) == multiset(os) ==>
                (Verdict(p, summary).Returned? && Verdict(p, summary).answer.Answer? && Verdict(p, summary).answer.status < 500
                 <==> exists o :: o in os && o.Answer? && o.status < 500)
  {
    assert forall o :: DecisiveError(o) <==> o.OtherError? || (o.GatewayError? && o.status < 500);
    assert forall o :: HealthyAnswer(o) <==> o.Answer? && o.status < 500;
    assert forall e :: Healthy(e) <==> e.Returned? && e.answer.Answer? && e.answer.status < 500;
    RaceInPredicates(os, summary);
  }

  lemma RaceInPredicates(os: seq<Outcome>, summary: string)
    ensures (forall p: seq<Outcome> :: multiset(p) == multiset(os) ==> Healthy(Verdict(p, summary)))
            <==> (exists o :: o in os && HealthyAnswer(o)) && (forall o :: o in os ==> !DecisiveError(o))
    ensures (forall o :: o in os ==> !DecisiveError(o)) ==>
              forall p: seq<Outcome> :: multiset(p) == multiset(os) ==>
                (Healthy(Verdict(p, summary)) <==> exists o :: o in os && HealthyAnswer(o))
  {
    forall p: seq<Outcome> | multiset(p) == multiset(os) && (forall o :: o in os ==> !DecisiveError(o))
      ensures Healthy(Verdict(p, summary)) <==> exists o :: o in os && HealthyAnswer(o)
    {
      HealthyWithoutErrors(os, p, summary);
    }
    forall o | o in os && DecisiveError(o)
      ensures exists p: seq<Outcome> :: multiset(p) == multiset(os) && !Healthy(Verdict(p, summary))
    {
      ErrorFirst(os, o, summary);
    }
    if forall o :: o in os ==> !HealthyAnswer(o) {
      VerdictTheorem(os, summary);
    }
  }

  lemma HealthyWithoutErrors(os: seq<Outcome>, p: seq<Outcome>, summary: string)
    requires multiset(p) == multiset(os) && forall o :: o in os ==> !DecisiveError(o)
    ensures Healthy(Verdict(p, summary)) <==> exists o :: o in os && HealthyAnswer(o)
  {
    var f := First(p);
    if f < |p| {
      MultisetKnows(p, os, p[f]);
      assert p[f] in os && HealthyAnswer(p[f]);
    } else {
      forall o | o in os
        ensures !HealthyAnswer(o)
      {
        MultisetKnows(p, os, o);
      }
      if LastAnswer(p).Some? {
        MultisetKnows(p, os, LastAnswer(p).value);
      }
    }
  }

  lemma MovedToFront(front: seq<Outcome>, o: Outcome, back: seq<Outcome>)
    ensures multiset([o] + (front + back)) == multiset(front + ([o] + back))
  {
  }

  lemma ErrorFirst(os: seq<Outcome>, o: Outcome, summary: string)
    requires o in os && DecisiveError(o)
    ensures exists p: seq<Outcome> :: multiset(p) == multiset(os) && !Healthy(Verdict(p, summary))
  {
    var i :| 0 <= i < |os| && os[i] == o;
    var p := [o] + (os[..i] + os[i + 1..]);
    MovedToFront(os[..i], o, os[i + 1..]);
    assert os == os[..i] + ([o] + os[i + 1..]);
    FirstIs(p, 0);
    assert Verdict(p, summary) == Raised(o);
  }

  /** Failover asks each target of a prefix once, in order, and none after the one that decides. */
  lemma TriedTheorem(os: seq<Outcome>, summary: string)
    ensures Verdict(os, summary) == Verdict(os[..Tried(os)], summary)
    ensures forall i :: 0 <= i < Tried(os) - 1 ==> !Decisive(os[i])
    ensures Tried(os) < |os| ==> Tried(os) > 0 && Decisive(os[Tried(os) - 1])
  {
    var f := First(os);
    if f < |os| {
      FirstIs(os[..f + 1], f);
    } else {
      assert os[..|os|] == os;
    }
  }
}
