/**
 The deque when calls enter it out of the order of their clocks: how far the clocks may be inverted
 before a window can hold more admissions than the limit.
 */
module RateLimitSkew {
  import opened RateLimit

  /** The calls that the deque itself admits, in the order in which they enter. */
  function Admitted(calls: seq<Call>, limit: nat, window: real): seq<Call>
    requires limit >= 1
  {
    if calls == [] then []
    else
      var a := Admitted(Init(calls), limit, window);
      var answer := DequeCheck(Deque(Init(calls), limit, window), limit, window, Last(calls).at).answer;
      if answer.allowed then a + [Last(calls)] else a
  }

  /** No call reads a clock more than `skew` behind the clock of a call that entered before it. */
  ghost predicate SkewAtMost(calls: seq<Call>, skew: real) {
    calls == [] || (SkewAtMost(Init(calls), skew) && forall c :: c in Init(calls) ==> c.at - Last(calls).at <= skew)
  }

  /** The calls in the window that ends at t. */
  function InWindow(h: seq<Call>, window: real, t: real): nat {
    CountIn(h, t - window, t)
  }

  /** Every interval of the window's length holds at most `limit` admissions. */
  ghost predicate Bounded(calls: seq<Call>, limit: nat, window: real)
    requires limit >= 1
  {
    forall t :: InWindow(Admitted(calls, limit, window), window, t) <= limit
  }

  /** One more admitted call, given what the deque holds when it comes. */
  lemma NextIsAdmitted(calls: seq<Call>, c: Call, limit: nat, window: real)
    requires limit >= 1 && |Prune(Deque(calls, limit, window), c.at - window)| < limit
    ensures Admitted(calls + [c], limit, window) == Admitted(calls, limit, window) + [c]
    ensures Deque(calls + [c], limit, window) == Prune(Deque(calls, limit, window), c.at - window) + [c.at]
  {
    assert Init(calls + [c]) == calls && Last(calls + [c]) == c;
  }

  lemma NextIsDenied(calls: seq<Call>, c: Call, limit: nat, window: real)
    requires limit >= 1 && |Prune(Deque(calls, limit, window), c.at - window)| >= limit
    ensures Admitted(calls + [c], limit, window) == Admitted(calls, limit, window)
    ensures Deque(calls + [c], limit, window) == Prune(Deque(calls, limit, window), c.at - window)
  {
    assert Init(calls + [c]) == calls && Last(calls + [c]) == c;
  }

  // ---------------------------------------------------------------------------
  // Without inversions
  // ---------------------------------------------------------------------------

  lemma {:induction false} NoSkewIsClockOrder(calls: seq<Call>)
    requires SkewAtMost(calls, 0.0)
    ensures ClockOrder(calls)
  {
    if calls != [] {
      NoSkewIsClockOrder(Init(calls));
      forall i | 0 <= i < |calls| - 1
        ensures calls[i].at <= Last(calls).at
      {
        assert calls[i] in Init(calls);
      }
    }
  }

  /** In clock order the deque's own admissions are the full history of the reference limiter. */
  lemma {:induction false} AdmittedIsHistory(calls: seq<Call>, limit: nat, window: real)
    requires ClockOrder(calls) && limit >= 1 && window > 0.0
    ensures Admitted(calls, limit, window) == History(calls, limit, window)
  {
    if calls != [] {
      AdmittedIsHistory(Init(calls), limit, window);
      DequeIsExact(calls, limit, window);
    }
  }

  // ---------------------------------------------------------------------------
  // With a limit of one
  // ---------------------------------------------------------------------------

  /** Each admission comes at least a window after the one before. */
  predicate Spaced(a: seq<Call>, window: real) {
    |a| < 2 || (Last(Init(a)).at + window <= Last(a).at && Spaced(Init(a), window))
  }

  /** With a limit of one the deque holds just its latest admission, whatever order the calls come in. */
  lemma {:induction false} SingleIsSpaced(calls: seq<Call>, window: real)
    requires window > 0.0
    ensures var a := Admitted(calls, 1, window);
            && Spaced(a, window)
            && (calls != [] ==> a != [] && Deque(calls, 1, window) == [Last(a).at])
  {
    if calls != [] {
      SingleIsSpaced(Init(calls), window);
      assert calls == Init(calls) + [Last(calls)];
      SingleStep(Init(calls), Last(calls), window);
    }
  }

  lemma SingleStep(before: seq<Call>, c: Call, window: real)
    requires window > 0.0
    requires Spaced(Admitted(before, 1, window), window)
    requires before != [] ==>
               Admitted(before, 1, window) != [] && Deque(before, 1, window) == [Last(Admitted(before, 1, window)).at]
    ensures var a := Admitted(before + [c], 1, window);
            Spaced(a, window) && a != [] && Deque(before + [c], 1, window) == [Last(a).at]
  {
    var a, b := Admitted(before, 1, window), Deque(before, 1, window);
    if before == [] || Last(a).at <= c.at - window {
      PruneEverything(b, c.at - window);
      NextIsAdmitted(before, c, 1, window);
      SpacedExtends(a, c, window);
    } else {
      PruneNothing(b, c.at - window);
      NextIsDenied(before, c, 1, window);
    }
  }

  lemma SpacedExtends(a: seq<Call>, c: Call, window: real)
    requires Spaced(a, window) && (a != [] ==> Last(a).at + window <= c.at)
    ensures Spaced(a + [c], window) && Last(a + [c]) == c
  {
    assert Init(a + [c]) == a;
  }

  lemma {:induction false} SpacedIsAscending(a: seq<Call>, window: real)
    requires window > 0.0 && Spaced(a, window) && a != []
    ensures forall x :: x in a ==> x.at <= Last(a).at
  {
    assert a == Init(a) + [Last(a)];
    if |a| > 1 {
      SpacedIsAscending(Init(a), window);
    }
  }

  lemma {:induction false} NoneAfter(a: seq<Call>, after: real, upTo: real)
    requires forall x :: x in a ==> x.at <= after
    ensures CountIn(a, after, upTo) == 0
  {
    if a != [] {
      assert a[0] in a;
      NoneAfter(a[1..], after, upTo);
    }
  }

  lemma {:induction false} SpacedIsBounded(a: seq<Call>, window: real, t: real)
    requires window > 0.0 && Spaced(a, window)
    ensures CountIn(a, t - window, t) <= 1
  {
    if a != [] {
      assert a == Init(a) + [Last(a)];
      CountConcat(Init(a), [Last(a)], t - window, t);
      assert [Last(a)][1..] == [];
      SpacedIsBounded(Init(a), window, t);
      if |a| > 1 && t - window < Last(a).at <= t {
        SpacedIsAscending(Init(a), window);
        NoneAfter(Init(a), t - window, t);
      }
    }
  }

  // ---------------------------------------------------------------------------
  // A burst that breaks the bound
  // ---------------------------------------------------------------------------

  function Repeat(n: nat, c: Call): (calls: seq<Call>)
    ensures |calls| == n && forall x :: x in calls ==> x == c
  {
    if n == 0 then [] else Repeat(n - 1, c) + [c]
  }

  function CallAt(at: real): Call {
    Call(at, 0.0, "")
  }

  /** `limit` calls a window before c, one at c, and one that read its clock `skew` before c. */
  function Burst(limit: nat, window: real, c: real, skew: real): seq<Call> {
    Repeat(limit, CallAt(c - window)) + [CallAt(c)] + [CallAt(c - skew)]
  }

  lemma {:induction false} PruneNothing(bucket: seq<real>, cutoff: real)
    requires forall v :: v in bucket ==> cutoff < v
    ensures Prune(bucket, cutoff) == bucket
  {
    assert bucket != [] ==> bucket[0] in bucket;
  }

  lemma {:induction false} PruneEverything(bucket: seq<real>, cutoff: real)
    requires forall v :: v in bucket ==> v <= cutoff
    ensures Prune(bucket, cutoff) == []
  {
    if bucket != [] {
      assert bucket[0] in bucket;
      assert forall v :: v in bucket[1..] ==> v in bucket;
      PruneEverything(bucket[1..], cutoff);
    }
  }

  predicate AllAt(bucket: seq<real>, n: nat, at: real) {
    |bucket| == n && forall v :: v in bucket ==> v == at
  }

  /** One more call at the time of all calls in the deque. */
  lemma OneMoreAtOnce(calls: seq<Call>, n: nat, limit: nat, window: real, c: Call)
    requires n < limit && window > 0.0 && Admitted(calls, limit, window) == calls
    requires AllAt(Deque(calls, limit, window), n, c.at)
    ensures Admitted(calls + [c], limit, window) == calls + [c]
    ensures AllAt(Deque(calls + [c], limit, window), n + 1, c.at)
  {
    PruneNothing(Deque(calls, limit, window), c.at - window);
    NextIsAdmitted(calls, c, limit, window);
  }

  /** Up to the limit, calls at one time are all admitted. */
  lemma {:induction false} RepeatIsAdmitted(n: nat, limit: nat, window: real, c: Call)
    requires 1 <= limit && n <= limit && window > 0.0
    ensures Admitted(Repeat(n, c), limit, window) == Repeat(n, c)
    ensures AllAt(Deque(Repeat(n, c), limit, window), n, c.at)
  {
    if n > 0 {
      RepeatIsAdmitted(n - 1, limit, window, c);
      OneMoreAtOnce(Repeat(n - 1, c), n - 1, limit, window, c);
      assert Repeat(n, c) == Repeat(n - 1, c) + [c];
    }
  }

  lemma {:induction false} RepeatCounts(n: nat, c: Call, after: real, upTo: real)
    requires after < c.at <= upTo
    ensures CountIn(Repeat(n, c), after, upTo) == n
  {
    if n > 0 {
      RepeatCounts(n - 1, c, after, upTo);
      CountConcat(Repeat(n - 1, c), [c], after, upTo);
      assert [c][1..] == [];
    }
  }

  /** A call a window after a full deque empties it and is admitted. */
  lemma EmptiesDeque(calls: seq<Call>, limit: nat, window: real, c: Call)
    requires limit >= 1 && forall v :: v in Deque(calls, limit, window) ==> v <= c.at - window
    ensures Admitted(calls + [c], limit, window) == Admitted(calls, limit, window) + [c]
    ensures Deque(calls + [c], limit, window) == [c.at]
  {
    PruneEverything(Deque(calls, limit, window), c.at - window);
    NextIsAdmitted(calls, c, limit, window);
  }

  /** A call that is late by no more than a window finds one admission in the deque. */
  lemma LateIsAdmitted(calls: seq<Call>, limit: nat, window: real, c: Call, late: Call)
    requires limit >= 2 && window > 0.0 && late.at <= c.at && Deque(calls, limit, window) == [c.at]
    ensures Admitted(calls + [late], limit, window) == Admitted(calls, limit, window) + [late]
  {
    PruneNothing([c.at], late.at - window);
    NextIsAdmitted(calls, late, limit, window);
  }

  lemma TwoMoreAreAdmitted(calls: seq<Call>, limit: nat, window: real, c: Call, late: Call)
    requires limit >= 2 && window > 0.0 && late.at <= c.at && Admitted(calls, limit, window) == calls
    requires forall v :: v in Deque(calls, limit, window) ==> v <= c.at - window
    ensures Admitted(calls + [c] + [late], limit, window) == calls + [c] + [late]
  {
    EmptiesDeque(calls, limit, window, c);
    LateIsAdmitted(calls + [c], limit, window, c, late);
  }

  lemma BurstIsAdmitted(limit: nat, window: real, c: real, skew: real)
    requires limit >= 2 && 0.0 < skew <= window
    ensures Admitted(Burst(limit, window, c, skew), limit, window) == Burst(limit, window, c, skew)
  {
    RepeatIsAdmitted(limit, limit, window, CallAt(c - window));
    TwoMoreAreAdmitted(Repeat(limit, CallAt(c - window)), limit, window, CallAt(c), CallAt(c - skew));
  }

  lemma {:induction false} RepeatHasNoSkew(n: nat, c: Call, skew: real)
    requires skew >= 0.0
    ensures SkewAtMost(Repeat(n, c), skew)
  {
    if n > 0 {
      RepeatHasNoSkew(n - 1, c, skew);
      assert Init(Repeat(n, c)) == Repeat(n - 1, c);
    }
  }

  lemma BurstSkew(limit: nat, window: real, c: real, skew: real)
    requires 0.0 < skew <= window
    ensures SkewAtMost(Burst(limit, window, c, skew), skew)
  {
    var calls, now, late := Repeat(limit, CallAt(c - window)), CallAt(c), CallAt(c - skew);
    RepeatHasNoSkew(limit, CallAt(c - window), skew);
    assert Init(calls + [now]) == calls && Last(calls + [now]) == now;
    assert SkewAtMost(calls + [now], skew);
    assert Init(calls + [now] + [late]) == calls + [now] && Last(calls + [now] + [late]) == late;
  }

  /** For every limit above one, any inversion of up to a window lets one admission too many into a window. */
  lemma SkewBreaksBound(limit: nat, window: real, c: real, skew: real)
    requires limit >= 2 && 0.0 < skew <= window
    ensures SkewAtMost(Burst(limit, window, c, skew), skew)
    ensures Admitted(Burst(limit, window, c, skew), limit, window) == Burst(limit, window, c, skew)
    ensures CountIn(Burst(limit, window, c, skew), c - skew - window, c - skew) == limit + 1
  {
    BurstSkew(limit, window, c, skew);
    BurstIsAdmitted(limit, window, c, skew);
    var after, upTo, first, now, late := c - skew - window, c - skew, CallAt(c - window), CallAt(c), CallAt(c - skew);
    RepeatCounts(limit, first, after, upTo);
    CountConcat(Repeat(limit, first), [now], after, upTo);
    CountConcat(Repeat(limit, first) + [now], [late], after, upTo);
    assert [now][1..] == [] && [late][1..] == [];
  }

  // ---------------------------------------------------------------------------
  // The exact condition
  // ---------------------------------------------------------------------------

  /**
   With clocks inverted by at most `skew`, the deque keeps its bound on every sequence of calls if and
   only if the limit is one or there is no inversion at all.
   */
  lemma SkewTheorem(limit: nat, window: real, skew: real)
    requires limit >= 1 && window > 0.0 && skew >= 0.0
    ensures (forall calls :: SkewAtMost(calls, skew) ==> Bounded(calls, limit, window)) <==> limit == 1 || skew == 0.0
  {
    if limit == 1 {
      forall calls
        ensures Bounded(calls, limit, window)
      {
        SingleIsBounded(calls, window);
      }
    } else if skew == 0.0 {
      forall calls | SkewAtMost(calls, skew)
        ensures Bounded(calls, limit, window)
      {
        OrderedIsBounded(calls, limit, window);
      }
    } else {
      var calls := SomeIsUnbounded(limit, window, skew);
    }
  }

  lemma SomeIsUnbounded(limit: nat, window: real, skew: real) returns (calls: seq<Call>)
    requires limit >= 2 && window > 0.0 && skew > 0.0
    ensures SkewAtMost(calls, skew) && !Bounded(calls, limit, window)
  {
    var d := if skew < window then skew else window;
    calls := Burst(limit, window, 0.0, d);
    SkewBreaksBound(limit, window, 0.0, d);
    MoreSkew(calls, d, skew);
    OneTooMany(calls, limit, window, 0.0 - d);
  }

  lemma OneTooMany(calls: seq<Call>, limit: nat, window: real, t: real)
    requires limit >= 1 && CountIn(Admitted(calls, limit, window), t - window, t) > limit
    ensures !Bounded(calls, limit, window)
  {
    assert InWindow(Admitted(calls, limit, window), window, t) > limit;
  }

  lemma SingleIsBounded(calls: seq<Call>, window: real)
    requires window > 0.0
    ensures Bounded(calls, 1, window)
  {
    forall t
      ensures InWindow(Admitted(calls, 1, window), window, t) <= 1
    {
      SingleIsSpaced(calls, window);
      SpacedIsBounded(Admitted(calls, 1, window), window, t);
    }
  }

  lemma OrderedIsBounded(calls: seq<Call>, limit: nat, window: real)
    requires limit >= 1 && window > 0.0 && SkewAtMost(calls, 0.0)
    ensures Bounded(calls, limit, window)
  {
    forall t
      ensures InWindow(Admitted(calls, limit, window), window, t) <= limit
    {
      NoSkewIsClockOrder(calls);
      AdmittedIsHistory(calls, limit, window);
      WindowBound(calls, limit, window, t);
    }
  }

  lemma {:induction false} MoreSkew(calls: seq<Call>, less: real, more: real)
    requires SkewAtMost(calls, less) && less <= more
    ensures SkewAtMost(calls, more)
  {
    if calls != [] {
      MoreSkew(Init(calls), less, more);
    }
  }

  /** With limit 2 and window 10, a call a tenth of a second late is the third admission of one window. */
  lemma ClockOrderMatters()
    ensures var calls := [CallAt(0.0), CallAt(0.0), CallAt(10.0), CallAt(9.9)];
            && Admitted(calls, 2, 10.0) == calls
            && CountIn(calls, 9.9 - 10.0, 9.9) == 3
  {
    assert Repeat(2, CallAt(0.0)) == Repeat(1, CallAt(0.0)) + [CallAt(0.0)];
    assert Repeat(1, CallAt(0.0)) == [CallAt(0.0)];
    assert Burst(2, 10.0, 10.0, 0.1) == [CallAt(0.0), CallAt(0.0), CallAt(10.0), CallAt(9.9)];
    SkewBreaksBound(2, 10.0, 10.0, 0.1);
  }
}
