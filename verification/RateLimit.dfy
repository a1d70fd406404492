/**
 The sliding-window rate limiter. Time is real-valued. The reference is the full history of admitted
 calls: a call is admitted when fewer than `limit` admissions lie in the window that ends at it. The
 in-memory backend (a pruned deque) and the Redis script (a pruned sorted set that may expire) are
 both shown to compute it.
 */
module RateLimit {
  import opened Text

  /** One call of the limiter for one key: the clock it read, the Redis server's clock, its unique id. */
  datatype Call = Call(at: real, server: real, uid: string)

  datatype Answer = Answer(allowed: bool, retryAfter: int)

  // ---------------------------------------------------------------------------
  // The reference limiter
  // ---------------------------------------------------------------------------

  /** The calls of `h` after `cutoff`. */
  function Recent(h: seq<Call>, cutoff: real): seq<Call> {
    if h == [] then []
    else if h[0].at <= cutoff then Recent(h[1..], cutoff)
    else [h[0]] + Recent(h[1..], cutoff)
  }

  /** How many calls of `h` lie in the half-open interval (after, upTo]. */
  function CountIn(h: seq<Call>, after: real, upTo: real): nat {
    if h == [] then 0
    else (if after < h[0].at <= upTo then 1 else 0) + CountIn(h[1..], after, upTo)
  }

  function Init(calls: seq<Call>): seq<Call>
    requires calls != []
  {
    calls[..|calls| - 1]
  }

  function Last(calls: seq<Call>): Call
    requires calls != []
  {
    calls[|calls| - 1]
  }

  /** Every admitted call, in order, when the limiter has handled `calls`. */
  function History(calls: seq<Call>, limit: nat, window: real): seq<Call> {
    if calls == [] then []
    else
      var h := History(Init(calls), limit, window);
      if Admits(h, limit, window, Last(calls).at) then h + [Last(calls)] else h
  }

  predicate Admits(h: seq<Call>, limit: nat, window: real, now: real) {
    |Recent(h, now - window)| < limit
  }

  /** Calls enter the limiter's critical section in the order of the clocks they read before it. */
  ghost predicate ClockOrder(calls: seq<Call>) {
    forall i, j :: 0 <= i < j < |calls| ==> calls[i].at <= calls[j].at
  }

  // ---------------------------------------------------------------------------
  // Facts about the history
  // ---------------------------------------------------------------------------

  lemma {:induction false} RecentConcat(g: seq<Call>, h: seq<Call>, cutoff: real)
    ensures Recent(g + h, cutoff) == Recent(g, cutoff) + Recent(h, cutoff)
  {
    if g == [] {
      assert g + h == h;
    } else {
      assert (g + h)[1..] == g[1..] + h;
      RecentConcat(g[1..], h, cutoff);
    }
  }

  lemma {:induction false} CountConcat(g: seq<Call>, h: seq<Call>, after: real, upTo: real)
    ensures CountIn(g + h, after, upTo) == CountIn(g, after, upTo) + CountIn(h, after, upTo)
  {
    if g == [] {
      assert g + h == h;
    } else {
      assert (g + h)[1..] == g[1..] + h;
      CountConcat(g[1..], h, after, upTo);
    }
  }

  /** Counting up to a bound that nothing exceeds is measuring the recent part. */
  lemma {:induction false} CountIsRecent(h: seq<Call>, after: real, upTo: real)
    requires forall x :: x in h ==> x.at <= upTo
    ensures CountIn(h, after, upTo) == |Recent(h, after)|
  {
    if h != [] {
      assert h[0] in h;
      assert forall x :: x in h[1..] ==> x in h;
      CountIsRecent(h[1..], after, upTo);
    }
  }

  lemma {:induction false} RecentIsAntitone(h: seq<Call>, early: real, late: real)
    requires early <= late
    ensures |Recent(h, late)| <= |Recent(h, early)|
    ensures Recent(Recent(h, early), late) == Recent(h, late)
  {
    if h != [] {
      RecentIsAntitone(h[1..], early, late);
      if h[0].at > early {
        assert ([h[0]] + Recent(h[1..], early))[1..] == Recent(h[1..], early);
      }
    }
  }

  lemma {:induction false} RecentElements(h: seq<Call>, cutoff: real)
    ensures forall x :: x in Recent(h, cutoff) <==> x in h && cutoff < x.at
  {
    if h != [] {
      RecentElements(h[1..], cutoff);
      assert h == [h[0]] + h[1..];
    }
  }

  lemma {:induction false} HistoryElements(calls: seq<Call>, limit: nat, window: real)
    ensures forall x :: x in History(calls, limit, window) ==> x in calls
  {
    if calls != [] {
      HistoryElements(Init(calls), limit, window);
      assert forall x :: x in Init(calls) ==> x in calls;
    }
  }

  /** In clock order, the recent part is all that is left after dropping a prefix. */
  lemma {:induction false} RecentIsSuffix(h: seq<Call>, cutoff: real)
    requires ClockOrder(h)
    ensures |Recent(h, cutoff)| <= |h|
    ensures Recent(h, cutoff) == h[|h| - |Recent(h, cutoff)|..]
  {
    if h != [] {
      if h[0].at <= cutoff {
        RecentIsSuffix(h[1..], cutoff);
      } else {
        NothingToDrop(h, cutoff);
      }
    }
  }

  lemma {:induction false} NothingToDrop(h: seq<Call>, cutoff: real)
    requires forall x :: x in h ==> cutoff < x.at
    ensures Recent(h, cutoff) == h
  {
    if h != [] {
      assert h[0] in h;
      NothingToDrop(h[1..], cutoff);
      assert h == [h[0]] + h[1..];
    }
  }

  lemma {:induction false} EverythingDropped(h: seq<Call>, cutoff: real)
    requires forall x :: x in h ==> x.at <= cutoff
    ensures Recent(h, cutoff) == []
  {
    if h != [] {
      assert h[0] in h;
      EverythingDropped(h[1..], cutoff);
    }
  }

  lemma {:induction false} HistoryInOrder(calls: seq<Call>, limit: nat, window: real)
    requires ClockOrder(calls)
    ensures ClockOrder(History(calls, limit, window))
  {
    if calls != [] {
      HistoryInOrder(Init(calls), limit, window);
      HistoryElements(Init(calls), limit, window);
      var h := History(Init(calls), limit, window);
      forall i | 0 <= i < |h|
        ensures h[i].at <= Last(calls).at
      {
        assert h[i] in Init(calls);
      }
    }
  }

  // ---------------------------------------------------------------------------
  // The bound and exactness of the reference limiter
  // ---------------------------------------------------------------------------

  /** Every interval of the window's length holds at most `limit` admissions. */
  lemma {:induction false} WindowBound(calls: seq<Call>, limit: nat, window: real, t: real)
    requires ClockOrder(calls) && window > 0.0
    ensures CountIn(History(calls, limit, window), t - window, t) <= limit
  {
    if calls != [] {
      var h, c := History(Init(calls), limit, window), Last(calls);
      WindowBound(Init(calls), limit, window, t);
      if Admits(h, limit, window, c.at) {
        CountConcat(h, [c], t - window, t);
        if t - window < c.at <= t {
          HistoryElements(Init(calls), limit, window);
          assert forall x :: x in h ==> x.at <= c.at;
          CountIsRecent(h, t - window, t);
          RecentIsAntitone(h, c.at - window, t - window);
        }
      }
    }
  }

  /** Nothing admitted before the last call is later than it. */
  lemma HistoryNotAfter(calls: seq<Call>, limit: nat, window: real)
    requires ClockOrder(calls) && calls != []
    ensures ClockOrder(History(Init(calls), limit, window))
    ensures forall x :: x in History(Init(calls), limit, window) ==> x.at <= Last(calls).at
  {
    HistoryInOrder(Init(calls), limit, window);
    HistoryElements(Init(calls), limit, window);
  }

  /** A call is denied exactly when `limit` admissions lie in the window that ends at it. */
  lemma DeniedExactly(calls: seq<Call>, limit: nat, window: real)
    requires ClockOrder(calls) && window > 0.0 && calls != []
    ensures var h, now := History(Init(calls), limit, window), Last(calls).at;
            && CountIn(h, now - window, now) == |Recent(h, now - window)|
            && (!Admits(h, limit, window, now) <==> CountIn(h, now - window, now) == limit)
  {
    var h, now := History(Init(calls), limit, window), Last(calls).at;
    HistoryNotAfter(calls, limit, window);
    CountIsRecent(h, now - window, now);
    WindowBound(Init(calls), limit, window, now);
  }

  // ---------------------------------------------------------------------------
  // The deque
  // ---------------------------------------------------------------------------

  /** Pops from the front while the front is at or before the cutoff. */
  function Prune(bucket: seq<real>, cutoff: real): seq<real> {
    if bucket != [] && bucket[0] <= cutoff then Prune(bucket[1..], cutoff) else bucket
  }

  /** Python's int(): towards zero. */
  function Truncate(x: real): int {
    if x < 0.0 then -((-x).Floor) else x.Floor
  }

  function Ceiling(x: real): (n: int)
    ensures n as real - 1.0 < x <= n as real
  {
    -((-x).Floor)
  }

  function AtLeastOne(n: int): int {
    if n < 1 then 1 else n
  }

  datatype Verdict = Verdict(answer: Answer, bucket: seq<real>)

  function DequeCheck(bucket: seq<real>, limit: nat, window: real, now: real): Verdict
    requires limit >= 1
  {
    var b := Prune(bucket, now - window);
    if |b| >= limit then
      Verdict(Answer(false, AtLeastOne(Truncate(b[0] + window - now))), b)
    else
      Verdict(Answer(true, 0), b + [now])
  }

  /** The in-memory backend: one deque of admission times per key. */
  class MemoryRateLimitBackend {
    var buckets: map<string, seq<real>>

    constructor ()
      ensures buckets == map[]
    {
      buckets := map[];
    }

    function Bucket(key: string): seq<real>
      reads this
    {
      if key in buckets then buckets[key] else []
    }

    /** `now` is the clock read before the lock; limit and window come from a loaded configuration. */
    method CheckAndRecord(key: string, limit: nat, window: real, now: real) returns (answer: Answer)
      requires limit >= 1
      modifies this
      ensures answer == DequeCheck(old(Bucket(key)), limit, window, now).answer
      ensures buckets == old(buckets)[key := DequeCheck(old(Bucket(key)), limit, window, now).bucket]
    {
      var bucket := Bucket(key);
      var cutoff := now - window;
      while bucket != [] && bucket[0] <= cutoff
        invariant Prune(bucket, cutoff) == Prune(old(Bucket(key)), cutoff)
        decreases |bucket|
      {
        bucket := bucket[1..];
      }
      if |bucket| >= limit {
        buckets := buckets[key := bucket];
        answer := Answer(false, AtLeastOne(Truncate(bucket[0] + window - now)));
      } else {
        buckets := buckets[key := bucket + [now]];
        answer := Answer(true, 0);
      }
    }
  }

  /** The deque of one key after `calls`, from empty. */
  function Deque(calls: seq<Call>, limit: nat, window: real): seq<real>
    requires limit >= 1
  {
    if calls == [] then [] else DequeCheck(Deque(Init(calls), limit, window), limit, window, Last(calls).at).bucket
  }

  function Times(h: seq<Call>): (t: seq<real>)
    ensures |t| == |h|
  {
    if h == [] then [] else [h[0].at] + Times(h[1..])
  }

  lemma {:induction false} TimesConcat(g: seq<Call>, h: seq<Call>)
    ensures Times(g + h) == Times(g) + Times(h)
  {
    if g == [] {
      assert g + h == h;
    } else {
      assert (g + h)[1..] == g[1..] + h;
      TimesConcat(g[1..], h);
    }
  }

  /** On times in clock order, popping from the front keeps exactly the recent ones. */
  lemma {:induction false} PruneIsRecent(h: seq<Call>, cutoff: real)
    requires ClockOrder(h)
    ensures Prune(Times(h), cutoff) == Times(Recent(h, cutoff))
  {
    if h != [] {
      if h[0].at <= cutoff {
        PruneIsRecent(h[1..], cutoff);
      } else {
        NothingToDrop(h, cutoff);
      }
    }
  }

  /** The deque is the recent part of the full history, above the cutoff of the last call. */
  lemma {:induction false} DequeIsRecentHistory(calls: seq<Call>, limit: nat, window: real)
    requires ClockOrder(calls) && limit >= 1 && window > 0.0 && calls != []
    ensures Deque(calls, limit, window) == Times(Recent(History(calls, limit, window), Last(calls).at - window))
    decreases |calls|, 1
  {
    DequeBeforeCall(calls, limit, window);
    RecordedIsRecent(History(Init(calls), limit, window), Last(calls), Last(calls).at - window);
  }

  lemma RecordedIsRecent(h: seq<Call>, c: Call, cutoff: real)
    requires cutoff < c.at
    ensures Times(Recent(h + [c], cutoff)) == Times(Recent(h, cutoff)) + [c.at]
  {
    RecentConcat(h, [c], cutoff);
    TimesConcat(Recent(h, cutoff), [c]);
    assert [c][1..] == [];
    assert Recent([c], cutoff) == [c] && Times([c]) == [c.at];
  }

  /** What the deque holds once the next call has pruned it. */
  lemma {:induction false} DequeBeforeCall(calls: seq<Call>, limit: nat, window: real)
    requires ClockOrder(calls) && limit >= 1 && window > 0.0 && calls != []
    ensures Prune(Deque(Init(calls), limit, window), Last(calls).at - window)
            == Times(Recent(History(Init(calls), limit, window), Last(calls).at - window))
    decreases |calls|, 0
  {
    var before, c := Init(calls), Last(calls);
    if before != [] {
      DequeIsRecentHistory(before, limit, window);
      var h, early := History(before, limit, window), Last(before).at - window;
      HistoryInOrder(before, limit, window);
      RecentIsSuffix(h, early);
      PruneIsRecent(Recent(h, early), c.at - window);
      RecentIsAntitone(h, early, c.at - window);
    }
  }

  /** The deque admits the last call, hence every call, exactly when the reference does. */
  lemma DequeIsExact(calls: seq<Call>, limit: nat, window: real)
    requires ClockOrder(calls) && limit >= 1 && window > 0.0 && calls != []
    ensures DequeCheck(Deque(Init(calls), limit, window), limit, window, Last(calls).at).answer.allowed
            <==> Admits(History(Init(calls), limit, window), limit, window, Last(calls).at)
  {
    DequeBeforeCall(calls, limit, window);
  }

  /** A denial sees a full window, and advises the whole part of the time until its oldest admission leaves. */
  lemma DenialIsFull(calls: seq<Call>, limit: nat, window: real)
    requires ClockOrder(calls) && limit >= 1 && window > 0.0 && calls != []
    requires !Admits(History(Init(calls), limit, window), limit, window, Last(calls).at)
    ensures var h, now := History(Init(calls), limit, window), Last(calls).at;
            && |Recent(h, now - window)| == limit
            && 0.0 < Remaining(h, window, now) <= window
            && DequeCheck(Deque(Init(calls), limit, window), limit, window, now).answer
               == Answer(false, AtLeastOne(Remaining(h, window, now).Floor))
  {
    var h, now := History(Init(calls), limit, window), Last(calls).at;
    var recent := Recent(h, now - window);
    DequeBeforeCall(calls, limit, window);
    DeniedExactly(calls, limit, window);
    HistoryNotAfter(calls, limit, window);
    RecentElements(h, now - window);
    assert recent[0] in recent;
  }

  /** The time until the oldest admission of the window leaves it. */
  function Remaining(h: seq<Call>, window: real, now: real): real
    requires Recent(h, now - window) != []
  {
    Recent(h, now - window)[0].at + window - now
  }

  // ---------------------------------------------------------------------------
  // Waiting
  // ---------------------------------------------------------------------------

  /** After a denial, and with no admission since, a call is admitted exactly when the remaining time is over. */
  lemma AdmittedOnceOver(h: seq<Call>, limit: nat, window: real, now: real, wait: real)
    requires ClockOrder(h) && limit >= 1 && wait >= 0.0
    requires |Recent(h, now - window)| == limit
    ensures Admits(h, limit, window, now + wait) <==> Remaining(h, window, now) <= wait
  {
    var recent := Recent(h, now - window);
    RecentIsAntitone(h, now - window, now + wait - window);
    RecentInOrder(h, now - window);
    OldestLeaves(recent, now + wait - window);
  }

  lemma RecentInOrder(h: seq<Call>, cutoff: real)
    requires ClockOrder(h)
    ensures ClockOrder(Recent(h, cutoff))
  {
    RecentIsSuffix(h, cutoff);
  }

  /** A later cutoff leaves fewer calls exactly when it reaches the oldest. */
  lemma OldestLeaves(h: seq<Call>, cutoff: real)
    requires ClockOrder(h) && h != []
    ensures |Recent(h, cutoff)| < |h| <==> h[0].at <= cutoff
  {
    if h[0].at <= cutoff {
      RecentIsSuffix(h[1..], cutoff);
    } else {
      NothingToDrop(h, cutoff);
    }
  }

  /**
   The deque's advice is enough exactly when the remaining time is whole or at most a second. It is
   never short by a second or more, and one second on top of it is always enough.
   */
  lemma DequeAdvice(calls: seq<Call>, limit: nat, window: real)
    requires ClockOrder(calls) && limit >= 1 && window > 0.0 && calls != []
    requires !DequeCheck(Deque(Init(calls), limit, window), limit, window, Last(calls).at).answer.allowed
    ensures var h, now := History(Init(calls), limit, window), Last(calls).at;
            var retry := DequeCheck(Deque(Init(calls), limit, window), limit, window, now).answer.retryAfter as real;
            && Recent(h, now - window) != []
            && var x := Remaining(h, window, now);
               && (Admits(h, limit, window, now + retry) <==> x <= 1.0 || x == x.Floor as real)
               && x - retry < 1.0
               && Admits(h, limit, window, now + retry + 1.0)
  {
    var h, now := History(Init(calls), limit, window), Last(calls).at;
    DequeIsExact(calls, limit, window);
    DenialIsFull(calls, limit, window);
    HistoryNotAfter(calls, limit, window);
    var retry := AtLeastOne(Remaining(h, window, now).Floor) as real;
    AdmittedOnceOver(h, limit, window, now, retry);
    AdmittedOnceOver(h, limit, window, now, retry + 1.0);
  }
}
