/**
 The Redis side of the rate limiter: the script on a sorted set whose key may expire, and that it
 agrees with the deque.
 */
module RateLimitLua {
  import opened Text
  import opened RateLimit

  /** A member of the sorted set. Its text is "<clock>:<uid>", so it determines its score. */
  datatype Member = Member(score: real, uid: string)

  /** The sorted set under one key, and when the Redis server drops it; the empty set is an absent key. */
  datatype SortedSet = SortedSet(members: set<Member>, expiresAt: real)

  const ABSENT := SortedSet({}, 0.0)

  /** What the script finds: nothing, once the server's clock has reached the expiry. */
  function Found(z: SortedSet, server: real): set<Member> {
    if z.expiresAt <= server then {} else z.members
  }

  /** ZREMRANGEBYSCORE key -inf cutoff. */
  function Above(members: set<Member>, cutoff: real): set<Member> {
    set m | m in members && cutoff < m.score
  }

  ghost predicate IsOldest(members: set<Member>, score: real) {
    (exists m :: m in members && m.score == score) && forall m :: m in members ==> score <= m.score
  }

  lemma {:induction false} HasOldest(members: set<Member>)
    requires members != {}
    ensures exists score :: IsOldest(members, score)
    decreases |members|
  {
    var m :| m in members;
    var rest := members - {m};
    if rest == {} {
      assert members == {m};
      assert IsOldest(members, m.score);
    } else {
      HasOldest(rest);
      var s :| IsOldest(rest, s);
      var least := if m.score < s then m.score else s;
      forall n | n in members
        ensures least <= n.score
      {
        assert n == m || n in rest;
      }
      var witness' :| witness' in rest && witness'.score == s;
      assert m.score == least || witness'.score == least;
      assert IsOldest(members, least);
    }
  }

  /** ZRANGE key 0 0 WITHSCORES: the lowest score. */
  ghost function Oldest(members: set<Member>): (score: real)
    requires members != {}
    ensures IsOldest(members, score)
  {
    HasOldest(members);
    var score :| IsOldest(members, score);
    score
  }

  function AsMember(c: Call): Member {
    Member(c.at, c.uid)
  }

  datatype Reply = Reply(answer: Answer, after: SortedSet)

  ghost function ScriptCheck(z: SortedSet, limit: nat, window: real, call: Call): Reply
    requires limit >= 1
  {
    var kept := Above(Found(z, call.server), call.at - window);
    if |kept| < limit then
      Reply(Answer(true, 0),
            SortedSet(kept + {AsMember(call)}, call.server + (Ceiling(window) + 1) as real))
    else
      Reply(Answer(false, AtLeastOne(Ceiling(Oldest(kept) + window - call.at))), z.(members := kept))
  }

  ghost function Script(calls: seq<Call>, limit: nat, window: real): SortedSet
    requires limit >= 1
  {
    if calls == [] then ABSENT else ScriptCheck(Script(Init(calls), limit, window), limit, window, Last(calls)).after
  }

  // ---------------------------------------------------------------------------
  // Assumptions on the clocks and the ids
  // ---------------------------------------------------------------------------

  /** d may come after c: clocks in order, ids distinct, and between the two the server's clock gains at
      most one second on the clocks that the calls read. */
  ghost predicate Follows(c: Call, d: Call) {
    c.at <= d.at && c.uid != d.uid && d.server - c.server <= d.at - c.at + 1.0
  }

  ghost predicate Orderly(calls: seq<Call>) {
    calls == [] || (Orderly(Init(calls)) && forall c :: c in Init(calls) ==> Follows(c, Last(calls)))
  }

  lemma {:induction false} OrderlyInClockOrder(calls: seq<Call>)
    requires Orderly(calls)
    ensures ClockOrder(calls)
  {
    if calls != [] {
      OrderlyInClockOrder(Init(calls));
      forall i | 0 <= i < |calls| - 1
        ensures calls[i].at <= Last(calls).at
      {
        assert calls[i] in Init(calls);
      }
    }
  }

  lemma {:induction false} HistoryOrderly(calls: seq<Call>, limit: nat, window: real)
    requires Orderly(calls)
    ensures Orderly(History(calls, limit, window))
  {
    if calls != [] {
      var h := History(Init(calls), limit, window);
      HistoryOrderly(Init(calls), limit, window);
      HistoryElements(Init(calls), limit, window);
      assert Init(h + [Last(calls)]) == h;
    }
  }

  lemma {:induction false} RecentOrderly(h: seq<Call>, cutoff: real)
    requires Orderly(h)
    ensures Orderly(Recent(h, cutoff))
  {
    if h != [] {
      var r := Recent(Init(h), cutoff);
      RecentOrderly(Init(h), cutoff);
      RecentElements(Init(h), cutoff);
      RecentConcat(Init(h), [Last(h)], cutoff);
      assert Init(h) + [Last(h)] == h;
      assert [Last(h)][1..] == [];
      if Last(h).at <= cutoff {
        assert Recent(h, cutoff) == r;
      } else {
        assert Recent(h, cutoff) == r + [Last(h)];
        assert Init(r + [Last(h)]) == r && Last(r + [Last(h)]) == Last(h);
      }
    }
  }

  // ---------------------------------------------------------------------------
  // The sorted set holds the recent history
  // ---------------------------------------------------------------------------

  function Members(h: seq<Call>): set<Member> {
    if h == [] then {} else {AsMember(h[0])} + Members(h[1..])
  }

  lemma {:induction false} MembersElements(h: seq<Call>)
    ensures forall m :: m in Members(h) <==> exists i :: 0 <= i < |h| && AsMember(h[i]) == m
  {
    if h != [] {
      MembersElements(h[1..]);
      forall m | exists i :: 0 <= i < |h| && AsMember(h[i]) == m
        ensures m in Members(h)
      {
        var i :| 0 <= i < |h| && AsMember(h[i]) == m;
        assert i > 0 ==> AsMember(h[1..][i - 1]) == m;
      }
    }
  }

  lemma {:induction false} MembersExtend(h: seq<Call>, c: Call)
    ensures Members(h + [c]) == Members(h) + {AsMember(c)}
  {
    if h == [] {
      assert h + [c] == [c] && [c][1..] == [];
    } else {
      assert (h + [c])[1..] == h[1..] + [c];
      MembersExtend(h[1..], c);
    }
  }

  lemma {:induction false} MembersSize(h: seq<Call>)
    requires Orderly(h)
    ensures |Members(h)| == |h|
  {
    if h != [] {
      MembersSize(Init(h));
      MembersExtend(Init(h), Last(h));
      assert Init(h) + [Last(h)] == h;
      MembersElements(Init(h));
      assert AsMember(Last(h)) !in Members(Init(h)) by {
        forall i | 0 <= i < |Init(h)|
          ensures AsMember(Init(h)[i]) != AsMember(Last(h))
        {
          assert Follows(Init(h)[i], Last(h));
        }
      }
    }
  }

  lemma {:induction false} MembersAbove(h: seq<Call>, cutoff: real)
    ensures Above(Members(h), cutoff) == Members(Recent(h, cutoff))
  {
    if h != [] {
      MembersAbove(h[1..], cutoff);
      var m := AsMember(h[0]);
      assert Above({m} + Members(h[1..]), cutoff) == (if cutoff < m.score then {m} else {}) + Above(Members(h[1..]), cutoff);
      if cutoff < m.score {
        assert ([h[0]] + Recent(h[1..], cutoff))[1..] == Recent(h[1..], cutoff);
      }
    }
  }

  /** The set holds the members of the history after `cutoff`, and expires long after the last admission. */
  ghost predicate Coupled(z: SortedSet, h: seq<Call>, cutoff: real, window: real) {
    && z.members == Members(Recent(h, cutoff))
    && (h != [] ==> z.expiresAt == Last(h).server + (Ceiling(window) + 1) as real)
  }

  /** The call c comes after everything in h. */
  ghost predicate Next(h: seq<Call>, c: Call) {
    Orderly(h) && forall x :: x in h ==> Follows(x, c)
  }

  /** When the server has dropped the key, no admission is left in the window anyway. */
  lemma EvictionIsHarmless(z: SortedSet, h: seq<Call>, cutoff: real, window: real, c: Call)
    requires Coupled(z, h, cutoff, window) && Next(h, c) && z.expiresAt <= c.server
    ensures Recent(h, c.at - window) == []
  {
    forall x | x in h
      ensures x.at <= c.at - window
    {
      assert Follows(Last(h), c);
      assert x == Last(h) || x in Init(h);
    }
    EverythingDropped(h, c.at - window);
  }

  /** What the script keeps of the set it finds: the recent history, whether or not the key was dropped. */
  lemma ScriptKeepsRecent(z: SortedSet, h: seq<Call>, cutoff: real, window: real, c: Call)
    requires Coupled(z, h, cutoff, window) && Next(h, c) && cutoff <= c.at - window
    ensures Above(Found(z, c.server), c.at - window) == Members(Recent(h, c.at - window))
    ensures |Members(Recent(h, c.at - window))| == |Recent(h, c.at - window)|
  {
    if z.expiresAt <= c.server {
      EvictionIsHarmless(z, h, cutoff, window, c);
      assert Above({}, c.at - window) == {};
    } else {
      MembersAbove(Recent(h, cutoff), c.at - window);
      RecentIsAntitone(h, cutoff, c.at - window);
    }
    RecentOrderly(h, c.at - window);
    MembersSize(Recent(h, c.at - window));
  }

  lemma AdmissionStaysCoupled(after: SortedSet, h: seq<Call>, c: Call, window: real)
    requires window > 0.0
    requires after == SortedSet(Members(Recent(h, c.at - window)) + {AsMember(c)}, c.server + (Ceiling(window) + 1) as real)
    ensures Coupled(after, h + [c], c.at - window, window)
  {
    var cutoff := c.at - window;
    RecentConcat(h, [c], cutoff);
    assert [c][1..] == [];
    assert Recent(h + [c], cutoff) == Recent(h, cutoff) + [c];
    MembersExtend(Recent(h, cutoff), c);
  }

  /** An admitted call joins the set as it joins the history. */
  lemma ScriptAdmits(z: SortedSet, h: seq<Call>, cutoff: real, limit: nat, window: real, c: Call)
    requires Coupled(z, h, cutoff, window) && Next(h, c) && cutoff <= c.at - window
    requires limit >= 1 && window > 0.0 && Admits(h, limit, window, c.at)
    ensures Coupled(ScriptCheck(z, limit, window, c).after, h + [c], c.at - window, window)
  {
    ScriptKeepsRecent(z, h, cutoff, window, c);
    AdmissionStaysCoupled(ScriptCheck(z, limit, window, c).after, h, c, window);
  }

  /** A denied call only drops what has left the window. */
  lemma ScriptDenies(z: SortedSet, h: seq<Call>, cutoff: real, limit: nat, window: real, c: Call)
    requires Coupled(z, h, cutoff, window) && Next(h, c) && cutoff <= c.at - window
    requires limit >= 1 && window > 0.0 && !Admits(h, limit, window, c.at)
    ensures Coupled(ScriptCheck(z, limit, window, c).after, h, c.at - window, window)
  {
    ScriptKeepsRecent(z, h, cutoff, window, c);
    assert ScriptCheck(z, limit, window, c).after == z.(members := Members(Recent(h, c.at - window)));
  }

  lemma ScriptAnswers(z: SortedSet, h: seq<Call>, cutoff: real, limit: nat, window: real, c: Call)
    requires Coupled(z, h, cutoff, window) && Next(h, c) && cutoff <= c.at - window
    requires limit >= 1 && window > 0.0
    ensures ScriptCheck(z, limit, window, c).answer
            == if Admits(h, limit, window, c.at) then Answer(true, 0)
               else Answer(false, AtLeastOne(Ceiling(Remaining(h, window, c.at))))
  {
    var recent := Recent(h, c.at - window);
    ScriptKeepsRecent(z, h, cutoff, window, c);
    if !Admits(h, limit, window, c.at) {
      RecentOrderly(h, c.at - window);
      OldestIsFirst(recent);
      assert Oldest(Above(Found(z, c.server), c.at - window)) == recent[0].at;
    }
  }

  lemma OldestIsFirst(recent: seq<Call>)
    requires Orderly(recent) && recent != []
    ensures Members(recent) != {}
    ensures Oldest(Members(recent)) == recent[0].at
  {
    OrderlyInClockOrder(recent);
    MembersElements(recent);
    var score := Oldest(Members(recent));
    assert AsMember(recent[0]) in Members(recent);
    var m :| m in Members(recent) && m.score == score;
    var i :| 0 <= i < |recent| && AsMember(recent[i]) == m;
  }

  lemma NextCall(calls: seq<Call>, limit: nat, window: real)
    requires Orderly(calls) && calls != []
    ensures Next(History(Init(calls), limit, window), Last(calls))
  {
    HistoryOrderly(Init(calls), limit, window);
    HistoryElements(Init(calls), limit, window);
  }

  /** The oldest time that can matter to the call after `calls`. */
  function Horizon(calls: seq<Call>, window: real, next: Call): real {
    if calls == [] then next.at - window else Last(calls).at - window
  }

  lemma HorizonIsPast(calls: seq<Call>, window: real)
    requires Orderly(calls) && calls != []
    ensures Horizon(Init(calls), window, Last(calls)) <= Last(calls).at - window
  {
    assert Init(calls) != [] ==> Follows(Last(Init(calls)), Last(calls));
  }

  /** What the script and the history make of one call after `before`. */
  lemma OneCall(before: seq<Call>, c: Call, limit: nat, window: real)
    requires limit >= 1
    ensures Script(before + [c], limit, window) == ScriptCheck(Script(before, limit, window), limit, window, c).after
    ensures History(before + [c], limit, window)
            == if Admits(History(before, limit, window), limit, window, c.at) then History(before, limit, window) + [c]
               else History(before, limit, window)
  {
    assert Init(before + [c]) == before && Last(before + [c]) == c;
  }

  /** The set after a call is coupled with the history after it. */
  lemma ScriptStep(before: seq<Call>, c: Call, limit: nat, window: real)
    requires limit >= 1 && window > 0.0 && Next(History(before, limit, window), c)
    requires Horizon(before, window, c) <= c.at - window
    requires Coupled(Script(before, limit, window), History(before, limit, window), Horizon(before, window, c), window)
    ensures Coupled(Script(before + [c], limit, window), History(before + [c], limit, window), c.at - window, window)
  {
    var z, h := Script(before, limit, window), History(before, limit, window);
    OneCall(before, c, limit, window);
    if Admits(h, limit, window, c.at) {
      ScriptAdmits(z, h, Horizon(before, window, c), limit, window, c);
    } else {
      ScriptDenies(z, h, Horizon(before, window, c), limit, window, c);
    }
  }

  lemma AbsentIsCoupled(cutoff: real, window: real)
    ensures Coupled(ABSENT, [], cutoff, window)
  {
    assert Recent([], cutoff) == [] && Members([]) == {};
  }

  lemma {:induction false} AfterIsCoupled(before: seq<Call>, c: Call, limit: nat, window: real)
    requires Orderly(before + [c]) && limit >= 1 && window > 0.0
    ensures Coupled(Script(before + [c], limit, window), History(before + [c], limit, window), c.at - window, window)
    decreases |before|
  {
    SplitsOff(before, c, limit, window);
    if before == [] {
      AbsentIsCoupled(c.at - window, window);
    } else {
      assert before == Init(before) + [Last(before)];
      AfterIsCoupled(Init(before), Last(before), limit, window);
    }
    ScriptStep(before, c, limit, window);
  }

  /** The last call of an orderly sequence comes after everything, at or after the horizon. */
  lemma SplitsOff(before: seq<Call>, c: Call, limit: nat, window: real)
    requires Orderly(before + [c])
    ensures Orderly(before) && Next(History(before, limit, window), c) && Horizon(before, window, c) <= c.at - window
  {
    assert Init(before + [c]) == before && Last(before + [c]) == c;
    NextCall(before + [c], limit, window);
    HorizonIsPast(before + [c], window);
  }

  /** The set before the last call of any sequence is coupled with the history before it. */
  lemma ScriptIsCoupled(calls: seq<Call>, limit: nat, window: real)
    requires Orderly(calls) && limit >= 1 && window > 0.0 && calls != []
    ensures Coupled(Script(Init(calls), limit, window), History(Init(calls), limit, window),
                    Horizon(Init(calls), window, Last(calls)), window)
  {
    var before := Init(calls);
    if before == [] {
      AbsentIsCoupled(Last(calls).at - window, window);
    } else {
      assert before == Init(before) + [Last(before)];
      AfterIsCoupled(Init(before), Last(before), limit, window);
    }
  }

  // ---------------------------------------------------------------------------
  // The two limiters agree
  // ---------------------------------------------------------------------------

  /** The script admits the last call, hence every call, exactly when the reference does. */
  lemma ScriptIsExact(calls: seq<Call>, limit: nat, window: real)
    requires Orderly(calls) && limit >= 1 && window > 0.0 && calls != []
    ensures var h, c := History(Init(calls), limit, window), Last(calls);
            ScriptCheck(Script(Init(calls), limit, window), limit, window, c).answer
            == if Admits(h, limit, window, c.at) then Answer(true, 0)
               else Answer(false, AtLeastOne(Ceiling(Remaining(h, window, c.at))))
  {
    var h, c := History(Init(calls), limit, window), Last(calls);
    ScriptIsCoupled(calls, limit, window);
    NextCall(calls, limit, window);
    HorizonIsPast(calls, window);
    ScriptAnswers(Script(Init(calls), limit, window), h, Horizon(Init(calls), window, c), limit, window, c);
  }

  lemma RoundedUp(x: real)
    requires x > 0.0
    ensures AtLeastOne(x.Floor) <= AtLeastOne(Ceiling(x)) <= AtLeastOne(x.Floor) + 1
    ensures x <= AtLeastOne(Ceiling(x)) as real
  {
  }

  /** The answer the history gives, with the remaining time rounded down. */
  ghost predicate RoundsDown(h: seq<Call>, limit: nat, window: real, now: real, a: Answer)
    requires limit >= 1
  {
    && ClockOrder(h)
    && a == (if Admits(h, limit, window, now) then Answer(true, 0)
             else Answer(false, AtLeastOne(Remaining(h, window, now).Floor)))
    && (!Admits(h, limit, window, now) ==>
          |Recent(h, now - window)| == limit && Remaining(h, window, now) > 0.0)
  }

  /** The same, rounded up. */
  ghost predicate RoundsUp(h: seq<Call>, limit: nat, window: real, now: real, a: Answer)
    requires limit >= 1
  {
    a == if Admits(h, limit, window, now) then Answer(true, 0)
         else Answer(false, AtLeastOne(Ceiling(Remaining(h, window, now))))
  }

  /** The same answer, up to a second of advice, and enough of it from the script. */
  ghost predicate Agree(h: seq<Call>, limit: nat, window: real, now: real, deque: Answer, script: Answer) {
    && deque.allowed == script.allowed
    && deque.retryAfter <= script.retryAfter <= deque.retryAfter + 1
    && (!script.allowed ==> Admits(h, limit, window, now + script.retryAfter as real))
  }

  lemma DequeRoundsDown(calls: seq<Call>, limit: nat, window: real)
    requires Orderly(calls) && limit >= 1 && window > 0.0 && calls != []
    ensures RoundsDown(History(Init(calls), limit, window), limit, window, Last(calls).at,
                       DequeCheck(Deque(Init(calls), limit, window), limit, window, Last(calls).at).answer)
  {
    OrderlyInClockOrder(calls);
    HistoryNotAfter(calls, limit, window);
    DequeIsExact(calls, limit, window);
    if !Admits(History(Init(calls), limit, window), limit, window, Last(calls).at) {
      DenialIsFull(calls, limit, window);
    }
  }

  lemma ScriptRoundsUp(calls: seq<Call>, limit: nat, window: real)
    requires Orderly(calls) && limit >= 1 && window > 0.0 && calls != []
    ensures RoundsUp(History(Init(calls), limit, window), limit, window, Last(calls).at,
                     ScriptCheck(Script(Init(calls), limit, window), limit, window, Last(calls)).answer)
  {
    ScriptIsExact(calls, limit, window);
  }

  lemma AnswersAgree(h: seq<Call>, limit: nat, window: real, now: real, deque: Answer, script: Answer)
    requires limit >= 1 && RoundsDown(h, limit, window, now, deque) && RoundsUp(h, limit, window, now, script)
    ensures Agree(h, limit, window, now, deque, script)
  {
    if !Admits(h, limit, window, now) {
      RoundedUp(Remaining(h, window, now));
      AdmittedOnceOver(h, limit, window, now, script.retryAfter as real);
    }
  }

  /**
   On every sequence of calls the script and the deque give the last call, hence every call, the same
   answer, up to advice that differs by at most one second. With no admission in between, a call made
   after the script's advice is admitted.
   */
  lemma TwoLimitersAgree(calls: seq<Call>, limit: nat, window: real)
    requires Orderly(calls) && limit >= 1 && window > 0.0 && calls != []
    ensures Agree(History(Init(calls), limit, window), limit, window, Last(calls).at,
                  DequeCheck(Deque(Init(calls), limit, window), limit, window, Last(calls).at).answer,
                  ScriptCheck(Script(Init(calls), limit, window), limit, window, Last(calls)).answer)
  {
    DequeRoundsDown(calls, limit, window);
    ScriptRoundsUp(calls, limit, window);
    AnswersAgree(History(Init(calls), limit, window), limit, window, Last(calls).at,
                 DequeCheck(Deque(Init(calls), limit, window), limit, window, Last(calls).at).answer,
                 ScriptCheck(Script(Init(calls), limit, window), limit, window, Last(calls)).answer);
  }
}
