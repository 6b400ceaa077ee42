/** Which observations count, and the streak of failures a source's full tests end with: how its length
    as a tail of the sorted evidence relates to a count that mentions no order. */
module Streaks {
  import opened Domain
  import opened Sequences
  import opened Evaluator

  // ---------- which observations count ----------

  lemma {:induction false} FreshIsSortedLive(observations: seq<Observation>, now: int)
    ensures Fresh(observations, now) == SortBy(Filter(observations, LiveAt(now)), ByTime())
  {
    var usable := Filter(observations, UsableRoutes());
    FilterSort(usable, ByTime(), FreshAt(now));
    FilterMembers(observations, UsableRoutes());
    FilterAgrees(usable, FreshAt(now), LiveAt(now));
    FilterWeaker(observations, UsableRoutes(), LiveAt(now));
  }

  lemma {:induction false} FreshMembers(observations: seq<Observation>, now: int)
    ensures forall o :: o in Fresh(observations, now) ==> o in observations && Live(o, now)
    ensures forall o :: o in observations && Live(o, now) ==> o in Fresh(observations, now)
  {
    FreshIsSortedLive(observations, now);
    FilterMembers(observations, LiveAt(now));
    SortMembers(Filter(observations, LiveAt(now)), ByTime());
  }

  // ---------- streaks without order ----------

  /** A valid full-test failure not followed by a full test that was not one. A simultaneous one follows
      it only when `strictly` counts it against the failure. */
  ghost predicate Stands(o: Observation, tests: set<Observation>, strictly: bool) {
    && ValidFullFailure(o)
    && forall p :: p in tests && !ValidFullFailure(p) ==>
        p.observedAt < o.observedAt || (!strictly && p.observedAt == o.observedAt)
  }

  ghost function StandsIn(tests: set<Observation>, strictly: bool): Observation -> bool {
    (o: Observation) => Stands(o, tests, strictly)
  }

  ghost function LiveTestsOf(observations: seq<Observation>, now: int, source: string): set<Observation> {
    set o | o in observations && Live(o, now) && o.fullVpnTest && o.source == source
  }

  ghost function StandingOf(observations: seq<Observation>, now: int, source: string,
                            strictly: bool): Observation -> bool {
    var tests := LiveTestsOf(observations, now, source);
    (o: Observation) => o in tests && Stands(o, tests, strictly)
  }

  ghost function Streak(observations: seq<Observation>, now: int, source: string, strictly: bool): nat {
    |Filter(observations, StandingOf(observations, now, source, strictly))|
  }

  /** How many live full tests of the source failed after its last test that did not. No order is
      involved: this counts observations by their timestamps. */
  ghost function FailureStreak(observations: seq<Observation>, now: int, source: string): nat {
    Streak(observations, now, source, true)
  }

  /** The same, counting the failures simultaneous with that last test as well. */
  ghost function PossibleStreak(observations: seq<Observation>, now: int, source: string): nat {
    Streak(observations, now, source, false)
  }

  lemma {:induction false} StreakOfPermutation(a: seq<Observation>, b: seq<Observation>, now: int, source: string,
                                               strictly: bool)
    requires multiset(a) == multiset(b)
    ensures Streak(a, now, source, strictly) == Streak(b, now, source, strictly)
  {
    SameMembers(a, b);
    assert LiveTestsOf(a, now, source) == LiveTestsOf(b, now, source);
    FilterPermutation(a, b, StandingOf(a, now, source, strictly));
    FilterAgrees(b, StandingOf(a, now, source, strictly), StandingOf(b, now, source, strictly));
  }

  lemma {:induction false} SameMembers<T>(a: seq<T>, b: seq<T>)
    requires multiset(a) == multiset(b)
    ensures |a| == |b|
    ensures forall x :: x in a ==> x in b
    ensures forall x :: x in b ==> x in a
  {
    assert |multiset(a)| == |a| && |multiset(b)| == |b|;
    forall x | x in a ensures x in b { assert x in multiset(a); }
    forall x | x in b ensures x in a { assert x in multiset(b); }
  }

  // ---------- the run of failures a sequence ends with ----------

  function EndingRun(tests: seq<Observation>): (n: nat)
    ensures n <= |tests|
  {
    if tests == [] || !ValidFullFailure(tests[|tests| - 1]) then 0 else EndingRun(tests[..|tests| - 1]) + 1
  }

  lemma {:induction false} TailStep(init: seq<Observation>, last: Observation, n: int)
    requires n >= 1 && ValidFullFailure(last)
    ensures TailFails(init + [last], n) <==> n == 1 || TailFails(init, n - 1)
  {
  }

  lemma {:induction false} TailIsRun(tests: seq<Observation>, n: int)
    requires n >= 1
    ensures TailFails(tests, n) <==> EndingRun(tests) >= n
  {
    if tests != [] {
      var init, last := tests[..|tests| - 1], tests[|tests| - 1];
      assert tests == init + [last];
      if ValidFullFailure(last) {
        TailStep(init, last, n);
        if n > 1 {
          TailIsRun(init, n - 1);
        }
      } else {
        assert last in Tail(tests, n);
      }
    }
  }

  lemma {:induction false} RunSplit(tests: seq<Observation>) returns (front: seq<Observation>, run: seq<Observation>)
    ensures tests == front + run && |run| == EndingRun(tests)
    ensures forall o :: o in run ==> ValidFullFailure(o)
    ensures front != [] ==> !ValidFullFailure(front[|front| - 1])
  {
    if tests == [] || !ValidFullFailure(tests[|tests| - 1]) {
      front, run := tests, [];
    } else {
      front, run := RunSplit(tests[..|tests| - 1]);
      run := run + [tests[|tests| - 1]];
      assert tests == front + run;
    }
  }

  // ---------- ties ----------

  /** Among simultaneous observations those that meet `early` come first. */
  ghost predicate TiesPut(tests: seq<Observation>, early: Observation -> bool) {
    forall i, j :: 0 <= i < j < |tests| && !early(tests[i]) && early(tests[j]) ==>
        tests[i].observedAt < tests[j].observedAt
  }

  function Failing(): Observation -> bool { (o: Observation) => ValidFullFailure(o) }
  function NotFailing(): Observation -> bool { (o: Observation) => !ValidFullFailure(o) }

  lemma {:induction false} InsertPuts(s: seq<Observation>, x: Observation, early: Observation -> bool)
    requires TiesPut(s, early) && !early(x)
    ensures TiesPut(Insert(s, x, ByTime()), early)
  {
    if s == [] || s[|s| - 1].observedAt <= x.observedAt {
      assert Insert(s, x, ByTime()) == s + [x];
    } else {
      var init, last := s[..|s| - 1], s[|s| - 1];
      InsertPuts(init, x, early);
      InsertMultiset(init, x, ByTime());
      var rest := Insert(init, x, ByTime());
      forall i | 0 <= i < |rest| && !early(rest[i]) && early(last) ensures rest[i].observedAt < last.observedAt {
        assert rest[i] in rest;
        if rest[i] != x {
          var k :| 0 <= k < |init| && init[k] == rest[i];
          assert s[k] == init[k];
        }
      }
    }
  }

  /** Sorting is stable: what is listed first comes first among simultaneous observations. */
  lemma {:induction false} SortPuts(xs: seq<Observation>, ys: seq<Observation>, early: Observation -> bool)
    requires (forall x :: x in xs ==> early(x)) && (forall y :: y in ys ==> !early(y))
    ensures TiesPut(SortBy(xs + ys, ByTime()), early)
  {
    if ys == [] {
      assert xs + ys == xs;
      SortMembers(xs, ByTime());
      var sorted := SortBy(xs, ByTime());
      forall i | 0 <= i < |sorted| ensures early(sorted[i]) { assert sorted[i] in sorted; }
    } else {
      var init, last := ys[..|ys| - 1], ys[|ys| - 1];
      SortPuts(xs, init, early);
      assert xs + ys == (xs + init) + [last] && (xs + ys)[..|xs + ys| - 1] == xs + init;
      InsertPuts(SortBy(xs + init, ByTime()), last, early);
    }
  }

  lemma {:induction false} FilterPuts(s: seq<Observation>, early: Observation -> bool, keep: Observation -> bool)
    requires TiesPut(s, early)
    ensures TiesPut(Filter(s, keep), early)
  {
    if s != [] {
      var init, last := s[..|s| - 1], s[|s| - 1];
      FilterPuts(init, early, keep);
      FilterMembers(init, keep);
      var kept := Filter(init, keep);
      forall i | 0 <= i < |kept| && !early(kept[i]) && early(last) ensures kept[i].observedAt < last.observedAt {
        assert kept[i] in kept;
        var k :| 0 <= k < |init| && init[k] == kept[i];
        assert s[k] == init[k];
      }
    }
  }

  // ---------- the run between the two counts ----------

  lemma {:induction false} SortedSplit(front: seq<Observation>, run: seq<Observation>)
    requires SortedBy(front + run, ByTime()) && front != []
    ensures forall o :: o in front ==> o.observedAt <= front[|front| - 1].observedAt
    ensures forall o, p :: o in front && p in run ==> o.observedAt <= p.observedAt
  {
    var all := front + run;
    forall o | o in front ensures o.observedAt <= front[|front| - 1].observedAt {
      var i :| 0 <= i < |front| && front[i] == o;
      assert i < |front| - 1 ==> ByTime()(all[i]) <= ByTime()(all[|front| - 1]);
    }
    forall o, p | o in front && p in run ensures o.observedAt <= p.observedAt {
      var i :| 0 <= i < |front| && front[i] == o;
      var j :| 0 <= j < |run| && run[j] == p;
      assert ByTime()(all[i]) <= ByTime()(all[|front| + j]);
    }
  }

  /** No failure before the ending run stands strictly, and every one in the run stands at least loosely. */
  lemma {:induction false} RunStands(front: seq<Observation>, run: seq<Observation>, all: set<Observation>)
    requires all == set o | o in front + run
    requires SortedBy(front + run, ByTime())
    requires forall o :: o in run ==> ValidFullFailure(o)
    requires front != [] ==> !ValidFullFailure(front[|front| - 1])
    ensures Filter(front, StandsIn(all, true)) == []
    ensures Filter(run, StandsIn(all, false)) == run
  {
    if front != [] {
      SortedSplit(front, run);
      assert front[|front| - 1] in front + run;
      assert front[|front| - 1] in all;
    }
    FilterNone(front, StandsIn(all, true));
    forall o, p | o in run && p in all && !ValidFullFailure(p) ensures p.observedAt <= o.observedAt {
      assert p in front;
    }
    FilterAll(run, StandsIn(all, false));
  }

  lemma {:induction false} RunStandsStrictly(front: seq<Observation>, run: seq<Observation>, all: set<Observation>)
    requires all == set o | o in front + run
    requires TiesPut(front + run, Failing())
    requires forall o :: o in run ==> ValidFullFailure(o)
    ensures Filter(run, StandsIn(all, true)) == run
  {
    var tests := front + run;
    forall o, p | o in run && p in all && !ValidFullFailure(p) ensures p.observedAt < o.observedAt {
      assert p in tests && p in front;
      var i :| 0 <= i < |front| && front[i] == p;
      var j :| 0 <= j < |run| && run[j] == o;
      assert !Failing()(tests[i]) && Failing()(tests[|front| + j]);
    }
    FilterAll(run, StandsIn(all, true));
  }

  lemma {:induction false} OnlyRunStands(front: seq<Observation>, run: seq<Observation>, all: set<Observation>)
    requires all == set o | o in front + run
    requires TiesPut(front + run, NotFailing())
    requires front != [] ==> !ValidFullFailure(front[|front| - 1])
    ensures Filter(front, StandsIn(all, false)) == []
  {
    if front != [] {
      var tests, last := front + run, front[|front| - 1];
      assert last in tests && last in all;
      forall o | o in front ensures !Stands(o, all, false) {
        if ValidFullFailure(o) {
          var i :| 0 <= i < |front| && front[i] == o;
          assert !NotFailing()(tests[i]) && NotFailing()(tests[|front| - 1]);
        }
      }
    }
    FilterNone(front, StandsIn(all, false));
  }

  lemma {:induction false} RunBetween(tests: seq<Observation>, all: set<Observation>)
    requires SortedBy(tests, ByTime()) && all == set o | o in tests
    ensures |Filter(tests, StandsIn(all, true))| <= EndingRun(tests) <= |Filter(tests, StandsIn(all, false))|
    ensures TiesPut(tests, Failing()) ==> EndingRun(tests) == |Filter(tests, StandsIn(all, true))|
    ensures TiesPut(tests, NotFailing()) ==> EndingRun(tests) == |Filter(tests, StandsIn(all, false))|
  {
    var front, run := RunSplit(tests);
    FilterConcat(front, run, StandsIn(all, true));
    FilterConcat(front, run, StandsIn(all, false));
    RunStands(front, run, all);
    if TiesPut(tests, Failing()) {
      RunStandsStrictly(front, run, all);
    }
    if TiesPut(tests, NotFailing()) {
      OnlyRunStands(front, run, all);
    }
  }

  // ---------- the streak of a source ----------

  lemma {:induction false} StreakOfTests(observations: seq<Observation>, now: int, source: string, strictly: bool)
    ensures var tests := FullTests(Fresh(observations, now), source);
      Streak(observations, now, source, strictly) == |Filter(tests, StandsIn((set o | o in tests), strictly))|
  {
    var members := StandingOf(observations, now, source, strictly);
    var live := Fresh(observations, now);
    var tests := FullTests(live, source);
    var all := set o | o in tests;
    FreshMembers(observations, now);
    FilterMembers(live, FullTestOf(source));
    assert all == LiveTestsOf(observations, now, source);
    FilterWeaker(observations, LiveAt(now), members);
    FreshIsSortedLive(observations, now);
    SortMultiset(Filter(observations, LiveAt(now)), ByTime());
    FilterPermutation(Filter(observations, LiveAt(now)), live, members);
    FilterWeaker(live, FullTestOf(source), members);
    FilterAgrees(tests, members, StandsIn(all, strictly));
  }

  /** However ties are listed, a source's tests end with a run of failures between the two counts; and
      each count is reached by listing the ties accordingly. */
  lemma {:induction false} StreakBounds(observations: seq<Observation>, now: int, source: string)
    ensures var run := EndingRun(FullTests(Fresh(observations, now), source));
      && FailureStreak(observations, now, source) <= run <= PossibleStreak(observations, now, source)
      && (TiesPut(Fresh(observations, now), Failing()) ==> run == FailureStreak(observations, now, source))
      && (TiesPut(Fresh(observations, now), NotFailing()) ==> run == PossibleStreak(observations, now, source))
  {
    var live := Fresh(observations, now);
    var tests := FullTests(live, source);
    StreakOfTests(observations, now, source, true);
    StreakOfTests(observations, now, source, false);
    FreshIsSortedLive(observations, now);
    SortSorts(Filter(observations, LiveAt(now)), ByTime());
    FilterSorted(live, ByTime(), FullTestOf(source));
    if TiesPut(live, Failing()) { FilterPuts(live, Failing(), FullTestOf(source)); }
    if TiesPut(live, NotFailing()) { FilterPuts(live, NotFailing(), FullTestOf(source)); }
    RunBetween(tests, set o | o in tests);
  }

  /** Live full tests of one source taken at one instant agree on whether they are valid failures;
      distinct timestamps are the usual reason. */
  ghost predicate TiesAgree(observations: seq<Observation>, now: int) {
    forall o, p :: o in observations && p in observations && Live(o, now) && Live(p, now)
      && o.fullVpnTest && p.fullVpnTest && o.source == p.source && o.observedAt == p.observedAt
      ==> ValidFullFailure(o) == ValidFullFailure(p)
  }

  lemma {:induction false} TiesAgreeing(observations: seq<Observation>, now: int, source: string)
    requires TiesAgree(observations, now)
    ensures FailureStreak(observations, now, source) == PossibleStreak(observations, now, source)
  {
    FilterAgrees(observations, StandingOf(observations, now, source, true),
        StandingOf(observations, now, source, false));
  }

  lemma {:induction false} StreakIsTail(observations: seq<Observation>, now: int, source: string, n: int)
    requires TiesAgree(observations, now)
    requires n >= 1
    ensures FailureStreak(observations, now, source) >= n <==> TailFails(FullTests(Fresh(observations, now), source), n)
  {
    TiesAgreeing(observations, now, source);
    StreakBounds(observations, now, source);
    TailIsRun(FullTests(Fresh(observations, now), source), n);
  }
}
