/** What an evaluation says about the evidence, independently of how the evidence was listed. */
module EvaluatorLaws {
  import opened Domain
  import opened Sequences
  import opened Evaluator
  import opened Streaks

  /** Evidence that is stale or whose route was not the intended one may be dropped beforehand, in
      whole or in part: the SQL pre-filter on freshness loses nothing. */
  lemma {:induction false} DeadEvidenceIsIgnored(observations: seq<Observation>, keep: Observation -> bool, now: int,
                                                 expectedSources: int, n: int)
    requires forall o :: o in observations && Live(o, now) ==> keep(o)
    ensures Evaluate(Filter(observations, keep), now, expectedSources, n)
        == Evaluate(observations, now, expectedSources, n)
  {
    FreshIsSortedLive(observations, now);
    FreshIsSortedLive(Filter(observations, keep), now);
    FilterWeaker(observations, keep, LiveAt(now));
  }

  // ---------- the verdicts ----------

  lemma {:induction false} ConfirmedMeansPositive(live: seq<Observation>, n: int)
    requires ConfirmedFailure(live, n)
    ensures n >= 1
    ensures HasFailure(live)
  {
    var source :| FullTests(live, source) != [] && TailFails(FullTests(live, source), n);
    var tests := FullTests(live, source);
    assert Tail(tests, n) != [];
    var failed := Tail(tests, n)[0];
    assert failed in Tail(tests, n);
    assert failed in tests;
    FilterMembers(live, FullTestOf(source));
    assert failed in live;
  }

  /** The ladder's second way to UNAVAILABLE is never taken: a confirmed failure is itself a failure,
      so any success beside it has already made the evidence conflicting. */
  lemma {:induction false} SecondOutageBranchUnreachable(live: seq<Observation>, n: int)
    requires !(ConfirmedFailure(live, n) && !HasStrong(live))
    requires !(HasSuccess(live) && HasFailure(live))
    ensures !ConfirmedFailure(live, n)
  {
    if ConfirmedFailure(live, n) {
      ConfirmedMeansPositive(live, n);
    }
  }

  ghost predicate LiveSuch(observations: seq<Observation>, now: int, condition: Observation -> bool) {
    exists o :: o in observations && Live(o, now) && condition(o)
  }

  lemma {:induction false} LiveFacts(observations: seq<Observation>, now: int)
    ensures HasStrong(Fresh(observations, now)) <==> LiveSuch(observations, now, o => StrongSuccess(o))
    ensures HasSuccess(Fresh(observations, now)) <==> LiveSuch(observations, now, o => ValidSuccess(o))
    ensures HasFailure(Fresh(observations, now))
        <==> LiveSuch(observations, now, (o: Observation) => o.result == Failure)
  {
    FreshMembers(observations, now);
  }

  /** An outage is announced exactly when some source has at least n full-test failures (with working
      control Internet) since its last other full test, and nobody where the members sit succeeds. */
  lemma {:induction false} UnavailableExactly(observations: seq<Observation>, now: int, expectedSources: int, n: int)
    requires TiesAgree(observations, now)
    ensures Evaluate(observations, now, expectedSources, n).state == Unavailable <==>
      && n >= 1
      && (exists source :: FailureStreak(observations, now, source) >= n)
      && !LiveSuch(observations, now, o => StrongSuccess(o))
  {
    var live := Fresh(observations, now);
    LiveFacts(observations, now);
    if ConfirmedFailure(live, n) {
      ConfirmedMeansPositive(live, n);
      var source :| FullTests(live, source) != [] && TailFails(FullTests(live, source), n);
      StreakIsTail(observations, now, source, n);
    }
    if n >= 1 && exists source :: FailureStreak(observations, now, source) >= n {
      var source :| FailureStreak(observations, now, source) >= n;
      StreakIsTail(observations, now, source, n);
      assert FullTests(live, source) != [];
      assert ConfirmedFailure(live, n);
    }
  }

  /** The other three verdicts, for evidence in any order and with any ties. One success suffices for
      OPERATIONAL, and a failure alone, a conflict or an unconfirmed outage all read as DEGRADED. */
  lemma {:induction false} OtherStatesExactly(observations: seq<Observation>, now: int, expectedSources: int, n: int)
    ensures var state := Evaluate(observations, now, expectedSources, n).state;
            var success := LiveSuch(observations, now, o => ValidSuccess(o));
            var failure := LiveSuch(observations, now, (o: Observation) => o.result == Failure);
      && (state == Operational <==> success && !failure)
      && (state == Unknown <==> !success && !failure)
      && (state == Degraded || state == Unavailable <==> failure)
  {
    var live := Fresh(observations, now);
    LiveFacts(observations, now);
    if ConfirmedFailure(live, n) {
      ConfirmedMeansPositive(live, n);
    }
  }

  /** Coverage lies in [0, 1]; it is 0 exactly without live evidence and 1 exactly when at least the
      expected number of sources is live. */
  lemma {:induction false} CoverageExactly(observations: seq<Observation>, now: int, expectedSources: int, n: int)
    ensures var e := Evaluate(observations, now, expectedSources, n);
            var live := set o | o in observations && Live(o, now) :: o.source;
      && 0.0 <= e.coverage <= 1.0
      && (e.coverage == 0.0 <==> live == {})
      && (e.coverage == 1.0 <==> |live| >= 1 && |live| >= expectedSources)
      && (e.evidenceCount == 0 <==> live == {})
  {
    var used := Fresh(observations, now);
    FreshMembers(observations, now);
    assert Sources(used) == set o | o in observations && Live(o, now) :: o.source;
    if used != [] {
      assert used[0].source in Sources(used);
    }
    ShareOf(|Sources(used)|, if expectedSources > 1 then expectedSources else 1);
  }

  lemma {:induction false} ShareOf(part: nat, whole: int)
    requires whole >= 1
    ensures part as real / whole as real >= 0.0
    ensures part as real / whole as real == 0.0 <==> part == 0
    ensures part as real / whole as real >= 1.0 <==> part >= whole
  {
  }

  // ---------- order ----------

  lemma {:induction false} LatestOfPermutation(a: seq<int>, b: seq<int>)
    requires a != [] && b != []
    requires forall t :: t in a ==> t in b
    requires forall t :: t in b ==> t in a
    ensures Latest(a) == Latest(b)
  {
  }

  lemma {:induction false} SameTimes(a: seq<Observation>, b: seq<Observation>)
    requires a != [] && b != []
    requires forall o :: o in a ==> o in b
    requires forall o :: o in b ==> o in a
    ensures Latest(ObservedTimes(a)) == Latest(ObservedTimes(b))
    ensures Latest(ExpiryTimes(a)) == Latest(ExpiryTimes(b))
  {
    forall t | t in ObservedTimes(a) ensures t in ObservedTimes(b) { TimeOf(a, b, t); }
    forall t | t in ObservedTimes(b) ensures t in ObservedTimes(a) { TimeOf(b, a, t); }
    forall t | t in ExpiryTimes(a) ensures t in ExpiryTimes(b) { ExpiryOf(a, b, t); }
    forall t | t in ExpiryTimes(b) ensures t in ExpiryTimes(a) { ExpiryOf(b, a, t); }
    LatestOfPermutation(ObservedTimes(a), ObservedTimes(b));
    LatestOfPermutation(ExpiryTimes(a), ExpiryTimes(b));
  }

  lemma {:induction false} TimeOf(a: seq<Observation>, b: seq<Observation>, t: int)
    requires forall o :: o in a ==> o in b
    requires t in ObservedTimes(a)
    ensures t in ObservedTimes(b)
  {
    var i :| 0 <= i < |a| && ObservedTimes(a)[i] == t;
    assert a[i] in b;
    var j :| 0 <= j < |b| && b[j] == a[i];
    assert ObservedTimes(b)[j] == t;
  }

  lemma {:induction false} ExpiryOf(a: seq<Observation>, b: seq<Observation>, t: int)
    requires forall o :: o in a ==> o in b
    requires t in ExpiryTimes(a)
    ensures t in ExpiryTimes(b)
  {
    var i :| 0 <= i < |a| && ExpiryTimes(a)[i] == t;
    assert a[i] in b;
    var j :| 0 <= j < |b| && b[j] == a[i];
    assert ExpiryTimes(b)[j] == t;
  }

  /** Whatever the order, the strict streaks suffice to confirm a failure and the possible ones are needed. */
  lemma {:induction false} ConfirmedBetween(observations: seq<Observation>, now: int, n: int)
    requires n >= 1
    ensures (exists source :: FailureStreak(observations, now, source) >= n) ==>
        ConfirmedFailure(Fresh(observations, now), n)
    ensures ConfirmedFailure(Fresh(observations, now), n) ==>
        exists source :: PossibleStreak(observations, now, source) >= n
  {
    var live := Fresh(observations, now);
    if source :| FailureStreak(observations, now, source) >= n {
      StreakBounds(observations, now, source);
      TailIsRun(FullTests(live, source), n);
      assert FullTests(live, source) != [];
    }
    if ConfirmedFailure(live, n) {
      var source :| FullTests(live, source) != [] && TailFails(FullTests(live, source), n);
      StreakBounds(observations, now, source);
      TailIsRun(FullTests(live, source), n);
    }
  }

  lemma {:induction false} ConfirmedWhenPut(observations: seq<Observation>, now: int, n: int)
    requires n >= 1
    ensures TiesPut(Fresh(observations, now), Failing()) && ConfirmedFailure(Fresh(observations, now), n)
        ==> exists source :: FailureStreak(observations, now, source) >= n
    ensures TiesPut(Fresh(observations, now), NotFailing())
        && (exists source :: PossibleStreak(observations, now, source) >= n)
        ==> ConfirmedFailure(Fresh(observations, now), n)
  {
    var live := Fresh(observations, now);
    if TiesPut(live, Failing()) && ConfirmedFailure(live, n) {
      var source :| FullTests(live, source) != [] && TailFails(FullTests(live, source), n);
      StreakBounds(observations, now, source);
      TailIsRun(FullTests(live, source), n);
    }
    if TiesPut(live, NotFailing()) {
      if source :| PossibleStreak(observations, now, source) >= n {
        StreakBounds(observations, now, source);
        TailIsRun(FullTests(live, source), n);
        assert FullTests(live, source) != [];
      }
    }
  }

  lemma {:induction false} FreshOfPermutation(a: seq<Observation>, b: seq<Observation>, now: int)
    requires multiset(a) == multiset(b)
    ensures multiset(Fresh(a, now)) == multiset(Fresh(b, now))
  {
    FreshIsSortedLive(a, now);
    FreshIsSortedLive(b, now);
    FilterPermutation(a, b, LiveAt(now));
    SortMultiset(Filter(a, LiveAt(now)), ByTime());
    SortMultiset(Filter(b, LiveAt(now)), ByTime());
  }

  lemma {:induction false} JudgeOfPermutation(a: seq<Observation>, b: seq<Observation>, expectedSources: int, n: int)
    requires multiset(a) == multiset(b)
    requires HasStrong(a) || (ConfirmedFailure(a, n) <==> ConfirmedFailure(b, n))
    ensures Judge(a, expectedSources, n) == Judge(b, expectedSources, n)
  {
    SameMembers(a, b);
    assert Sources(a) == Sources(b);
    if a != [] {
      SameTimes(a, b);
    }
    if ConfirmedFailure(a, n) { ConfirmedMeansPositive(a, n); }
    if ConfirmedFailure(b, n) { ConfirmedMeansPositive(b, n); }
  }

  /** Ties decide nothing: a contradicting success makes the failures a conflict anyway, or some source
      has failed often enough without its ties, or none has even with them. */
  ghost predicate OrderSettled(observations: seq<Observation>, now: int, n: int) {
    || n < 1
    || LiveSuch(observations, now, o => StrongSuccess(o))
    || (exists source :: FailureStreak(observations, now, source) >= n)
    || (forall source :: PossibleStreak(observations, now, source) < n)
  }

  lemma {:induction false} SettledConfirms(a: seq<Observation>, b: seq<Observation>, now: int, n: int)
    requires multiset(a) == multiset(b) && OrderSettled(a, now, n)
    ensures HasStrong(Fresh(a, now)) || (ConfirmedFailure(Fresh(a, now), n) <==> ConfirmedFailure(Fresh(b, now), n))
  {
    LiveFacts(a, now);
    if n >= 1 {
      ConfirmedBetween(a, now, n);
      ConfirmedBetween(b, now, n);
      forall source
        ensures FailureStreak(a, now, source) == FailureStreak(b, now, source)
        ensures PossibleStreak(a, now, source) == PossibleStreak(b, now, source)
      {
        StreakOfPermutation(a, b, now, source, true);
        StreakOfPermutation(a, b, now, source, false);
      }
    } else {
      if ConfirmedFailure(Fresh(a, now), n) { ConfirmedMeansPositive(Fresh(a, now), n); }
      if ConfirmedFailure(Fresh(b, now), n) { ConfirmedMeansPositive(Fresh(b, now), n); }
    }
  }

  lemma {:induction false} SettledIsIndependent(a: seq<Observation>, b: seq<Observation>, now: int,
                                                expectedSources: int, n: int)
    requires multiset(a) == multiset(b) && OrderSettled(a, now, n)
    ensures Evaluate(a, now, expectedSources, n) == Evaluate(b, now, expectedSources, n)
  {
    FreshOfPermutation(a, b, now);
    SettledConfirms(a, b, now, n);
    JudgeOfPermutation(Fresh(a, now), Fresh(b, now), expectedSources, n);
  }

  /** Tests of one source at one instant that agree, as distinct timestamps make them, settle the order. */
  lemma {:induction false} AgreedTiesSettle(observations: seq<Observation>, now: int, n: int)
    requires TiesAgree(observations, now)
    ensures OrderSettled(observations, now, n)
  {
    forall source ensures FailureStreak(observations, now, source) == PossibleStreak(observations, now, source) {
      TiesAgreeing(observations, now, source);
    }
  }

  /** The whole evaluation, not only the state, is then the same for any order of the evidence. */
  lemma {:induction false} OrderIndependence(a: seq<Observation>, b: seq<Observation>, now: int,
                                             expectedSources: int, n: int)
    requires multiset(a) == multiset(b)
    requires TiesAgree(a, now)
    ensures Evaluate(a, now, expectedSources, n) == Evaluate(b, now, expectedSources, n)
  {
    AgreedTiesSettle(a, now, n);
    SettledIsIndependent(a, b, now, expectedSources, n);
  }

  /** The evidence with what meets `early` listed first. */
  function Listed(observations: seq<Observation>, early: Observation -> bool,
                  late: Observation -> bool): seq<Observation> {
    Filter(observations, early) + Filter(observations, late)
  }

  lemma {:induction false} ListedPermutes(observations: seq<Observation>, early: Observation -> bool,
                                          late: Observation -> bool)
    requires forall o :: o in observations ==> early(o) != late(o)
    ensures multiset(Listed(observations, early, late)) == multiset(observations)
  {
    if observations != [] {
      ListedPermutes(observations[..|observations| - 1], early, late);
      assert observations == observations[..|observations| - 1] + [observations[|observations| - 1]];
    }
  }

  lemma {:induction false} ListedPuts(observations: seq<Observation>, early: Observation -> bool,
                                      late: Observation -> bool, now: int)
    requires forall o :: o in observations ==> early(o) != late(o)
    ensures TiesPut(Fresh(Listed(observations, early, late), now), early)
  {
    var xs, ys := Filter(observations, early), Filter(observations, late);
    FreshIsSortedLive(xs + ys, now);
    FilterConcat(xs, ys, LiveAt(now));
    FilterMembers(observations, early);
    FilterMembers(observations, late);
    FilterMembers(xs, LiveAt(now));
    FilterMembers(ys, LiveAt(now));
    SortPuts(Filter(xs, LiveAt(now)), Filter(ys, LiveAt(now)), early);
  }

  /** With the failures listed last among simultaneous tests, the possible streaks count. */
  lemma {:induction false} ListedForOutage(a: seq<Observation>, now: int, expectedSources: int, n: int)
                                           returns (b: seq<Observation>)
    requires n >= 1 && !LiveSuch(a, now, o => StrongSuccess(o))
    requires exists source :: PossibleStreak(a, now, source) >= n
    ensures multiset(b) == multiset(a) && Evaluate(b, now, expectedSources, n).state == Unavailable
  {
    b := Listed(a, NotFailing(), Failing());
    ListedPermutes(a, NotFailing(), Failing());
    ListedPuts(a, NotFailing(), Failing(), now);
    var source :| PossibleStreak(a, now, source) >= n;
    StreakOfPermutation(b, a, now, source, false);
    assert PossibleStreak(b, now, source) >= n;
    ConfirmedWhenPut(b, now, n);
    LiveFacts(b, now);
    SameMembers(b, a);
  }

  /** With the failures listed first, only the strict streaks count. */
  lemma {:induction false} ListedForNone(a: seq<Observation>, now: int, expectedSources: int, n: int)
                                         returns (b: seq<Observation>)
    requires n >= 1 && forall source :: FailureStreak(a, now, source) < n
    ensures multiset(b) == multiset(a) && Evaluate(b, now, expectedSources, n).state != Unavailable
  {
    b := Listed(a, Failing(), NotFailing());
    ListedPermutes(a, Failing(), NotFailing());
    ListedPuts(a, Failing(), NotFailing(), now);
    forall source ensures FailureStreak(b, now, source) < n {
      StreakOfPermutation(b, a, now, source, true);
      assert FailureStreak(a, now, source) < n;
    }
    ConfirmedWhenPut(b, now, n);
  }

  /** The evaluation is the same for every order of the evidence if and only if ties decide nothing. */
  lemma {:induction false} OrderIrrelevantExactly(a: seq<Observation>, now: int, expectedSources: int, n: int)
    ensures (forall b: seq<Observation> :: multiset(b) == multiset(a) ==>
               Evaluate(b, now, expectedSources, n) == Evaluate(a, now, expectedSources, n))
       <==> OrderSettled(a, now, n)
  {
    if OrderSettled(a, now, n) {
      forall b: seq<Observation> | multiset(b) == multiset(a)
        ensures Evaluate(b, now, expectedSources, n) == Evaluate(a, now, expectedSources, n)
      {
        SettledIsIndependent(a, b, now, expectedSources, n);
      }
    } else {
      var outage := ListedForOutage(a, now, expectedSources, n);
      var none := ListedForNone(a, now, expectedSources, n);
      assert Evaluate(outage, now, expectedSources, n) != Evaluate(none, now, expectedSources, n);
    }
  }

  function PcTest(result: ObservationResult): Observation {
    Observation("pc", result, 10, 20, true, Some(true), None, Some(true))
  }

  /** Failing full tests of one source, no success: the streak alone decides. */
  lemma {:induction false} StreakDecides(live: seq<Observation>, source: string, expectedSources: int, n: int)
    requires live != [] && HasFailure(live)
    requires forall o :: o in live ==> o.source == source && o.fullVpnTest && o.result != Success
    ensures Judge(live, expectedSources, n).state == if TailFails(live, n) then Unavailable else Degraded
  {
    FilterAll(live, FullTestOf(source));
    assert FullTests(live, source) == live;
    forall other | other != source ensures FullTests(live, other) == [] {
      FilterNone(live, FullTestOf(other));
    }
    assert ConfirmedFailure(live, n) <==> TailFails(live, n);
  }

  lemma {:induction false} LastOfTwoDecides(first: Observation, second: Observation)
    ensures TailFails([first, second], 1) <==> ValidFullFailure(second)
  {
  }

  /** Ties must agree: with a failed and a not-run test of one source at one instant, the listing
      order decides between an outage and a partial failure. */
  lemma {:induction false} TiesMatter()
    ensures Evaluate([PcTest(NotRun), PcTest(Failure)], 15, 1, 1).state == Unavailable
    ensures Evaluate([PcTest(Failure), PcTest(NotRun)], 15, 1, 1).state == Degraded
  {
    TieDecides(PcTest(NotRun), PcTest(Failure));
    TieDecides(PcTest(Failure), PcTest(NotRun));
  }

  lemma {:induction false} TieDecides(first: Observation, second: Observation)
    requires first.observedAt == second.observedAt == 10 && first.freshUntil == second.freshUntil == 20
    requires first.source == second.source && first.fullVpnTest && second.fullVpnTest
    requires RouteUsable(first) && RouteUsable(second)
    requires first.result != Success && second.result != Success
    requires first.result == Failure || second.result == Failure
    ensures Evaluate([first, second], 15, 1, 1).state == if ValidFullFailure(second) then Unavailable else Degraded
  {
    var both := [first, second];
    assert both[0] in both && both[1] in both;
    TieOrder(first, second);
    LastOfTwoDecides(first, second);
    StreakDecides(both, first.source, 1, 1);
  }

  lemma {:induction false} TieOrder(first: Observation, second: Observation)
    requires first.observedAt == second.observedAt == 10 && first.freshUntil == second.freshUntil == 20
    requires RouteUsable(first) && RouteUsable(second)
    ensures Fresh([first, second], 15) == [first, second]
  {
    var both := [first, second];
    FilterAll(both, UsableRoutes());
    SortOfSorted(both, ByTime());
    FilterAll(both, FreshAt(15));
  }

  // ---------- probes that did not run ----------

  lemma {:induction false} InsertBesideLast(c: seq<Observation>, o: Observation, x: Observation)
    returns (c': seq<Observation>, d': seq<Observation>)
    requires SortedBy(c + [o], ByTime())
    ensures Insert(c + [o], x, ByTime()) == c' + [o] + d'
    ensures Insert(c, x, ByTime()) == c' + d'
  {
    if o.observedAt <= x.observedAt {
      assert c != [] ==> c[|c| - 1].observedAt <= x.observedAt by {
        if c != [] {
          assert ByTime()((c + [o])[|c| - 1]) <= ByTime()((c + [o])[|c|]);
        }
      }
      assert Insert(c, x, ByTime()) == c + [x];
      c', d' := c, [x];
    } else {
      InsertBelow(c, x, o, ByTime());
      c', d' := Insert(c, x, ByTime()), [];
      assert c' + [o] + d' == c' + [o] && c' + d' == c';
    }
  }

  lemma {:induction false} SortedFront(s: seq<Observation>, last: Observation)
    requires SortedBy(s + [last], ByTime())
    ensures SortedBy(s, ByTime())
  {
    forall i, j | 0 <= i < j < |s| ensures ByTime()(s[i]) <= ByTime()(s[j]) {
      assert ByTime()((s + [last])[i]) <= ByTime()((s + [last])[j]);
    }
  }

  /** Inserting into a sequence with one more element only adds that element. */
  lemma {:induction false} InsertBeside(c: seq<Observation>, o: Observation, d: seq<Observation>, x: Observation)
    returns (c': seq<Observation>, d': seq<Observation>)
    requires SortedBy(c + [o] + d, ByTime())
    ensures Insert(c + [o] + d, x, ByTime()) == c' + [o] + d'
    ensures Insert(c + d, x, ByTime()) == c' + d'
    decreases |d|
  {
    if d == [] {
      assert c + [o] + d == c + [o] && c + d == c;
      c', d' := InsertBesideLast(c, o, x);
    } else {
      var front, e := d[..|d| - 1], d[|d| - 1];
      assert c + [o] + d == (c + [o] + front) + [e] && c + d == (c + front) + [e];
      if e.observedAt <= x.observedAt {
        c', d' := c, d + [x];
      } else {
        SortedFront(c + [o] + front, e);
        var rest;
        c', rest := InsertBeside(c, o, front, x);
        InsertBelow(c + [o] + front, x, e, ByTime());
        InsertBelow(c + front, x, e, ByTime());
        d' := rest + [e];
      }
    }
  }

  lemma {:induction false} SortBeside(a: seq<Observation>, o: Observation, b: seq<Observation>)
    returns (c: seq<Observation>, d: seq<Observation>)
    ensures SortBy(a + [o] + b, ByTime()) == c + [o] + d
    ensures SortBy(a + b, ByTime()) == c + d
    decreases |b|
  {
    if b == [] {
      assert a + b == a && (a + [o] + b) == a + [o] && (a + [o])[..|a|] == a;
      c, d := InsertSplit(SortBy(a, ByTime()), o);
    } else {
      var x, front := b[|b| - 1], b[..|b| - 1];
      assert (a + [o] + b)[..|a + [o] + b| - 1] == a + [o] + front;
      assert (a + b)[..|a + b| - 1] == a + front;
      c, d := SortBeside(a, o, front);
      SortSorts(a + [o] + front, ByTime());
      c, d := InsertBeside(c, o, d, x);
    }
  }

  lemma {:induction false} InsertSplit(s: seq<Observation>, o: Observation)
                                       returns (c: seq<Observation>, d: seq<Observation>)
    ensures Insert(s, o, ByTime()) == c + [o] + d
    ensures s == c + d
  {
    if s == [] || s[|s| - 1].observedAt <= o.observedAt {
      c, d := s, [];
    } else {
      c, d := InsertSplit(s[..|s| - 1], o);
      d := d + [s[|s| - 1]];
    }
  }

  lemma {:induction false} TailContains(c: seq<Observation>, o: Observation, d: seq<Observation>, n: int)
    requires |d| < n <= |c + [o] + d|
    ensures o in Tail(c + [o] + d, n)
  {
    var all := c + [o] + d;
    assert all[|c|] == o;
    assert Tail(all, n)[|c| - (|all| - n)] == o;
  }

  /** A confirmed failure that survives a test inserted among the others was there without it. */
  lemma {:induction false} TailWithout(c: seq<Observation>, o: Observation, d: seq<Observation>, n: int)
    requires !ValidFullFailure(o)
    requires n >= 1 && TailFails(c + [o] + d, n)
    ensures TailFails(c + d, n)
  {
    var all := c + [o] + d;
    assert n <= |d| by {
      if |d| < n <= |all| { TailContains(c, o, d, n); }
    }
    assert Tail(all, n) == Tail(c + d, n);
  }

  /** A probe that did not run never worsens the verdict: the state stays, or an outage whose streak
      it interrupts reads as a partial failure. */
  lemma {:induction false} NotRunNeverWorsens(a: seq<Observation>, o: Observation, b: seq<Observation>, now: int,
                                              expectedSources: int, n: int)
    requires o.result == NotRun
    ensures var before := Evaluate(a + b, now, expectedSources, n).state;
            var after := Evaluate(a + [o] + b, now, expectedSources, n).state;
            after == before || (before == Unavailable && after == Degraded)
  {
    FreshIsSortedLive(a + b, now);
    FreshIsSortedLive(a + [o] + b, now);
    var la, lb := Filter(a, LiveAt(now)), Filter(b, LiveAt(now));
    FilterConcat(a, b, LiveAt(now));
    FilterConcat(a + [o], b, LiveAt(now));
    FilterSnoc(a, o, LiveAt(now));
    if Live(o, now) {
      var c, d := SortBeside(la, o, lb);
      AddedNotRun(c, o, d, expectedSources, n);
    }
  }

  lemma {:induction false} AddedNotRun(c: seq<Observation>, o: Observation, d: seq<Observation>,
                                       expectedSources: int, n: int)
    requires o.result == NotRun
    ensures var before := Judge(c + d, expectedSources, n).state;
            var after := Judge(c + [o] + d, expectedSources, n).state;
            after == before || (before == Unavailable && after == Degraded)
  {
    var before, after := c + d, c + [o] + d;
    assert forall x :: x in before ==> x in after;
    assert forall x :: x in after && x != o ==> x in before;
    if ConfirmedFailure(after, n) {
      ConfirmedWithout(c, o, d, n);
    }
    if ConfirmedFailure(before, n) {
      ConfirmedMeansPositive(before, n);
    }
  }

  lemma {:induction false} ConfirmedWithout(c: seq<Observation>, o: Observation, d: seq<Observation>, n: int)
    requires o.result == NotRun && ConfirmedFailure(c + [o] + d, n)
    ensures ConfirmedFailure(c + d, n)
  {
    var before, after := c + d, c + [o] + d;
    ConfirmedMeansPositive(after, n);
    var source :| FullTests(after, source) != [] && TailFails(FullTests(after, source), n);
    var keep := FullTestOf(source);
    FilterConcat(c, d, keep);
    FilterConcat(c + [o], d, keep);
    FilterSnoc(c, o, keep);
    if keep(o) {
      TailWithout(Filter(c, keep), o, Filter(d, keep), n);
    }
    assert TailFails(FullTests(before, source), n);
  }

  /** The same for any number of them, added one after another anywhere in the list. */
  lemma {:induction false} NotRunsNeverWorsen(stages: seq<seq<Observation>>, now: int, expectedSources: int, n: int)
    requires stages != []
    requires forall i :: 0 <= i < |stages| - 1 ==> AddsNotRun(stages[i], stages[i + 1])
    ensures var before := Evaluate(stages[0], now, expectedSources, n).state;
            var after := Evaluate(stages[|stages| - 1], now, expectedSources, n).state;
            after == before || (before == Unavailable && after == Degraded)
  {
    if |stages| > 1 {
      var earlier := stages[..|stages| - 1];
      NotRunsNeverWorsen(earlier, now, expectedSources, n);
      assert AddsNotRun(stages[|stages| - 2], stages[|stages| - 1]);
      var a, o, b :| stages[|stages| - 2] == a + b && stages[|stages| - 1] == a + [o] + b && o.result == NotRun;
      NotRunNeverWorsens(a, o, b, now, expectedSources, n);
    }
  }

  ghost predicate AddsNotRun(before: seq<Observation>, after: seq<Observation>) {
    exists a, o: Observation, b :: before == a + b && after == a + [o] + b && o.result == NotRun
  }
}
