/** Every field of an evaluation, in terms of the observations themselves: which are live, which of them count as
    successes and failures, and how many tests of one source failed in a row. */
module VerdictLaws {
  import opened Domain
  import opened Sequences
  import opened Evaluator
  import opened Streaks
  import opened EvaluatorLaws

  // ---------- instants and counts ----------

  ghost predicate AnyLive(observations: seq<Observation>, now: int) {
    exists o :: o in observations && Live(o, now)
  }

  lemma {:induction false} LatestObserved(live: seq<Observation>, t: int)
    requires live != []
    ensures Latest(ObservedTimes(live)) == t <==>
      (exists o :: o in live && o.observedAt == t) && forall o :: o in live ==> o.observedAt <= t
  {
    var times := ObservedTimes(live);
    var i :| 0 <= i < |live| && times[i] == Latest(times);
    assert live[i] in live;
    forall o | o in live ensures o.observedAt <= Latest(times) {
      var k :| 0 <= k < |live| && live[k] == o;
      assert times[k] in times;
    }
  }

  lemma {:induction false} LatestExpiry(live: seq<Observation>, t: int)
    requires live != []
    ensures Latest(ExpiryTimes(live)) == t <==>
      (exists o :: o in live && o.freshUntil == t) && forall o :: o in live ==> o.freshUntil <= t
  {
    var times := ExpiryTimes(live);
    var i :| 0 <= i < |live| && times[i] == Latest(times);
    assert live[i] in live;
    forall o | o in live ensures o.freshUntil <= Latest(times) {
      var k :| 0 <= k < |live| && live[k] == o;
      assert times[k] in times;
    }
  }

  lemma {:induction false} LiveIsFresh(observations: seq<Observation>, now: int)
    ensures AnyLive(observations, now) <==> Fresh(observations, now) != []
    ensures forall o :: o in observations && Live(o, now) <==> o in Fresh(observations, now)
  {
    FreshMembers(observations, now);
    if Fresh(observations, now) != [] {
      assert Fresh(observations, now)[0] in Fresh(observations, now);
    }
  }

  /** The observation time is that of the newest live observation, and there is none exactly without one. */
  lemma {:induction false} ObservedAtExactly(observations: seq<Observation>, now: int, expected: int, n: int, t: int)
    ensures var e := Evaluate(observations, now, expected, n);
      && (e.observedAt == Some(t) <==>
            && (exists o :: o in observations && Live(o, now) && o.observedAt == t)
            && forall o :: o in observations && Live(o, now) ==> o.observedAt <= t)
      && (e.observedAt == None <==> !AnyLive(observations, now))
  {
    LiveIsFresh(observations, now);
    if Fresh(observations, now) != [] {
      LatestObserved(Fresh(observations, now), t);
    }
  }

  /** The evaluation is fresh until the last live observation expires. */
  lemma {:induction false} FreshUntilExactly(observations: seq<Observation>, now: int, expected: int, n: int, t: int)
    ensures var e := Evaluate(observations, now, expected, n);
      && (e.freshUntil == Some(t) <==>
            && (exists o :: o in observations && Live(o, now) && o.freshUntil == t)
            && forall o :: o in observations && Live(o, now) ==> o.freshUntil <= t)
      && (e.freshUntil == None <==> !AnyLive(observations, now))
  {
    LiveIsFresh(observations, now);
    if Fresh(observations, now) != [] {
      LatestExpiry(Fresh(observations, now), t);
    }
  }

  /** Which of the observations are live. */
  function LiveOnes(observations: seq<Observation>, now: int): set<nat> {
    set i: nat | i < |observations| && Live(observations[i], now)
  }

  lemma {:induction false} LiveOnesCounted(observations: seq<Observation>, now: int)
    ensures |Filter(observations, LiveAt(now))| == |LiveOnes(observations, now)|
  {
    if observations != [] {
      var init, last := observations[..|observations| - 1], observations[|observations| - 1];
      LiveOnesCounted(init, now);
      assert LiveOnes(observations, now)
          == LiveOnes(init, now) + if Live(last, now) then {|init|} else {};
    }
  }

  /** The evidence count is the number of live observations. */
  lemma {:induction false} EvidenceCountExactly(observations: seq<Observation>, now: int, expected: int, n: int)
    ensures Evaluate(observations, now, expected, n).evidenceCount == |LiveOnes(observations, now)|
  {
    FreshIsSortedLive(observations, now);
    SortMultiset(Filter(observations, LiveAt(now)), ByTime());
    LiveOnesCounted(observations, now);
  }

  /** The coverage is the number of sources that are live over the number expected, at least one, and at most 1. */
  lemma {:induction false} CoverageIs(observations: seq<Observation>, now: int, expected: int, n: int)
    ensures var sources := set o | o in observations && Live(o, now) :: o.source;
            var whole := if expected < 1 then 1 else expected;
      Evaluate(observations, now, expected, n).coverage
      == if |sources| >= whole then 1.0 else |sources| as real / whole as real
  {
    LiveIsFresh(observations, now);
    assert Sources(Fresh(observations, now)) == set o | o in observations && Live(o, now) :: o.source;
    BelowOne(|Sources(Fresh(observations, now))|, if expected < 1 then 1 else expected);
  }

  lemma {:induction false} BelowOne(part: nat, whole: int)
    requires whole >= 1
    ensures part as real / whole as real < 1.0 <==> part < whole
    ensures part == whole ==> part as real / whole as real == 1.0
  {
  }

  // ---------- reasons ----------

  /** A success by a person, from another server, or of a full test. */
  ghost predicate Succeeded(observations: seq<Observation>, now: int) {
    exists o :: o in observations && Live(o, now) && o.result == Success
             && (o.source == "human_activity" || o.source == "abroad" || o.fullVpnTest)
  }

  /** One of those, but not from another server. */
  ghost predicate SucceededHere(observations: seq<Observation>, now: int) {
    exists o :: o in observations && Live(o, now) && o.result == Success
             && o.source != "abroad" && (o.source == "human_activity" || o.fullVpnTest)
  }

  ghost predicate Failed(observations: seq<Observation>, now: int) {
    exists o :: o in observations && Live(o, now) && o.result == Failure
  }

  lemma {:induction false} SameConditions(observations: seq<Observation>, now: int)
    ensures LiveSuch(observations, now, o => ValidSuccess(o)) <==> Succeeded(observations, now)
    ensures LiveSuch(observations, now, o => StrongSuccess(o)) <==> SucceededHere(observations, now)
    ensures LiveSuch(observations, now, (o: Observation) => o.result == Failure) <==> Failed(observations, now)
  {
  }

  /** For evidence in any order and with any ties, each reason but for the state of outage. */
  lemma {:induction false} ReasonsExactly(observations: seq<Observation>, now: int, expected: int, n: int)
    ensures var e := Evaluate(observations, now, expected, n);
            var success, failure := Succeeded(observations, now), Failed(observations, now);
      && (e.reasonCode == NoFreshEvidence <==> !AnyLive(observations, now))
      && (e.reasonCode == NoConclusiveEvidence <==> AnyLive(observations, now) && !success && !failure)
      && (e.reasonCode == FullSuccessConfirmed <==> success && !failure)
      && (e.reasonCode == FullTestFailureConfirmed <==> e.state == Unavailable)
      && (e.reasonCode == ConflictingFreshEvidence <==> success && failure && e.state != Unavailable)
      && (e.reasonCode == PartialOrUnconfirmedFailure <==> failure && !success && e.state != Unavailable)
      && (e.state == Degraded <==> failure && e.state != Unavailable)
      && (e.state == Unknown <==> !success && !failure)
      && (e.state == Operational <==> success && !failure)
  {
    var live := Fresh(observations, now);
    LiveIsFresh(observations, now);
    LiveFacts(observations, now);
    SameConditions(observations, now);
    if ConfirmedFailure(live, n) {
      ConfirmedMeansPositive(live, n);
    }
  }

  /** Some source ends in enough failed full tests, and nobody where the members sit contradicts it. */
  ghost predicate OutageShown(observations: seq<Observation>, now: int, n: int) {
    && n >= 1 && (exists source :: FailureStreak(observations, now, source) >= n)
    && !SucceededHere(observations, now)
  }

  /** For evidence whose ties agree, the state and the reason from the conditions alone. */
  lemma {:induction false} VerdictExactly(observations: seq<Observation>, now: int, expected: int, n: int)
    requires TiesAgree(observations, now)
    ensures var e := Evaluate(observations, now, expected, n);
            var success, failure := Succeeded(observations, now), Failed(observations, now);
            var outage := OutageShown(observations, now, n);
      && (e.state == Unavailable <==> outage) && (e.reasonCode == FullTestFailureConfirmed <==> outage)
      && (e.state == Degraded <==> failure && !outage)
      && (e.reasonCode == ConflictingFreshEvidence <==> success && failure && !outage)
      && (e.reasonCode == PartialOrUnconfirmedFailure <==> failure && !success && !outage)
  {
    UnavailableExactly(observations, now, expected, n);
    ReasonsExactly(observations, now, expected, n);
    SameConditions(observations, now);
  }
}
