/** Outages from end to end: the probe reports and collected items that a message about an outage needs, and those
    that suffice for one. */
module OutageLaws {
  import opened Domain
  import opened Sequences
  import opened Evaluator
  import opened Streaks
  import opened EvaluatorLaws
  import opened VerdictLaws
  import opened Evidence
  import opened ReportLaws
  import opened Notifications
  import opened Inputs
  import opened MonitorLaws

  // ---------- what an outage needs ----------

  /** Unexpired and over the intended route, the report holds a failed check of the server, a handshake and an HTTPS
      check of it, and a control check of the Internet that succeeded last. */
  ghost predicate ReportsFailure(probe: Probe, payload: Report, server: string, source: string, now: int,
                                 freshness: int)
  {
    && source == (match probe.kind case Pc => "pc" case Android => "mobile" case AbroadProbe => "abroad"
                  case Watchdog => "collector")
    && payload.routeVerified && payload.observedAt + freshness >= now
    && AnyResult(payload.results, server, Failure)
    && Ran(payload.results, server, "handshake") && Ran(payload.results, server, "https")
    && exists i: nat :: LastOf(payload.results, server, "control_internet", i) && payload.results[i].result == Success
  }

  /** The same, said by a collector's item. */
  ghost predicate ItemFailure(item: Item, server: string, source: string, now: int, freshness: int) {
    && item.serverId == server && item.source == source && item.observedAt + freshness >= now
    && item.result == Some(Failure) && item.metrics.routeVerified != Some(false)
    && if source == "collector" then item.metrics.fullVpnTest && item.metrics.controlInternetOk == Some(true)
       else item.fullVpnTest && item.controlInternetOk == Some(true)
  }

  ghost predicate TellsFailure(input: Input, server: string, source: string, now: int, freshness: int) {
    match input
    case Reported(probe, payload, at) => ReportsFailure(probe, payload, server, source, now, freshness)
    case Collected(items, at) => exists item :: item in items && ItemFailure(item, server, source, now, freshness)
    case _ => false
  }

  lemma {:induction false} LastRuns(results: seq<CheckItem>, target: string, check: string) returns (i: nat)
    requires Ran(results, target, check)
    ensures LastOf(results, target, check, i)
  {
    LastResultExactly(results, target, check);
    i := LastResultStands(results, target, check);
  }

  lemma {:induction false} ReportedFailure(o: ObservationRow, probe: Probe, payload: Report, at: int, server: string,
                                           source: string, now: int, freshness: int)
    requires Says(o, probe, payload, at, freshness) && FailedTest(o, server, source, now)
    ensures ReportsFailure(probe, payload, server, source, now, freshness)
  {
    var i := LastRuns(payload.results, server, "control_internet");
  }

  /** A stored failed test was reported or collected as one. */
  lemma {:induction false} FailedTestWasTold(o: ObservationRow, input: Input, settings: Settings, server: string,
                                             source: string, now: int)
    requires StemsFrom(o, input, settings) && FailedTest(o, server, source, now)
    ensures TellsFailure(input, server, source, now, settings.freshness)
  {
    match input
    case Reported(probe, payload, at) =>
      var rows := RowsOf(probe, payload, settings.known, at, settings.freshness);
      RowsSay(probe, payload, settings.known, at, settings.freshness);
      var k :| 0 <= k < |rows| && rows[k] == o;
      ReportedFailure(o, probe, payload, at, server, source, now, settings.freshness);
    case Collected(items, at) =>
      var rows := ItemRows(items, settings.known, at, settings.freshness);
      ItemRowsRepeat(items, settings.known, at, settings.freshness);
      var k :| 0 <= k < |rows| && rows[k] == o;
      var item := Filter(items, OfServer(settings.known))[k];
      assert item in Filter(items, OfServer(settings.known));
      assert Repeats(o, item, at, settings.freshness);
    case _ =>
  }

  /** A message about an outage, to the group or the administrator, is handed over only if, when it was queued, at
      least as many failed tests of one source were stored as the configuration asks for, each of which was told as
      such by a report or a collection received before. */
  lemma {:induction false} OutagesNeedReports(inputs: seq<Input>, settings: Settings, a: Attempt)
    returns (k: nat, source: string)
    requires a in WorldAfter(inputs, settings).log && a.notice.template == BotUnavailable
    ensures k < |inputs| && inputs[k].Evaluated?
    ensures a.notice.key.scope == "server:" + inputs[k].server && a.notice.createdAt == inputs[k].now
    ensures var failed := Filter(TablesAfter(inputs[..k], settings).observations,
                                 FailedTestOf(inputs[k].server, source, inputs[k].now));
      && |failed| >= settings.confirmations >= 1
      && forall o :: o in failed ==>
           exists h :: 0 <= h < k && StemsFrom(o, inputs[h], settings)
                       && TellsFailure(inputs[h], inputs[k].server, source, inputs[k].now, settings.freshness)
    ensures !SucceededHere(EvidenceAt(inputs[..k], settings, inputs[k].server, inputs[k].now), inputs[k].now)
  {
    k, source := OutagesNeedFailedTests(inputs, settings, a);
    var server, now := inputs[k].server, inputs[k].now;
    var rows := TablesAfter(inputs[..k], settings).observations;
    SameConditions(EvidenceAt(inputs[..k], settings, server, now), now);
    FilterMembers(rows, FailedTestOf(server, source, now));
    forall o | o in Filter(rows, FailedTestOf(server, source, now))
      ensures exists h :: 0 <= h < k && StemsFrom(o, inputs[h], settings)
                          && TellsFailure(inputs[h], server, source, now, settings.freshness)
    {
      assert Stems(inputs[..k], settings, o);
      var h :| 0 <= h < k && StemsFrom(o, inputs[..k][h], settings);
      FailedTestWasTold(o, inputs[h], settings, server, source, now);
    }
  }

  // ---------- what suffices for one ----------

  /** Every stored report has its rows. */
  ghost predicate RowsStored(t: Tables, settings: Settings) {
    forall id :: id in t.reports ==> RowsStoredFor(t, id, settings)
  }

  ghost predicate RowsStoredFor(t: Tables, id: string, settings: Settings)
    requires id in t.reports
  {
    var r := t.reports[id];
    && r.payload.id == id
    && forall o :: o in RowsOf(r.probe, r.payload, settings.known, r.receivedAt, settings.freshness) ==>
         o in t.observations
  }

  lemma {:induction false} RowsStoredStep(t: Tables, input: Input, settings: Settings)
    requires ReferencesIntact(t) && RowsStored(t, settings)
    ensures ReferencesIntact(TablesStep(t, input, settings)) && RowsStored(TablesStep(t, input, settings), settings)
  {
    var next := TablesStep(t, input, settings);
    match input
    case Reported(probe, payload, now) =>
      AcceptKeepsReferences(t, probe, payload, settings.known, now, settings.freshness);
      forall id | id in next.reports ensures RowsStoredFor(next, id, settings) {
        if id in t.reports { assert RowsStoredFor(t, id, settings); }
      }
    case Collected(items, now) =>
      ItemsKeepReferences(t, items, settings.known, now, settings.freshness);
      forall id | id in next.reports ensures RowsStoredFor(next, id, settings) {
        assert RowsStoredFor(t, id, settings);
      }
    case Maintained(now) =>
      SweepIsExact(t, now - settings.retention);
      forall id | id in next.reports ensures RowsStoredFor(next, id, settings) {
        assert RowsStoredFor(t, id, settings);
      }
    case _ =>
  }

  lemma {:induction false} RowsAreStored(inputs: seq<Input>, settings: Settings)
    ensures ReferencesIntact(TablesAfter(inputs, settings)) && RowsStored(TablesAfter(inputs, settings), settings)
  {
    if inputs != [] {
      var init := inputs[..|inputs| - 1];
      RowsAreStored(init, settings);
      RowsStoredStep(TablesAfter(init, settings), inputs[|inputs| - 1], settings);
    }
  }

  /** A stored failure report has its failed test stored. */
  lemma {:induction false} FailureStored(t: Tables, id: string, settings: Settings, server: string, source: string,
                                         now: int)
    returns (o: ObservationRow)
    requires RowsStored(t, settings) && id in t.reports && server in settings.known
    requires ReportsFailure(t.reports[id].probe, t.reports[id].payload, server, source, now, settings.freshness)
    ensures o in t.observations && FailedTest(o, server, source, now)
    ensures o.reportId == Some(id) && o.observedAt == t.reports[id].payload.observedAt
  {
    var r := t.reports[id];
    var rows := RowsOf(r.probe, r.payload, settings.known, r.receivedAt, settings.freshness);
    RowsSay(r.probe, r.payload, settings.known, r.receivedAt, settings.freshness);
    var i: nat :| LastOf(r.payload.results, server, "control_internet", i) && r.payload.results[i].result == Success;
    assert Checked(r.payload.results, server, i);
    var known := KnownTargets(r.payload, settings.known);
    assert server in known;
    var k :| 0 <= k < |known| && known[k] == server;
    o := rows[k];
    assert RowsStoredFor(t, id, settings) && o in rows;
  }

  lemma {:induction false} IdsCounted(rows: seq<ObservationRow>, ids: set<string>)
    requires forall id :: id in ids ==> exists o :: o in rows && o.reportId == Some(id)
    ensures |rows| >= |ids|
  {
    if rows == [] {
      assert ids == {};
    } else {
      var init, last := rows[..|rows| - 1], rows[|rows| - 1];
      var mine := if last.reportId.Some? then {last.reportId.value} else {};
      assert rows == init + [last];
      forall id | id in ids - mine ensures exists o :: o in init && o.reportId == Some(id) {
        var o :| o in rows && o.reportId == Some(id);
        assert o in init;
      }
      IdsCounted(init, ids - mine);
      assert ids <= (ids - mine) + mine;
      SmallerSet(ids, (ids - mine) + mine);
    }
  }

  lemma {:induction false} SmallerSet(a: set<string>, b: set<string>)
    requires a <= b
    ensures |a| <= |b|
  {
    assert b == a + (b - a);
  }

  lemma {:induction false} ConvertedFewer(rows: seq<ObservationRow>, some: ObservationRow -> bool,
                                          all: Observation -> bool)
    requires forall o :: o in rows ==> o.result.Some?
    requires forall o :: o in rows && some(o) ==> all(ToObservation(o))
    ensures |Filter(rows, some)| <= |Filter(ToObservations(rows), all)|
  {
    if rows != [] {
      var init, last := rows[..|rows| - 1], rows[|rows| - 1];
      assert rows == init + [last] && last in rows;
      ConvertedFewer(init, some, all);
      ConvertsSnoc(init, last);
      FilterSnoc(ToObservations(init), ToObservation(last), all);
      FilterSnoc(init, last, some);
    }
  }

  /** Rows an evaluation reads are counted among its observations. */
  lemma {:induction false} ReadFewer(rows: seq<ObservationRow>, server: string, now: int,
                                     some: ObservationRow -> bool, all: Observation -> bool)
    requires forall o :: o in rows && some(o) ==> ReadableAt(server, now)(o) && all(ToObservation(o))
    ensures |Filter(rows, some)| <= |Filter(ToObservations(Readable(rows, server, now)), all)|
  {
    var keep := ReadableAt(server, now);
    ReadableParsed(rows, server, now);
    ConvertedFewer(Readable(rows, server, now), some, all);
    FilterSort(Filter(rows, keep), ByObservation(), some);
    FilterWeaker(rows, keep, some);
    SortMultiset(Filter(rows, some), ByObservation());
  }

  /** A stored failed test of one of the given reports. */
  function FromOneOf(ids: set<string>, server: string, source: string, now: int): ObservationRow -> bool {
    (o: ObservationRow) =>
      FailedTest(o, server, source, now) && o.reportId.Some? && o.reportId.value in ids
  }

  /** A full test of the source that did not fail as one, unexpired and over a usable route. */
  ghost predicate OtherTest(o: ObservationRow, server: string, source: string, now: int) {
    && o.serverId == server && o.source == source && o.fullVpnTest && o.freshUntil >= now && o.result.Some?
    && o.routeVerified != Some(false) && !FailedTest(o, server, source, now)
  }

  lemma {:induction false} ReportedTestsStand(rows: seq<ObservationRow>, ids: set<string>, server: string,
                                              source: string, now: int)
    requires forall o, p ::
      (o in rows && FromOneOf(ids, server, source, now)(o) && p in rows && OtherTest(p, server, source, now)) ==>
        p.observedAt < o.observedAt
    ensures |Filter(rows, FromOneOf(ids, server, source, now))|
         <= FailureStreak(ToObservations(Readable(rows, server, now)), now, source)
  {
    var read := Readable(rows, server, now);
    var observations := ToObservations(read);
    var standing := StandingOf(observations, now, source, true);
    ReadableParsed(rows, server, now);
    forall o | o in rows && FromOneOf(ids, server, source, now)(o)
      ensures ReadableAt(server, now)(o) && standing(ToObservation(o))
    {
      assert ReadableAt(server, now)(o);
      TestStands(rows, o, server, source, now);
    }
    ReadFewer(rows, server, now, FromOneOf(ids, server, source, now), standing);
  }

  lemma {:induction false} TestStands(rows: seq<ObservationRow>, o: ObservationRow, server: string, source: string,
                                      now: int)
    requires o in rows && FailedTest(o, server, source, now)
    requires forall p :: p in rows && OtherTest(p, server, source, now) ==> p.observedAt < o.observedAt
    ensures StandingOf(ToObservations(Readable(rows, server, now)), now, source, true)(ToObservation(o))
  {
    var read := Readable(rows, server, now);
    var observations := ToObservations(read);
    ReadableParsed(rows, server, now);
    assert ReadableAt(server, now)(o);
    var i :| 0 <= i < |read| && read[i] == o;
    assert observations[i] in observations;
    var tests := LiveTestsOf(observations, now, source);
    forall p | p in tests && !ValidFullFailure(p) ensures p.observedAt < o.observedAt {
      var k :| 0 <= k < |observations| && observations[k] == p;
      assert read[k] in read;
      assert OtherTest(read[k], server, source, now);
    }
  }

  /** The report is stored, tells of a failure, and is newer than every other full test of its source. */
  ghost predicate FailureNewest(t: Tables, id: string, server: string, source: string, now: int, settings: Settings) {
    && id in t.reports
    && ReportsFailure(t.reports[id].probe, t.reports[id].payload, server, source, now, settings.freshness)
    && forall p :: p in t.observations && OtherTest(p, server, source, now) ==>
         p.observedAt < t.reports[id].payload.observedAt
  }

  /** Stored reports of failure, as many as the configuration asks for and newer than every other full test of their
      source, with no success from where the members sit: the server is unavailable. */
  lemma {:induction false} ReportsSuffice(inputs: seq<Input>, settings: Settings, server: string, source: string,
                                          now: int, ids: set<string>)
    requires server in settings.known && |ids| >= settings.confirmations >= 1
    requires forall id :: id in ids ==> FailureNewest(TablesAfter(inputs, settings), id, server, source, now, settings)
    requires !SucceededHere(EvidenceAt(inputs, settings, server, now), now)
    ensures var e := EvaluationOf(TablesAfter(inputs, settings).observations, server, now, settings.confirmations);
      e.state == Unavailable && e.reasonCode == FullTestFailureConfirmed
  {
    var t := TablesAfter(inputs, settings);
    var observations := EvidenceAt(inputs, settings, server, now);
    RowsAreStored(inputs, settings);
    FilterMembers(t.observations, FromOneOf(ids, server, source, now));
    forall o, p | o in t.observations && FromOneOf(ids, server, source, now)(o) && p in t.observations
      && OtherTest(p, server, source, now) ensures p.observedAt < o.observedAt {
      assert FailureNewest(t, o.reportId.value, server, source, now, settings);
    }
    forall id | id in ids
      ensures exists o :: o in Filter(t.observations, FromOneOf(ids, server, source, now)) && o.reportId == Some(id)
    {
      var o := FailureStored(t, id, settings, server, source, now);
      assert FromOneOf(ids, server, source, now)(o);
    }
    IdsCounted(Filter(t.observations, FromOneOf(ids, server, source, now)), ids);
    ReportedTestsStand(t.observations, ids, server, source, now);
    ShownIsUnavailable(observations, now, ExpectedSources(t.observations, server, now), settings.confirmations, source);
  }

  /** Whatever the ties, the failures after the last other test confirm an outage. */
  lemma {:induction false} ShownIsUnavailable(observations: seq<Observation>, now: int, expected: int, n: int,
                                              source: string)
    requires n >= 1 && FailureStreak(observations, now, source) >= n && !SucceededHere(observations, now)
    ensures var e := Evaluator.Evaluate(observations, now, expected, n);
      e.state == Unavailable && e.reasonCode == FullTestFailureConfirmed
  {
    ConfirmedBetween(observations, now, n);
    SameConditions(observations, now);
    LiveFacts(observations, now);
    ConfirmedMeansPositive(Fresh(observations, now), n);
  }
}
