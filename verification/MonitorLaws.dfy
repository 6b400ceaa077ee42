/** What the messages and the card rest on: the probe reports and collected observations behind them, in every
    run of the monitoring process. */
module MonitorLaws {
  import opened Domain
  import opened Sequences
  import opened Evaluator
  import opened Streaks
  import opened EvaluatorLaws
  import opened Evidence
  import opened Notifications
  import opened QueueFacts
  import opened Runs
  import opened RunLaws
  import opened GroupLaws
  import opened Inputs
  import CardLaws
  import Views

  // ---------- every message comes from an evaluation ----------

  /** The i-th event is the evaluation that queued this notice. */
  ghost predicate QueuedBy(events: seq<Event>, t: Timing, i: nat, n: Notice) {
    && i < |events| && events[i].Save?
    && var sv, s := events[i].saving, Run(events[..i], t).store;
       Changes(s, sv) && KeyOf(s, sv) == n.key && sv.at == n.createdAt && sv.evaluation.state == Describes(n.template)
  }

  lemma {:induction false} NewRowQueued(init: seq<Event>, e: Event, t: Timing, j: nat)
    requires |Run(init, t).store.queue| <= j < |Step(Run(init, t), e, t).store.queue|
    ensures QueuedBy(init + [e], t, |init|, Step(Run(init, t), e, t).store.queue[j])
  {
    var s := Run(init, t).store;
    assert (init + [e])[..|init|] == init;
    AnnouncedRowFacts(s.queue, KeyOf(s, e.saving), e.saving, t.quiet);
  }

  lemma {:induction false} StillQueuedBy(events: seq<Event>, e: Event, t: Timing, i: nat, n: Notice, m: Notice)
    requires QueuedBy(events, t, i, n) && SameMessage(n, m)
    ensures QueuedBy(events + [e], t, i, m)
  {
    assert (events + [e])[..i] == events[..i];
  }

  lemma {:induction false} RowWasQueued(events: seq<Event>, t: Timing, j: nat) returns (i: nat)
    requires j < |Run(events, t).store.queue|
    ensures QueuedBy(events, t, i, Run(events, t).store.queue[j])
    decreases |events|
  {
    var init, e := events[..|events| - 1], events[|events| - 1];
    assert events == init + [e];
    RunSnoc(init, e, t);
    if j < |Run(init, t).store.queue| {
      i := RowWasQueued(init, t, j);
      RunConsistent(init, t);
      RowCases(Run(init, t), e, t, j);
      StillQueuedBy(init, e, t, i, Run(init, t).store.queue[j], Run(events, t).store.queue[j]);
    } else {
      NewRowQueued(init, e, t, j);
      i := |init|;
    }
  }

  lemma {:induction false} AttemptedRow(w: World, e: Event, t: Timing, a: Attempt) returns (j: nat)
    requires Consistent(w.store) && a in Step(w, e, t).log && a !in w.log
    ensures j < |w.store.queue| && w.store.queue[j] == a.notice
  {
    var tried := Tried(w.store.queue, e);
    var made := Attempts(tried, e.now, e.accepted);
    assert a in made;
    var k :| 0 <= k < |made| && made[k] == a;
    TriedFacts(w.store.queue, e);
    assert tried[k] in tried;
    j :| 0 <= j < |w.store.queue| && w.store.queue[j] == a.notice;
  }

  lemma {:induction false} AttemptWasQueued(events: seq<Event>, t: Timing, a: Attempt) returns (i: nat)
    requires a in Run(events, t).log
    ensures QueuedBy(events, t, i, a.notice)
    decreases |events|
  {
    var init, e := events[..|events| - 1], events[|events| - 1];
    assert events == init + [e];
    RunSnoc(init, e, t);
    if a in Run(init, t).log {
      i := AttemptWasQueued(init, t, a);
    } else {
      RunConsistent(init, t);
      var j := AttemptedRow(Run(init, t), e, t, a);
      i := RowWasQueued(init, t, j);
    }
    StillQueuedBy(init, e, t, i, a.notice, a.notice);
  }

  // ---------- every evaluation comes from an input ----------

  /** The k-th input is the evaluation that the i-th event saves. */
  ghost predicate EvaluatedBy(inputs: seq<Input>, settings: Settings, k: nat, saving: Saving) {
    && k < |inputs| && inputs[k].Evaluated?
    && saving == SavingOf(TablesAfter(inputs[..k], settings).observations, inputs[k].server, inputs[k].now,
                          settings.confirmations)
  }

  lemma {:induction false} SavingWasEvaluated(inputs: seq<Input>, settings: Settings, i: nat) returns (k: nat)
    requires i < |EventsFrom(inputs, settings)| && EventsFrom(inputs, settings)[i].Save?
    ensures EvaluatedBy(inputs, settings, k, EventsFrom(inputs, settings)[i].saving)
  {
    var init := inputs[..|inputs| - 1];
    if i < |EventsFrom(init, settings)| {
      k := SavingWasEvaluated(init, settings, i);
      assert init[..k] == inputs[..k];
    } else {
      k := |init|;
    }
  }

  // ---------- the grounds of a message ----------

  /** What the evidence must have shown for this message. For an outage: no success of a person or a full test
      from where the members sit, and enough failed full tests of one source in a row. */
  ghost predicate Grounds(template: Template, observations: seq<Observation>, now: int, n: int) {
    var success := LiveSuch(observations, now, o => ValidSuccess(o));
    var failure := LiveSuch(observations, now, (o: Observation) => o.result == Failure);
    match template
    case BotUnavailable =>
      && n >= 1 && (exists source :: PossibleStreak(observations, now, source) >= n)
      && !LiveSuch(observations, now, o => StrongSuccess(o))
    case BotRecovered => success && !failure
    case BotDegraded => failure
    case BotUnknown => !success && !failure
  }

  lemma {:induction false} OutageGrounds(observations: seq<Observation>, now: int, expected: int, n: int)
    requires Evaluator.Evaluate(observations, now, expected, n).state == Unavailable
    ensures Grounds(BotUnavailable, observations, now, n)
  {
    var live := Fresh(observations, now);
    LiveFacts(observations, now);
    if !(ConfirmedFailure(live, n) && !HasStrong(live)) {
      SecondOutageBranchUnreachable(live, n);
    }
    ConfirmedMeansPositive(live, n);
    ConfirmedBetween(observations, now, n);
  }

  lemma {:induction false} EvaluationGrounds(template: Template, observations: seq<Observation>, now: int,
                                             expected: int, n: int)
    requires Evaluator.Evaluate(observations, now, expected, n).state == Describes(template)
    ensures Grounds(template, observations, now, n)
  {
    OtherStatesExactly(observations, now, expected, n);
    if template == BotUnavailable {
      OutageGrounds(observations, now, expected, n);
    }
  }

  /** Whatever the probes report, the collectors deliver and the messenger does: every message it is ever handed
      was queued by an evaluation, at the instant it was created, of evidence then stored that showed what the
      message says. */
  lemma {:induction false} MessagesAreGrounded(inputs: seq<Input>, settings: Settings, a: Attempt) returns (k: nat)
    requires a in WorldAfter(inputs, settings).log
    ensures k < |inputs| && inputs[k].Evaluated?
    ensures a.notice.key.scope == ScopeOf(inputs[k].server) && a.notice.createdAt == inputs[k].now
    ensures Grounds(a.notice.template, EvidenceAt(inputs[..k], settings, inputs[k].server, inputs[k].now),
                    inputs[k].now, settings.confirmations)
  {
    var events := EventsFrom(inputs, settings);
    var i := AttemptWasQueued(events, settings.timing, a);
    k := SavingWasEvaluated(inputs, settings, i);
    var rows := TablesAfter(inputs[..k], settings).observations;
    EvaluationGrounds(a.notice.template, EvidenceAt(inputs[..k], settings, inputs[k].server, inputs[k].now),
                      inputs[k].now, ExpectedSources(rows, inputs[k].server, inputs[k].now), settings.confirmations);
  }

  // ---------- the tests behind an outage ----------

  /** A full test of the source that failed, though the Internet beside it worked and the route was right, and
      that has not expired. */
  predicate FailedTest(o: ObservationRow, server: string, source: string, now: int) {
    && o.serverId == server && o.source == source && o.freshUntil >= now
    && o.result == Some(Failure) && o.fullVpnTest && o.controlInternetOk == Some(true) && o.routeVerified != Some(false)
  }

  function FailedTestOf(server: string, source: string, now: int): ObservationRow -> bool {
    (o: ObservationRow) => FailedTest(o, server, source, now)
  }

  function FailedObservation(source: string, now: int): Observation -> bool {
    (o: Observation) => o.source == source && Live(o, now) && ValidFullFailure(o)
  }

  lemma {:induction false} ConvertsSnoc(rows: seq<ObservationRow>, last: ObservationRow)
    requires forall o :: o in rows + [last] ==> o.result.Some?
    ensures last.result.Some? && forall o :: o in rows ==> o.result.Some?
    ensures ToObservations(rows + [last]) == ToObservations(rows) + [ToObservation(last)]
  {
    assert last in rows + [last];
  }

  lemma {:induction false} FailedAlike(o: ObservationRow, server: string, source: string, now: int)
    requires o.result.Some? && o.serverId == server
    ensures FailedObservation(source, now)(ToObservation(o)) == FailedTestOf(server, source, now)(o)
  {
  }

  lemma {:induction false} CountConverted(rows: seq<ObservationRow>, server: string, source: string, now: int)
    requires forall o :: o in rows ==> o.result.Some? && o.serverId == server
    ensures |Filter(ToObservations(rows), FailedObservation(source, now))|
         == |Filter(rows, FailedTestOf(server, source, now))|
  {
    if rows != [] {
      var init, last := rows[..|rows| - 1], rows[|rows| - 1];
      assert rows == init + [last] && last in rows;
      CountConverted(init, server, source, now);
      ConvertsSnoc(init, last);
      FailedAlike(last, server, source, now);
      FilterSnoc(ToObservations(init), ToObservation(last), FailedObservation(source, now));
      FilterSnoc(init, last, FailedTestOf(server, source, now));
    }
  }

  /** Reading the rows for an evaluation loses no failed test. */
  lemma {:induction false} CountRead(rows: seq<ObservationRow>, server: string, source: string, now: int)
    ensures |Filter(ToObservations(Readable(rows, server, now)), FailedObservation(source, now))|
         == |Filter(rows, FailedTestOf(server, source, now))|
  {
    var keep, failed := ReadableAt(server, now), FailedTestOf(server, source, now);
    ReadableParsed(rows, server, now);
    CountConverted(Readable(rows, server, now), server, source, now);
    FilterSort(Filter(rows, keep), ByObservation(), failed);
    FilterWeaker(rows, keep, failed);
    SortMultiset(Filter(rows, failed), ByObservation());
  }

  lemma {:induction false} FilterFewer<T>(xs: seq<T>, strong: T -> bool, weak: T -> bool)
    requires forall x :: x in xs && strong(x) ==> weak(x)
    ensures |Filter(xs, strong)| <= |Filter(xs, weak)|
  {
    FilterWeaker(xs, weak, strong);
  }

  lemma {:induction false} StreakCounts(observations: seq<Observation>, now: int, source: string)
    ensures PossibleStreak(observations, now, source) <= |Filter(observations, FailedObservation(source, now))|
  {
    FilterFewer(observations, StandingOf(observations, now, source, false), FailedObservation(source, now));
  }

  /** The row was written for this report or from this collection. */
  ghost predicate StemsFrom(o: ObservationRow, input: Input, settings: Settings) {
    match input
    case Reported(probe, payload, now) => o in RowsOf(probe, payload, settings.known, now, settings.freshness)
    case Collected(items, now) => o in ItemRows(items, settings.known, now, settings.freshness)
    case _ => false
  }

  lemma {:induction false} StepStems(t: Tables, input: Input, settings: Settings, o: ObservationRow)
    requires o in TablesStep(t, input, settings).observations && o !in t.observations
    ensures StemsFrom(o, input, settings)
  {
    if input.Maintained? {
      FilterMembers(t.observations, NotBefore(input.now - settings.retention));
    }
  }

  lemma {:induction false} RowStems(inputs: seq<Input>, settings: Settings, o: ObservationRow) returns (h: nat)
    requires o in TablesAfter(inputs, settings).observations
    ensures h < |inputs| && StemsFrom(o, inputs[h], settings)
  {
    var init := inputs[..|inputs| - 1];
    if o in TablesAfter(init, settings).observations {
      h := RowStems(init, settings, o);
    } else {
      StepStems(TablesAfter(init, settings), inputs[|inputs| - 1], settings, o);
      h := |inputs| - 1;
    }
  }

  ghost predicate Stems(inputs: seq<Input>, settings: Settings, o: ObservationRow) {
    exists h :: 0 <= h < |inputs| && StemsFrom(o, inputs[h], settings)
  }

  /** A message about an outage, to the group or the administrator, is handed over only if, when it was queued, at
      least as many failed full tests of one source were stored and unexpired as the configuration asks for, each
      from a report or a collection received before, and no success from where the members sit. */
  lemma {:induction false} OutagesNeedFailedTests(inputs: seq<Input>, settings: Settings, a: Attempt)
    returns (k: nat, source: string)
    requires a in WorldAfter(inputs, settings).log && a.notice.template == BotUnavailable
    ensures k < |inputs| && inputs[k].Evaluated?
    ensures a.notice.key.scope == ScopeOf(inputs[k].server) && a.notice.createdAt == inputs[k].now
    ensures var failed := Filter(TablesAfter(inputs[..k], settings).observations,
                                 FailedTestOf(inputs[k].server, source, inputs[k].now));
      |failed| >= settings.confirmations >= 1 && forall o :: o in failed ==> Stems(inputs[..k], settings, o)
    ensures !LiveSuch(EvidenceAt(inputs[..k], settings, inputs[k].server, inputs[k].now), inputs[k].now,
                      o => StrongSuccess(o))
  {
    k := MessagesAreGrounded(inputs, settings, a);
    var server, now := inputs[k].server, inputs[k].now;
    var observations := EvidenceAt(inputs[..k], settings, server, now);
    source :| PossibleStreak(observations, now, source) >= settings.confirmations;
    StreakCounts(observations, now, source);
    var rows := TablesAfter(inputs[..k], settings).observations;
    CountRead(rows, server, source, now);
    FailedStem(inputs[..k], settings, FailedTestOf(server, source, now));
  }

  lemma {:induction false} FailedStem(inputs: seq<Input>, settings: Settings, keep: ObservationRow -> bool)
    ensures forall o :: o in Filter(TablesAfter(inputs, settings).observations, keep) ==> Stems(inputs, settings, o)
  {
    FilterMembers(TablesAfter(inputs, settings).observations, keep);
    forall o | o in Filter(TablesAfter(inputs, settings).observations, keep) ensures Stems(inputs, settings, o) {
      var h := RowStems(inputs, settings, o);
    }
  }

  // ---------- when the group's news is queued ----------

  /** The group's rows about a server after one more evaluation of it. */
  ghost function RowsAfterEvaluation(inputs: seq<Input>, settings: Settings, server: string, now: int): seq<Notice> {
    GroupRows(WorldAfter(inputs + [Evaluated(server, now)], settings).store.queue, ScopeOf(server))
  }

  ghost predicate Adds(before: seq<Notice>, after: seq<Notice>, template: Template) {
    |after| == |before| + 1 && after[..|before|] == before && after[|before|].template == template
  }

  lemma {:induction false} EvaluationAdds(inputs: seq<Input>, settings: Settings, server: string, now: int,
                                          template: Template)
    ensures var s := WorldAfter(inputs, settings).store;
            var sv := SavingOf(TablesAfter(inputs, settings).observations, server, now, settings.confirmations);
      Adds(GroupRows(s.queue, ScopeOf(server)), RowsAfterEvaluation(inputs, settings, server, now), template)
      <==> NewsOf(s, sv).Some? && NewsOf(s, sv).value.template == template
  {
    var sv := SavingOf(TablesAfter(inputs, settings).observations, server, now, settings.confirmations);
    InputsSnoc(inputs, Evaluated(server, now), settings);
    RunSnoc(EventsFrom(inputs, settings), Save(sv), settings.timing);
    SaveGroupRows(WorldAfter(inputs, settings).store, sv, settings.timing.quiet, ScopeOf(server));
  }

  /** The evaluation changes the server's state, and no message has its key. */
  ghost predicate IsNew(inputs: seq<Input>, settings: Settings, server: string, now: int) {
    var s := WorldAfter(inputs, settings).store;
    var sv := SavingOf(TablesAfter(inputs, settings).observations, server, now, settings.confirmations);
    Changes(s, sv) && !HasNotice(s.queue, KeyOf(s, sv))
  }

  /** An evaluation queues an outage for the group if and only if it is news, the group has none open, and the
      stored evidence shows enough failed full tests of one source in a row and no success from where the members
      sit. */
  lemma {:induction false} OutageQueuedExactly(inputs: seq<Input>, settings: Settings, server: string, now: int)
    requires TiesAgree(EvidenceAt(inputs, settings, server, now), now)
    ensures var queue := WorldAfter(inputs, settings).store.queue;
            var observations := EvidenceAt(inputs, settings, server, now);
      Adds(GroupRows(queue, ScopeOf(server)), RowsAfterEvaluation(inputs, settings, server, now), BotUnavailable) <==>
        && IsNew(inputs, settings, server, now) && !GroupAlerted(queue, ScopeOf(server))
        && settings.confirmations >= 1
        && (exists source :: FailureStreak(observations, now, source) >= settings.confirmations)
        && !LiveSuch(observations, now, o => StrongSuccess(o))
  {
    EvaluationAdds(inputs, settings, server, now, BotUnavailable);
    UnavailableExactly(EvidenceAt(inputs, settings, server, now), now,
                       ExpectedSources(TablesAfter(inputs, settings).observations, server, now),
                       settings.confirmations);
  }

  /** It queues a recovery if and only if it is news, the group has an outage open, and the stored evidence shows a
      success and no failure. */
  lemma {:induction false} RecoveryQueuedExactly(inputs: seq<Input>, settings: Settings, server: string, now: int)
    ensures var queue := WorldAfter(inputs, settings).store.queue;
            var observations := EvidenceAt(inputs, settings, server, now);
      Adds(GroupRows(queue, ScopeOf(server)), RowsAfterEvaluation(inputs, settings, server, now), BotRecovered) <==>
        && IsNew(inputs, settings, server, now) && GroupAlerted(queue, ScopeOf(server))
        && LiveSuch(observations, now, o => ValidSuccess(o))
        && !LiveSuch(observations, now, (o: Observation) => o.result == Failure)
  {
    EvaluationAdds(inputs, settings, server, now, BotRecovered);
    OtherStatesExactly(EvidenceAt(inputs, settings, server, now), now,
                       ExpectedSources(TablesAfter(inputs, settings).observations, server, now),
                       settings.confirmations);
  }

  // ---------- the card ----------

  /** Which input last evaluated the server. */
  function LastEvaluation(inputs: seq<Input>, server: string): (k: Option<nat>)
    ensures k.Some? ==> k.value < |inputs| && inputs[k.value].Evaluated? && inputs[k.value].server == server
  {
    if inputs == [] then None
    else
      var last := inputs[|inputs| - 1];
      if last.Evaluated? && last.server == server then Some(|inputs| - 1)
      else LastEvaluation(inputs[..|inputs| - 1], server)
  }

  lemma {:induction false} ScopesDiffer(a: string, b: string)
    requires ScopeOf(a) == ScopeOf(b)
    ensures a == b
  {
    assert ScopeOf(a)[7..] == a && ScopeOf(b)[7..] == b;
  }

  ghost predicate IsSavingOf(saving: Option<Saving>, inputs: seq<Input>, settings: Settings, server: string) {
    var last := LastEvaluation(inputs, server);
    if last.None? then saving == None
    else saving == Some(SavingOf(TablesAfter(inputs[..last.value], settings).observations, server,
                                 inputs[last.value].now, settings.confirmations))
  }

  lemma {:induction false} LastSavingSnoc(events: seq<Event>, more: seq<Event>, scope: string)
    requires |more| <= 1
    ensures CardLaws.LastSaving(events + more, scope)
         == if more != [] && more[0].Save? && more[0].saving.scope == scope then Some(more[0].saving)
            else CardLaws.LastSaving(events, scope)
  {
    if more == [] {
      assert events + more == events;
    } else {
      assert (events + more)[..|events|] == events;
    }
  }

  lemma {:induction false} SameEvaluation(init: seq<Input>, last: Input, server: string)
    requires !(last.Evaluated? && last.server == server)
    ensures LastEvaluation(init + [last], server) == LastEvaluation(init, server)
  {
    assert (init + [last])[..|init|] == init;
  }

  lemma {:induction false} SameSaving(saving: Option<Saving>, init: seq<Input>, last: Input, settings: Settings,
                                      server: string)
    requires IsSavingOf(saving, init, settings, server) && !(last.Evaluated? && last.server == server)
    ensures IsSavingOf(saving, init + [last], settings, server)
  {
    var before, all := LastEvaluation(init, server), init + [last];
    SameEvaluation(init, last, server);
    if before.Some? {
      assert all[..before.value] == init[..before.value] && all[before.value] == init[before.value];
    }
  }

  lemma {:induction false} LastSavingIsEvaluation(inputs: seq<Input>, settings: Settings, server: string)
    ensures IsSavingOf(CardLaws.LastSaving(EventsFrom(inputs, settings), ScopeOf(server)), inputs, settings, server)
  {
    if inputs != [] {
      var init, last := inputs[..|inputs| - 1], inputs[|inputs| - 1];
      var more := EventsOfInput(TablesAfter(init, settings).observations, last, settings);
      assert inputs == init + [last];
      LastSavingIsEvaluation(init, settings, server);
      LastSavingSnoc(EventsFrom(init, settings), more, ScopeOf(server));
      if !(last.Evaluated? && last.server == server) {
        if last.Evaluated? && ScopeOf(last.server) == ScopeOf(server) {
          ScopesDiffer(last.server, server);
        }
        SameSaving(CardLaws.LastSaving(EventsFrom(init, settings), ScopeOf(server)), init, last, settings, server);
      }
    }
  }

  /** Some row an evaluation of the server at `now` uses satisfies the condition. */
  ghost predicate RowSuch(rows: seq<ObservationRow>, server: string, now: int, condition: Observation -> bool) {
    exists o :: o in rows && ReadableAt(server, now)(o) && Live(ToObservation(o), now) && condition(ToObservation(o))
  }

  lemma {:induction false} RowsRead(rows: seq<ObservationRow>, server: string, now: int, condition: Observation -> bool)
    ensures LiveSuch(ToObservations(Readable(rows, server, now)), now, condition)
       <==> RowSuch(rows, server, now, condition)
  {
    var read := Readable(rows, server, now);
    ReadableParsed(rows, server, now);
    if RowSuch(rows, server, now, condition) {
      var o :| o in rows && ReadableAt(server, now)(o) && Live(ToObservation(o), now) && condition(ToObservation(o));
      var i :| 0 <= i < |read| && read[i] == o;
      assert ToObservations(read)[i] in ToObservations(read);
    }
    if LiveSuch(ToObservations(read), now, condition) {
      var o :| o in ToObservations(read) && Live(o, now) && condition(o);
      var i :| 0 <= i < |read| && ToObservations(read)[i] == o;
      assert read[i] in read;
    }
  }

  function NotBeforeThen(later: int): Observation -> bool { (o: Observation) => o.freshUntil >= later }

  /** In any run, a card shows a state other than "unknown" exactly while the server's last evaluation found a
      success or a failure among the rows stored then, and some row with a usable route that it used is still
      fresh; it shows "operational" exactly while, besides, there was no failure. */
  lemma {:induction false} CardShowsLiveEvidence(inputs: seq<Input>, settings: Settings, server: string, later: int)
    ensures var shown := Views.CardState(WorldAfter(inputs, settings).store, ScopeOf(server), later);
            var last := LastEvaluation(inputs, server);
      if last.None? then shown == Unknown
      else
        var rows, now := TablesAfter(inputs[..last.value], settings).observations, inputs[last.value].now;
        var success := RowSuch(rows, server, now, o => ValidSuccess(o));
        var failure := RowSuch(rows, server, now, (o: Observation) => o.result == Failure);
        var alive := RowSuch(rows, server, now, NotBeforeThen(later));
        && (shown != Unknown <==> (success || failure) && alive)
        && (shown == Operational <==> success && !failure && alive)
  {
    var events, scope, last := EventsFrom(inputs, settings), ScopeOf(server), LastEvaluation(inputs, server);
    LastSavingIsEvaluation(inputs, settings, server);
    if last.None? {
      CardLaws.CardNeedsLiveEvidence(events, settings.timing, scope, later, [], 0, 0);
    } else {
      var rows, now := TablesAfter(inputs[..last.value], settings).observations, inputs[last.value].now;
      var observations, expected := ToObservations(Readable(rows, server, now)), ExpectedSources(rows, server, now);
      CardLaws.CardNeedsLiveEvidence(events, settings.timing, scope, later, observations, expected,
                                     settings.confirmations);
      CardLaws.SnapshotHoldsLast(events, settings.timing, scope);
      OtherStatesExactly(observations, now, expected, settings.confirmations);
      RowsRead(rows, server, now, o => ValidSuccess(o));
      RowsRead(rows, server, now, (o: Observation) => o.result == Failure);
      RowsRead(rows, server, now, NotBeforeThen(later));
    }
  }

  lemma {:induction false} FirstIsSaved(events: seq<Event>, scope: string) returns (i: nat)
    requires CardLaws.FirstSaving(events, scope).Some?
    ensures i < |events| && events[i].Save? && events[i].saving == CardLaws.FirstSaving(events, scope).value
    ensures events[i].saving.scope == scope
  {
    var init := events[..|events| - 1];
    if CardLaws.FirstSaving(init, scope).Some? {
      i := FirstIsSaved(init, scope);
    } else {
      i := |init|;
    }
  }

  /** In every run a server's snapshot names that server, and all networks. */
  lemma {:induction false} SnapshotNamesServer(inputs: seq<Input>, settings: Settings, server: string)
    ensures var snapshots, scope := WorldAfter(inputs, settings).store.snapshots, "server:" + server;
      scope in snapshots ==> snapshots[scope].serverId == server && snapshots[scope].networkScope == "all"
  {
    var events, scope := EventsFrom(inputs, settings), ScopeOf(server);
    CardLaws.SnapshotNamedByFirst(events, settings.timing, scope);
    if scope in WorldAfter(inputs, settings).store.snapshots {
      var i := FirstIsSaved(events, scope);
      var k := SavingWasEvaluated(inputs, settings, i);
      ScopesDiffer(inputs[k].server, server);
    }
  }
}
