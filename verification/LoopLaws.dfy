/** The loop from end to end: rounds of collecting, evaluating, delivering and maintaining, with probe reports
    arriving between them, are rounds of evaluations and deliveries. */
module LoopLaws {
  import opened Evidence
  import opened Notifications
  import opened Runs
  import opened GroupLaws
  import opened GroupRuns
  import opened AlertLaws
  import opened Rounds
  import opened LastWord
  import opened Inputs
  import TimelineLaws

  ghost function SavingsOf(rows: seq<ObservationRow>, servers: seq<string>, now: int, n: int): (savings: seq<Saving>)
    ensures |savings| == |servers|
  {
    seq(|servers|, i requires 0 <= i < |servers| => SavingOf(rows, servers[i], now, n))
  }

  /** What a turn evaluates and delivers: every server from the rows stored once the collectors have delivered. */
  ghost function RoundOf(inputs: seq<Input>, turn: Turn, settings: Settings): Round {
    var collected := inputs + turn.reports + [Collected(turn.items, turn.now)];
    Round(turn.now,
          SavingsOf(TablesAfter(collected, settings).observations, settings.servers, turn.now, settings.confirmations),
          turn.accepted)
  }

  ghost function RoundsOf(turns: seq<Turn>, settings: Settings): seq<Round> {
    if turns == [] then []
    else
      var init := turns[..|turns| - 1];
      RoundsOf(init, settings) + [RoundOf(InputsOf(init, settings), turns[|turns| - 1], settings)]
  }

  lemma {:induction false} ReportsWait(inputs: seq<Input>, reports: seq<Input>, settings: Settings)
    requires Reports(reports)
    ensures EventsFrom(inputs + reports, settings) == EventsFrom(inputs, settings)
  {
    if reports == [] {
      assert inputs + reports == inputs;
    } else {
      var init, last := reports[..|reports| - 1], reports[|reports| - 1];
      assert inputs + reports == (inputs + init) + [last];
      ReportsWait(inputs, init, settings);
      InputsSnoc(inputs + init, last, settings);
    }
  }

  lemma {:induction false} EvaluationHappens(inputs: seq<Input>, server: string, now: int, settings: Settings)
    ensures var all := inputs + [Evaluated(server, now)];
      && TablesAfter(all, settings) == TablesAfter(inputs, settings)
      && EventsFrom(all, settings)
         == EventsFrom(inputs, settings)
            + [Save(SavingOf(TablesAfter(inputs, settings).observations, server, now, settings.confirmations))]
  {
    InputsSnoc(inputs, Evaluated(server, now), settings);
  }

  lemma {:induction false} SavingsSnoc(rows: seq<ObservationRow>, servers: seq<string>, server: string, now: int,
                                       n: int)
    ensures Saves(SavingsOf(rows, servers + [server], now, n))
         == Saves(SavingsOf(rows, servers, now, n)) + [Save(SavingOf(rows, server, now, n))]
  {
  }

  lemma {:induction false} EvaluationsSnoc(inputs: seq<Input>, servers: seq<string>, server: string, now: int)
    ensures inputs + Evaluations(servers + [server], now)
         == inputs + Evaluations(servers, now) + [Evaluated(server, now)]
  {
  }

  lemma {:induction false} EvaluationsHappen(inputs: seq<Input>, servers: seq<string>, now: int, settings: Settings)
    ensures TablesAfter(inputs + Evaluations(servers, now), settings) == TablesAfter(inputs, settings)
    ensures EventsFrom(inputs + Evaluations(servers, now), settings)
         == EventsFrom(inputs, settings)
            + Saves(SavingsOf(TablesAfter(inputs, settings).observations, servers, now, settings.confirmations))
  {
    var rows := TablesAfter(inputs, settings).observations;
    if servers == [] {
      assert inputs + Evaluations(servers, now) == inputs;
      assert Saves(SavingsOf(rows, servers, now, settings.confirmations)) == [];
    } else {
      var init, last := servers[..|servers| - 1], servers[|servers| - 1];
      assert servers == init + [last];
      EvaluationsHappen(inputs, init, now, settings);
      EvaluationsSnoc(inputs, init, last, now);
      EvaluationHappens(inputs + Evaluations(init, now), last, now, settings);
      SavingsSnoc(rows, init, last, now, settings.confirmations);
      Regrouped(EventsFrom(inputs, settings), Saves(SavingsOf(rows, init, now, settings.confirmations)),
                [Save(SavingOf(rows, last, now, settings.confirmations))]);
    }
  }

  lemma {:induction false} Regrouped(a: seq<Event>, b: seq<Event>, c: seq<Event>)
    ensures a + (b + c) == a + b + c
  {
  }

  lemma {:induction false} CollectionWaits(inputs: seq<Input>, items: seq<Item>, now: int, settings: Settings)
    ensures EventsFrom(inputs + [Collected(items, now)], settings) == EventsFrom(inputs, settings)
  {
    InputsSnoc(inputs, Collected(items, now), settings);
  }

  lemma {:induction false} DeliveryHappens(inputs: seq<Input>, now: int, accepted: set<Key>, due: bool,
                                           settings: Settings)
    ensures EventsFrom(inputs + [Delivered(now, accepted)] + (if due then [Maintained(now)] else []), settings)
         == EventsFrom(inputs, settings) + [DeliverPending(now, accepted)]
  {
    var delivered := inputs + [Delivered(now, accepted)];
    InputsSnoc(inputs, Delivered(now, accepted), settings);
    if due {
      InputsSnoc(delivered, Maintained(now), settings);
    } else {
      assert delivered + [] == delivered;
    }
  }

  lemma {:induction false} TurnSplits(inputs: seq<Input>, turn: Turn, settings: Settings)
    ensures inputs + TurnInputs(turn, settings)
         == inputs + turn.reports + [Collected(turn.items, turn.now)] + Evaluations(settings.servers, turn.now)
            + [Delivered(turn.now, turn.accepted)] + (if turn.due then [Maintained(turn.now)] else [])
  {
  }

  lemma {:induction false} RoundHappens(inputs: seq<Input>, turn: Turn, settings: Settings)
    requires Reports(turn.reports)
    ensures var r := RoundOf(inputs, turn, settings);
      EventsFrom(inputs + TurnInputs(turn, settings), settings)
      == EventsFrom(inputs, settings) + Saves(r.savings) + [DeliverPending(r.now, r.accepted)]
  {
    var collected := inputs + turn.reports + [Collected(turn.items, turn.now)];
    TurnSplits(inputs, turn, settings);
    ReportsWait(inputs, turn.reports, settings);
    CollectionWaits(inputs + turn.reports, turn.items, turn.now, settings);
    EvaluationsHappen(collected, settings.servers, turn.now, settings);
    DeliveryHappens(collected + Evaluations(settings.servers, turn.now), turn.now, turn.accepted, turn.due, settings);
  }

  /** What the loop does with reports, collections, evaluations, deliveries and maintenance is what the rounds of
      its evaluations do. */
  lemma {:induction false} LoopPlays(turns: seq<Turn>, settings: Settings)
    requires forall i :: 0 <= i < |turns| ==> Reports(turns[i].reports)
    ensures EventsFrom(InputsOf(turns, settings), settings) == EventsOf(RoundsOf(turns, settings))
    ensures WorldAfter(InputsOf(turns, settings), settings) == Play(RoundsOf(turns, settings), settings.timing)
  {
    if turns != [] {
      var init, turn := turns[..|turns| - 1], turns[|turns| - 1];
      LoopPlays(init, settings);
      RoundHappens(InputsOf(init, settings), turn, settings);
      var rounds := RoundsOf(init, settings);
      var r := RoundOf(InputsOf(init, settings), turn, settings);
      assert (rounds + [r])[..|rounds|] == rounds;
    }
  }

  ghost predicate DistinctServers(servers: seq<string>) {
    forall i, j :: 0 <= i < j < |servers| ==> servers[i] != servers[j]
  }

  ghost predicate TurnsOrdered(turns: seq<Turn>) {
    forall i, j :: 0 <= i < j < |turns| ==> turns[i].now <= turns[j].now
  }

  lemma {:induction false} RoundWellFormed(inputs: seq<Input>, turn: Turn, settings: Settings)
    requires DistinctServers(settings.servers)
    ensures WellFormed(RoundOf(inputs, turn, settings))
  {
    var servers, savings := settings.servers, RoundOf(inputs, turn, settings).savings;
    forall i, j | 0 <= i < j < |savings| ensures savings[i].scope != savings[j].scope {
      assert savings[i].scope[7..] == servers[i] && savings[j].scope[7..] == servers[j];
    }
  }

  lemma {:induction false} RoundsTimed(turns: seq<Turn>, settings: Settings)
    ensures |RoundsOf(turns, settings)| == |turns|
    ensures forall i :: 0 <= i < |turns| ==> RoundsOf(turns, settings)[i].now == turns[i].now
  {
    if turns != [] {
      RoundsTimed(turns[..|turns| - 1], settings);
    }
  }

  lemma {:induction false} RoundsWellFormed(turns: seq<Turn>, settings: Settings)
    requires DistinctServers(settings.servers)
    ensures forall i :: 0 <= i < |RoundsOf(turns, settings)| ==> WellFormed(RoundsOf(turns, settings)[i])
  {
    if turns != [] {
      var init := turns[..|turns| - 1];
      RoundsWellFormed(init, settings);
      RoundWellFormed(InputsOf(init, settings), turns[|turns| - 1], settings);
    }
  }

  /** From probe reports to the group: when the loop's clock does not run backwards, the messenger takes the
      messages for the group and the keys of its transitions are new, the messages about a server alternate and
      the last of them is an outage exactly while the server's evaluations have an outage open. */
  lemma {:induction false} LoopTellsTruth(turns: seq<Turn>, settings: Settings, server: string)
    requires DistinctServers(settings.servers) && TurnsOrdered(turns)
    requires forall i :: 0 <= i < |turns| ==> Reports(turns[i].reports)
    requires GroupServed(RoundsOf(turns, settings), settings.timing)
    requires TimelineLaws.FreshKeys(EventsFrom(InputsOf(turns, settings), settings), settings.timing, ScopeOf(server))
    ensures var inputs := InputsOf(turns, settings);
            var heard := GroupHeard(WorldAfter(inputs, settings), ScopeOf(server));
      && Alternating(heard, BotUnavailable)
      && (EndsInOutage(heard) <==> OutageOpen(TimelineLaws.History(EventsFrom(inputs, settings), ScopeOf(server))))
  {
    RoundsTimed(turns, settings);
    RoundsWellFormed(turns, settings);
    LoopPlays(turns, settings);
    RoundsAlternate(RoundsOf(turns, settings), settings.timing, ScopeOf(server));
    RoundsTellTruth(RoundsOf(turns, settings), settings.timing, ScopeOf(server));
  }
}
