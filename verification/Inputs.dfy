/** Everything that reaches the monitoring process, and what it makes of it: the evidence tables, and the events
    of the run that evaluates them. */
module Inputs {
  import opened Domain
  import opened Sequences
  import opened Evidence
  import opened Notifications
  import opened Runs

  /** One observation delivered by a collector. */
  datatype Item = Item(
    serverId: string,
    source: string,
    observedAt: int,
    result: Option<ObservationResult>,
    errorCode: Option<string>,
    fullVpnTest: bool,
    controlInternetOk: Option<bool>,
    metrics: Metrics)

  /** What the evaluator and the aggregate read of a collector's metrics. */
  datatype Metrics = Metrics(
    fullVpnTest: bool,
    controlInternetOk: Option<bool>,
    routeVerified: Option<bool>,
    connections: map<string, real>)

  datatype Input =
    | Reported(probe: Probe, payload: Report, now: int)
    | Collected(items: seq<Item>, now: int)
    | Evaluated(server: string, now: int)
    | Delivered(now: int, accepted: set<Key>)
    | Maintained(now: int)

  /** The servers in the tables, and those among them that are enabled, in the order of the configuration. */
  datatype Settings = Settings(
    known: set<string>,
    servers: seq<string>,
    freshness: int,
    retention: int,
    confirmations: int,
    maintenance: int,
    timing: Timing)

  function ScopeOf(server: string): string { "server:" + server }

  // ---------- the evidence tables ----------

  /** Only what speaks for the server's own health keeps the collector's own word on full tests. */
  function RowOfItem(item: Item, now: int, freshness: int): ObservationRow {
    var own := item.source == "collector";
    ObservationRow(
      item.serverId, item.source, item.observedAt, now, item.result, item.observedAt + freshness,
      if own then item.metrics.fullVpnTest else item.fullVpnTest,
      if own then item.metrics.controlInternetOk else item.controlInternetOk,
      item.metrics.routeVerified, item.errorCode, item.metrics.connections, None)
  }

  function OfServer(servers: set<string>): Item -> bool { (i: Item) => i.serverId in servers }

  function RowsOfKnown(items: seq<Item>, now: int, freshness: int): (rows: seq<ObservationRow>)
    ensures |rows| == |items|
  {
    seq(|items|, i requires 0 <= i < |items| => RowOfItem(items[i], now, freshness))
  }

  /** The rows of the items that concern a known server. */
  function ItemRows(items: seq<Item>, servers: set<string>, now: int, freshness: int): seq<ObservationRow> {
    RowsOfKnown(Filter(items, OfServer(servers)), now, freshness)
  }

  lemma {:induction false} OneMoreItem(before: seq<ObservationRow>, items: seq<Item>, i: nat, servers: set<string>,
                                       now: int, freshness: int)
    requires i < |items|
    ensures var done, more := ItemRows(items[..i], servers, now, freshness),
                              ItemRows(items[..i + 1], servers, now, freshness);
      if items[i].serverId in servers then
        |more| == |done| + 1 && before + more == before + done + [RowOfItem(items[i], now, freshness)]
      else more == done
  {
    assert items[..i + 1] == items[..i] + [items[i]];
    FilterSnoc(items[..i], items[i], OfServer(servers));
  }

  function TablesStep(t: Tables, input: Input, settings: Settings): Tables {
    match input
    case Reported(probe, payload, now) =>
      Accepted(t, probe, payload, settings.known, now, settings.freshness).0
    case Collected(items, now) =>
      t.(observations := t.observations + ItemRows(items, settings.known, now, settings.freshness))
    case Maintained(now) => Swept(t, now - settings.retention)
    case _ => t
  }

  function TablesAfter(inputs: seq<Input>, settings: Settings): Tables {
    if inputs == [] then Tables(map[], [])
    else TablesStep(TablesAfter(inputs[..|inputs| - 1], settings), inputs[|inputs| - 1], settings)
  }

  /** What an evaluation of the server reads after these inputs. */
  function EvidenceAt(inputs: seq<Input>, settings: Settings, server: string, now: int): seq<Observation> {
    ToObservations(Readable(TablesAfter(inputs, settings).observations, server, now))
  }

  lemma {:induction false} ItemsKeepReferences(t: Tables, items: seq<Item>, servers: set<string>, now: int,
                                               freshness: int)
    requires ReferencesIntact(t)
    ensures ReferencesIntact(t.(observations := t.observations + ItemRows(items, servers, now, freshness)))
  {
  }

  // ---------- the run ----------

  ghost function SavingOf(rows: seq<ObservationRow>, server: string, now: int, confirmations: int): Saving {
    Saving(ScopeOf(server), server, "all", EvaluationOf(rows, server, now, confirmations), now)
  }

  ghost function EventsOfInput(rows: seq<ObservationRow>, input: Input, settings: Settings): seq<Event> {
    match input
    case Evaluated(server, now) => [Save(SavingOf(rows, server, now, settings.confirmations))]
    case Delivered(now, accepted) => [DeliverPending(now, accepted)]
    case _ => []
  }

  ghost function EventsFrom(inputs: seq<Input>, settings: Settings): seq<Event> {
    if inputs == [] then []
    else
      var init := inputs[..|inputs| - 1];
      EventsFrom(init, settings)
        + EventsOfInput(TablesAfter(init, settings).observations, inputs[|inputs| - 1], settings)
  }

  ghost function WorldAfter(inputs: seq<Input>, settings: Settings): World {
    Run(EventsFrom(inputs, settings), settings.timing)
  }

  lemma {:induction false} InputsSnoc(inputs: seq<Input>, input: Input, settings: Settings)
    ensures TablesAfter(inputs + [input], settings) == TablesStep(TablesAfter(inputs, settings), input, settings)
    ensures EventsFrom(inputs + [input], settings)
         == EventsFrom(inputs, settings) + EventsOfInput(TablesAfter(inputs, settings).observations, input, settings)
  {
    assert (inputs + [input])[..|inputs|] == inputs;
  }

  // ---------- one round ----------

  function Evaluations(servers: seq<string>, now: int): (inputs: seq<Input>)
    ensures |inputs| == |servers|
  {
    seq(|servers|, i requires 0 <= i < |servers| => Evaluated(servers[i], now))
  }

  /** The inputs of the first `n` evaluations of a round. */
  function FirstEvaluations(servers: seq<string>, n: nat, now: int): seq<Input>
    requires n <= |servers|
  {
    Evaluations(servers[..n], now)
  }

  lemma {:induction false} OneMoreEvaluation(inputs: seq<Input>, servers: seq<string>, n: nat, now: int)
    requires n < |servers|
    ensures inputs + FirstEvaluations(servers, n + 1, now)
         == inputs + FirstEvaluations(servers, n, now) + [Evaluated(servers[n], now)]
  {
  }

  lemma {:induction false} EvaluationBounds(inputs: seq<Input>, servers: seq<string>, now: int)
    ensures inputs + FirstEvaluations(servers, 0, now) == inputs
    ensures FirstEvaluations(servers, |servers|, now) == Evaluations(servers, now)
  {
  }

  /** One run of the loop: collect, evaluate every server in turn, deliver, and maintain when that is due. */
  function RoundInputs(items: seq<Item>, settings: Settings, now: int, accepted: set<Key>, due: bool): seq<Input> {
    [Collected(items, now)] + Evaluations(settings.servers, now) + [Delivered(now, accepted)]
      + if due then [Maintained(now)] else []
  }

  lemma {:induction false} RoundAppends(before: seq<Input>, items: seq<Item>, settings: Settings, now: int,
                                        accepted: set<Key>, due: bool)
    ensures before + [Collected(items, now)] + Evaluations(settings.servers, now) + [Delivered(now, accepted)]
          + (if due then [Maintained(now)] else [])
         == before + RoundInputs(items, settings, now, accepted, due)
  {
  }

  // ---------- the turns of the loop ----------

  /** One run of the loop, with the reports accepted since the run before. */
  datatype Turn = Turn(reports: seq<Input>, items: seq<Item>, now: int, accepted: set<Key>, due: bool)

  ghost predicate Reports(inputs: seq<Input>) { forall i :: 0 <= i < |inputs| ==> inputs[i].Reported? }

  function TurnInputs(turn: Turn, settings: Settings): seq<Input> {
    turn.reports + RoundInputs(turn.items, settings, turn.now, turn.accepted, turn.due)
  }

  function InputsOf(turns: seq<Turn>, settings: Settings): seq<Input> {
    if turns == [] then [] else InputsOf(turns[..|turns| - 1], settings) + TurnInputs(turns[|turns| - 1], settings)
  }

  /** The i-th turn is the last that maintained. */
  ghost predicate LastDue(turns: seq<Turn>, i: nat) {
    i < |turns| && turns[i].due && forall k :: i < k < |turns| ==> !turns[k].due
  }

  /** Nothing was maintained so far, or the last maintenance began at least the given time ago. */
  ghost predicate DueAfter(turns: seq<Turn>, now: int, maintenance: int) {
    || (forall i :: 0 <= i < |turns| ==> !turns[i].due)
    || (exists i: nat :: LastDue(turns, i) && now - turns[i].now >= maintenance)
  }

  /** A turn maintains exactly when that is due. */
  ghost predicate Punctual(turns: seq<Turn>, maintenance: int) {
    forall i :: 0 <= i < |turns| ==> (turns[i].due <==> DueAfter(turns[..i], turns[i].now, maintenance))
  }

  /** When the last maintenance began. */
  ghost predicate MaintainedLast(turns: seq<Turn>, last: Option<int>) {
    && (last.None? ==> forall i :: 0 <= i < |turns| ==> !turns[i].due)
    && (last.Some? ==> exists i: nat :: LastDue(turns, i) && turns[i].now == last.value)
  }

  lemma {:induction false} LastDueIsOne(turns: seq<Turn>, i: nat, k: nat)
    requires LastDue(turns, i) && LastDue(turns, k)
    ensures i == k
  {
  }

  lemma {:induction false} DueExactly(turns: seq<Turn>, last: Option<int>, now: int, maintenance: int)
    requires MaintainedLast(turns, last)
    ensures DueAfter(turns, now, maintenance) <==> last.None? || now - last.value >= maintenance
  {
    if last.Some? {
      var i: nat :| LastDue(turns, i) && turns[i].now == last.value;
      if k: nat :| LastDue(turns, k) {
        LastDueIsOne(turns, i, k);
      }
    }
  }

  lemma {:induction false} TurnKeepsPace(turns: seq<Turn>, turn: Turn, last: Option<int>, maintenance: int)
    requires Punctual(turns, maintenance) && MaintainedLast(turns, last)
    requires turn.due <==> last.None? || turn.now - last.value >= maintenance
    ensures Punctual(turns + [turn], maintenance)
    ensures MaintainedLast(turns + [turn], if turn.due then Some(turn.now) else last)
  {
    var all := turns + [turn];
    DueExactly(turns, last, turn.now, maintenance);
    forall i | 0 <= i < |all| ensures all[i].due <==> DueAfter(all[..i], all[i].now, maintenance) {
      if i < |turns| {
        assert all[..i] == turns[..i];
      } else {
        assert all[..i] == turns;
      }
    }
    if turn.due {
      assert LastDue(all, |turns|);
    } else if last.Some? {
      var i: nat :| LastDue(turns, i) && turns[i].now == last.value;
      assert LastDue(all, i);
    }
  }

  /** All inputs so far came with the turns of the loop and the reports since, and the loop maintained exactly when
      the last maintenance was long enough ago. */
  ghost predicate CameInTurns(inputs: seq<Input>, turns: seq<Turn>, waiting: seq<Input>, last: Option<int>,
                              settings: Settings)
  {
    && inputs == InputsOf(turns, settings) + waiting && Reports(waiting)
    && (forall i :: 0 <= i < |turns| ==> Reports(turns[i].reports))
    && Punctual(turns, settings.maintenance) && MaintainedLast(turns, last)
  }

  lemma {:induction false} ReportWaits(inputs: seq<Input>, turns: seq<Turn>, waiting: seq<Input>, last: Option<int>,
                                       settings: Settings, report: Input)
    requires report.Reported?
    ensures CameInTurns(inputs, turns, waiting, last, settings) ==>
              CameInTurns(inputs + [report], turns, waiting + [report], last, settings)
  {
  }

  lemma {:induction false} InputsOfSnoc(turns: seq<Turn>, turn: Turn, settings: Settings)
    ensures InputsOf(turns + [turn], settings)
         == InputsOf(turns, settings) + turn.reports
            + RoundInputs(turn.items, settings, turn.now, turn.accepted, turn.due)
  {
    assert (turns + [turn])[..|turns|] == turns;
  }

  lemma {:induction false} TurnTaken(inputs: seq<Input>, turns: seq<Turn>, waiting: seq<Input>, last: Option<int>,
                                     settings: Settings, turn: Turn, after: seq<Input>, maintained: Option<int>)
    requires CameInTurns(inputs, turns, waiting, last, settings) && turn.reports == waiting
    requires turn.due <==> last.None? || turn.now - last.value >= settings.maintenance
    requires after == inputs + RoundInputs(turn.items, settings, turn.now, turn.accepted, turn.due)
    requires maintained == if turn.due then Some(turn.now) else last
    ensures CameInTurns(after, turns + [turn], [], maintained, settings)
    ensures turn.due <==> DueAfter(turns, turn.now, settings.maintenance)
  {
    InputsOfSnoc(turns, turn, settings);
    TurnKeepsPace(turns, turn, last, settings.maintenance);
    DueExactly(turns, last, turn.now, settings.maintenance);
  }
}
