/** The loop that drives the evidence store, the evaluator, the repository and the worker: its objects implement
    the runs the laws are about. */
module Monitor {
  import opened Domain
  import opened Evaluator
  import opened Evidence
  import opened Notifications
  import opened Runs
  import opened Inputs
  import RunLaws
  import Repository

  class Pipeline {
    const states: Repository.StateRepository
    const worker: Repository.NotificationWorker
    const store: EvidenceStore
    const settings: Settings
    var lastMaintenance: Option<int>

    /** Every call of the messenger, every event of the run, and every input so far. */
    ghost var log: seq<Attempt>
    ghost var events: seq<Event>
    ghost var inputs: seq<Input>

    /** The runs of the loop so far, and the reports accepted since the last of them. */
    ghost var turns: seq<Turn>
    ghost var waiting: seq<Input>

    ghost function View(): World reads `log, states.db { World(states.db.View(), log) }

    /** The tables of states and messages, and the log, are what the run of all events so far leaves. */
    ghost predicate Follows() reads `log, `events, states.db {
      && worker.db == states.db
      && states.quiet == settings.timing.quiet && worker.backoff == settings.timing.backoff
      && View() == Run(events, settings.timing)
    }

    /** The evidence tables are what all inputs so far leave. */
    ghost predicate Holds() reads `inputs, store {
      && store.servers == settings.known && store.freshness == settings.freshness
      && store.Valid() && store.View() == TablesAfter(inputs, settings)
    }

    ghost predicate Valid() reads `log, `events, `inputs, states.db, store {
      Follows() && Holds() && events == EventsFrom(inputs, settings)
    }

    ghost predicate Turned() reads `inputs, `turns, `waiting, `lastMaintenance {
      CameInTurns(inputs, turns, waiting, lastMaintenance, settings)
    }

    constructor (settings: Settings)
      ensures Valid() && Turned() && inputs == [] && turns == [] && this.settings == settings
      ensures fresh(states.db) && fresh(store)
    {
      var db := new Repository.Database();
      states := new Repository.StateRepository(db, settings.timing.quiet);
      worker := new Repository.NotificationWorker(db, settings.timing.backoff);
      store := new EvidenceStore(settings.known, settings.freshness);
      this.settings := settings;
      lastMaintenance := None;
      log, events, inputs, turns, waiting := [], [], [], [], [];
    }

    // ---------- evidence ----------

    /** A probe's report arrives through the interface, before or between the rounds. */
    method AcceptReport(probe: Probe, payload: Report, now: int) returns (outcome: Outcome)
      requires Valid()
      modifies `inputs, `waiting, store
      ensures Valid() && inputs == old(inputs) + [Reported(probe, payload, now)]
      ensures old(Turned()) ==> Turned()
    {
      InputsSnoc(inputs, Reported(probe, payload, now), settings);
      ReportWaits(inputs, turns, waiting, lastMaintenance, settings, Reported(probe, payload, now));
      outcome := store.AcceptReport(probe, payload, now);
      inputs, waiting := inputs + [Reported(probe, payload, now)], waiting + [Reported(probe, payload, now)];
    }

    method WriteItems(items: seq<Item>, now: int) returns (written: nat)
      modifies store`observations
      ensures store.observations == old(store.observations) + ItemRows(items, store.servers, now, store.freshness)
      ensures written == |ItemRows(items, store.servers, now, store.freshness)|
    {
      ghost var before := store.observations;
      written := 0;
      for i := 0 to |items|
        modifies store`observations
        invariant written == |ItemRows(items[..i], store.servers, now, store.freshness)|
        invariant store.observations == before + ItemRows(items[..i], store.servers, now, store.freshness)
      {
        OneMoreItem(before, items, i, store.servers, now, store.freshness);
        if items[i].serverId in store.servers {
          store.observations := store.observations + [RowOfItem(items[i], now, store.freshness)];
          written := written + 1;
        }
      }
      assert items[..|items|] == items;
    }

    /** Stores what the collectors deliver about known servers. */
    method Collect(items: seq<Item>, now: int) returns (written: nat)
      requires Valid()
      modifies `inputs, store
      ensures Valid() && inputs == old(inputs) + [Collected(items, now)]
    {
      InputsSnoc(inputs, Collected(items, now), settings);
      ItemsKeepReferences(store.View(), items, store.servers, now, store.freshness);
      written := WriteItems(items, now);
      inputs := inputs + [Collected(items, now)];
    }

    // ---------- evaluations and messages ----------

    method SaveOne(saving: Saving) returns (transition: Option<Key>)
      requires Follows()
      modifies `events, states.db
      ensures Follows() && events == old(events) + [Save(saving)]
    {
      RunLaws.RunConsistent(events, settings.timing);
      RunSnoc(events, Save(saving), settings.timing);
      transition := states.SaveEvaluation(saving);
      events := events + [Save(saving)];
    }

    /** Evaluates one server from the stored observations. */
    method EvaluateServer(server: string, now: int) returns (saving: Saving)
      ensures saving == SavingOf(store.observations, server, now, settings.confirmations)
    {
      var rows := store.observations;
      var evaluation := EvaluateScope(ToObservations(Readable(rows, server, now)), now,
                                      ExpectedSources(rows, server, now), settings.confirmations);
      saving := Saving(ScopeOf(server), server, "all", evaluation, now);
    }

    /** Evaluates one server and saves the outcome. */
    method Evaluate(server: string, now: int) returns (transition: Option<Key>)
      requires Valid()
      modifies `events, `inputs, states.db
      ensures Valid() && inputs == old(inputs) + [Evaluated(server, now)]
    {
      InputsSnoc(inputs, Evaluated(server, now), settings);
      var saving := EvaluateServer(server, now);
      transition := SaveOne(saving);
      inputs := inputs + [Evaluated(server, now)];
    }

    method EvaluateAll(now: int)
      requires Valid()
      modifies `events, `inputs, states.db
      ensures Valid() && inputs == old(inputs) + Evaluations(settings.servers, now)
    {
      ghost var before := inputs;
      EvaluationBounds(before, settings.servers, now);
      for i := 0 to |settings.servers|
        invariant Valid() && inputs == before + FirstEvaluations(settings.servers, i, now)
      {
        OneMoreEvaluation(before, settings.servers, i, now);
        var transition := Evaluate(settings.servers[i], now);
      }
    }

    method Deliver(now: int, accepted: set<Key>) returns (sent: nat, failed: nat, superseded: nat)
      requires Follows()
      modifies `log, `events, states.db
      ensures Follows() && events == old(events) + [DeliverPending(now, accepted)]
    {
      RunLaws.RunConsistent(events, settings.timing);
      RunSnoc(events, DeliverPending(now, accepted), settings.timing);
      StepIsDelivery(View(), now, accepted, settings.timing);
      ghost var sends;
      sent, failed, superseded, sends := worker.DeliverPending(now, accepted);
      log := log + sends;
      events := events + [DeliverPending(now, accepted)];
    }

    method Notify(now: int, accepted: set<Key>) returns (sent: nat, failed: nat, superseded: nat)
      requires Valid()
      modifies `log, `events, `inputs, states.db
      ensures Valid() && inputs == old(inputs) + [Delivered(now, accepted)]
    {
      InputsSnoc(inputs, Delivered(now, accepted), settings);
      sent, failed, superseded := Deliver(now, accepted);
      inputs := inputs + [Delivered(now, accepted)];
    }

    // ---------- maintenance ----------

    predicate MaintenanceDue(now: int) reads `lastMaintenance {
      lastMaintenance.None? || now - lastMaintenance.value >= settings.maintenance
    }

    method Sweep(now: int)
      requires store.Valid()
      modifies store
      ensures store.Valid() && store.View() == TablesStep(old(store.View()), Maintained(now), settings)
    {
      store.Sweep(now - settings.retention);
    }

    method Maintain(now: int)
      requires Valid()
      modifies `inputs, `lastMaintenance, store
      ensures Valid() && inputs == old(inputs) + [Maintained(now)] && lastMaintenance == Some(now)
    {
      InputsSnoc(inputs, Maintained(now), settings);
      Sweep(now);
      lastMaintenance := Some(now);
      inputs := inputs + [Maintained(now)];
    }

    // ---------- the loop ----------

    /** Collects, evaluates, delivers, and maintains when that is due. */
    method RunRound(items: seq<Item>, now: int, accepted: set<Key>)
      requires Valid()
      modifies `log, `events, `inputs, `lastMaintenance, states.db, store
      ensures Valid()
      ensures inputs == old(inputs) + RoundInputs(items, settings, now, accepted, old(MaintenanceDue(now)))
      ensures lastMaintenance == if old(MaintenanceDue(now)) then Some(now) else old(lastMaintenance)
    {
      RoundAppends(inputs, items, settings, now, accepted, MaintenanceDue(now));
      var written := Collect(items, now);
      EvaluateAll(now);
      var sent, failed, superseded := Notify(now, accepted);
      if MaintenanceDue(now) {
        Maintain(now);
      }
    }

    ghost method CloseTurn(before: seq<Input>, last: Option<int>, turn: Turn)
      requires CameInTurns(before, turns, waiting, last, settings) && turn.reports == waiting
      requires turn.due <==> last.None? || turn.now - last.value >= settings.maintenance
      requires inputs == before + RoundInputs(turn.items, settings, turn.now, turn.accepted, turn.due)
      requires lastMaintenance == if turn.due then Some(turn.now) else last
      modifies `turns, `waiting
      ensures Turned() && turns == old(turns) + [turn] && waiting == []
      ensures turn.due <==> DueAfter(old(turns), turn.now, settings.maintenance)
    {
      ghost var all := turns + [turn];
      TurnTaken(before, turns, waiting, last, settings, turn, inputs, lastMaintenance);
      assert CameInTurns(inputs, all, [], lastMaintenance, settings);
      turns, waiting := all, [];
    }

    /** One run of the loop is one more turn, and it maintains exactly when the last maintenance was long enough ago. */
    method RunOnce(items: seq<Item>, now: int, accepted: set<Key>)
      requires Valid() && Turned()
      modifies this, states.db, store
      ensures Valid() && Turned() && waiting == []
      ensures turns == old(turns) + [Turn(old(waiting), items, now, accepted, old(MaintenanceDue(now)))]
      ensures old(MaintenanceDue(now)) <==> DueAfter(old(turns), now, settings.maintenance)
    {
      ghost var turn := Turn(waiting, items, now, accepted, MaintenanceDue(now));
      ghost var before, last := inputs, lastMaintenance;
      RunRound(items, now, accepted);
      CloseTurn(before, last, turn);
    }
  }
}
