/** A card shows a state only while some evidence behind it is alive, at any point of a run. */
module CardLaws {
  import opened Domain
  import opened Evaluator
  import opened Streaks
  import opened Notifications
  import opened Runs
  import opened Views
  import ReadModel

  /** The scope's last evaluation. */
  function LastSaving(events: seq<Event>, scope: string): Option<Saving> {
    if events == [] then None
    else
      var e := events[|events| - 1];
      if e.Save? && e.saving.scope == scope then Some(e.saving) else LastSaving(events[..|events| - 1], scope)
  }

  /** The scope's first evaluation. */
  function FirstSaving(events: seq<Event>, scope: string): Option<Saving> {
    if events == [] then None
    else
      var first, e := FirstSaving(events[..|events| - 1], scope), events[|events| - 1];
      if first.None? && e.Save? && e.saving.scope == scope then Some(e.saving) else first
  }

  ghost predicate Holds(snapshots: map<string, Snapshot>, scope: string, last: Option<Saving>) {
    match last
    case None => scope !in snapshots
    case Some(sv) =>
      && scope in snapshots
      && snapshots[scope].state == sv.evaluation.state && snapshots[scope].reasonCode == sv.evaluation.reasonCode
      && snapshots[scope].freshUntil == sv.evaluation.freshUntil && snapshots[scope].evaluatedAt == sv.at
      && snapshots[scope].observedAt == sv.evaluation.observedAt
      && snapshots[scope].evidenceCount == sv.evaluation.evidenceCount
      && snapshots[scope].coverage == sv.evaluation.coverage
      && (snapshots[scope].sufficient <==> sv.evaluation.coverage >= 1.0)
  }

  /** The server and the network stay those of the scope's first evaluation. */
  ghost predicate NamedByFirst(snapshots: map<string, Snapshot>, scope: string, first: Option<Saving>) {
    && (first.Some? <==> scope in snapshots)
    && (first.Some? ==> snapshots[scope].serverId == first.value.serverId
                        && snapshots[scope].networkScope == first.value.networkScope)
  }

  lemma {:induction false} StepHolds(w: World, e: Event, t: Timing, scope: string, last: Option<Saving>)
    requires Holds(w.store.snapshots, scope, last)
    ensures Holds(Step(w, e, t).store.snapshots, scope, if e.Save? && e.saving.scope == scope then Some(e.saving)
        else last)
  {
  }

  lemma {:induction false} StepNames(w: World, e: Event, t: Timing, scope: string, first: Option<Saving>)
    requires NamedByFirst(w.store.snapshots, scope, first)
    ensures NamedByFirst(Step(w, e, t).store.snapshots, scope,
                         if first.None? && e.Save? && e.saving.scope == scope then Some(e.saving) else first)
  {
  }

  /** In every run a snapshot names the server and the network of the scope's first evaluation. */
  lemma {:induction false} SnapshotNamedByFirst(events: seq<Event>, t: Timing, scope: string)
    ensures NamedByFirst(Run(events, t).store.snapshots, scope, FirstSaving(events, scope))
  {
    if events != [] {
      var init := events[..|events| - 1];
      SnapshotNamedByFirst(init, t, scope);
      StepNames(Run(init, t), events[|events| - 1], t, scope, FirstSaving(init, scope));
    }
  }

  /** In every run a snapshot holds the scope's last evaluation, column by column. */
  lemma {:induction false} SnapshotHoldsLast(events: seq<Event>, t: Timing, scope: string)
    ensures Holds(Run(events, t).store.snapshots, scope, LastSaving(events, scope))
  {
    if events != [] {
      var init := events[..|events| - 1];
      SnapshotHoldsLast(init, t, scope);
      StepHolds(Run(init, t), events[|events| - 1], t, scope, LastSaving(init, scope));
    }
  }

  lemma {:induction false} ExpiryIsLatest(observations: seq<Observation>, now: int, later: int)
    requires Fresh(observations, now) != []
    ensures Latest(ExpiryTimes(Fresh(observations, now))) >= later
       <==> exists o :: o in observations && Live(o, now) && o.freshUntil >= later
  {
    var live := Fresh(observations, now);
    var last := Latest(ExpiryTimes(live));
    FreshMembers(observations, now);
    var i :| 0 <= i < |live| && ExpiryTimes(live)[i] == last;
    assert live[i] in live;
    if o: Observation :| o in observations && Live(o, now) && o.freshUntil >= later {
      assert o in live;
      var j :| 0 <= j < |live| && live[j] == o;
      assert ExpiryTimes(live)[j] in ExpiryTimes(live);
    }
  }

  /** In any run, a card shows a state other than "unknown" exactly while the scope was evaluated, its last
      evaluation found one, and some observation with a usable route that it used is still fresh. */
  lemma {:induction false} CardNeedsLiveEvidence(events: seq<Event>, t: Timing, scope: string, later: int,
                                                observations: seq<Observation>, expectedSources: int, n: int)
    requires var last := LastSaving(events, scope);
      last.Some? ==> last.value.evaluation == Evaluate(observations, last.value.at, expectedSources, n)
    ensures var last := LastSaving(events, scope);
      CardState(Run(events, t).store, scope, later) != Unknown <==>
        && last.Some? && last.value.evaluation.state != Unknown
        && exists o :: o in observations && Live(o, last.value.at) && o.freshUntil >= later
  {
    SnapshotHoldsLast(events, t, scope);
    var last := LastSaving(events, scope);
    if last.Some? && Fresh(observations, last.value.at) != [] {
      ExpiryIsLatest(observations, last.value.at, later);
    }
  }

  /** What the timeline assumes while the log is empty is what the card shows at its end, except that a snapshot
      without an expiry keeps its state. */
  lemma {:induction false} CurrentIsCard(s: Store, scope: string, end: int)
    ensures ReadModel.CurrentState(s, scope, end)
         == if scope in s.snapshots && s.snapshots[scope].freshUntil == None then s.snapshots[scope].state
            else CardState(s, scope, end)
  {
  }
}
