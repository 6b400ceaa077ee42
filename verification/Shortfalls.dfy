/** Runs in which the protocol falls short of what one would expect of it. */
module Shortfalls {
  import opened Domain
  import opened Notifications
  import opened QueueFacts
  import opened Runs
  import opened RunLaws
  import opened ReadModel
  import opened TimelineLaws

  // ---------- a repeated key ----------

  lemma {:induction false} HasTransitionPersists(w: World, e: Event, t: Timing, key: Key)
    requires Consistent(w.store) && HasTransition(w.store.transitions, key)
    ensures HasTransition(Step(w, e, t).store.transitions, key)
  {
    if e.Save? && Changes(w.store, e.saving) {
      SavedTransitions(w.store, e.saving, t.quiet);
    }
  }

  lemma {:induction false} HasNoticePersists(w: World, e: Event, t: Timing, key: Key)
    requires Consistent(w.store) && HasNotice(w.store.queue, key)
    ensures HasNotice(Step(w, e, t).store.queue, key)
  {
    var i :| 0 <= i < |w.store.queue| && w.store.queue[i].key == key;
    RowCases(w, e, t, i);
    assert Step(w, e, t).store.queue[i].key == key;
  }

  lemma {:induction false} KeysPersist(events: seq<Event>, k: nat, t: Timing, key: Key)
    requires k <= |events|
    requires HasTransition(Run(events[..k], t).store.transitions, key)
        && HasNotice(Run(events[..k], t).store.queue, key)
    ensures HasTransition(Run(events, t).store.transitions, key) && HasNotice(Run(events, t).store.queue, key)
    decreases |events|
  {
    if k == |events| {
      assert events[..k] == events;
    } else {
      var init := events[..|events| - 1];
      assert init[..k] == events[..k];
      KeysPersist(init, k, t, key);
      RunConsistent(init, t);
      HasTransitionPersists(Run(init, t), events[|events| - 1], t, key);
      HasNoticePersists(Run(init, t), events[|events| - 1], t, key);
    }
  }

  /** Losing all evidence is a transition without an observation time. */
  ghost predicate FallsSilent(s: Store, sv: Saving) {
    Changes(s, sv) && sv.evaluation.state == Unknown && sv.evaluation.observedAt == None
  }

  lemma {:induction false} SilenceIsRecorded(s: Store, sv: Saving, quiet: int)
    requires FallsSilent(s, sv)
    ensures HasTransition(Saved(s, sv, quiet).transitions, KeyOf(s, sv))
    ensures HasNotice(Saved(s, sv, quiet).queue, KeyOf(s, sv))
  {
    var key := KeyOf(s, sv);
    var inserted := Inserted(s.transitions, key, sv);
    var i :| 0 <= i < |inserted| && inserted[i].key == key by {
      if !HasTransition(s.transitions, key) { assert inserted[|s.transitions|].key == key; }
    }
    assert Saved(s, sv, quiet).transitions[i].key == key;
    var rest := Supersede(s.queue, key.scope);
    if !HasNotice(rest, key) {
      assert Saved(s, sv, quiet).queue[|rest|].key == key;
    }
  }

  lemma {:induction false} RepeatedKeyIsLost(s: Store, sv: Saving, quiet: int)
    requires Changes(s, sv) && HasTransition(s.transitions, KeyOf(s, sv)) && HasNotice(s.queue, KeyOf(s, sv))
    ensures var after := Saved(s, sv, quiet);
      && |after.transitions| == |s.transitions|
      && after.queue == Supersede(s.queue, sv.scope)
      && after.snapshots[sv.scope].state == sv.evaluation.state
  {
    SupersedeKeys(s.queue, sv.scope, KeyOf(s, sv));
  }

  /** The second time a scope loses all evidence from the same state, no transition is logged and nobody
      is told, in every run: the first time used up the key for good. */
  lemma {:induction false} SecondSilenceIsLost(events: seq<Event>, i: nat, t: Timing, sv: Saving)
    requires i < |events| && events[i].Save? && events[i].saving.scope == sv.scope
    requires FallsSilent(Run(events[..i], t).store, events[i].saving)
    requires FallsSilent(Run(events, t).store, sv)
    requires PreviousState(Run(events, t).store, sv.scope) == PreviousState(Run(events[..i], t).store, sv.scope)
    ensures var before, after := Run(events, t).store, Run(events + [Save(sv)], t).store;
      && |after.transitions| == |before.transitions|
      && after.queue == Supersede(before.queue, sv.scope)
      && after.snapshots[sv.scope].state == Unknown
  {
    var before := Run(events, t).store;
    assert events[..i + 1] == events[..i] + [events[i]];
    RunSnoc(events[..i], events[i], t);
    SilenceIsRecorded(Run(events[..i], t).store, events[i].saving, t.quiet);
    KeysPersist(events, i + 1, t, KeyOf(before, sv));
    RunSnoc(events, Save(sv), t);
    RepeatedKeyIsLost(before, sv, t.quiet);
  }

  const SERVER := "server:1"

  const FRESHNESS := 180 * SECOND

  /** What two tests of one source at one instant lead to. */
  function Seen(state: State, at: int): Saving {
    var reason := if state == Unavailable then FullTestFailureConfirmed else FullSuccessConfirmed;
    Saving(SERVER, "1", "all", Evaluation(state, reason, Some(at), Some(at + FRESHNESS), 2, 1.0), at)
  }

  /** What the lack of any evidence leads to. */
  function Silent(at: int): Saving {
    Saving(SERVER, "1", "all", Evaluation(Unknown, NoFreshEvidence, None, None, 0, 0.0), at)
  }

  /** Operational, silent, operational, silent. */
  function SilentTwice(): seq<Event> {
    [Save(Seen(Operational, 1)), Save(Silent(2)), Save(Seen(Operational, 3)), Save(Silent(4))]
  }

  lemma {:induction false} HistoryOfSilence(k: nat)
    requires k <= 4
    ensures |History(SilentTwice()[..k], SERVER)| == k
    ensures k > 0 ==> StateOf(History(SilentTwice()[..k], SERVER)) == if k % 2 == 1 then Operational else Unknown
  {
    if k > 0 {
      var events := SilentTwice()[..k];
      assert events[..k - 1] == SilentTwice()[..k - 1];
      HistoryOfSilence(k - 1);
    }
  }

  /** It happens: in this run the second silence is not logged, so that the log has fewer rows than the
      history has changes, and it queues nothing. */
  lemma {:induction false} SecondSilenceHappens(t: Timing)
    ensures var s := Run(SilentTwice(), t).store;
      && |Rows(s.transitions, SERVER)| < |ChangesOf(History(SilentTwice(), SERVER))|
      && s.queue == Supersede(Run(SilentTwice()[..3], t).store.queue, SERVER)
      && s.snapshots[SERVER].state == Unknown
  {
    var events := SilentTwice();
    var before := events[..3];
    forall k: nat | k <= 3
        ensures PreviousState(Run(events[..k], t).store, SERVER) == if k % 2 == 1 then Operational else Unknown {
      SnapshotIsLast(events[..k], t, SERVER);
      HistoryOfSilence(k);
    }
    assert before[..1] == events[..1] && before + [events[3]] == events && events[..4] == events;
    SecondSilenceIsLost(before, 1, t, events[3].saving);
    LoggedKeys(before, t, KeyAt(events, t, 3));
    assert KeyedAt(before, t, 1, KeyAt(events, t, 3));
    assert !FreshAt(events, t, 3);
    LogIsChangesExactly(events, t, SERVER);
  }
}
