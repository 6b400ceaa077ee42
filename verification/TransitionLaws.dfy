/** What every row of the transition log says, in every run. */
module TransitionLaws {
  import opened Domain
  import opened Notifications
  import opened Runs
  import opened TimelineLaws
  import LogLaws

  /** The i-th event was the first to change the scope's state under the key. */
  ghost predicate FirstKeyed(events: seq<Event>, t: Timing, i: nat, key: Key) {
    && i < |events| && KeyedAt(events, t, i, key)
    && forall h: nat :: h < i ==> !KeyedAt(events, t, h, key)
  }

  /** Of the changes of the scope's state after the i-th event, the j-th is the first. */
  ghost predicate NextChange(events: seq<Event>, t: Timing, i: nat, j: nat, scope: string) {
    && i < j < |events| && ChangesAt(events, t, j, scope)
    && forall h: nat :: i < h < j ==> !ChangesAt(events, t, h, scope)
  }

  /** The row records the change of the i-th event: its reason and instant, and when the scope's next change was. */
  ghost predicate Records(events: seq<Event>, t: Timing, i: nat, tr: Transition) {
    && FirstKeyed(events, t, i, tr.key)
    && tr.reasonCode == events[i].saving.evaluation.reasonCode && tr.confirmedAt == events[i].saving.at
    && (tr.closedAt.None? ==> forall j: nat :: i < j < |events| ==> !ChangesAt(events, t, j, tr.key.scope))
    && (tr.closedAt.Some? ==> ClosedByNext(events, t, i, tr.closedAt.value, tr.key.scope))
  }

  ghost predicate ClosedByNext(events: seq<Event>, t: Timing, i: nat, at: int, scope: string) {
    exists j: nat :: NextChange(events, t, i, j, scope) && events[j].saving.at == at
  }

  lemma {:induction false} ChangesPrefix(init: seq<Event>, e: Event, t: Timing, scope: string)
    ensures forall i: nat :: i < |init| ==> (ChangesAt(init + [e], t, i, scope) <==> ChangesAt(init, t, i, scope))
    ensures ChangesAt(init + [e], t, |init|, scope) <==>
      e.Save? && e.saving.scope == scope && Changes(Run(init, t).store, e.saving)
  {
    var all := init + [e];
    assert all[..|init|] == init && all[|init|] == e;
    forall i: nat | i < |init| ensures ChangesAt(all, t, i, scope) <==> ChangesAt(init, t, i, scope) {
      assert all[..i] == init[..i] && all[i] == init[i];
    }
  }

  lemma {:induction false} FirstKeyedGrows(init: seq<Event>, e: Event, t: Timing, i: nat, key: Key)
    requires FirstKeyed(init, t, i, key)
    ensures FirstKeyed(init + [e], t, i, key)
  {
    KeyedPrefix(init, e, t, key);
  }

  lemma {:induction false} ClosedGrows(init: seq<Event>, e: Event, t: Timing, i: nat, at: int, scope: string)
    requires ClosedByNext(init, t, i, at, scope)
    ensures ClosedByNext(init + [e], t, i, at, scope)
  {
    var j: nat :| NextChange(init, t, i, j, scope) && init[j].saving.at == at;
    ChangesPrefix(init, e, t, scope);
    assert NextChange(init + [e], t, i, j, scope) && (init + [e])[j] == init[j];
  }

  /** A row that an event leaves alone still records its change, unless it was open and the event changed its
      scope's state. */
  lemma {:induction false} RecordStands(init: seq<Event>, e: Event, t: Timing, i: nat, tr: Transition)
    requires Records(init, t, i, tr)
    requires tr.closedAt.None? ==>
        !(e.Save? && e.saving.scope == tr.key.scope && Changes(Run(init, t).store, e.saving))
    ensures Records(init + [e], t, i, tr)
  {
    FirstKeyedGrows(init, e, t, i, tr.key);
    ChangesPrefix(init, e, t, tr.key.scope);
    if tr.closedAt.Some? {
      ClosedGrows(init, e, t, i, tr.closedAt.value, tr.key.scope);
    }
  }

  /** The next change of the scope's state closes its open row. */
  lemma {:induction false} RecordCloses(init: seq<Event>, e: Event, t: Timing, i: nat, tr: Transition)
    requires Records(init, t, i, tr) && tr.closedAt.None?
    requires e.Save? && e.saving.scope == tr.key.scope && Changes(Run(init, t).store, e.saving)
    ensures Records(init + [e], t, i, tr.(closedAt := Some(e.saving.at)))
  {
    FirstKeyedGrows(init, e, t, i, tr.key);
    ChangesPrefix(init, e, t, tr.key.scope);
    assert NextChange(init + [e], t, i, |init|, tr.key.scope) && (init + [e])[|init|] == e;
  }

  /** An open row's key differs from that of the scope's next change, because it names the state changed from. */
  lemma {:induction false} OpenKeyDiffers(init: seq<Event>, t: Timing, sv: Saving, k: nat, i: nat)
    requires var s := Run(init, t).store;
      k < |s.transitions| && s.transitions[k].closedAt.None? && s.transitions[k].key.scope == sv.scope && Changes(s, sv)
    requires FirstKeyed(init, t, i, Run(init, t).store.transitions[k].key)
    ensures KeyOf(Run(init, t).store, sv) != Run(init, t).store.transitions[k].key
  {
    LogLaws.OpenExactly(init, t, sv.scope);
  }

  lemma {:induction false} RowAfterStep(s: Store, sv: Saving, quiet: int, k: nat)
    requires k < |s.transitions|
    ensures var after := Saved(s, sv, quiet).transitions;
            var tr := s.transitions[k];
      && |after| >= |s.transitions|
      && after[k] == if Changes(s, sv) && tr.key.scope == sv.scope && tr.closedAt.None? && tr.key != KeyOf(s, sv)
                     then tr.(closedAt := Some(sv.at)) else tr
  {
  }

  lemma {:induction false} NewRowRecords(init: seq<Event>, e: Event, t: Timing, k: nat)
    requires |Run(init, t).store.transitions| <= k < |Step(Run(init, t), e, t).store.transitions|
    ensures Records(init + [e], t, |init|, Step(Run(init, t), e, t).store.transitions[k])
  {
    var s := Run(init, t).store;
    var key := KeyOf(s, e.saving);
    assert k == |s.transitions| && !HasTransition(s.transitions, key);
    LoggedKeys(init, t, key);
    KeyedPrefix(init, e, t, key);
    assert (init + [e])[|init|] == e;
  }

  /** In every run each row of the log records the first change of its scope's state under its key, with the reason
      and the instant of that evaluation; it is closed exactly when the state changed again, at the instant of the
      next change. */
  lemma {:induction false} LogRecordsChanges(events: seq<Event>, t: Timing, k: nat) returns (i: nat)
    requires k < |Run(events, t).store.transitions|
    ensures Records(events, t, i, Run(events, t).store.transitions[k])
    decreases |events|
  {
    var init, e := events[..|events| - 1], events[|events| - 1];
    var s := Run(init, t).store;
    assert events == init + [e];
    RunSnoc(init, e, t);
    if k < |s.transitions| {
      i := LogRecordsChanges(init, t, k);
      var tr := s.transitions[k];
      if e.Save? {
        RowAfterStep(s, e.saving, t.quiet, k);
        if e.saving.scope == tr.key.scope && Changes(s, e.saving) && tr.closedAt.None? {
          OpenKeyDiffers(init, t, e.saving, k, i);
          RecordCloses(init, e, t, i, tr);
        } else {
          RecordStands(init, e, t, i, tr);
        }
      } else {
        RecordStands(init, e, t, i, tr);
      }
    } else {
      NewRowRecords(init, e, t, k);
      i := |init|;
    }
  }
}
