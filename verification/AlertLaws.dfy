/** When the group counts as alerted, against the plain history of evaluations. */
module AlertLaws {
  import opened Domain
  import opened Sequences
  import opened Notifications
  import opened Runs
  import opened RunLaws
  import opened GroupLaws
  import opened GroupRuns
  import opened TimelineLaws

  /** An UNAVAILABLE evaluation with no OPERATIONAL one after it. */
  ghost predicate OutageOpen(history: seq<Moment>) {
    exists i :: 0 <= i < |history| && OpenSince(history, i)
  }

  ghost predicate OpenSince(history: seq<Moment>, i: nat)
    requires i < |history|
  {
    history[i].state == Unavailable && forall j :: i < j < |history| ==> history[j].state != Operational
  }

  lemma {:induction false} OutageOpenGrows(history: seq<Moment>, m: Moment)
    ensures OutageOpen(history + [m]) == AlertAfter(OutageOpen(history), m.state)
  {
    var more := history + [m];
    if m.state == Unavailable {
      assert OpenSince(more, |history|);
    } else if m.state == Operational {
      assert more[|history|].state == Operational;
    } else {
      if OutageOpen(history) {
        var i :| 0 <= i < |history| && OpenSince(history, i);
        assert OpenSince(more, i);
      }
      if OutageOpen(more) {
        var i :| 0 <= i < |more| && OpenSince(more, i);
        assert forall j :: 0 <= j < |history| ==> history[j] == more[j];
        assert OpenSince(history, i);
      }
    }
  }

  lemma {:induction false} UnchangedAlert(history: seq<Moment>, state: State)
    requires state == StateOf(history)
    ensures AlertAfter(OutageOpen(history), state) == OutageOpen(history)
  {
    if history != [] {
      OutageOpenGrows(history[..|history| - 1], history[|history| - 1]);
      assert history == history[..|history| - 1] + [history[|history| - 1]];
    }
  }

  // ---------- what a run has to keep ----------

  /** No message to the group about the scope was given up or failed for good. */
  ghost predicate GroupKept(queue: seq<Notice>, scope: string) {
    forall n :: n in GroupRows(queue, scope) ==> n.state == Pending || n.state == Sent
  }

  /** The transitions that concern the group came with fresh keys. */
  ghost predicate NewsKept(events: seq<Event>, t: Timing, scope: string) {
    forall i :: 0 <= i < |events| && events[i].Save? && events[i].saving.scope == scope ==> NewsKeptAt(events, t, i)
  }

  ghost predicate NewsKeptAt(events: seq<Event>, t: Timing, i: nat)
    requires i < |events| && events[i].Save?
  {
    FollowsKey(Run(events[..i], t).store, events[i].saving)
  }

  ghost predicate FollowsKey(s: Store, sv: Saving) {
    GroupNews(GroupAlerted(s.queue, sv.scope), sv.evaluation.state).None? || FreshKey(s, sv)
  }

  lemma {:induction false} NewsKeptPrefix(init: seq<Event>, e: Event, t: Timing, scope: string)
    requires NewsKept(init + [e], t, scope)
    ensures NewsKept(init, t, scope)
    ensures e.Save? && e.saving.scope == scope ==> FollowsKey(Run(init, t).store, e.saving)
  {
    var all := init + [e];
    forall i | 0 <= i < |init| && init[i].Save? && init[i].saving.scope == scope ensures NewsKeptAt(init, t, i) {
      assert all[..i] == init[..i] && all[i] == init[i];
      assert NewsKeptAt(all, t, i);
    }
    assert all[|init|] == e && all[..|init|] == init;
    assert e.Save? && e.saving.scope == scope ==> NewsKeptAt(all, t, |init|);
  }

  /** Fresh keys in the log are fresh in the queue. */
  lemma {:induction false} FreshKeysKeepNews(events: seq<Event>, t: Timing, scope: string)
    requires FreshKeys(events, t, scope)
    ensures NewsKept(events, t, scope)
  {
    forall i | 0 <= i < |events| && events[i].Save? && events[i].saving.scope == scope
        ensures NewsKeptAt(events, t, i) {
      assert FreshAt(events, t, i);
      RunConsistent(events[..i], t);
      var s := Run(events[..i], t).store;
      assert Consistent(s);
    }
  }

  // ---------- one event ----------

  lemma {:induction false} AllHeardRows(queue: seq<Notice>, scope: string)
    requires GroupKept(queue, scope)
    ensures HeardRows(queue, scope) == GroupRows(queue, scope)
  {
    HeardAmongGroup(queue, scope);
    FilterMembers(queue, InSlot(GroupSlot(scope)));
    FilterAll(GroupRows(queue, scope), HeardBy(scope));
  }

  lemma {:induction false} KeptAlert(queue: seq<Notice>, scope: string)
    requires GroupKept(queue, scope) && SortedBy(queue, ByCreation())
    ensures var mine := GroupRows(queue, scope);
      GroupAlerted(queue, scope) <==> mine != [] && mine[|mine| - 1].template == BotUnavailable
  {
    AllHeardRows(queue, scope);
    AlertedIsLast(queue, scope);
  }

  lemma {:induction false} SameAlert(queue: seq<Notice>, after: seq<Notice>, scope: string)
    requires GroupKept(queue, scope) && SortedBy(queue, ByCreation())
    requires GroupKept(after, scope) && SortedBy(after, ByCreation())
    requires Templates(GroupRows(queue, scope)) == Templates(GroupRows(after, scope))
    ensures GroupAlerted(queue, scope) == GroupAlerted(after, scope)
  {
    KeptAlert(queue, scope);
    KeptAlert(after, scope);
    var a, b := GroupRows(queue, scope), GroupRows(after, scope);
    assert |a| == |Templates(a)| == |Templates(b)| == |b|;
    if a != [] {
      assert Templates(a)[|a| - 1] == a[|a| - 1].template && Templates(b)[|b| - 1] == b[|b| - 1].template;
    }
  }

  lemma {:induction false} SettledTemplates(mine: seq<Notice>, dropped: set<Key>, tried: set<Key>,
                                            accepted: set<Key>, now: int, backoff: int)
    ensures Templates(SettleAll(mine, dropped, tried, accepted, now, backoff)) == Templates(mine)
  {
  }

  lemma {:induction false} DeliveryKeepsAlert(w: World, e: Event, t: Timing, scope: string)
    requires !e.Save? && CreatedBy(w.store.queue, e.now)
    requires GroupKept(w.store.queue, scope) && GroupKept(Step(w, e, t).store.queue, scope)
    ensures GroupAlerted(Step(w, e, t).store.queue, scope) == GroupAlerted(w.store.queue, scope)
  {
    var queue := w.store.queue;
    RowsAfter(w, e, t, scope);
    SettledTemplates(GroupRows(queue, scope), Keys(GivenUp(queue, e)), Keys(Tried(queue, e)), e.accepted, e.now,
                     t.backoff);
    StepOrdered(w, e, t);
    SameAlert(queue, Step(w, e, t).store.queue, scope);
  }

  /** A row finished before an event is finished the same way after it. */
  lemma {:induction false} KeptBefore(w: World, e: Event, t: Timing, scope: string)
    requires Consistent(w.store) && GroupKept(Step(w, e, t).store.queue, scope)
    ensures GroupKept(w.store.queue, scope)
  {
    var queue, after := w.store.queue, Step(w, e, t).store.queue;
    FilterMembers(queue, InSlot(GroupSlot(scope)));
    FilterMembers(after, InSlot(GroupSlot(scope)));
    forall n | n in GroupRows(queue, scope) ensures n.state == Pending || n.state == Sent {
      var i :| 0 <= i < |queue| && queue[i] == n;
      RowCases(w, e, t, i);
      assert after[i] in after && InSlot(GroupSlot(scope))(after[i]);
      assert after[i] in GroupRows(after, scope);
    }
  }

  lemma {:induction false} SaveFollows(s: Store, sv: Saving, quiet: int, history: seq<Moment>)
    requires CreatedBy(s.queue, sv.at) && FollowsKey(s, sv)
    requires PreviousState(s, sv.scope) == StateOf(history)
    requires GroupAlerted(s.queue, sv.scope) == OutageOpen(history)
    ensures GroupAlerted(Saved(s, sv, quiet).queue, sv.scope)
        == OutageOpen(history + [Moment(sv.at, sv.evaluation.state)])
  {
    OutageOpenGrows(history, Moment(sv.at, sv.evaluation.state));
    if Changes(s, sv) {
      AlertFollowsExactly(s, sv, quiet);
    } else {
      UnchangedAlert(history, sv.evaluation.state);
    }
  }

  lemma {:induction false} SaveElsewhere(s: Store, sv: Saving, quiet: int, scope: string)
    requires CreatedBy(s.queue, sv.at) && sv.scope != scope
    ensures GroupAlerted(Saved(s, sv, quiet).queue, scope) == GroupAlerted(s.queue, scope)
  {
    SaveOrdered(s, sv, quiet);
    SaveHeardRows(s, sv, quiet, scope);
    AlertedIsLast(s.queue, scope);
    AlertedIsLast(Saved(s, sv, quiet).queue, scope);
  }

  /** For any messenger and any interleaving, as long as no message to the group was given up or failed for
      good and the keys of what concerns it were fresh, the group counts as alerted exactly when the scope
      has been unavailable since it was last operational. */
  lemma {:induction false} AlertedExactlyWhileOutageOpen(events: seq<Event>, t: Timing, scope: string)
    requires Clocked(events) && NewsKept(events, t, scope)
    requires GroupKept(Run(events, t).store.queue, scope)
    ensures GroupAlerted(Run(events, t).store.queue, scope) <==> OutageOpen(History(events, scope))
  {
    if events != [] {
      var init, e := events[..|events| - 1], events[|events| - 1];
      var w := Run(init, t);
      assert events == init + [e];
      RunSnoc(init, e, t);
      ClockedPrefix(init, e);
      NewsKeptPrefix(init, e, t, scope);
      RunConsistent(init, t);
      RunOrdered(init, e, t);
      KeptBefore(w, e, t, scope);
      AlertedExactlyWhileOutageOpen(init, t, scope);
      SnapshotIsLast(init, t, scope);
      if !e.Save? {
        DeliveryKeepsAlert(w, e, t, scope);
      } else if e.saving.scope == scope {
        SaveFollows(w.store, e.saving, t.quiet, History(init, scope));
      } else {
        SaveElsewhere(w.store, e.saving, t.quiet, scope);
      }
    }
  }
}
