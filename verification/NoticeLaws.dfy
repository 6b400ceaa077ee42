/** The notice a transition queues, column by column, and the hold of an administrator's notice: it is handed over
    by the first delivery at or after its time, and by none before. */
module NoticeLaws {
  import opened Domain
  import opened Sequences
  import opened Notifications
  import opened QueueFacts
  import opened Runs
  import opened RunLaws
  import opened GroupLaws

  // ---------- the new row ----------

  /** The administrator's notices about the scope that were given up and are not older than `since`. */
  function GivenUpSince(queue: seq<Notice>, scope: string, since: int): set<nat> {
    set i: nat | i < |queue| && queue[i].key.scope == scope && queue[i].destination == Admin
                 && queue[i].state == Superseded && queue[i].createdAt >= since
  }

  lemma {:induction false} GivenUpSnoc(queue: seq<Notice>, last: Notice, scope: string, since: int)
    ensures |GivenUpSince(queue + [last], scope, since)|
         == |GivenUpSince(queue, scope, since)| + if Dropped(scope, since)(last) then 1 else 0
  {
    var before := GivenUpSince(queue, scope, since);
    assert |queue| !in before;
    assert GivenUpSince(queue + [last], scope, since)
        == before + if Dropped(scope, since)(last) then {|queue|} else {};
  }

  lemma {:induction false} DroppedCounted(queue: seq<Notice>, scope: string, since: int)
    ensures DroppedNotices(queue, scope, since) == |GivenUpSince(queue, scope, since)|
  {
    if queue != [] {
      var init, last := queue[..|queue| - 1], queue[|queue| - 1];
      DroppedCounted(init, scope, since);
      assert queue == init + [last];
      GivenUpSnoc(init, last, scope, since);
      FilterSnoc(init, last, Dropped(scope, since));
    }
  }

  /** The new row is pending and does not count, so that the count may be taken after the transition. */
  lemma {:induction false} PendingUncounted(rest: seq<Notice>, n: Notice, scope: string, since: int)
    requires n.state == Pending
    ensures GivenUpSince(rest + [n], scope, since) == GivenUpSince(rest, scope, since)
  {
  }

  /** The row a transition adds: its key, for whom and about what, not attempted yet; due at once, but if it is for
      the administrator, about a degraded server or missing data, and fewer than six such notices were given up in
      the last hour, due once the quiet time has passed. */
  lemma {:induction false} NoticeExactly(s: Store, sv: Saving, quiet: int)
    requires |Saved(s, sv, quiet).queue| > |s.queue|
    ensures var after := Saved(s, sv, quiet).queue;
            var n, state, alerted := after[|s.queue|], sv.evaluation.state, GroupAlerted(s.queue, sv.scope);
      && |after| == |s.queue| + 1
      && n.key == Key(sv.scope, PreviousState(s, sv.scope), state, sv.evaluation.observedAt)
      && (n.destination == Group <==> state == (if alerted then Operational else Unavailable))
      && (n.template == BotUnavailable <==> state == Unavailable)
      && (n.template == BotRecovered <==> state == Operational)
      && (n.template == BotDegraded <==> state == Degraded)
      && n.serverId == sv.serverId && n.state == Pending && n.attempts == 0 && n.sentAt == None && !n.lastSendFailed
      && n.createdAt == sv.at
      && n.nextAttemptAt ==
           if n.destination == Admin && (state == Degraded || state == Unknown)
              && |GivenUpSince(after, sv.scope, sv.at - 3_600_000_000)| < 6
           then sv.at + quiet else sv.at
  {
    var rest, after := Supersede(s.queue, sv.scope), Saved(s, sv, quiet).queue;
    AnnouncedRowFacts(s.queue, KeyOf(s, sv), sv, quiet);
    SupersedeKeepsGroup(s.queue, sv.scope, sv.scope);
    DroppedCounted(rest, sv.scope, sv.at - HOUR);
    PendingUncounted(rest, after[|rest|], sv.scope, sv.at - HOUR);
    assert after == rest + [after[|rest|]];
  }

  // ---------- until it is handed over ----------

  /** From the i-th event on, the scope was found in no other state than the key's, and nothing was delivered at or
      after `due`. */
  ghost predicate Undisturbed(events: seq<Event>, i: nat, key: Key, due: int) {
    forall k :: i < k < |events| ==>
      if events[k].Save? then events[k].saving.scope == key.scope ==> events[k].saving.evaluation.state == key.toState
      else events[k].now < due
  }

  lemma {:induction false} SameStateKeeps(s: Store, sv: Saving, quiet: int, j: nat)
    requires AdminInformed(s) && j < |s.queue| && AwaitingAdmin(s.queue[j])
    requires sv.scope == s.queue[j].key.scope ==> sv.evaluation.state == s.queue[j].key.toState
    ensures |Saved(s, sv, quiet).queue| > j && Saved(s, sv, quiet).queue[j] == s.queue[j]
  {
  }

  lemma {:induction false} EarlierDeliveryKeeps(w: World, e: Event, t: Timing, j: nat)
    requires Consistent(w.store) && !e.Save? && j < |w.store.queue| && w.store.queue[j].nextAttemptAt > e.now
    ensures |Step(w, e, t).store.queue| > j && Step(w, e, t).store.queue[j] == w.store.queue[j]
  {
    var queue := w.store.queue;
    var n := queue[j];
    assert n in queue;
    TriedFacts(queue, e);
    forall m | m in Tried(queue, e) || m in GivenUp(queue, e) ensures m.key != n.key {
      if m.key == n.key {
        SameKeySameRow(queue, n, m);
      }
    }
  }

  lemma {:induction false} StillWaits(events: seq<Event>, k: nat, j: nat, t: Timing)
    requires k < |events| && j < |Run(events[..k + 1], t).store.queue|
    requires AwaitingAdmin(Run(events[..k + 1], t).store.queue[j])
    requires var n := Run(events[..k + 1], t).store.queue[j]; Undisturbed(events, k, n.key, n.nextAttemptAt)
    ensures j < |Run(events, t).store.queue|
    ensures Run(events, t).store.queue[j] == Run(events[..k + 1], t).store.queue[j]
    decreases |events|
  {
    if k + 1 == |events| {
      assert events[..k + 1] == events;
    } else {
      var init, e := events[..|events| - 1], events[|events| - 1];
      var n := Run(events[..k + 1], t).store.queue[j];
      assert events == init + [e] && init[..k + 1] == events[..k + 1];
      assert forall m :: k < m < |init| ==> init[m] == events[m];
      StillWaits(init, k, j, t);
      RunSnoc(init, e, t);
      RunConsistent(init, t);
      RunInformed(init, t);
      if e.Save? {
        SameStateKeeps(Run(init, t).store, e.saving, t.quiet, j);
      } else {
        EarlierDeliveryKeeps(Run(init, t), e, t, j);
      }
    }
  }

  lemma {:induction false} HandedOverWhenDue(events: seq<Event>, e: Event, t: Timing, n: Notice)
    requires e.DeliverPending? && n in Run(events, t).store.queue && AwaitingAdmin(n)
    ensures n in Tried(Run(events, t).store.queue, e) <==> e.now >= n.nextAttemptAt
  {
    var queue := Run(events, t).store.queue;
    RunConsistent(events, t);
    TriedFacts(queue, e);
    DueMembers(queue, e.now);
    CollapseMembers(Due(queue, e.now));
    OnlyGroupRowsCollapse(events, e, t);
  }

  /** The i-th event queued the j-th row. */
  ghost predicate Queues(events: seq<Event>, i: nat, j: nat, t: Timing) {
    && i < |events| && events[i].Save?
    && |Run(events[..i], t).store.queue| == j < |Run(events[..i + 1], t).store.queue|
  }

  /** When the notice an evaluation queues for the administrator is due: at once, or after the quiet time. */
  ghost function DueTime(events: seq<Event>, i: nat, t: Timing): int
    requires i < |events| && events[i].Save?
  {
    var sv, after := events[i].saving, Run(events[..i + 1], t).store.queue;
    if (sv.evaluation.state == Degraded || sv.evaluation.state == Unknown)
       && |GivenUpSince(after, sv.scope, sv.at - 3_600_000_000)| < 6
    then sv.at + t.quiet else sv.at
  }

  lemma {:induction false} QueuedAs(events: seq<Event>, i: nat, j: nat, t: Timing)
    requires Queues(events, i, j, t) && Run(events[..i + 1], t).store.queue[j].destination == Admin
    ensures var n := Run(events[..i + 1], t).store.queue[j];
      n.state == Pending && n.attempts == 0 && n.nextAttemptAt == DueTime(events, i, t)
  {
    assert events[..i + 1] == events[..i] + [events[i]];
    RunSnoc(events[..i], events[i], t);
    NoticeExactly(Run(events[..i], t).store, events[i].saving, t.quiet);
  }

  /** The hold, exactly: as long as the scope is found in the state the notice is about and no delivery has come
      since it was due, the administrator's notice waits unchanged, and the next delivery hands it over if and only
      if it comes at the due time or later. */
  lemma {:induction false} HoldExactly(events: seq<Event>, i: nat, j: nat, e: Event, t: Timing)
    requires Queues(events, i, j, t) && e.DeliverPending?
    requires Run(events[..i + 1], t).store.queue[j].destination == Admin
    requires Undisturbed(events, i, Run(events[..i + 1], t).store.queue[j].key, DueTime(events, i, t))
    ensures j < |Run(events, t).store.queue|
    ensures var n := Run(events, t).store.queue[j];
      && n == Run(events[..i + 1], t).store.queue[j] && n.state == Pending && n.attempts == 0
      && (n in Tried(Run(events, t).store.queue, e) <==> e.now >= DueTime(events, i, t))
  {
    QueuedAs(events, i, j, t);
    StillWaits(events, i, j, t);
    HandedOverWhenDue(events, e, t, Run(events, t).store.queue[j]);
  }
}
