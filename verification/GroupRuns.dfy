/** What the group hears over whole runs: any interleaving of evaluations and deliveries, any messenger,
    and a clock that does not run backwards. */
module GroupRuns {
  import opened Sequences
  import opened Notifications
  import opened QueueFacts
  import opened Runs
  import opened RunLaws
  import opened GroupLaws

  // ---------- the clock ----------

  function TimeOf(e: Event): int { if e.Save? then e.saving.at else e.now }

  ghost predicate Clocked(events: seq<Event>) {
    forall i, j :: 0 <= i < j < |events| ==> TimeOf(events[i]) <= TimeOf(events[j])
  }

  lemma {:induction false} ClockedPrefix(events: seq<Event>, e: Event)
    requires Clocked(events + [e])
    ensures Clocked(events)
    ensures events != [] ==> TimeOf(events[|events| - 1]) <= TimeOf(e)
  {
    var all := events + [e];
    assert forall i :: 0 <= i < |events| ==> all[i] == events[i];
    assert all[|events|] == e;
  }

  lemma {:induction false} SettleKeepsOrder(queue: seq<Notice>, dropped: set<Key>, tried: set<Key>, accepted: set<Key>,
                                            now: int, backoff: int, at: int)
    requires CreatedBy(queue, at)
    ensures CreatedBy(SettleAll(queue, dropped, tried, accepted, now, backoff), at)
  {
  }

  lemma {:induction false} StepOrdered(w: World, e: Event, t: Timing)
    requires CreatedBy(w.store.queue, TimeOf(e))
    ensures CreatedBy(Step(w, e, t).store.queue, TimeOf(e))
  {
    var queue := w.store.queue;
    if e.Save? {
      SaveOrdered(w.store, e.saving, t.quiet);
    } else {
      SettleKeepsOrder(queue, Keys(GivenUp(queue, e)), Keys(Tried(queue, e)), e.accepted, e.now, t.backoff, e.now);
    }
  }

  /** Rows are queued in the order of their creation times, none of them in the future. */
  lemma {:induction false} RunOrdered(events: seq<Event>, e: Event, t: Timing)
    requires Clocked(events + [e])
    ensures CreatedBy(Run(events, t).store.queue, TimeOf(e))
  {
    ClockedPrefix(events, e);
    if events != [] {
      var init, last := events[..|events| - 1], events[|events| - 1];
      assert events == init + [last];
      RunOrdered(init, last, t);
      RunSnoc(init, last, t);
      StepOrdered(Run(init, t), last, t);
      CreatedLater(Run(events, t).store.queue, TimeOf(last), TimeOf(e));
    }
  }

  // ---------- a delivery, seen from one slot ----------

  lemma {:induction false} SettleSnoc(rows: seq<Notice>, n: Notice, dropped: set<Key>, tried: set<Key>,
                                      accepted: set<Key>, now: int, backoff: int)
    ensures SettleAll(rows + [n], dropped, tried, accepted, now, backoff)
         == SettleAll(rows, dropped, tried, accepted, now, backoff)
          + [Settle(n, dropped, tried, accepted, now, backoff)]
  {
  }

  lemma {:induction false} SettleFilters(queue: seq<Notice>, dropped: set<Key>, tried: set<Key>, accepted: set<Key>,
                                         now: int, backoff: int, slot: Slot)
    ensures Filter(SettleAll(queue, dropped, tried, accepted, now, backoff), InSlot(slot))
         == SettleAll(Filter(queue, InSlot(slot)), dropped, tried, accepted, now, backoff)
  {
    if queue != [] {
      var init, last := queue[..|queue| - 1], queue[|queue| - 1];
      var after, settled := SettleAll(init, dropped, tried, accepted, now, backoff),
        Settle(last, dropped, tried, accepted, now, backoff);
      assert queue == init + [last];
      SettleFilters(init, dropped, tried, accepted, now, backoff, slot);
      SettleSnoc(init, last, dropped, tried, accepted, now, backoff);
      FilterSnoc(after, settled, InSlot(slot));
      FilterSnoc(init, last, InSlot(slot));
      SettleSnoc(Filter(init, InSlot(slot)), last, dropped, tried, accepted, now, backoff);
    }
  }

  lemma {:induction false} FilterOnly(rows: seq<Notice>, keep: Notice -> bool, p: Notice)
    requires UniqueNotices(rows) && keep(p)
    requires forall n :: n in rows && keep(n) ==> n == p
    ensures Filter(rows, keep) == if p in rows then [p] else []
  {
    if rows != [] {
      var init, last := rows[..|rows| - 1], rows[|rows| - 1];
      assert rows == init + [last];
      UniqueGrows(init, last);
      FilterOnly(init, keep, p);
      assert keep(last) ==> last == p by { assert last in rows; }
    }
  }

  /** The slot holds one pending row at most. */
  ghost predicate Lone(queue: seq<Notice>, p: Notice) {
    && p in queue && p.state == Pending
    && forall n :: n in queue && SlotOf(n) == SlotOf(p) && n.state == Pending ==> n == p
  }

  lemma {:induction false} LoneStands(queue: seq<Notice>, e: Event, p: Notice)
    requires UniqueNotices(queue) && !e.Save? && Lone(queue, p)
    ensures p.key !in Keys(GivenUp(queue, e))
    ensures Filter(Tried(queue, e), InSlot(SlotOf(p))) == if p.key in Keys(Tried(queue, e)) then [p] else []
  {
    TriedFacts(queue, e);
    if p.key in Keys(Tried(queue, e)) {
      var n :| n in Tried(queue, e) && n.key == p.key;
      SameKeySameRow(queue, n, p);
    }
    FilterOnly(Tried(queue, e), InSlot(SlotOf(p)), p);
    if p.key in Keys(GivenUp(queue, e)) {
      var n :| n in GivenUp(queue, e) && n.key == p.key;
      SameKeySameRow(queue, n, p);
      LoneSurvives(queue, e.now, p);
      TriedNotGivenUp(queue, e, p);
    }
  }

  lemma {:induction false} LoneSurvives(queue: seq<Notice>, now: int, p: Notice)
    requires UniqueNotices(queue) && Lone(queue, p) && p.nextAttemptAt <= now
    ensures p in Collapse(Due(queue, now)).newest
  {
    var due, slot := Due(queue, now), SlotOf(p);
    DueMembers(queue, now);
    DueUnique(queue, now);
    FilterOnly(due, InSlot(slot), p);
    CollapseBySlot(due, slot);
    assert [p][..0] == [];
    assert p in Survivor([p]);
    FilterMembers(Collapse(due).newest, InSlot(slot));
  }

  function AcceptedIn(accepted: set<Key>): Notice -> bool { (n: Notice) => n.key in accepted }

  function TakenFor(scope: string): Attempt -> bool { (a: Attempt) => a.ok && SlotOf(a.notice) == GroupSlot(scope) }

  function HeardIn(log: seq<Attempt>, scope: string): seq<Template> {
    var taken := Filter(log, TakenFor(scope));
    seq(|taken|, i requires 0 <= i < |taken| => taken[i].notice.template)
  }

  /** The group messages about the scope that went out, oldest first. */
  function GroupHeard(w: World, scope: string): seq<Template> { HeardIn(w.log, scope) }

  lemma {:induction false} HeardAppends(log: seq<Attempt>, more: seq<Attempt>, scope: string)
    ensures HeardIn(log + more, scope) == HeardIn(log, scope) + HeardIn(more, scope)
  {
    FilterConcat(log, more, TakenFor(scope));
  }

  lemma {:induction false} HeardSnoc(log: seq<Attempt>, a: Attempt, scope: string)
    ensures HeardIn(log + [a], scope)
         == if TakenFor(scope)(a) then HeardIn(log, scope) + [a.notice.template] else HeardIn(log, scope)
  {
    FilterSnoc(log, a, TakenFor(scope));
  }

  /** The rows of the scope's slot that the messenger takes. */
  function TakenRows(rows: seq<Notice>, accepted: set<Key>, scope: string): seq<Notice> {
    Filter(Filter(rows, InSlot(GroupSlot(scope))), AcceptedIn(accepted))
  }

  lemma {:induction false} TakenRowsSnoc(rows: seq<Notice>, n: Notice, accepted: set<Key>, scope: string)
    ensures TakenRows(rows + [n], accepted, scope)
         == if SlotOf(n) == GroupSlot(scope) && n.key in accepted then TakenRows(rows, accepted, scope) + [n]
            else TakenRows(rows, accepted, scope)
  {
    FilterSnoc(rows, n, InSlot(GroupSlot(scope)));
    FilterSnoc(Filter(rows, InSlot(GroupSlot(scope))), n, AcceptedIn(accepted));
  }

  lemma {:induction false} AttemptsSnoc(rows: seq<Notice>, n: Notice, now: int, accepted: set<Key>)
    ensures Attempts(rows + [n], now, accepted)
         == Attempts(rows, now, accepted) + [Attempt(n, now, n.key in accepted)]
  {
  }

  lemma {:induction false} HeardOf(rows: seq<Notice>, now: int, accepted: set<Key>, scope: string)
    ensures HeardIn(Attempts(rows, now, accepted), scope) == Templates(TakenRows(rows, accepted, scope))
  {
    if rows != [] {
      var init, last := rows[..|rows| - 1], rows[|rows| - 1];
      var made := Attempt(last, now, last.key in accepted);
      assert rows == init + [last];
      HeardOf(init, now, accepted, scope);
      AttemptsSnoc(init, last, now, accepted);
      HeardSnoc(Attempts(init, now, accepted), made, scope);
      TakenRowsSnoc(init, last, accepted, scope);
      TemplatesSnoc(TakenRows(init, accepted, scope), last);
      assert TakenFor(scope)(made) <==> SlotOf(last) == GroupSlot(scope) && last.key in accepted;
    }
  }

  lemma {:induction false} TemplatesSnoc(rows: seq<Notice>, n: Notice)
    ensures Templates(rows + [n]) == Templates(rows) + [n.template]
  {
  }

  /** A group slot before and after a delivery, with what the group heard meanwhile. */
  ghost predicate Delivers(before: seq<Notice>, after: seq<Notice>, heard: seq<Template>) {
    if before == [] || before[|before| - 1].state != Pending then after == before && heard == []
    else
      var k := |before| - 1;
      && |after| == k + 1 && after[..k] == before[..k]
      && SameMessage(before[k], after[k])
      && after[k].state != Superseded
      && heard == if after[k].state == Sent then [before[k].template] else []
  }

  /** All rows but the last are finished, and none was given up. */
  ghost predicate Settled(mine: seq<Notice>) {
    forall i :: 0 <= i < |mine| ==> mine[i].state != Superseded && (mine[i].state == Pending ==> i == |mine| - 1)
  }

  lemma {:induction false} LoneLast(queue: seq<Notice>, scope: string)
    requires Settled(GroupRows(queue, scope))
    ensures var mine := GroupRows(queue, scope);
      && (forall n :: n in mine ==> n in queue && SlotOf(n) == GroupSlot(scope))
      && (mine != [] && mine[|mine| - 1].state == Pending ==> Lone(queue, mine[|mine| - 1]))
      && (mine == [] || mine[|mine| - 1].state != Pending ==> forall n :: n in mine ==> n.state != Pending)
  {
    var mine := GroupRows(queue, scope);
    FilterMembers(queue, InSlot(GroupSlot(scope)));
    if mine != [] {
      var p := mine[|mine| - 1];
      assert p in mine;
      forall n | n in queue && SlotOf(n) == GroupSlot(scope) && n.state == Pending
          ensures n == p && p.state == Pending {
        assert InSlot(GroupSlot(scope))(n);
        var i :| 0 <= i < |mine| && mine[i] == n;
      }
    }
  }

  lemma {:induction false} NotAmongPending(queue: seq<Notice>, rows: seq<Notice>, n: Notice)
    requires UniqueNotices(queue) && n in queue && n.state != Pending
    requires forall m :: m in rows ==> m in queue && m.state == Pending
    ensures n.key !in Keys(rows)
  {
    forall m | m in rows ensures m.key != n.key {
      if m.key == n.key {
        SameKeySameRow(queue, n, m);
      }
    }
  }

  lemma {:induction false} FinishedUntouched(queue: seq<Notice>, e: Event, n: Notice)
    requires UniqueNotices(queue) && !e.Save? && n in queue && n.state != Pending
    ensures n.key !in Keys(Tried(queue, e)) && n.key !in Keys(GivenUp(queue, e))
  {
    TriedFacts(queue, e);
    NotAmongPending(queue, Tried(queue, e), n);
    NotAmongPending(queue, GivenUp(queue, e), n);
  }

  lemma {:induction false} QuietSlot(queue: seq<Notice>, e: Event, scope: string)
    requires UniqueNotices(queue) && !e.Save?
    requires forall n :: n in GroupRows(queue, scope) ==> n.state != Pending
    ensures Filter(Tried(queue, e), InSlot(GroupSlot(scope))) == []
  {
    TriedFacts(queue, e);
    FilterMembers(queue, InSlot(GroupSlot(scope)));
    forall n | n in Tried(queue, e) ensures !InSlot(GroupSlot(scope))(n) {
      assert n in queue && n.state == Pending;
    }
    FilterNone(Tried(queue, e), InSlot(GroupSlot(scope)));
  }

  lemma {:induction false} FinishedSettle(mine: seq<Notice>, dropped: set<Key>, tried: set<Key>, accepted: set<Key>,
                                          now: int, backoff: int)
    requires forall n :: n in mine ==> n.key !in dropped && n.key !in tried
    ensures SettleAll(mine, dropped, tried, accepted, now, backoff) == mine
  {
    forall i | 0 <= i < |mine| ensures Settle(mine[i], dropped, tried, accepted, now, backoff) == mine[i] {
      assert mine[i] in mine;
    }
  }

  lemma {:induction false} LastSettles(init: seq<Notice>, p: Notice, dropped: set<Key>, tried: set<Key>,
                                       accepted: set<Key>,
                                       now: int, backoff: int)
    requires forall n :: n in init ==> n.key !in dropped && n.key !in tried
    requires p.state == Pending && p.key !in dropped
    ensures Delivers(init + [p], SettleAll(init + [p], dropped, tried, accepted, now, backoff),
                     if p.key in tried && p.key in accepted then [p.template] else [])
  {
    FinishedSettle(init, dropped, tried, accepted, now, backoff);
    var after := SettleAll(init + [p], dropped, tried, accepted, now, backoff);
    assert after[..|init|] == SettleAll(init, dropped, tried, accepted, now, backoff);
    assert after[|init|] == Settle(p, dropped, tried, accepted, now, backoff);
  }

  lemma {:induction false} HeardFromSlot(rows: seq<Notice>, now: int, accepted: set<Key>, scope: string, p: Notice,
                                         tried: bool)
    requires Filter(rows, InSlot(GroupSlot(scope))) == if tried then [p] else []
    ensures HeardIn(Attempts(rows, now, accepted), scope) == if tried && p.key in accepted then [p.template] else []
  {
    HeardOf(rows, now, accepted, scope);
    if tried {
      assert [p][..0] == [];
    }
  }

  lemma {:induction false} LastDelivers(queue: seq<Notice>, e: Event, t: Timing, scope: string, init: seq<Notice>,
                                        p: Notice)
    requires UniqueNotices(queue) && !e.Save? && Lone(queue, p) && SlotOf(p) == GroupSlot(scope)
    requires forall n :: n in init ==> n in queue && n.state != Pending
    ensures Delivers(init + [p],
                     SettleAll(init + [p], Keys(GivenUp(queue, e)), Keys(Tried(queue, e)), e.accepted, e.now,
                         t.backoff),
                     HeardIn(Attempts(Tried(queue, e), e.now, e.accepted), scope))
  {
    LoneStands(queue, e, p);
    forall n | n in init ensures n.key !in Keys(GivenUp(queue, e)) && n.key !in Keys(Tried(queue, e)) {
      FinishedUntouched(queue, e, n);
    }
    LastSettles(init, p, Keys(GivenUp(queue, e)), Keys(Tried(queue, e)), e.accepted, e.now, t.backoff);
    HeardFromSlot(Tried(queue, e), e.now, e.accepted, scope, p, p.key in Keys(Tried(queue, e)));
  }

  lemma {:induction false} QuietDelivers(queue: seq<Notice>, e: Event, t: Timing, scope: string)
    requires UniqueNotices(queue) && !e.Save?
    requires forall n :: n in GroupRows(queue, scope) ==> n in queue && n.state != Pending
    ensures var mine := GroupRows(queue, scope);
      && SettleAll(mine, Keys(GivenUp(queue, e)), Keys(Tried(queue, e)), e.accepted, e.now, t.backoff) == mine
      && HeardIn(Attempts(Tried(queue, e), e.now, e.accepted), scope) == []
  {
    var mine := GroupRows(queue, scope);
    forall n | n in mine ensures n.key !in Keys(GivenUp(queue, e)) && n.key !in Keys(Tried(queue, e)) {
      FinishedUntouched(queue, e, n);
    }
    FinishedSettle(mine, Keys(GivenUp(queue, e)), Keys(Tried(queue, e)), e.accepted, e.now, t.backoff);
    QuietSlot(queue, e, scope);
    HeardOf(Tried(queue, e), e.now, e.accepted, scope);
  }

  lemma {:induction false} EarlierFinished(mine: seq<Notice>)
    requires Settled(mine) && mine != []
    ensures forall n :: n in mine[..|mine| - 1] ==> n in mine && n.state != Pending
  {
    forall n | n in mine[..|mine| - 1] ensures n in mine && n.state != Pending {
      var i :| 0 <= i < |mine| - 1 && mine[..|mine| - 1][i] == n;
      assert mine[i] == n;
    }
  }

  ghost predicate SlotDelivered(queue: seq<Notice>, e: Event, t: Timing, scope: string)
    requires !e.Save?
  {
    var mine := GroupRows(queue, scope);
    Delivers(mine, SettleAll(mine, Keys(GivenUp(queue, e)), Keys(Tried(queue, e)), e.accepted, e.now, t.backoff),
             HeardIn(Attempts(Tried(queue, e), e.now, e.accepted), scope))
  }

  /** With at most one pending row, a delivery attempts it or leaves the slot alone. */
  lemma {:induction false} SlotDelivers(queue: seq<Notice>, e: Event, t: Timing, scope: string)
    requires UniqueNotices(queue) && !e.Save? && Settled(GroupRows(queue, scope))
    ensures SlotDelivered(queue, e, t, scope)
  {
    var mine := GroupRows(queue, scope);
    LoneLast(queue, scope);
    if mine == [] || mine[|mine| - 1].state != Pending {
      QuietDelivers(queue, e, t, scope);
    } else {
      var init, p := mine[..|mine| - 1], mine[|mine| - 1];
      assert mine == init + [p] && p in mine;
      EarlierFinished(mine);
      LastDelivers(queue, e, t, scope, init, p);
    }
  }

  lemma {:induction false} RowsAfter(w: World, e: Event, t: Timing, scope: string)
    requires !e.Save?
    ensures var queue := w.store.queue;
      GroupRows(Step(w, e, t).store.queue, scope)
      == SettleAll(GroupRows(queue, scope), Keys(GivenUp(queue, e)), Keys(Tried(queue, e)), e.accepted, e.now,
          t.backoff)
  {
    var queue := w.store.queue;
    SettleFilters(queue, Keys(GivenUp(queue, e)), Keys(Tried(queue, e)), e.accepted, e.now, t.backoff,
        GroupSlot(scope));
  }

  // ---------- the alternation ----------

  function WasSent(): Notice -> bool { (n: Notice) => n.state == Sent }

  /** A scope's group rows between events: finished but for the last, alternating as far as they were not
      refused for good, and heard exactly where sent. */
  ghost predicate Tidy(mine: seq<Notice>, heard: seq<Template>, scope: string) {
    && Settled(mine)
    && Alternating(Templates(Filter(mine, HeardBy(scope))), BotUnavailable)
    && heard == Templates(Filter(mine, WasSent()))
  }

  lemma {:induction false} DeliveryTidy(before: seq<Notice>, after: seq<Notice>, heard: seq<Template>,
                                        more: seq<Template>, scope: string)
    requires Tidy(before, heard, scope) && Delivers(before, after, more)
    requires forall n :: n in before ==> SlotOf(n) == GroupSlot(scope)
    ensures Tidy(after, heard + more, scope)
  {
    if before == [] || before[|before| - 1].state != Pending {
      assert heard + more == heard;
    } else {
      var init, p, q := before[..|before| - 1], before[|before| - 1], after[|before| - 1];
      assert before == init + [p] && after == init + [q];
      assert p in before;
      FilterSnoc(init, p, HeardBy(scope));
      FilterSnoc(init, q, HeardBy(scope));
      FilterSnoc(init, p, WasSent());
      FilterSnoc(init, q, WasSent());
      var live := Filter(init, HeardBy(scope));
      TemplatesSnoc(live, p);
      TemplatesSnoc(live, q);
      TemplatesSnoc(Filter(init, WasSent()), q);
      assert Templates(live + [p])[..|live|] == Templates(live);
    }
  }

  /** No group row of the scope awaits the messenger. */
  ghost predicate NonePending(queue: seq<Notice>, scope: string) {
    forall n :: n in GroupRows(queue, scope) ==> n.state != Pending
  }

  /** Where an event queues news for the group, no other group row of the scope is pending. */
  ghost predicate UncrowdedAt(events: seq<Event>, t: Timing, i: nat, scope: string)
    requires i < |events|
  {
    var s := Run(events[..i], t).store;
    events[i].Save? && events[i].saving.scope == scope && NewsOf(s, events[i].saving).Some? ==>
        NonePending(s.queue, scope)
  }

  ghost predicate Uncrowded(events: seq<Event>, t: Timing, scope: string) {
    forall i :: 0 <= i < |events| ==> UncrowdedAt(events, t, i, scope)
  }

  lemma {:induction false} UncrowdedPrefix(init: seq<Event>, e: Event, t: Timing, scope: string)
    requires Uncrowded(init + [e], t, scope)
    ensures Uncrowded(init, t, scope)
    ensures e.Save? && e.saving.scope == scope && NewsOf(Run(init, t).store, e.saving).Some?
        ==> NonePending(Run(init, t).store.queue, scope)
  {
    var all := init + [e];
    forall i | 0 <= i < |init| ensures UncrowdedAt(init, t, i, scope) {
      assert UncrowdedAt(all, t, i, scope);
      assert all[..i] == init[..i];
    }
    assert UncrowdedAt(all, t, |init|, scope);
    assert all[..|init|] == init;
  }

  lemma {:induction false} SaveTidy(s: Store, sv: Saving, quiet: int, heard: seq<Template>, scope: string)
    requires SortedBy(s.queue, ByCreation())
    requires Tidy(GroupRows(s.queue, scope), heard, scope)
    requires sv.scope == scope && NewsOf(s, sv).Some? ==> NonePending(s.queue, scope)
    ensures Tidy(GroupRows(Saved(s, sv, quiet).queue, scope), heard, scope)
  {
    var mine := GroupRows(s.queue, scope);
    SaveGroupRows(s, sv, quiet, scope);
    if sv.scope == scope && NewsOf(s, sv).Some? {
      var n := NewsOf(s, sv).value;
      FilterSnoc(mine, n, HeardBy(scope));
      FilterSnoc(mine, n, WasSent());
      HeardAmongGroup(s.queue, scope);
      NewsAlternates(s, sv);
    }
  }

  lemma {:induction false} RunTidy(events: seq<Event>, t: Timing, scope: string)
    requires Clocked(events) && Uncrowded(events, t, scope)
    ensures Tidy(GroupRows(Run(events, t).store.queue, scope), GroupHeard(Run(events, t), scope), scope)
  {
    if events != [] {
      var init, e := events[..|events| - 1], events[|events| - 1];
      var w := Run(init, t);
      assert events == init + [e];
      RunSnoc(init, e, t);
      ClockedPrefix(init, e);
      UncrowdedPrefix(init, e, t, scope);
      RunTidy(init, t, scope);
      RunConsistent(init, t);
      RunOrdered(init, e, t);
      if e.Save? {
        SaveTidy(w.store, e.saving, t.quiet, GroupHeard(w, scope), scope);
      } else {
        var made := Attempts(Tried(w.store.queue, e), e.now, e.accepted);
        SlotDelivers(w.store.queue, e, t, scope);
        RowsAfter(w, e, t, scope);
        LoneLast(w.store.queue, scope);
        HeardAppends(w.log, made, scope);
        DeliveryTidy(GroupRows(w.store.queue, scope), GroupRows(Step(w, e, t).store.queue, scope),
                     GroupHeard(w, scope), HeardIn(made, scope), scope);
      }
    }
  }

  /** Sent rows are the heard ones, but for a last one still pending. */
  lemma {:induction false} SentAlternate(mine: seq<Notice>, scope: string)
    requires Settled(mine) && Alternating(Templates(Filter(mine, HeardBy(scope))), BotUnavailable)
    requires forall n :: n in mine ==> SlotOf(n) == GroupSlot(scope)
    ensures Alternating(Templates(Filter(mine, WasSent())), BotUnavailable)
  {
    if mine != [] {
      var init, last := mine[..|mine| - 1], mine[|mine| - 1];
      assert forall n :: n in init ==> n in mine;
      assert last in mine;
      forall n | n in init ensures HeardBy(scope)(n) == WasSent()(n) {
        var i :| 0 <= i < |init| && init[i] == n;
        assert mine[i] == n;
      }
      FilterAgrees(init, HeardBy(scope), WasSent());
      var sent := Filter(init, WasSent());
      TemplatesSnoc(sent, last);
      assert Templates(sent + [last])[..|sent|] == Templates(sent);
    }
  }

  /** For any messenger and any interleaving, the group messages about a scope strictly alternate between
      outage and recovery, beginning with an outage, as long as no news for the group is queued while
      another group row of the scope is pending. Rows that fail for good do no harm. */
  lemma {:induction false} GroupMessagesAlternate(events: seq<Event>, t: Timing, scope: string)
    requires Clocked(events) && Uncrowded(events, t, scope)
    ensures Alternating(GroupHeard(Run(events, t), scope), BotUnavailable)
  {
    RunTidy(events, t, scope);
    LoneLast(Run(events, t).store.queue, scope);
    SentAlternate(GroupRows(Run(events, t).store.queue, scope), scope);
  }

  // ---------- overtaking ----------

  /** A group row not attempted yet has been due since it was queued. */
  ghost predicate DueAtOnce(queue: seq<Notice>) {
    forall n :: n in queue && n.destination == Group && n.attempts == 0 ==> n.nextAttemptAt == n.createdAt
  }

  lemma {:induction false} StepDueAtOnce(w: World, e: Event, t: Timing)
    requires Consistent(w.store) && DueAtOnce(w.store.queue)
    ensures DueAtOnce(Step(w, e, t).store.queue)
  {
    var queue, after := w.store.queue, Step(w, e, t).store.queue;
    RowCount(w, e, t);
    forall i | 0 <= i < |after| && after[i].destination == Group && after[i].attempts == 0
      ensures after[i].nextAttemptAt == after[i].createdAt
    {
      if i < |queue| {
        RowCases(w, e, t, i);
        assert queue[i] in queue;
      } else {
        AnnouncedRowFacts(queue, KeyOf(w.store, e.saving), e.saving, t.quiet);
      }
    }
  }

  lemma {:induction false} RunDueAtOnce(events: seq<Event>, t: Timing)
    ensures DueAtOnce(Run(events, t).store.queue)
  {
    if events != [] {
      var init := events[..|events| - 1];
      RunDueAtOnce(init, t);
      RunConsistent(init, t);
      StepDueAtOnce(Run(init, t), events[|events| - 1], t);
    }
  }

  /** In a queue ordered by creation the oldest due row is the first one. */
  lemma {:induction false} OldestIsFirst(queue: seq<Notice>, now: int, i: nat, j: nat)
    requires UniqueNotices(queue) && SortedBy(queue, ByCreation())
    requires i < j < |queue| && DueAt(now)(queue[i])
    ensures queue[j] !in Oldest(queue, now)
  {
    var keep := DueAt(now);
    var front, back := queue[..i + 1], queue[i + 1..];
    assert queue == front + back && front[..i] == queue[..i] && front == queue[..i] + [queue[i]];
    FilterConcat(front, back, keep);
    FilterSnoc(queue[..i], queue[i], keep);
    FilterSorted(queue, ByCreation(), keep);
    SortOfSorted(Filter(queue, keep), ByCreation());
    var first := Filter(front, keep)[0];
    assert Due(queue, now)[0] == first;
    FilterMembers(front, keep);
    assert first in front;
    var k :| 0 <= k < |front| && front[k] == first;
    assert queue[k] == first;
  }

  /** A row attempted while an older one of its slot stays pending: the older one is not due. */
  lemma {:induction false} OlderIsNotDue(w: World, e: Event, t: Timing, i: nat, j: nat)
    requires Consistent(w.store) && SortedBy(w.store.queue, ByCreation()) && !e.Save?
    requires i < j < |w.store.queue| && SlotOf(w.store.queue[i]) == SlotOf(w.store.queue[j])
    requires w.store.queue[j] in Tried(w.store.queue, e)
    requires |Step(w, e, t).store.queue| > i && Step(w, e, t).store.queue[i].state == Pending
    ensures w.store.queue[i].state == Pending && w.store.queue[i].nextAttemptAt > e.now
  {
    RowCases(w, e, t, i);
    if e.DeliverPending? {
      NotDueStaysExactly(w, e.now, e.accepted, t, i, j);
    } else if w.store.queue[i].nextAttemptAt <= e.now {
      OldestIsFirst(w.store.queue, e.now, i, j);
    }
  }

  /** A pending row that is not due any more since it was queued has been refused. */
  lemma {:induction false} NotDueWasRefused(w: World, n: Notice, now: int, backoff: nat)
    requires AllAccounted(w, backoff) && DueAtOnce(w.store.queue)
    requires n in w.store.queue && n.destination == Group && n.state == Pending
    requires n.createdAt <= now < n.nextAttemptAt
    ensures var tries := AttemptsFor(w, n.key);
      && |tries| == n.attempts > 0
      && (forall k :: 0 <= k < |tries| ==> !tries[k].ok)
      && n.nextAttemptAt == tries[|tries| - 1].at + backoff * |tries|
  {
    var i :| 0 <= i < |w.store.queue| && w.store.queue[i] == n;
    assert Accounted(n, AttemptsFor(w, n.key), backoff);
  }

  /** The event attempts the j-th row while the older i-th row of the same group slot stays pending. */
  ghost predicate Overtakes(w: World, e: Event, t: Timing, i: nat, j: nat) {
    var queue, after := w.store.queue, Step(w, e, t).store.queue;
    && i < j < |queue| && queue[i].destination == Group && SlotOf(queue[i]) == SlotOf(queue[j])
    && queue[j] in Tried(queue, e)
    && i < |after| && after[i].state == Pending
  }

  /** The row has been attempted, each time refused, and its back-off has not run out. */
  ghost predicate BackingOff(w: World, n: Notice, now: int, backoff: nat) {
    var tries := AttemptsFor(w, n.key);
    && n.state == Pending && |tries| == n.attempts > 0
    && (forall k :: 0 <= k < |tries| ==> !tries[k].ok)
    && now < n.nextAttemptAt == tries[|tries| - 1].at + backoff * |tries|
  }

  lemma {:induction false} OvertakenBacksOff(events: seq<Event>, e: Event, t: Timing, i: nat, j: nat)
    requires Clocked(events + [e]) && !e.Save? && Overtakes(Run(events, t), e, t, i, j)
    ensures BackingOff(Run(events, t), Run(events, t).store.queue[i], e.now, t.backoff)
  {
    var w := Run(events, t);
    var older := w.store.queue[i];
    RunConsistent(events, t);
    RunOrdered(events, e, t);
    RetriesAccounted(events, t);
    OlderIsNotDue(w, e, t, i, j);
    RunDueAtOnce(events, t);
    assert older in w.store.queue;
    NotDueWasRefused(w, older, e.now, t.backoff);
  }

  /** Only a back-off lets a group message be overtaken: if a newer one is attempted while an older one of
      the scope stays pending, the older one was refused before and its back-off has not run out. */
  lemma {:induction false} OvertakenWasRefused(events: seq<Event>, e: Event, t: Timing)
    requires Clocked(events + [e]) && !e.Save?
    ensures forall i: nat, j: nat :: Overtakes(Run(events, t), e, t, i, j) ==>
      BackingOff(Run(events, t), Run(events, t).store.queue[i], e.now, t.backoff)
  {
    forall i: nat, j: nat | Overtakes(Run(events, t), e, t, i, j)
      ensures BackingOff(Run(events, t), Run(events, t).store.queue[i], e.now, t.backoff)
    {
      OvertakenBacksOff(events, e, t, i, j);
    }
  }
}
