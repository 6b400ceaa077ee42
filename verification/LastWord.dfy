/** Whether the group's last word about a scope is true: what the group heard, against the plain history of
    evaluations. */
module LastWord {
  import opened Sequences
  import opened Notifications
  import opened QueueFacts
  import opened Runs
  import opened RunLaws
  import opened GroupLaws
  import opened GroupRuns
  import opened TimelineLaws
  import opened AlertLaws
  import opened Rounds

  /** The last message is an outage. A group that heard nothing has not heard of one. */
  ghost predicate EndsInOutage(heard: seq<Template>) { heard != [] && heard[|heard| - 1] == BotUnavailable }

  lemma {:induction false} AlternatingEnds(heard: seq<Template>)
    requires Alternating(heard, BotUnavailable)
    ensures EndsInOutage(heard) <==> |heard| % 2 == 1
  {
  }

  // ---------- one batch ----------

  lemma {:induction false} Continues(heard: seq<Template>, more: seq<Template>)
    requires Alternating(heard + more, BotUnavailable)
    ensures Alternating(heard, BotUnavailable)
    ensures Alternating(more, if |heard| % 2 == 0 then BotUnavailable else BotRecovered)
  {
    var all := heard + more;
    forall i | 0 <= i < |heard| ensures heard[i] == all[i] {}
    forall i | 0 <= i < |more| ensures more[i] == all[|heard| + i] {}
  }

  lemma {:induction false} AlternatingGrows(heard: seq<Template>, template: Template)
    requires Alternating(heard, BotUnavailable)
    ensures Alternating(heard + [template], BotUnavailable)
       <==> template == if |heard| % 2 == 0 then BotUnavailable else BotRecovered
  {
    var all := heard + [template];
    assert all[|heard|] == template;
  }

  lemma {:induction false} SurvivorOf(heard: seq<Template>, rows: seq<Notice>)
    requires ForGroup(rows) && Alternating(heard + Templates(rows), BotUnavailable)
    ensures var n := |rows|;
      Survivor(rows) ==
        if n % 2 == 1 && (|heard| % 2 == 0 || n == 1) then [rows[n - 1]]
        else if n > 0 && n % 2 == 0 && |heard| % 2 == 1 then [rows[n - 1]]
        else []
    ensures rows != [] ==>
      rows[|rows| - 1].template == if (|heard| + |rows|) % 2 == 1 then BotUnavailable else BotRecovered
  {
    Continues(heard, Templates(rows));
    if rows != [] {
      assert Templates(rows)[|rows| - 1] == rows[|rows| - 1].template;
    }
    if |heard| % 2 == 0 {
      OutageBatch(rows);
    } else {
      RecoveryBatch(rows);
    }
  }

  /** Messages that would continue the alternation one by one are delivered as one batch. The alternation
      goes on exactly when the group was not alerted or the batch has an odd number of rows, and the last
      word is the one all rows would leave exactly when it was not alerted, the number is even, or there is
      one row. */
  lemma {:induction false} BatchExactly(heard: seq<Template>, rows: seq<Notice>)
    requires ForGroup(rows) && Alternating(heard + Templates(rows), BotUnavailable)
    ensures Alternating(heard + Templates(Survivor(rows)), BotUnavailable)
       <==> |heard| % 2 == 0 || rows == [] || |rows| % 2 == 1
    ensures EndsInOutage(heard + Templates(Survivor(rows))) == EndsInOutage(heard + Templates(rows))
       <==> |heard| % 2 == 0 || |rows| % 2 == 0 || |rows| == 1
  {
    SurvivorOf(heard, rows);
    Continues(heard, Templates(rows));
    AlternatingEnds(heard);
    AlternatingEnds(heard + Templates(rows));
    if Survivor(rows) == [] {
      assert heard + Templates(Survivor(rows)) == heard;
    } else {
      var last := rows[|rows| - 1];
      assert Templates(Survivor(rows)) == [last.template];
      AlternatingGrows(heard, last.template);
    }
  }

  // ---------- messages in order ----------

  /** The group's rows about a scope are sent as far as they were heard, in order, and pending from there. */
  ghost predicate InOrder(mine: seq<Notice>, heard: seq<Template>) {
    && |heard| <= |mine| && heard == Templates(mine[..|heard|])
    && (forall i :: 0 <= i < |heard| ==> mine[i].state == Sent)
    && (forall i :: |heard| <= i < |mine| ==> mine[i].state == Pending)
  }

  /** No event attempts a message to the group about the scope while an older one stays pending. */
  ghost predicate NotOvertaken(events: seq<Event>, t: Timing, scope: string) {
    forall i: nat :: i < |events| && !events[i].Save? ==> NotOvertakenBy(Run(events[..i], t), events[i], t, scope)
  }

  ghost predicate NotOvertakenBy(w: World, e: Event, t: Timing, scope: string) {
    forall i: nat, j: nat :: Overtakes(w, e, t, i, j) ==> w.store.queue[i].key.scope != scope
  }

  lemma {:induction false} NotOvertakenPrefix(init: seq<Event>, e: Event, t: Timing, scope: string)
    requires NotOvertaken(init + [e], t, scope)
    ensures NotOvertaken(init, t, scope)
    ensures !e.Save? ==> NotOvertakenBy(Run(init, t), e, t, scope)
  {
    var all := init + [e];
    assert all[|init|] == e && all[..|init|] == init;
    forall i: nat | i < |init| && !init[i].Save? ensures NotOvertakenBy(Run(init[..i], t), init[i], t, scope) {
      assert all[..i] == init[..i] && all[i] == init[i];
    }
  }

  lemma {:induction false} FilterOrder(rows: seq<Notice>, keep: Notice -> bool, a: nat, b: nat) returns (i: nat, j: nat)
    requires a < b < |Filter(rows, keep)|
    ensures i < j < |rows| && rows[i] == Filter(rows, keep)[a] && rows[j] == Filter(rows, keep)[b]
  {
    var init, last := rows[..|rows| - 1], rows[|rows| - 1];
    if b < |Filter(init, keep)| {
      i, j := FilterOrder(init, keep, a, b);
    } else {
      FilterMembers(init, keep);
      assert Filter(init, keep)[a] in Filter(init, keep);
      i :| 0 <= i < |init| && init[i] == Filter(init, keep)[a];
      j := |rows| - 1;
    }
  }

  /** What a delivery does to a row of the group that neither fails for good nor is given up. */
  lemma {:induction false} KeptRow(w: World, e: Event, t: Timing, scope: string, i: nat)
    requires Consistent(w.store) && !e.Save? && GroupKept(Step(w, e, t).store.queue, scope)
    requires i < |GroupRows(w.store.queue, scope)|
    ensures |GroupRows(Step(w, e, t).store.queue, scope)| == |GroupRows(w.store.queue, scope)|
    ensures var n, m := GroupRows(w.store.queue, scope)[i], GroupRows(Step(w, e, t).store.queue, scope)[i];
      && n in w.store.queue && SlotOf(n) == GroupSlot(scope)
      && (if n in Tried(w.store.queue, e)
          then n.state == Pending && m == Delivered(n, e.now, n.key in e.accepted, t.backoff)
                && m.state == if n.key in e.accepted then Sent else Pending
          else m == n)
  {
    var queue, after := w.store.queue, Step(w, e, t).store.queue;
    var mine, settled := GroupRows(queue, scope), GroupRows(after, scope);
    RowsAfter(w, e, t, scope);
    FilterMembers(queue, InSlot(GroupSlot(scope)));
    assert mine[i] in mine && settled[i] in settled;
    var k :| 0 <= k < |queue| && queue[k] == mine[i];
    RowCases(w, e, t, k);
    assert mine[i] in Tried(queue, e) ==> mine[i].key in Keys(Tried(queue, e));
  }

  lemma {:induction false} OneTried(queue: seq<Notice>, e: Event, n: Notice)
    requires !e.Save? && n in Tried(queue, e)
    ensures Filter(Tried(queue, e), InSlot(SlotOf(n))) == [n]
  {
    if e.DeliverPending? {
      OnlyNewestIsTried(queue, e.now, n);
    } else {
      assert Tried(queue, e) == [] + [n];
      FilterSnoc([], n, InSlot(SlotOf(n)));
    }
  }

  lemma {:induction false} TriedOncePerSlot(queue: seq<Notice>, e: Event, n: Notice, m: Notice)
    requires !e.Save? && n in Tried(queue, e) && m in Tried(queue, e) && SlotOf(n) == SlotOf(m)
    ensures n == m
  {
    OneTried(queue, e, n);
    OneTried(queue, e, m);
  }

  lemma {:induction false} TriedByKey(queue: seq<Notice>, e: Event, n: Notice)
    requires UniqueNotices(queue) && !e.Save? && n in queue && n.key in Keys(Tried(queue, e))
    ensures n in Tried(queue, e)
  {
    TriedFacts(queue, e);
    var m :| m in Tried(queue, e) && m.key == n.key;
    SameKeySameRow(queue, n, m);
  }

  lemma {:induction false} StaysPending(w: World, e: Event, t: Timing, scope: string, a: nat)
    requires Consistent(w.store) && !e.Save? && GroupKept(Step(w, e, t).store.queue, scope)
    requires a < |w.store.queue| && SlotOf(w.store.queue[a]) == GroupSlot(scope)
    requires w.store.queue[a].state == Pending && w.store.queue[a] !in Tried(w.store.queue, e)
    ensures a < |Step(w, e, t).store.queue| && Step(w, e, t).store.queue[a].state == Pending
  {
    var n, after := w.store.queue[a], Step(w, e, t).store.queue;
    RowCases(w, e, t, a);
    assert n in w.store.queue;
    if n.key in Keys(Tried(w.store.queue, e)) {
      TriedByKey(w.store.queue, e, n);
    }
    FilterMembers(after, InSlot(GroupSlot(scope)));
    assert after[a] in after && InSlot(GroupSlot(scope))(after[a]);
    assert after[a] in GroupRows(after, scope);
  }

  /** Without overtaking, a row is not attempted while an older one of its slot is pending. */
  lemma {:induction false} NotBefore(w: World, e: Event, t: Timing, scope: string, k: nat, j: nat)
    requires Consistent(w.store) && !e.Save? && GroupKept(Step(w, e, t).store.queue, scope)
    requires NotOvertakenBy(w, e, t, scope)
    requires k < j < |GroupRows(w.store.queue, scope)|
    requires GroupRows(w.store.queue, scope)[k].state == Pending
    ensures GroupRows(w.store.queue, scope)[j] !in Tried(w.store.queue, e)
  {
    var queue := w.store.queue;
    var a, b := FilterOrder(queue, InSlot(GroupSlot(scope)), k, j);
    FilterMembers(queue, InSlot(GroupSlot(scope)));
    assert queue[a] in GroupRows(queue, scope) && queue[b] in GroupRows(queue, scope);
    if queue[b] in Tried(queue, e) {
      if queue[a] in Tried(queue, e) {
        TriedOncePerSlot(queue, e, queue[a], queue[b]);
      } else {
        StaysPending(w, e, t, scope, a);
        assert Overtakes(w, e, t, a, b);
      }
    }
  }

  // ---------- one event, in order ----------

  lemma {:induction false} NothingTried(w: World, e: Event, t: Timing, scope: string)
    requires Consistent(w.store) && !e.Save?
    requires forall n :: n in GroupRows(w.store.queue, scope) ==> n !in Tried(w.store.queue, e)
    ensures HeardIn(Attempts(Tried(w.store.queue, e), e.now, e.accepted), scope) == []
  {
    var queue := w.store.queue;
    TriedFacts(queue, e);
    FilterMembers(queue, InSlot(GroupSlot(scope)));
    forall n | n in Tried(queue, e) ensures !InSlot(GroupSlot(scope))(n) {
      assert n in queue;
    }
    FilterNone(Tried(queue, e), InSlot(GroupSlot(scope)));
    HeardOf(Tried(queue, e), e.now, e.accepted, scope);
  }

  lemma {:induction false} OneHeard(w: World, e: Event, t: Timing, scope: string, n: Notice)
    requires !e.Save? && n in Tried(w.store.queue, e) && SlotOf(n) == GroupSlot(scope)
    ensures HeardIn(Attempts(Tried(w.store.queue, e), e.now, e.accepted), scope)
         == if n.key in e.accepted then [n.template] else []
  {
    OneTried(w.store.queue, e, n);
    HeardFromSlot(Tried(w.store.queue, e), e.now, e.accepted, scope, n, true);
  }

  lemma {:induction false} FirstSettles(mine: seq<Notice>, after: seq<Notice>, heard: seq<Template>)
    requires InOrder(mine, heard) && |heard| < |mine| && |after| == |mine|
    requires forall i :: 0 <= i < |mine| && i != |heard| ==> after[i] == mine[i]
    requires SameMessage(mine[|heard|], after[|heard|])
    requires after[|heard|].state == Pending || after[|heard|].state == Sent
    ensures InOrder(after, heard + if after[|heard|].state == Sent then [mine[|heard|].template] else [])
  {
    var k := |heard|;
    assert after[..k] == mine[..k];
    if after[k].state == Sent {
      assert after[..k + 1] == mine[..k] + [after[k]];
      TemplatesSnoc(mine[..k], after[k]);
    } else {
      assert heard + [] == heard;
    }
  }

  lemma {:induction false} DeliveryInOrder(w: World, e: Event, t: Timing, scope: string)
    requires Consistent(w.store) && !e.Save? && GroupKept(Step(w, e, t).store.queue, scope)
    requires NotOvertakenBy(w, e, t, scope)
    requires InOrder(GroupRows(w.store.queue, scope), GroupHeard(w, scope))
    ensures InOrder(GroupRows(Step(w, e, t).store.queue, scope), GroupHeard(Step(w, e, t), scope))
  {
    var queue := w.store.queue;
    var mine, after := GroupRows(queue, scope), GroupRows(Step(w, e, t).store.queue, scope);
    var heard, k := GroupHeard(w, scope), |GroupHeard(w, scope)|;
    RowsAfter(w, e, t, scope);
    HeardAppends(w.log, Attempts(Tried(queue, e), e.now, e.accepted), scope);
    forall i | 0 <= i < |mine| && i != k ensures mine[i] !in Tried(queue, e) && after[i] == mine[i] {
      KeptRow(w, e, t, scope, i);
      if k < i {
        NotBefore(w, e, t, scope, k, i);
      }
    }
    if k < |mine| && mine[k] in Tried(queue, e) {
      KeptRow(w, e, t, scope, k);
      OneHeard(w, e, t, scope, mine[k]);
      FirstSettles(mine, after, heard);
    } else {
      if k < |mine| {
        KeptRow(w, e, t, scope, k);
      }
      assert after == mine;
      NothingTried(w, e, t, scope);
      assert heard + [] == heard;
    }
  }

  lemma {:induction false} SaveInOrder(s: Store, sv: Saving, quiet: int, heard: seq<Template>, scope: string)
    requires InOrder(GroupRows(s.queue, scope), heard)
    ensures InOrder(GroupRows(Saved(s, sv, quiet).queue, scope), heard)
  {
    var mine := GroupRows(s.queue, scope);
    SaveGroupRows(s, sv, quiet, scope);
    if sv.scope == scope && NewsOf(s, sv).Some? {
      assert (mine + [NewsOf(s, sv).value])[..|heard|] == mine[..|heard|];
    }
  }

  /** As long as no message is overtaken, given up or failed for good, the group hears its messages in the
      order of the queue. */
  lemma {:induction false} RunInOrder(events: seq<Event>, t: Timing, scope: string)
    requires NotOvertaken(events, t, scope) && GroupKept(Run(events, t).store.queue, scope)
    ensures InOrder(GroupRows(Run(events, t).store.queue, scope), GroupHeard(Run(events, t), scope))
  {
    if events != [] {
      var init, e := events[..|events| - 1], events[|events| - 1];
      assert events == init + [e];
      RunSnoc(init, e, t);
      RunConsistent(init, t);
      NotOvertakenPrefix(init, e, t, scope);
      KeptBefore(Run(init, t), e, t, scope);
      RunInOrder(init, t, scope);
      if e.Save? {
        SaveInOrder(Run(init, t).store, e.saving, t.quiet, GroupHeard(Run(init, t), scope), scope);
      } else {
        DeliveryInOrder(Run(init, t), e, t, scope);
      }
    }
  }

  // ---------- the rows of a run alternate ----------

  lemma {:induction false} RowsAlternate(events: seq<Event>, t: Timing, scope: string)
    requires Clocked(events) && GroupKept(Run(events, t).store.queue, scope)
    ensures Alternating(Templates(GroupRows(Run(events, t).store.queue, scope)), BotUnavailable)
  {
    if events != [] {
      var init, e := events[..|events| - 1], events[|events| - 1];
      var w := Run(init, t);
      assert events == init + [e];
      RunSnoc(init, e, t);
      RunConsistent(init, t);
      ClockedPrefix(init, e);
      KeptBefore(w, e, t, scope);
      RowsAlternate(init, t, scope);
      if e.Save? {
        RunOrdered(init, e, t);
        SaveGroupRows(w.store, e.saving, t.quiet, scope);
        AllHeardRows(w.store.queue, scope);
        if e.saving.scope == scope && NewsOf(w.store, e.saving).Some? {
          NewsAlternates(w.store, e.saving);
        }
      } else {
        RowsAfter(w, e, t, scope);
        SettledTemplates(GroupRows(w.store.queue, scope), Keys(GivenUp(w.store.queue, e)),
                         Keys(Tried(w.store.queue, e)), e.accepted, e.now, t.backoff);
      }
    }
  }

  lemma {:induction false} RunSorted(events: seq<Event>, t: Timing)
    requires Clocked(events)
    ensures SortedBy(Run(events, t).store.queue, ByCreation())
  {
    if events != [] {
      var last := events[|events| - 1];
      ClockedGrows(events, last);
      RunOrdered(events, last, t);
    }
  }

  lemma {:induction false} EndsWhileAlerted(queue: seq<Notice>, scope: string)
    requires GroupKept(queue, scope) && SortedBy(queue, ByCreation())
    ensures EndsInOutage(Templates(GroupRows(queue, scope))) <==> GroupAlerted(queue, scope)
  {
    KeptAlert(queue, scope);
    var mine := GroupRows(queue, scope);
    assert mine != [] ==> Templates(mine)[|mine| - 1] == mine[|mine| - 1].template;
  }

  /** The rows of a run, sent or pending, end in an outage exactly while one is open. */
  lemma {:induction false} RowsTellTruth(events: seq<Event>, t: Timing, scope: string)
    requires Clocked(events) && NewsKept(events, t, scope) && GroupKept(Run(events, t).store.queue, scope)
    ensures EndsInOutage(Templates(GroupRows(Run(events, t).store.queue, scope)))
       <==> OutageOpen(History(events, scope))
  {
    AlertedExactlyWhileOutageOpen(events, t, scope);
    RunSorted(events, t);
    EndsWhileAlerted(Run(events, t).store.queue, scope);
  }

  // ---------- the last word ----------

  function Pendings(): Notice -> bool { (n: Notice) => n.state == Pending }

  /** The group's messages about the scope that it has yet to hear. */
  function PendingRows(queue: seq<Notice>, scope: string): seq<Notice> { Filter(GroupRows(queue, scope), Pendings()) }

  lemma {:induction false} PendingSplit(sent: seq<Notice>, rest: seq<Notice>)
    requires forall n :: n in sent ==> n.state == Sent
    requires forall n :: n in rest ==> n.state == Pending
    ensures Filter(sent + rest, Pendings()) == rest
  {
    FilterConcat(sent, rest, Pendings());
    FilterNone(sent, Pendings());
    FilterAll(rest, Pendings());
  }

  lemma {:induction false} TemplatesConcat(a: seq<Notice>, b: seq<Notice>)
    ensures Templates(a + b) == Templates(a) + Templates(b)
  {
  }

  lemma {:induction false} PendingAreRest(mine: seq<Notice>, heard: seq<Template>)
    requires InOrder(mine, heard)
    ensures heard + Templates(Filter(mine, Pendings())) == Templates(mine)
  {
    var sent, rest := mine[..|heard|], mine[|heard|..];
    assert mine == sent + rest;
    PendingSplit(sent, rest);
    TemplatesConcat(sent, rest);
  }

  lemma {:induction false} EndsAlikeExactly(heard: seq<Template>, rest: seq<Template>)
    requires Alternating(heard + rest, BotUnavailable)
    ensures Alternating(heard, BotUnavailable)
    ensures EndsInOutage(heard) == EndsInOutage(heard + rest) <==> |rest| % 2 == 0
  {
    Continues(heard, rest);
    AlternatingEnds(heard);
    AlternatingEnds(heard + rest);
  }

  /** What the group has heard and what it has yet to hear, in a run without overtaking. */
  lemma {:induction false} HeardAndPending(events: seq<Event>, t: Timing, scope: string)
    requires Clocked(events) && NewsKept(events, t, scope) && NotOvertaken(events, t, scope)
    requires GroupKept(Run(events, t).store.queue, scope)
    ensures var w := Run(events, t);
            var all := GroupHeard(w, scope) + Templates(PendingRows(w.store.queue, scope));
      Alternating(all, BotUnavailable) && (EndsInOutage(all) <==> OutageOpen(History(events, scope)))
  {
    RunInOrder(events, t, scope);
    RowsAlternate(events, t, scope);
    RowsTellTruth(events, t, scope);
    PendingAreRest(GroupRows(Run(events, t).store.queue, scope), GroupHeard(Run(events, t), scope));
  }

  /** For any messenger and any interleaving in which no message to the group about the scope was overtaken,
      given up or failed for good and its keys were fresh: the messages heard alternate, and the last of them
      is an outage exactly while one is open, if and only if an even number of messages is still pending. */
  lemma {:induction false} LastWordTrueExactly(events: seq<Event>, t: Timing, scope: string)
    requires Clocked(events) && NewsKept(events, t, scope) && NotOvertaken(events, t, scope)
    requires GroupKept(Run(events, t).store.queue, scope)
    ensures var heard, pending := GroupHeard(Run(events, t), scope), PendingRows(Run(events, t).store.queue, scope);
      && Alternating(heard, BotUnavailable)
      && (EndsInOutage(heard) == OutageOpen(History(events, scope)) <==> |pending| % 2 == 0)
  {
    HeardAndPending(events, t, scope);
    EndsAlikeExactly(GroupHeard(Run(events, t), scope), Templates(PendingRows(Run(events, t).store.queue, scope)));
  }

  // ---------- the last word after a batch ----------

  /** The slot's pending rows are all due, and the messenger takes them. */
  ghost predicate AllDue(queue: seq<Notice>, e: Event, scope: string)
    requires e.DeliverPending?
  {
    forall n :: n in PendingRows(queue, scope) ==> n.nextAttemptAt <= e.now && n.key in e.accepted
  }

  lemma {:induction false} DueInSlot(queue: seq<Notice>, e: Event, scope: string)
    requires SortedBy(queue, ByCreation()) && e.DeliverPending? && AllDue(queue, e, scope)
    ensures Filter(Due(queue, e.now), InSlot(GroupSlot(scope))) == PendingRows(queue, scope)
  {
    var slot := InSlot(GroupSlot(scope));
    FilterSort(Filter(queue, DueAt(e.now)), ByCreation(), slot);
    FilterSwap(queue, DueAt(e.now), slot);
    FilterMembers(GroupRows(queue, scope), Pendings());
    forall n | n in GroupRows(queue, scope) ensures DueAt(e.now)(n) == Pendings()(n) {
      assert Pendings()(n) ==> n in PendingRows(queue, scope);
    }
    FilterAgrees(GroupRows(queue, scope), DueAt(e.now), Pendings());
    FilterSorted(queue, ByCreation(), slot);
    FilterSorted(GroupRows(queue, scope), ByCreation(), Pendings());
    SortOfSorted(PendingRows(queue, scope), ByCreation());
  }

  lemma {:induction false} SurvivorTaken(rows: seq<Notice>, accepted: set<Key>)
    requires forall n :: n in rows ==> n.key in accepted
    ensures Filter(Survivor(rows), AcceptedIn(accepted)) == Survivor(rows)
  {
    FilterAll(Survivor(rows), AcceptedIn(accepted));
  }

  /** Of the slot's pending rows the group hears what survives of them. */
  lemma {:induction false} BatchHeard(w: World, e: Event, t: Timing, scope: string)
    requires SortedBy(w.store.queue, ByCreation()) && e.DeliverPending? && AllDue(w.store.queue, e, scope)
    ensures GroupHeard(Step(w, e, t), scope)
         == GroupHeard(w, scope) + Templates(Survivor(PendingRows(w.store.queue, scope)))
  {
    var queue := w.store.queue;
    var newest := Collapse(Due(queue, e.now)).newest;
    DueInSlot(queue, e, scope);
    CollapseBySlot(Due(queue, e.now), GroupSlot(scope));
    SurvivorTaken(PendingRows(queue, scope), e.accepted);
    HeardOf(newest, e.now, e.accepted, scope);
    HeardAppends(w.log, Attempts(newest, e.now, e.accepted), scope);
  }

  lemma {:induction false} PendingForGroup(queue: seq<Notice>, scope: string)
    ensures ForGroup(PendingRows(queue, scope))
  {
    var rows := PendingRows(queue, scope);
    FilterMembers(queue, InSlot(GroupSlot(scope)));
    FilterMembers(GroupRows(queue, scope), Pendings());
    forall i | 0 <= i < |rows| ensures rows[i].destination == Group { assert rows[i] in rows; }
  }

  /** After such a run all that is pending is delivered as one batch. The messages heard go on alternating
      exactly when the group was not alerted or the batch has an odd number of rows or none; the last word
      is then true exactly when it was not alerted, the number is even, or there is one row. */
  lemma {:induction false} BatchTrueExactly(events: seq<Event>, e: Event, t: Timing, scope: string)
    requires Clocked(events) && NewsKept(events, t, scope) && NotOvertaken(events, t, scope)
    requires GroupKept(Run(events, t).store.queue, scope)
    requires e.DeliverPending? && AllDue(Run(events, t).store.queue, e, scope)
    ensures var told := |GroupHeard(Run(events, t), scope)|;
            var batch := |PendingRows(Run(events, t).store.queue, scope)|;
            var heard := GroupHeard(Run(events + [e], t), scope);
      && (Alternating(heard, BotUnavailable) <==> told % 2 == 0 || batch == 0 || batch % 2 == 1)
      && (EndsInOutage(heard) == OutageOpen(History(events + [e], scope)) <==>
            told % 2 == 0 || batch % 2 == 0 || batch == 1)
  {
    var w := Run(events, t);
    HeardAndPending(events, t, scope);
    RunSorted(events, t);
    RunSnoc(events, e, t);
    BatchHeard(w, e, t, scope);
    PendingForGroup(w.store.queue, scope);
    BatchExactly(GroupHeard(w, scope), PendingRows(w.store.queue, scope));
    assert (events + [e])[..|events|] == events;
  }

  // ---------- runs without a crowd ----------

  /** For any messenger and any interleaving: while no news for the group is queued behind a pending row and
      keys are fresh, once everything is sent the group's last word is an outage exactly while one is open. */
  lemma {:induction false} LastWordIsTrue(events: seq<Event>, t: Timing, scope: string)
    requires Clocked(events) && Uncrowded(events, t, scope) && NewsKept(events, t, scope)
    requires AllSent(Run(events, t).store.queue, scope)
    ensures EndsInOutage(GroupHeard(Run(events, t), scope)) <==> OutageOpen(History(events, scope))
  {
    RunTidy(events, t, scope);
    FilterAll(GroupRows(Run(events, t).store.queue, scope), WasSent());
    RowsTellTruth(events, t, scope);
  }

  /** In rounds whose messages for the group are taken and whose keys are fresh, the group's last word is
      true after every round. */
  lemma {:induction false} RoundsTellTruth(rounds: seq<Round>, t: Timing, scope: string)
    requires Ordered(rounds) && GroupServed(rounds, t) && FreshKeys(EventsOf(rounds), t, scope)
    ensures EndsInOutage(GroupHeard(Play(rounds, t), scope)) <==> OutageOpen(History(EventsOf(rounds), scope))
  {
    RoundsServed(rounds, t, scope);
    RoundsClocked(rounds);
    FreshKeysKeepNews(EventsOf(rounds), t, scope);
    LastWordIsTrue(EventsOf(rounds), t, scope);
  }
}
