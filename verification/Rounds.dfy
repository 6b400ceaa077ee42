/** The monitoring loop's own order of events: every round evaluates each scope once and then delivers.
    When the messenger takes the messages for the group, what is proved about runs applies without
    further conditions. */
module Rounds {
  import opened Sequences
  import opened Notifications
  import opened Runs
  import opened RunLaws
  import opened GroupLaws
  import opened GroupRuns
  import opened AlertLaws
  import TimelineLaws

  /** One run of the loop, with the messages the messenger takes. */
  datatype Round = Round(now: int, savings: seq<Saving>, accepted: set<Key>)

  ghost predicate WellFormed(r: Round) {
    && (forall i :: 0 <= i < |r.savings| ==> r.savings[i].at == r.now)
    && (forall i, j :: 0 <= i < j < |r.savings| ==> r.savings[i].scope != r.savings[j].scope)
  }

  ghost predicate Ordered(rounds: seq<Round>) {
    && (forall i :: 0 <= i < |rounds| ==> WellFormed(rounds[i]))
    && (forall i, j :: 0 <= i < j < |rounds| ==> rounds[i].now <= rounds[j].now)
  }

  function Saves(savings: seq<Saving>): (events: seq<Event>)
    ensures |events| == |savings|
  {
    seq(|savings|, i requires 0 <= i < |savings| => Save(savings[i]))
  }

  function EventsOf(rounds: seq<Round>): seq<Event> {
    if rounds == [] then []
    else
      var r := rounds[|rounds| - 1];
      EventsOf(rounds[..|rounds| - 1]) + Saves(r.savings) + [DeliverPending(r.now, r.accepted)]
  }

  function Play(rounds: seq<Round>, t: Timing): World { Run(EventsOf(rounds), t) }

  /** The world as it stands when the round delivers. */
  function Evaluated(rounds: seq<Round>, r: Round, t: Timing): World { Run(EventsOf(rounds) + Saves(r.savings), t) }

  /** The messenger takes the round's messages for the group, whatever it does with the others. */
  ghost predicate TakesGroup(rounds: seq<Round>, r: Round, t: Timing) {
    forall n :: n in Evaluated(rounds, r, t).store.queue && n.destination == Group && n.state == Pending ==>
        n.key in r.accepted
  }

  ghost predicate GroupServed(rounds: seq<Round>, t: Timing) {
    forall i :: 0 <= i < |rounds| ==> TakesGroup(rounds[..i], rounds[i], t)
  }

  lemma {:induction false} RoundsPrefix(rounds: seq<Round>, r: Round, t: Timing)
    requires Ordered(rounds + [r]) && GroupServed(rounds + [r], t)
    ensures Ordered(rounds) && GroupServed(rounds, t) && WellFormed(r) && TakesGroup(rounds, r, t)
    ensures rounds != [] ==> rounds[|rounds| - 1].now <= r.now
  {
    var all := rounds + [r];
    assert all[|rounds|] == r && all[..|rounds|] == rounds;
    forall i | 0 <= i < |rounds| ensures TakesGroup(rounds[..i], rounds[i], t) && WellFormed(rounds[i]) {
      assert all[i] == rounds[i] && all[..i] == rounds[..i];
    }
    forall i, j | 0 <= i < j < |rounds| ensures rounds[i].now <= rounds[j].now {
      assert all[i].now <= all[j].now;
    }
    if rounds != [] {
      assert all[|rounds| - 1].now <= all[|rounds|].now;
    }
  }

  // ---------- the clock ----------

  lemma {:induction false} ClockedGrows(events: seq<Event>, e: Event)
    requires Clocked(events) && (events != [] ==> TimeOf(events[|events| - 1]) <= TimeOf(e))
    ensures Clocked(events + [e])
  {
    var all := events + [e];
    forall i, j | 0 <= i < j < |all| ensures TimeOf(all[i]) <= TimeOf(all[j]) {
      if j == |events| && i < |events| - 1 {
        assert TimeOf(events[i]) <= TimeOf(events[|events| - 1]);
      }
    }
  }

  lemma {:induction false} SavesSnoc(events: seq<Event>, savings: seq<Saving>, sv: Saving)
    ensures events + Saves(savings + [sv]) == events + Saves(savings) + [Save(sv)]
  {
  }

  lemma {:induction false} SavesClocked(events: seq<Event>, savings: seq<Saving>, now: int)
    requires Clocked(events) && (events != [] ==> TimeOf(events[|events| - 1]) <= now)
    requires forall i :: 0 <= i < |savings| ==> savings[i].at == now
    ensures var all := events + Saves(savings); Clocked(all) && (all != [] ==> TimeOf(all[|all| - 1]) <= now)
  {
    if savings == [] {
      assert events + Saves(savings) == events;
    } else {
      var init, sv := savings[..|savings| - 1], savings[|savings| - 1];
      SavesClocked(events, init, now);
      assert savings == init + [sv];
      SavesSnoc(events, init, sv);
      ClockedGrows(events + Saves(init), Save(sv));
    }
  }

  lemma {:induction false} RoundsClocked(rounds: seq<Round>)
    requires Ordered(rounds)
    ensures Clocked(EventsOf(rounds))
    ensures rounds != [] ==>
        EventsOf(rounds) != [] && TimeOf(EventsOf(rounds)[|EventsOf(rounds)| - 1]) == rounds[|rounds| - 1].now
    ensures rounds == [] ==> EventsOf(rounds) == []
  {
    if rounds != [] {
      var init, r := rounds[..|rounds| - 1], rounds[|rounds| - 1];
      RoundsClocked(init);
      SavesClocked(EventsOf(init), r.savings, r.now);
      ClockedGrows(EventsOf(init) + Saves(r.savings), DeliverPending(r.now, r.accepted));
    }
  }

  // ---------- the group's rows within a round ----------

  ghost predicate AllSent(queue: seq<Notice>, scope: string) {
    forall n :: n in GroupRows(queue, scope) ==> n.state == Sent
  }

  /** All rows are sent but perhaps the last, which is the round's news. */
  ghost predicate SentButNews(mine: seq<Notice>, now: int) {
    forall i :: 0 <= i < |mine| ==>
      mine[i].state == Sent || (i == |mine| - 1 && mine[i].state == Pending && mine[i].nextAttemptAt == now)
  }

  lemma {:induction false} SaveElsewhere(events: seq<Event>, sv: Saving, t: Timing, scope: string)
    requires sv.scope != scope
    ensures GroupRows(Run(events + [Save(sv)], t).store.queue, scope) == GroupRows(Run(events, t).store.queue, scope)
  {
    RunSnoc(events, Save(sv), t);
    SaveGroupRows(Run(events, t).store, sv, t.quiet, scope);
  }

  lemma {:induction false} SavesElsewhere(events: seq<Event>, savings: seq<Saving>, t: Timing, scope: string)
    requires forall i :: 0 <= i < |savings| ==> savings[i].scope != scope
    ensures GroupRows(Run(events + Saves(savings), t).store.queue, scope)
        == GroupRows(Run(events, t).store.queue, scope)
  {
    if savings == [] {
      assert events + Saves(savings) == events;
    } else {
      var init, sv := savings[..|savings| - 1], savings[|savings| - 1];
      var before := events + Saves(init);
      assert savings == init + [sv];
      SavesSnoc(events, init, sv);
      assert events + Saves(savings) == before + [Save(sv)];
      SavesElsewhere(events, init, t, scope);
      SaveElsewhere(before, sv, t, scope);
    }
  }

  lemma {:induction false} SavesPrefix(now: int, savings: seq<Saving>, sv: Saving, accepted: set<Key>)
    requires WellFormed(Round(now, savings + [sv], accepted))
    ensures WellFormed(Round(now, savings, accepted)) && sv.at == now
    ensures forall i :: 0 <= i < |savings| ==> savings[i].scope != sv.scope
  {
    var all := savings + [sv];
    assert all[|savings|] == sv;
    forall i | 0 <= i < |savings| ensures savings[i].at == now && savings[i].scope != sv.scope {
      assert all[i] == savings[i];
    }
    forall i, j | 0 <= i < j < |savings| ensures savings[i].scope != savings[j].scope {
      assert all[i].scope != all[j].scope;
    }
  }

  /** The round's evaluations find no pending row of their own scope, and add at most one. */
  lemma {:induction false} SavesAddNews(events: seq<Event>, savings: seq<Saving>, now: int, accepted: set<Key>,
                                        t: Timing, scope: string)
    requires WellFormed(Round(now, savings, accepted))
    requires Uncrowded(events, t, scope) && AllSent(Run(events, t).store.queue, scope)
    ensures Uncrowded(events + Saves(savings), t, scope)
    ensures SentButNews(GroupRows(Run(events + Saves(savings), t).store.queue, scope), now)
  {
    if savings == [] {
      assert events + Saves(savings) == events;
      var mine := GroupRows(Run(events, t).store.queue, scope);
      assert forall i :: 0 <= i < |mine| ==> mine[i] in mine;
    } else {
      var init, sv := savings[..|savings| - 1], savings[|savings| - 1];
      var before := events + Saves(init);
      assert savings == init + [sv];
      SavesPrefix(now, init, sv, accepted);
      SavesAddNews(events, init, now, accepted, t, scope);
      SavesSnoc(events, init, sv);
      RunSnoc(before, Save(sv), t);
      SaveGroupRows(Run(before, t).store, sv, t.quiet, scope);
      if sv.scope == scope {
        SavesElsewhere(events, init, t, scope);
        var mine := GroupRows(Run(before, t).store.queue, scope);
        assert forall i :: 0 <= i < |mine| ==> mine[i] in mine;
      }
      UncrowdedGrows(before, Save(sv), t, scope);
    }
  }

  lemma {:induction false} UncrowdedGrows(events: seq<Event>, e: Event, t: Timing, scope: string)
    requires Uncrowded(events, t, scope)
    requires e.Save? && e.saving.scope == scope && NewsOf(Run(events, t).store, e.saving).Some?
      ==> NonePending(Run(events, t).store.queue, scope)
    ensures Uncrowded(events + [e], t, scope)
  {
    var all := events + [e];
    assert all[..|events|] == events;
    forall i | 0 <= i < |all| ensures UncrowdedAt(all, t, i, scope) {
      if i < |events| {
        assert UncrowdedAt(events, t, i, scope);
        assert all[..i] == events[..i];
      }
    }
  }

  lemma {:induction false} NewsIsLone(queue: seq<Notice>, scope: string, now: int, n: Notice)
    requires SentButNews(GroupRows(queue, scope), now)
    requires n in queue && SlotOf(n) == GroupSlot(scope) && n.state == Pending
    ensures Lone(queue, n) && n.nextAttemptAt == now
  {
    var mine := GroupRows(queue, scope);
    FilterMembers(queue, InSlot(GroupSlot(scope)));
    assert InSlot(GroupSlot(scope))(n);
    var k :| 0 <= k < |mine| && mine[k] == n;
    forall m | m in queue && SlotOf(m) == GroupSlot(scope) && m.state == Pending ensures m == n {
      assert InSlot(GroupSlot(scope))(m);
      var i :| 0 <= i < |mine| && mine[i] == m;
    }
  }

  lemma {:induction false} DeliverySends(w: World, now: int, accepted: set<Key>, t: Timing, scope: string)
    requires Consistent(w.store) && SentButNews(GroupRows(w.store.queue, scope), now)
    requires forall n :: n in w.store.queue && n.destination == Group && n.state == Pending ==> n.key in accepted
    ensures AllSent(Step(w, DeliverPending(now, accepted), t).store.queue, scope)
  {
    var e := DeliverPending(now, accepted);
    var queue, after := w.store.queue, Step(w, e, t).store.queue;
    FilterMembers(queue, InSlot(GroupSlot(scope)));
    FilterMembers(after, InSlot(GroupSlot(scope)));
    forall m | m in GroupRows(after, scope) ensures m.state == Sent {
      var i :| 0 <= i < |after| && after[i] == m;
      var n := queue[i];
      RowCases(w, e, t, i);
      assert n in queue && InSlot(GroupSlot(scope))(n);
      assert n in GroupRows(queue, scope);
      if n.state == Pending {
        NewsIsLone(queue, scope, now, n);
        LoneSurvives(queue, now, n);
        assert n.key in Keys(Tried(queue, e));
      }
    }
  }

  lemma {:induction false} RoundsServed(rounds: seq<Round>, t: Timing, scope: string)
    requires Ordered(rounds) && GroupServed(rounds, t)
    ensures Uncrowded(EventsOf(rounds), t, scope) && AllSent(Play(rounds, t).store.queue, scope)
  {
    if rounds != [] {
      var init, r := rounds[..|rounds| - 1], rounds[|rounds| - 1];
      assert rounds == init + [r];
      RoundsPrefix(init, r, t);
      RoundsServed(init, t, scope);
      var events := EventsOf(init) + Saves(r.savings);
      SavesAddNews(EventsOf(init), r.savings, r.now, r.accepted, t, scope);
      UncrowdedGrows(events, DeliverPending(r.now, r.accepted), t, scope);
      RunSnoc(events, DeliverPending(r.now, r.accepted), t);
      RunConsistent(events, t);
      DeliverySends(Run(events, t), r.now, r.accepted, t, scope);
    }
  }

  /** In rounds whose messages for the group are taken, those about a scope strictly alternate between
      outage and recovery, beginning with an outage, and none is left waiting. */
  lemma {:induction false} RoundsAlternate(rounds: seq<Round>, t: Timing, scope: string)
    requires Ordered(rounds) && GroupServed(rounds, t)
    ensures Alternating(GroupHeard(Play(rounds, t), scope), BotUnavailable)
    ensures AllSent(Play(rounds, t).store.queue, scope)
  {
    RoundsServed(rounds, t, scope);
    RoundsClocked(rounds);
    GroupMessagesAlternate(EventsOf(rounds), t, scope);
  }

  /** And with fresh keys the group counts as alerted exactly while an outage is open. */
  lemma {:induction false} RoundsAlert(rounds: seq<Round>, t: Timing, scope: string)
    requires Ordered(rounds) && GroupServed(rounds, t)
    requires TimelineLaws.FreshKeys(EventsOf(rounds), t, scope)
    ensures GroupAlerted(Play(rounds, t).store.queue, scope)
        <==> OutageOpen(TimelineLaws.History(EventsOf(rounds), scope))
  {
    RoundsServed(rounds, t, scope);
    RoundsClocked(rounds);
    FreshKeysKeepNews(EventsOf(rounds), t, scope);
    AlertedExactlyWhileOutageOpen(EventsOf(rounds), t, scope);
  }
}
