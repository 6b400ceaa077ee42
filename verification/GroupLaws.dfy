/** What concerns the group in one step: how a batch of its messages collapses, and what an evaluation
    adds to its rows. */
module GroupLaws {
  import opened Domain
  import opened Sequences
  import opened Notifications
  import opened QueueFacts
  import opened Runs
  import opened RunLaws

  // ---------- one delivery ----------

  /** Within one delivery a slot is attempted at most once, and with its newest due row. */
  lemma {:induction false} OnlyNewestIsTried(queue: seq<Notice>, now: int, n: Notice)
    requires n in Collapse(Due(queue, now)).newest
    ensures var mine := Filter(Due(queue, now), InSlot(SlotOf(n)));
      && mine != [] && n == mine[|mine| - 1]
      && Filter(Collapse(Due(queue, now)).newest, InSlot(SlotOf(n))) == [n]
  {
    var newest := Collapse(Due(queue, now)).newest;
    CollapseBySlot(Due(queue, now), SlotOf(n));
    FilterMembers(newest, InSlot(SlotOf(n)));
    assert InSlot(SlotOf(n))(n);
    assert n in Filter(newest, InSlot(SlotOf(n)));
  }

  function Opposite(template: Template): Template {
    if template == BotUnavailable then BotRecovered else BotUnavailable
  }

  /** Group messages that alternate between outage and recovery, beginning with `first`. */
  ghost predicate Alternating(templates: seq<Template>, first: Template) {
    forall i :: 0 <= i < |templates| ==> templates[i] == if i % 2 == 0 then first else Opposite(first)
  }

  function Templates(rows: seq<Notice>): seq<Template> {
    seq(|rows|, i requires 0 <= i < |rows| => rows[i].template)
  }

  ghost predicate ForGroup(rows: seq<Notice>) { forall i :: 0 <= i < |rows| ==> rows[i].destination == Group }

  /** An unsent outage and its recovery cancel: of a due batch that begins with an outage the last
      outage is sent when the number of rows is odd, and nothing when it is even. */
  lemma {:induction false} OutageBatch(rows: seq<Notice>)
    requires ForGroup(rows) && Alternating(Templates(rows), BotUnavailable)
    ensures Survivor(rows) == if |rows| % 2 == 1 then [rows[|rows| - 1]] else []
  {
    if rows != [] {
      var init := rows[..|rows| - 1];
      assert Templates(init) == Templates(rows)[..|init|];
      OutageBatch(init);
      assert Templates(rows)[|init|] == rows[|init|].template;
      if init != [] {
        assert Templates(rows)[|init| - 1] == init[|init| - 1].template;
      }
    }
  }

  /** Of a due batch that begins with a recovery, that recovery is sent only when it is alone: an
      outage that follows replaces it, and a further recovery cancels that outage, so that the group,
      told of an outage before, hears nothing. */
  lemma {:induction false} RecoveryBatch(rows: seq<Notice>)
    requires ForGroup(rows) && Alternating(Templates(rows), BotRecovered)
    ensures Survivor(rows) == if rows != [] && (|rows| == 1 || |rows| % 2 == 0) then [rows[|rows| - 1]] else []
  {
    if rows != [] {
      var init := rows[..|rows| - 1];
      assert Templates(init) == Templates(rows)[..|init|];
      RecoveryBatch(init);
      assert Templates(rows)[|init|] == rows[|init|].template;
      if init != [] {
        assert Templates(rows)[|init| - 1] == init[|init| - 1].template;
      }
    }
  }

  /** When a message goes out, another message of its slot stays pending exactly when it is not due. */
  lemma {:induction false} NotDueStaysExactly(w: World, now: int, accepted: set<Key>, t: Timing, i: nat, j: nat)
    requires Consistent(w.store)
    requires i < |w.store.queue| && j < |w.store.queue| && i != j
    requires w.store.queue[j] in Collapse(Due(w.store.queue, now)).newest
    requires SlotOf(w.store.queue[i]) == SlotOf(w.store.queue[j])
    ensures Step(w, DeliverPending(now, accepted), t).store.queue[i].state == Pending
       <==> w.store.queue[i].state == Pending && w.store.queue[i].nextAttemptAt > now
  {
    var queue := w.store.queue;
    var n, m := queue[i], queue[j];
    var e := DeliverPending(now, accepted);
    RowCases(w, e, t, i);
    OnlyNewestIsTried(queue, now, m);
    var newest := Collapse(Due(queue, now)).newest;
    FilterMembers(newest, InSlot(SlotOf(m)));
    assert InSlot(SlotOf(m))(n);
    assert n != m && n !in newest;
    DueMembers(queue, now);
    if n.state == Pending && n.nextAttemptAt <= now {
      CollapseMembers(Due(queue, now));
      assert n in Collapse(Due(queue, now)).dropped;
      assert n.key in Keys(GivenUp(queue, e));
    }
    if n.key in Keys(GivenUp(queue, e)) {
      TriedFacts(queue, e);
      var k :| k in GivenUp(queue, e) && k.key == n.key;
      SameKeySameRow(queue, n, k);
    }
  }

  // ---------- the group's rows ----------

  function GroupSlot(scope: string): Slot { Slot(scope, Group) }

  function GroupRows(queue: seq<Notice>, scope: string): seq<Notice> { Filter(queue, InSlot(GroupSlot(scope))) }

  /** The rows `group_alerted` looks at: those the group has heard or still may hear. */
  function HeardBy(scope: string): Notice -> bool { (n: Notice) => Heard(n, scope) }

  function HeardRows(queue: seq<Notice>, scope: string): seq<Notice> { Filter(queue, HeardBy(scope)) }

  lemma {:induction false} HeardAmongGroup(queue: seq<Notice>, scope: string)
    ensures HeardRows(queue, scope) == Filter(GroupRows(queue, scope), HeardBy(scope))
  {
    FilterWeaker(queue, InSlot(GroupSlot(scope)), HeardBy(scope));
  }

  ghost predicate CreatedBy(queue: seq<Notice>, now: int) {
    && SortedBy(queue, ByCreation())
    && forall n :: n in queue ==> n.createdAt <= now
  }

  lemma {:induction false} LastIsNewest(init: seq<Notice>, last: Notice, scope: string)
    requires forall n :: n in init ==> n.createdAt <= last.createdAt
    requires var mine := HeardRows(init, scope);
      NewestHeard(init, scope) == if mine == [] then None else Some(mine[|mine| - 1])
    ensures var mine := HeardRows(init + [last], scope);
      NewestHeard(init + [last], scope) == if mine == [] then None else Some(mine[|mine| - 1])
  {
    var all, mine := init + [last], HeardRows(init, scope);
    assert all[..|init|] == init;
    FilterSnoc(init, last, HeardBy(scope));
    if Heard(last, scope) && mine != [] {
      FilterMembers(init, HeardBy(scope));
      assert mine[|mine| - 1] in mine;
    }
  }

  /** While creation times do not decrease, the query finds the last row it looks at. */
  lemma {:induction false} NewestIsLast(queue: seq<Notice>, scope: string)
    requires SortedBy(queue, ByCreation())
    ensures var mine := HeardRows(queue, scope);
      NewestHeard(queue, scope) == if mine == [] then None else Some(mine[|mine| - 1])
  {
    if queue != [] {
      var init, last := queue[..|queue| - 1], queue[|queue| - 1];
      assert queue == init + [last];
      forall n | n in init ensures ByCreation()(n) <= ByCreation()(last) {
        assert n in queue;
        SortedLast(queue, n, ByCreation());
      }
      NewestIsLast(init, scope);
      LastIsNewest(init, last, scope);
    }
  }

  lemma {:induction false} AlertedIsLast(queue: seq<Notice>, scope: string)
    requires SortedBy(queue, ByCreation())
    ensures var mine := HeardRows(queue, scope);
      GroupAlerted(queue, scope) <==> mine != [] && mine[|mine| - 1].template == BotUnavailable
  {
    NewestIsLast(queue, scope);
  }

  lemma {:induction false} SupersedeKeepsGroup(queue: seq<Notice>, scope: string, of: string)
    ensures GroupRows(Supersede(queue, scope), of) == GroupRows(queue, of)
    ensures GroupAlerted(Supersede(queue, scope), of) == GroupAlerted(queue, of)
    ensures NewestHeard(Supersede(queue, scope), of) == NewestHeard(queue, of)
  {
    if queue != [] {
      var init := queue[..|queue| - 1];
      SupersedeKeepsGroup(init, scope, of);
      assert Supersede(queue, scope)[..|init|] == Supersede(init, scope);
    }
  }

  lemma {:induction false} SupersedeKeepsOrder(queue: seq<Notice>, scope: string, now: int)
    requires CreatedBy(queue, now)
    ensures CreatedBy(Supersede(queue, scope), now)
  {
  }

  lemma {:induction false} CreatedLater(queue: seq<Notice>, before: int, now: int)
    requires CreatedBy(queue, before) && before <= now
    ensures CreatedBy(queue, now)
  {
  }

  // ---------- saving ----------

  /** The group message a state calls for. */
  function GroupNews(alerted: bool, state: State): Option<Template> {
    if state == Unavailable && !alerted then Some(BotUnavailable)
    else if state == Operational && alerted then Some(BotRecovered)
    else None
  }

  ghost predicate FreshKey(s: Store, sv: Saving) { Changes(s, sv) ==> !HasNotice(s.queue, KeyOf(s, sv)) }

  /** The group row an evaluation queues, if it changes the state, calls for one and its key is fresh. */
  ghost function NewsOf(s: Store, sv: Saving): Option<Notice> {
    var news := GroupNews(GroupAlerted(s.queue, sv.scope), sv.evaluation.state);
    if Changes(s, sv) && news.Some? && FreshKey(s, sv)
    then Some(Notice(KeyOf(s, sv), Group, news.value, sv.serverId, Pending, 0, sv.at, None, false, sv.at))
    else None
  }

  lemma {:induction false} AnnouncedNews(queue: seq<Notice>, key: Key, sv: Saving, quiet: int)
    requires key.toState == sv.evaluation.state
    ensures var rest, added := Supersede(queue, key.scope), AnnouncedRow(queue, key, sv, quiet);
            var news := GroupNews(GroupAlerted(rest, key.scope), sv.evaluation.state);
      && (added.Some? && added.value.destination == Group <==> news.Some? && !HasNotice(rest, key))
      && (added.Some? ==> added.value.key == key)
      && (added.Some? && added.value.destination == Group ==>
            added.value == Notice(key, Group, news.value, sv.serverId, Pending, 0, sv.at, None, false, sv.at))
  {
  }

  /** Saving adds to the group's rows of its own scope exactly the news, when its key is fresh. */
  lemma {:induction false} SaveGroupRows(s: Store, sv: Saving, quiet: int, of: string)
    ensures GroupRows(Saved(s, sv, quiet).queue, of)
         == if of == sv.scope && NewsOf(s, sv).Some? then GroupRows(s.queue, of) + [NewsOf(s, sv).value]
             else GroupRows(s.queue, of)
  {
    if Changes(s, sv) {
      var key, rest := KeyOf(s, sv), Supersede(s.queue, sv.scope);
      SupersedeKeepsGroup(s.queue, sv.scope, of);
      SupersedeKeepsGroup(s.queue, sv.scope, sv.scope);
      SupersedeKeys(s.queue, sv.scope, key);
      var added := AnnouncedRow(s.queue, key, sv, quiet);
      if added.Some? {
        FilterSnoc(rest, added.value, InSlot(GroupSlot(of)));
      }
      AnnouncedNews(s.queue, key, sv, quiet);
    }
  }

  lemma {:induction false} SaveHeardRows(s: Store, sv: Saving, quiet: int, of: string)
    ensures HeardRows(Saved(s, sv, quiet).queue, of)
         == if of == sv.scope && NewsOf(s, sv).Some? then HeardRows(s.queue, of) + [NewsOf(s, sv).value]
             else HeardRows(s.queue, of)
  {
    SaveGroupRows(s, sv, quiet, of);
    HeardAmongGroup(s.queue, of);
    HeardAmongGroup(Saved(s, sv, quiet).queue, of);
    if of == sv.scope && NewsOf(s, sv).Some? {
      FilterSnoc(GroupRows(s.queue, of), NewsOf(s, sv).value, HeardBy(of));
    }
  }

  lemma {:induction false} SaveOrdered(s: Store, sv: Saving, quiet: int)
    requires CreatedBy(s.queue, sv.at)
    ensures CreatedBy(Saved(s, sv, quiet).queue, sv.at)
  {
    if Changes(s, sv) {
      SupersedeKeepsOrder(s.queue, sv.scope, sv.at);
      var rest, after := Supersede(s.queue, sv.scope), Saved(s, sv, quiet).queue;
      if after != rest {
        assert after == rest + [after[|rest|]];
        forall i | 0 <= i < |rest| ensures rest[i].createdAt <= sv.at { assert rest[i] in rest; }
      }
    }
  }

  /** Whether the group has an outage open after one more evaluation. */
  function AlertAfter(alerted: bool, state: State): bool {
    if state == Unavailable then true else if state == Operational then false else alerted
  }

  /** `group_alerted` follows a transition exactly when it does not concern the group or its key is
      fresh: a repeated key loses the outage or the recovery. */
  lemma {:induction false} AlertFollowsExactly(s: Store, sv: Saving, quiet: int)
    requires CreatedBy(s.queue, sv.at) && Changes(s, sv)
    ensures var alerted := GroupAlerted(s.queue, sv.scope);
      GroupAlerted(Saved(s, sv, quiet).queue, sv.scope) == AlertAfter(alerted, sv.evaluation.state)
      <==> GroupNews(alerted, sv.evaluation.state).None? || FreshKey(s, sv)
  {
    SaveHeardRows(s, sv, quiet, sv.scope);
    SaveOrdered(s, sv, quiet);
    AlertedIsLast(s.queue, sv.scope);
    AlertedIsLast(Saved(s, sv, quiet).queue, sv.scope);
  }

  // ---------- alternation ----------

  lemma {:induction false} AlternationGrows(rows: seq<Notice>, n: Notice)
    requires Alternating(Templates(rows), BotUnavailable)
    requires n.template == if rows != [] && rows[|rows| - 1].template == BotUnavailable then BotRecovered
        else BotUnavailable
    ensures Alternating(Templates(rows + [n]), BotUnavailable)
  {
    var templates := Templates(rows + [n]);
    assert forall i :: 0 <= i < |rows| ==> templates[i] == Templates(rows)[i];
    if rows != [] {
      assert Templates(rows)[|rows| - 1] == rows[|rows| - 1].template;
    }
  }

  /** News continues the alternation of what the group has heard or still may hear. */
  lemma {:induction false} NewsAlternates(s: Store, sv: Saving)
    requires SortedBy(s.queue, ByCreation()) && NewsOf(s, sv).Some?
    requires Alternating(Templates(HeardRows(s.queue, sv.scope)), BotUnavailable)
    ensures Alternating(Templates(HeardRows(s.queue, sv.scope) + [NewsOf(s, sv).value]), BotUnavailable)
  {
    AlertedIsLast(s.queue, sv.scope);
    AlternationGrows(HeardRows(s.queue, sv.scope), NewsOf(s, sv).value);
  }
}
