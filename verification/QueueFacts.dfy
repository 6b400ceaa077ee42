/** How due rows collapse, and that the rows of one delivery are settled independently. */
module QueueFacts {
  import opened Domain
  import opened Sequences
  import opened Notifications

  // ---------- keys ----------

  ghost predicate KeyedOnce(rows: multiset<Notice>) {
    && (forall n: Notice, m: Notice :: n in rows && m in rows && n.key == m.key ==> n == m)
    && (forall n :: n in rows ==> rows[n] == 1)
  }

  lemma {:induction false} KeyedOnceGrows(rows: multiset<Notice>, last: Notice)
    ensures KeyedOnce(rows + multiset{last}) <==> KeyedOnce(rows) && forall n :: n in rows ==> n.key != last.key
  {
  }

  lemma {:induction false} UniqueGrows(rows: seq<Notice>, last: Notice)
    ensures UniqueNotices(rows + [last]) <==> UniqueNotices(rows) && forall n :: n in rows ==> n.key != last.key
  {
    var all := rows + [last];
    if UniqueNotices(all) {
      forall i, j | 0 <= i < j < |rows| ensures rows[i].key != rows[j].key { assert all[i].key != all[j].key; }
      forall i | 0 <= i < |rows| ensures rows[i].key != last.key { assert all[i].key != all[|rows|].key; }
    }
  }

  lemma {:induction false} UniqueIsKeyedOnce(rows: seq<Notice>)
    ensures UniqueNotices(rows) <==> KeyedOnce(multiset(rows))
  {
    if rows != [] {
      var init, last := rows[..|rows| - 1], rows[|rows| - 1];
      UniqueIsKeyedOnce(init);
      assert rows == init + [last];
      UniqueGrows(init, last);
      KeyedOnceGrows(multiset(init), last);
      assert multiset(rows) == multiset(init) + multiset{last};
      assert forall n :: n in multiset(init) <==> n in init;
    }
  }

  lemma {:induction false} SubKeyedOnce(a: multiset<Notice>, b: multiset<Notice>)
    requires KeyedOnce(b) && a <= b
    ensures KeyedOnce(a)
  {
  }

  lemma {:induction false} FilterSubset(rows: seq<Notice>, keep: Notice -> bool)
    ensures multiset(Filter(rows, keep)) <= multiset(rows)
  {
    if rows != [] {
      FilterSubset(rows[..|rows| - 1], keep);
      assert rows == rows[..|rows| - 1] + [rows[|rows| - 1]];
    }
  }

  // ---------- due rows ----------

  lemma {:induction false} DueMembers(queue: seq<Notice>, now: int)
    ensures forall n :: n in Due(queue, now) ==> n in queue && n.state == Pending && n.nextAttemptAt <= now
    ensures forall n :: n in queue && n.state == Pending && n.nextAttemptAt <= now ==> n in Due(queue, now)
  {
    FilterMembers(queue, DueAt(now));
    SortMembers(Filter(queue, DueAt(now)), ByCreation());
    forall n | n in queue && n.state == Pending && n.nextAttemptAt <= now ensures n in Due(queue, now) {
      assert DueAt(now)(n);
    }
  }

  lemma {:induction false} DueUnique(queue: seq<Notice>, now: int)
    requires UniqueNotices(queue)
    ensures UniqueNotices(Due(queue, now))
  {
    UniqueIsKeyedOnce(queue);
    FilterSubset(queue, DueAt(now));
    SortMultiset(Filter(queue, DueAt(now)), ByCreation());
    SubKeyedOnce(multiset(Due(queue, now)), multiset(queue));
    UniqueIsKeyedOnce(Due(queue, now));
  }

  // ---------- collapsing, slot by slot ----------

  /** What is left of one slot's due rows, oldest first: nothing or the last of them. */
  function Survivor(rows: seq<Notice>): (left: seq<Notice>)
    ensures left == [] || (rows != [] && left == [rows[|rows| - 1]])
  {
    if rows == [] then []
    else
      var earlier, last := Survivor(rows[..|rows| - 1]), rows[|rows| - 1];
      if earlier != [] && Cancels(earlier[0], last) then [] else [last]
  }

  function Superseding(held: seq<Notice>, row: Notice, slot: Slot): seq<Notice> {
    if slot != SlotOf(row) then held
    else if held != [] && Cancels(held[0], row) then []
    else [row]
  }

  lemma {:induction false} TakeBySlot(c: Collapsed, row: Notice, slot: Slot)
    ensures Filter(Take(c, row).newest, InSlot(slot)) == Superseding(Filter(c.newest, InSlot(slot)), row, slot)
  {
    var others := Filter(c.newest, OtherSlots(SlotOf(row)));
    FilterSnoc(c.newest, row, InSlot(slot));
    FilterSnoc(others, row, InSlot(slot));
    if slot == SlotOf(row) {
      FilterMembers(c.newest, OtherSlots(slot));
      FilterNone(others, InSlot(slot));
    } else {
      FilterWeaker(c.newest, OtherSlots(SlotOf(row)), InSlot(slot));
    }
  }

  lemma {:induction false} CollapseBySlot(rows: seq<Notice>, slot: Slot)
    ensures Filter(Collapse(rows).newest, InSlot(slot)) == Survivor(Filter(rows, InSlot(slot)))
  {
    if rows != [] {
      var init, row := rows[..|rows| - 1], rows[|rows| - 1];
      CollapseBySlot(init, slot);
      TakeBySlot(Collapse(init), row, slot);
      var mine := Filter(init, InSlot(slot));
      assert (mine + [row])[..|mine|] == mine;
    }
  }

  lemma {:induction false} SlotSplit(rows: seq<Notice>, slot: Slot)
    ensures multiset(Filter(rows, InSlot(slot))) + multiset(Filter(rows, OtherSlots(slot))) == multiset(rows)
  {
    if rows != [] {
      var init, last := rows[..|rows| - 1], rows[|rows| - 1];
      SlotSplit(init, slot);
      assert multiset(rows) == multiset(init) + multiset{last} by { assert rows == init + [last]; }
      if SlotOf(last) == slot {
        assert Filter(rows, InSlot(slot)) == Filter(init, InSlot(slot)) + [last];
        assert Filter(rows, OtherSlots(slot)) == Filter(init, OtherSlots(slot));
      } else {
        assert Filter(rows, InSlot(slot)) == Filter(init, InSlot(slot));
        assert Filter(rows, OtherSlots(slot)) == Filter(init, OtherSlots(slot)) + [last];
      }
    }
  }

  lemma {:induction false} TakeConserves(c: Collapsed, row: Notice)
    requires |Filter(c.newest, InSlot(SlotOf(row)))| <= 1
    ensures multiset(Take(c, row).newest) + multiset(Take(c, row).dropped)
         == multiset(c.newest) + multiset(c.dropped) + multiset{row}
  {
    SlotSplit(c.newest, SlotOf(row));
    var held, others := Filter(c.newest, InSlot(SlotOf(row))), Filter(c.newest, OtherSlots(SlotOf(row)));
    var next := Take(c, row);
    if held == [] {
      assert next == Collapsed(c.newest + [row], c.dropped);
    } else {
      assert held == [held[0]];
      var n, d, o, h, r := multiset(c.newest), multiset(c.dropped), multiset(others), multiset{held[0]}, multiset{row};
      assert n == h + o;
      if Cancels(held[0], row) {
        assert next == Collapsed(others, c.dropped + [held[0], row]);
        assert multiset(next.dropped) == d + h + r;
      } else {
        assert next == Collapsed(others + [row], c.dropped + [held[0]]);
        assert multiset(next.newest) == o + r && multiset(next.dropped) == d + h;
      }
      Regrouped(o, d, h, r);
    }
  }

  lemma {:induction false} Regrouped(o: multiset<Notice>, d: multiset<Notice>, h: multiset<Notice>, r: multiset<Notice>)
    ensures o + (d + h + r) == h + o + d + r
    ensures (o + r) + (d + h) == h + o + d + r
  {
  }

  /** Conservation: every due row either stands for its slot or is given up, exactly once. */
  lemma {:induction false} CollapseConserves(rows: seq<Notice>)
    ensures multiset(Collapse(rows).newest) + multiset(Collapse(rows).dropped) == multiset(rows)
  {
    if rows != [] {
      var init, row := rows[..|rows| - 1], rows[|rows| - 1];
      CollapseConserves(init);
      assert multiset(rows) == multiset(init) + multiset{row} by { assert rows == init + [row]; }
      SlotHeldOnce(init, SlotOf(row));
      TakeConserves(Collapse(init), row);
    }
  }

  lemma {:induction false} SlotHeldOnce(rows: seq<Notice>, slot: Slot)
    ensures |Filter(Collapse(rows).newest, InSlot(slot))| <= 1
  {
    CollapseBySlot(rows, slot);
  }

  lemma {:induction false} CollapseCounts(rows: seq<Notice>)
    ensures |Collapse(rows).newest| + |Collapse(rows).dropped| == |rows|
  {
    CollapseConserves(rows);
    var both := Collapse(rows).newest + Collapse(rows).dropped;
    assert multiset(both) == multiset(rows);
    assert |multiset(both)| == |both| && |multiset(rows)| == |rows|;
  }

  lemma {:induction false} CollapseMembers(rows: seq<Notice>)
    ensures forall n :: n in Collapse(rows).newest ==> n in rows
    ensures forall n :: n in Collapse(rows).dropped ==> n in rows
    ensures forall n :: n in rows ==> n in Collapse(rows).newest || n in Collapse(rows).dropped
  {
    CollapseConserves(rows);
    var c := Collapse(rows);
    forall n | n in c.newest ensures n in rows { assert n in multiset(c.newest) + multiset(c.dropped); }
    forall n | n in c.dropped ensures n in rows { assert n in multiset(c.newest) + multiset(c.dropped); }
    forall n | n in rows ensures n in c.newest || n in c.dropped { assert n in multiset(rows); }
  }

  lemma {:induction false} CollapseUnique(rows: seq<Notice>)
    requires UniqueNotices(rows)
    ensures UniqueNotices(Collapse(rows).newest) && UniqueNotices(Collapse(rows).dropped)
    ensures Keys(Collapse(rows).newest) !! Keys(Collapse(rows).dropped)
  {
    var c := Collapse(rows);
    CollapseConserves(rows);
    UniqueIsKeyedOnce(rows);
    KeysApart(multiset(c.newest), multiset(c.dropped));
    UniqueIsKeyedOnce(c.newest);
    UniqueIsKeyedOnce(c.dropped);
    forall n, m | n in c.newest && m in c.dropped ensures n.key != m.key {
      assert n in multiset(c.newest) && m in multiset(c.dropped);
    }
  }

  lemma {:induction false} KeysApart(a: multiset<Notice>, b: multiset<Notice>)
    requires KeyedOnce(a + b)
    ensures KeyedOnce(a) && KeyedOnce(b)
    ensures forall n, m :: n in a && m in b ==> n.key != m.key
  {
    SubKeyedOnce(a, a + b);
    SubKeyedOnce(b, a + b);
    forall n, m | n in a && m in b ensures n.key != m.key {
      assert n in a + b && m in a + b;
      assert (a + b)[n] == a[n] + b[n];
    }
  }

  // ---------- settling ----------

  lemma {:induction false} SettleDrops(queue: seq<Notice>, dropped: set<Key>, key: Key)
    ensures SupersedeById(SettleAll(queue, dropped, {}, {}, 0, 0), key)
        == SettleAll(queue, dropped + {key}, {}, {}, 0, 0)
  {
  }

  lemma {:induction false} DropOne(queue: seq<Notice>, dropped: seq<Notice>, n: Notice)
    ensures SupersedeById(SettleAll(queue, Keys(dropped), {}, {}, 0, 0), n.key)
         == SettleAll(queue, Keys(dropped + [n]), {}, {}, 0, 0)
  {
    SettleDrops(queue, Keys(dropped), n.key);
    KeysSnoc(dropped, n);
  }

  /** A row that is not given up still stands in the queue as it was read. */
  lemma {:induction false} SettleKeeps(queue: seq<Notice>, row: Notice, dropped: set<Key>)
    requires row in queue && row.key !in dropped
    ensures row in SettleAll(queue, dropped, {}, {}, 0, 0)
  {
    var i :| 0 <= i < |queue| && queue[i] == row;
    assert SettleAll(queue, dropped, {}, {}, 0, 0)[i] == row;
  }

  lemma {:induction false} SettleFinds(queue: seq<Notice>, row: Notice, tried: set<Key>, accepted: set<Key>,
                                       now: int, backoff: int)
    requires row in queue && row.key !in tried
    ensures row in SettleAll(queue, {}, tried, accepted, now, backoff)
  {
    var i :| 0 <= i < |queue| && queue[i] == row;
    assert SettleAll(queue, {}, tried, accepted, now, backoff)[i] == row;
  }

  lemma {:induction false} SettleNext(queue: seq<Notice>, key: Key, tried: set<Key>, accepted: set<Key>, now: int,
                                      backoff: int)
    requires key !in tried
    ensures SettleAll(SettleAll(queue, {}, tried, accepted, now, backoff), {}, {key}, accepted, now, backoff)
         == SettleAll(queue, {}, tried + {key}, accepted, now, backoff)
  {
  }

  lemma {:induction false} SettleTwice(queue: seq<Notice>, dropped: set<Key>, tried: set<Key>, accepted: set<Key>,
                                       now: int, backoff: int)
    requires dropped !! tried
    ensures SettleAll(SettleAll(queue, dropped, {}, {}, 0, 0), {}, tried, accepted, now, backoff)
         == SettleAll(queue, dropped, tried, accepted, now, backoff)
  {
  }

  lemma {:induction false} SettleKeepsUnique(queue: seq<Notice>, dropped: set<Key>, tried: set<Key>,
                                             accepted: set<Key>, now: int, backoff: int)
    requires UniqueNotices(queue)
    ensures UniqueNotices(SettleAll(queue, dropped, tried, accepted, now, backoff))
  {
  }

  /** With unique keys, superseding the scope's waiting notices by id supersedes exactly them. */
  lemma {:induction false} WaitingKeys(queue: seq<Notice>, scope: string)
    requires UniqueNotices(queue)
    ensures SettleAll(queue, Keys(Filter(queue, WaitingIn(scope))), {}, {}, 0, 0) == Supersede(queue, scope)
    ensures HasWaiting(queue, scope) <==> Filter(queue, WaitingIn(scope)) != []
  {
    var waiting := Filter(queue, WaitingIn(scope));
    FilterMembers(queue, WaitingIn(scope));
    forall i | 0 <= i < |queue| ensures queue[i].key in Keys(waiting) <==> Waiting(queue[i], scope) {
      assert queue[i] in queue && WaitingIn(scope)(queue[i]) == Waiting(queue[i], scope);
      if queue[i].key in Keys(waiting) {
        var n :| n in waiting && n.key == queue[i].key;
        var j :| 0 <= j < |queue| && queue[j] == n;
      }
    }
    if waiting != [] {
      assert waiting[0] in waiting;
    }
  }

  lemma {:induction false} KeysSnoc(rows: seq<Notice>, row: Notice)
    ensures Keys(rows + [row]) == Keys(rows) + {row.key}
  {
  }

  lemma {:induction false} KeysMembers(rows: seq<Notice>, i: nat)
    requires UniqueNotices(rows) && i < |rows|
    ensures rows[i].key in Keys(rows)
    ensures rows[i].key !in Keys(rows[..i])
  {
  }

  // ---------- announcing ----------

  /** The row a transition adds to the queue, if any. */
  function AnnouncedRow(queue: seq<Notice>, key: Key, sv: Saving, quiet: int): (added: Option<Notice>)
    ensures Announced(queue, key, sv, quiet) == Supersede(queue, key.scope) + if added.Some? then [added.value] else []
  {
    var rest, all := Supersede(queue, key.scope), Announced(queue, key, sv, quiet);
    if all == rest then None else Some(all[|rest|])
  }

  lemma {:induction false} AnnouncedRowFacts(queue: seq<Notice>, key: Key, sv: Saving, quiet: int)
    ensures var rest, added := Supersede(queue, key.scope), AnnouncedRow(queue, key, sv, quiet);
            var target := Target(rest, key, HasWaiting(queue, key.scope));
      if target.None? || HasNotice(rest, key) then added == None
      else added == Some(Notice(key, target.value.0, target.value.1, sv.serverId, Pending, 0,
                                SendAt(rest, key.scope, target.value, sv.at, quiet), None, false, sv.at))
  {
  }

  lemma {:induction false} SupersedeKeys(queue: seq<Notice>, scope: string, key: Key)
    ensures HasNotice(Supersede(queue, scope), key) <==> HasNotice(queue, key)
  {
    var rest := Supersede(queue, scope);
    if HasNotice(queue, key) {
      var i :| 0 <= i < |queue| && queue[i].key == key;
      assert rest[i].key == key;
    }
    if HasNotice(rest, key) {
      var i :| 0 <= i < |rest| && rest[i].key == key;
      assert queue[i].key == key;
    }
  }

  lemma {:induction false} AnnouncedKeepsUnique(queue: seq<Notice>, key: Key, sv: Saving, quiet: int)
    requires UniqueNotices(queue)
    ensures UniqueNotices(Announced(queue, key, sv, quiet))
  {
  }
}
