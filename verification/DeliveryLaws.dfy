/** Which rows one delivery hands to the messenger, and in what order, said of the rows of the queue alone. */
module DeliveryLaws {
  import opened Sequences
  import opened Notifications
  import opened QueueFacts
  import opened Runs

  // ---------- stable order ----------

  /** Of two positions the first comes before the second: it has the smaller key, or the same and is listed before. */
  predicate Precedes<T>(xs: seq<T>, key: T -> int, a: nat, b: nat)
    requires a < |xs| && b < |xs|
  {
    key(xs[a]) < key(xs[b]) || (key(xs[a]) == key(xs[b]) && a < b)
  }

  /** What stands earlier in `ys` comes from a preceding position of `xs`. */
  ghost predicate InOrder<T>(xs: seq<T>, ys: seq<T>, key: T -> int) {
    forall p, q :: 0 <= p < q < |ys| ==> OrderedPair(xs, key, ys[p], ys[q])
  }

  ghost predicate OrderedPair<T>(xs: seq<T>, key: T -> int, y: T, z: T) {
    exists a: nat, b: nat :: a < |xs| && b < |xs| && xs[a] == y && xs[b] == z && Precedes(xs, key, a, b)
  }

  ghost predicate ListedPair<T>(xs: seq<T>, y: T, z: T) {
    exists a: nat, b: nat :: a < b < |xs| && xs[a] == y && xs[b] == z
  }

  lemma {:induction false} FilterListed<T>(xs: seq<T>, keep: T -> bool, p: nat, q: nat)
    requires p < q < |Filter(xs, keep)|
    ensures ListedPair(xs, Filter(xs, keep)[p], Filter(xs, keep)[q])
  {
    var init, last := xs[..|xs| - 1], xs[|xs| - 1];
    var rest := Filter(init, keep);
    if q < |rest| {
      FilterListed(init, keep, p, q);
      var a: nat, b: nat :| a < b < |init| && init[a] == rest[p] && init[b] == rest[q];
      assert xs[a] == init[a] && xs[b] == init[b];
    } else {
      FilterMembers(init, keep);
      assert rest[p] in rest;
      var a :| 0 <= a < |init| && init[a] == rest[p];
      assert xs[a] == rest[p] && xs[|init|] == last;
    }
  }

  /** Selecting keeps the order. */
  lemma {:induction false} FilterInOrder<T>(xs: seq<T>, ys: seq<T>, key: T -> int, keep: T -> bool)
    requires InOrder(xs, ys, key)
    ensures InOrder(xs, Filter(ys, keep), key)
  {
    var zs := Filter(ys, keep);
    forall p, q | 0 <= p < q < |zs| ensures OrderedPair(xs, key, zs[p], zs[q]) {
      FilterListed(ys, keep, p, q);
      var a: nat, b: nat :| a < b < |ys| && ys[a] == zs[p] && ys[b] == zs[q];
    }
  }

  lemma {:induction false} InsertSplits<T>(xs: seq<T>, x: T, key: T -> int) returns (k: nat)
    requires SortedBy(xs, key)
    ensures k <= |xs| && Insert(xs, x, key) == xs[..k] + [x] + xs[k..]
    ensures forall i :: 0 <= i < k ==> key(xs[i]) <= key(x)
    ensures forall i :: k <= i < |xs| ==> key(x) < key(xs[i])
  {
    if xs == [] || key(xs[|xs| - 1]) <= key(x) {
      k := |xs|;
    } else {
      var init, last := xs[..|xs| - 1], xs[|xs| - 1];
      k := InsertSplits(init, x, key);
      assert xs[k..] == init[k..] + [last];
    }
  }

  lemma {:induction false} PairGrows<T>(xs: seq<T>, x: T, key: T -> int, y: T, z: T)
    requires OrderedPair(xs, key, y, z)
    ensures OrderedPair(xs + [x], key, y, z)
  {
    var a: nat, b: nat :| a < |xs| && b < |xs| && xs[a] == y && xs[b] == z && Precedes(xs, key, a, b);
    var all := xs + [x];
    assert all[a] == y && all[b] == z && Precedes(all, key, a, b);
  }

  lemma {:induction false} PairWithLast<T>(xs: seq<T>, x: T, key: T -> int, y: T)
    requires y in xs
    ensures key(y) <= key(x) ==> OrderedPair(xs + [x], key, y, x)
    ensures key(x) < key(y) ==> OrderedPair(xs + [x], key, x, y)
  {
    var all := xs + [x];
    var a :| 0 <= a < |xs| && xs[a] == y;
    assert all[a] == y && all[|xs|] == x;
    if key(y) <= key(x) {
      assert Precedes(all, key, a, |xs|);
    } else {
      assert Precedes(all, key, |xs|, a);
    }
  }

  lemma {:induction false} InsertInOrder<T>(xs: seq<T>, sorted: seq<T>, x: T, key: T -> int)
    requires InOrder(xs, sorted, key) && SortedBy(sorted, key) && forall y :: y in sorted ==> y in xs
    ensures InOrder(xs + [x], Insert(sorted, x, key), key)
  {
    var k := InsertSplits(sorted, x, key);
    var ys := Insert(sorted, x, key);
    forall p, q | 0 <= p < q < |ys| ensures OrderedPair(xs + [x], key, ys[p], ys[q]) {
      if p == k {
        assert ys[q] == sorted[q - 1] && sorted[q - 1] in sorted;
        PairWithLast(xs, x, key, ys[q]);
      } else if q == k {
        assert ys[p] == sorted[p] && sorted[p] in sorted;
        PairWithLast(xs, x, key, ys[p]);
      } else {
        PairGrows(xs, x, key, ys[p], ys[q]);
      }
    }
  }

  /** Sorting is stable. */
  lemma {:induction false} SortInOrder<T>(xs: seq<T>, key: T -> int)
    ensures InOrder(xs, SortBy(xs, key), key)
  {
    if xs != [] {
      var init := xs[..|xs| - 1];
      assert xs == init + [xs[|xs| - 1]];
      SortInOrder(init, key);
      SortSorts(init, key);
      SortMembers(init, key);
      InsertInOrder(init, SortBy(init, key), xs[|xs| - 1], key);
    }
  }

  lemma {:induction false} SelectedInOrder<T>(xs: seq<T>, ys: seq<T>, key: T -> int, keep: T -> bool)
    requires InOrder(Filter(xs, keep), ys, key)
    ensures InOrder(xs, ys, key)
  {
    var kept := Filter(xs, keep);
    forall p, q | 0 <= p < q < |ys| ensures OrderedPair(xs, key, ys[p], ys[q]) {
      assert OrderedPair(kept, key, ys[p], ys[q]);
      var a: nat, b: nat :| a < |kept| && b < |kept| && kept[a] == ys[p] && kept[b] == ys[q]
        && Precedes(kept, key, a, b);
      SelectedPair(xs, key, keep, a, b);
    }
  }

  lemma {:induction false} SelectedPair<T>(xs: seq<T>, key: T -> int, keep: T -> bool, a: nat, b: nat)
    requires a < |Filter(xs, keep)| && b < |Filter(xs, keep)| && Precedes(Filter(xs, keep), key, a, b)
    ensures OrderedPair(xs, key, Filter(xs, keep)[a], Filter(xs, keep)[b])
  {
    var kept := Filter(xs, keep);
    if a < b {
      FilterListed(xs, keep, a, b);
      var c: nat, d: nat :| c < d < |xs| && xs[c] == kept[a] && xs[d] == kept[b];
      assert Precedes(xs, key, c, d);
    } else {
      FilterMembers(xs, keep);
      assert kept[a] in kept && kept[b] in kept;
      var c: nat :| c < |xs| && xs[c] == kept[a];
      var d: nat :| d < |xs| && xs[d] == kept[b];
      assert Precedes(xs, key, c, d);
    }
  }

  // ---------- the due rows ----------

  predicate DueRow(queue: seq<Notice>, now: int, i: nat) {
    i < |queue| && queue[i].state == Pending && queue[i].nextAttemptAt <= now
  }

  /** Created before, or at the same instant and queued before. */
  predicate Older(queue: seq<Notice>, i: nat, j: nat)
    requires i < |queue| && j < |queue|
  {
    queue[i].createdAt < queue[j].createdAt || (queue[i].createdAt == queue[j].createdAt && i < j)
  }

  /** A due row about the same scope for the same destination. */
  predicate Rival(queue: seq<Notice>, now: int, j: nat, i: nat)
    requires i < |queue|
  {
    && DueRow(queue, now, j) && j != i
    && queue[j].key.scope == queue[i].key.scope && queue[j].destination == queue[i].destination
  }

  lemma {:induction false} DueInOrder(queue: seq<Notice>, now: int)
    ensures InOrder(queue, Due(queue, now), ByCreation())
  {
    SortInOrder(Filter(queue, DueAt(now)), ByCreation());
    SelectedInOrder(queue, Due(queue, now), ByCreation(), DueAt(now));
  }

  lemma {:induction false} PairIsOlder(queue: seq<Notice>, i: nat, j: nat)
    requires UniqueNotices(queue) && i < |queue| && j < |queue|
    requires OrderedPair(queue, ByCreation(), queue[i], queue[j])
    ensures Older(queue, i, j)
  {
    var a: nat, b: nat :| a < |queue| && b < |queue| && queue[a] == queue[i] && queue[b] == queue[j]
      && Precedes(queue, ByCreation(), a, b);
    assert a == i && b == j;
  }

  /** The order in which rows are due is the order of age. */
  lemma {:induction false} DueByAge(queue: seq<Notice>, now: int, slot: Slot, p: nat, q: nat, i: nat, j: nat)
    requires UniqueNotices(queue) && i < |queue| && j < |queue|
    requires p < q < |Filter(Due(queue, now), InSlot(slot))|
    requires Filter(Due(queue, now), InSlot(slot))[p] == queue[i]
    requires Filter(Due(queue, now), InSlot(slot))[q] == queue[j]
    ensures Older(queue, i, j)
  {
    DueInOrder(queue, now);
    FilterInOrder(queue, Due(queue, now), ByCreation(), InSlot(slot));
    PairIsOlder(queue, i, j);
  }

  /** The due rows of a slot, oldest first. */
  function DueOf(queue: seq<Notice>, now: int, slot: Slot): seq<Notice> { Filter(Due(queue, now), InSlot(slot)) }

  lemma {:induction false} RivalIsDue(queue: seq<Notice>, now: int, j: nat, slot: Slot) returns (p: nat)
    requires DueRow(queue, now, j) && SlotOf(queue[j]) == slot
    ensures p < |DueOf(queue, now, slot)| && DueOf(queue, now, slot)[p] == queue[j]
  {
    DueMembers(queue, now);
    FilterMembers(Due(queue, now), InSlot(slot));
    assert queue[j] in Due(queue, now) && InSlot(slot)(queue[j]);
    p :| 0 <= p < |DueOf(queue, now, slot)| && DueOf(queue, now, slot)[p] == queue[j];
  }

  lemma {:induction false} DueIsRow(queue: seq<Notice>, now: int, slot: Slot, p: nat) returns (j: nat)
    requires p < |DueOf(queue, now, slot)|
    ensures DueRow(queue, now, j) && SlotOf(queue[j]) == slot && queue[j] == DueOf(queue, now, slot)[p]
  {
    DueMembers(queue, now);
    FilterMembers(Due(queue, now), InSlot(slot));
    assert DueOf(queue, now, slot)[p] in DueOf(queue, now, slot);
    j :| 0 <= j < |queue| && queue[j] == DueOf(queue, now, slot)[p];
  }

  // ---------- which row stands for its slot ----------

  /** Every other due row for the same scope and destination is older. */
  ghost predicate NewestDue(queue: seq<Notice>, now: int, i: nat) {
    DueRow(queue, now, i) && forall j: nat :: Rival(queue, now, j, i) ==> Older(queue, j, i)
  }

  /** The newest of the older ones. */
  ghost predicate JustBefore(queue: seq<Notice>, now: int, j: nat, i: nat)
    requires i < |queue|
  {
    && Rival(queue, now, j, i) && Older(queue, j, i)
    && forall k: nat :: Rival(queue, now, k, i) && k != j && Older(queue, k, i) ==> Older(queue, k, j)
  }

  /** A recovery for the group right after an outage that it was not told of. */
  ghost predicate CancelsOutage(queue: seq<Notice>, now: int, i: nat)
    requires i < |queue|
  {
    && queue[i].destination == Group && queue[i].template == BotRecovered
    && exists j: nat :: JustBefore(queue, now, j, i) && queue[j].template == BotUnavailable
  }

  /** What is left of a slot is its newest row, unless that cancels with the one before. */
  lemma {:induction false} SurvivorExactly(rows: seq<Notice>)
    ensures Survivor(rows) == if rows == [] || (|rows| > 1 && Cancels(rows[|rows| - 2], rows[|rows| - 1])) then []
        else [rows[|rows| - 1]]
  {
    if |rows| > 1 {
      var init := rows[..|rows| - 1];
      assert init[|init| - 1] == rows[|rows| - 2];
    }
  }

  lemma {:induction false} LastIsNewest(queue: seq<Notice>, now: int, i: nat)
    requires UniqueNotices(queue) && DueRow(queue, now, i)
    ensures var mine := DueOf(queue, now, SlotOf(queue[i]));
      mine != [] && (mine[|mine| - 1] == queue[i] <==> NewestDue(queue, now, i))
  {
    var slot := SlotOf(queue[i]);
    var mine := DueOf(queue, now, slot);
    var p := RivalIsDue(queue, now, i, slot);
    if mine[|mine| - 1] == queue[i] {
      forall j: nat | Rival(queue, now, j, i) ensures Older(queue, j, i) {
        var q := RivalIsDue(queue, now, j, slot);
        assert queue[j].key != queue[i].key;
        DueByAge(queue, now, slot, q, |mine| - 1, j, i);
      }
    } else {
      var j := DueIsRow(queue, now, slot, |mine| - 1);
      DueByAge(queue, now, slot, p, |mine| - 1, i, j);
      assert Rival(queue, now, j, i) && !Older(queue, j, i);
    }
  }

  lemma {:induction false} CancelsExactly(queue: seq<Notice>, now: int, i: nat)
    requires UniqueNotices(queue) && NewestDue(queue, now, i)
    ensures var mine := DueOf(queue, now, SlotOf(queue[i]));
      mine != [] && (|mine| > 1 && Cancels(mine[|mine| - 2], mine[|mine| - 1]) <==> CancelsOutage(queue, now, i))
  {
    var slot := SlotOf(queue[i]);
    var mine := DueOf(queue, now, slot);
    LastIsNewest(queue, now, i);
    if |mine| > 1 {
      var j := DueIsRow(queue, now, slot, |mine| - 2);
      PenultimateIsBefore(queue, now, i, j);
    } else {
      forall k: nat ensures !Rival(queue, now, k, i) {
        if Rival(queue, now, k, i) { TwoAreDue(queue, now, i, k); }
      }
    }
  }

  lemma {:induction false} TwoAreDue(queue: seq<Notice>, now: int, i: nat, k: nat)
    requires UniqueNotices(queue) && DueRow(queue, now, i) && Rival(queue, now, k, i)
    ensures |DueOf(queue, now, SlotOf(queue[i]))| > 1
  {
    var p := RivalIsDue(queue, now, i, SlotOf(queue[i]));
    var q := RivalIsDue(queue, now, k, SlotOf(queue[i]));
    assert queue[k].key != queue[i].key;
  }

  lemma {:induction false} PenultimateIsBefore(queue: seq<Notice>, now: int, i: nat, j: nat)
    requires UniqueNotices(queue) && NewestDue(queue, now, i) && DueRow(queue, now, j)
    requires SlotOf(queue[j]) == SlotOf(queue[i]) && |DueOf(queue, now, SlotOf(queue[i]))| > 1
    requires var mine := DueOf(queue, now, SlotOf(queue[i]));
      mine[|mine| - 2] == queue[j] && mine[|mine| - 1] == queue[i]
    ensures JustBefore(queue, now, j, i)
  {
    var slot := SlotOf(queue[i]);
    var mine := DueOf(queue, now, slot);
    DueByAge(queue, now, slot, |mine| - 2, |mine| - 1, j, i);
    forall k: nat | Rival(queue, now, k, i) && k != j && Older(queue, k, i) ensures Older(queue, k, j) {
      var q := RivalIsDue(queue, now, k, slot);
      assert queue[k].key != queue[i].key && queue[k].key != queue[j].key;
      DueByAge(queue, now, slot, q, |mine| - 2, k, j);
    }
  }

  /** A delivery hands over a row if and only if it is due and newer than every other due row for the same scope and
      destination, and does not cancel with an unsent outage right before it. */
  lemma {:induction false} TriedExactly(queue: seq<Notice>, now: int, i: nat)
    requires UniqueNotices(queue) && i < |queue|
    ensures queue[i] in Collapse(Due(queue, now)).newest
       <==> NewestDue(queue, now, i) && !CancelsOutage(queue, now, i)
  {
    var slot, newest := SlotOf(queue[i]), Collapse(Due(queue, now)).newest;
    var mine := DueOf(queue, now, slot);
    CollapseBySlot(Due(queue, now), slot);
    FilterMembers(newest, InSlot(slot));
    assert queue[i] in newest <==> queue[i] in Survivor(mine) by { assert InSlot(slot)(queue[i]); }
    SurvivorExactly(mine);
    if DueRow(queue, now, i) {
      LastIsNewest(queue, now, i);
      if NewestDue(queue, now, i) {
        CancelsExactly(queue, now, i);
      }
    } else if queue[i] in Survivor(mine) {
      var j := DueIsRow(queue, now, slot, |mine| - 1);
    }
  }

  // ---------- one delivery ----------

  lemma {:induction false} ListedGrows(rows: seq<Notice>, row: Notice, y: Notice, z: Notice)
    requires ListedPair(rows, y, z)
    ensures ListedPair(rows + [row], y, z)
  {
    var a: nat, b: nat :| a < b < |rows| && rows[a] == y && rows[b] == z;
    assert (rows + [row])[a] == y && (rows + [row])[b] == z;
  }

  ghost predicate AllListed(rows: seq<Notice>, some: seq<Notice>) {
    forall p, q :: 0 <= p < q < |some| ==> ListedPair(rows, some[p], some[q])
  }

  lemma {:induction false} ListedSnoc(rows: seq<Notice>, some: seq<Notice>, row: Notice)
    requires AllListed(rows, some) && forall n :: n in some ==> n in rows
    ensures AllListed(rows + [row], some) && AllListed(rows + [row], some + [row])
  {
    var more := some + [row];
    forall p, q | 0 <= p < q < |more| ensures ListedPair(rows + [row], more[p], more[q]) {
      if q < |some| {
        ListedGrows(rows, row, some[p], some[q]);
      } else {
        assert some[p] in some;
        var a :| 0 <= a < |rows| && rows[a] == some[p];
        assert (rows + [row])[a] == some[p] && (rows + [row])[|rows|] == row;
      }
    }
    forall p, q | 0 <= p < q < |some| ensures ListedPair(rows + [row], some[p], some[q]) {
      ListedGrows(rows, row, some[p], some[q]);
    }
  }

  lemma {:induction false} FilterAllListed(rows: seq<Notice>, some: seq<Notice>, keep: Notice -> bool)
    requires AllListed(rows, some)
    ensures AllListed(rows, Filter(some, keep))
  {
    var kept := Filter(some, keep);
    forall p, q | 0 <= p < q < |kept| ensures ListedPair(rows, kept[p], kept[q]) {
      FilterListed(some, keep, p, q);
    }
  }

  /** Collapsing keeps the order of what it keeps. */
  lemma {:induction false} CollapseListed(rows: seq<Notice>)
    ensures AllListed(rows, Collapse(rows).newest)
    ensures forall n :: n in Collapse(rows).newest ==> n in rows
  {
    if rows != [] {
      var init, row := rows[..|rows| - 1], rows[|rows| - 1];
      var newest := Collapse(init).newest;
      assert rows == init + [row];
      CollapseListed(init);
      FilterMembers(newest, OtherSlots(SlotOf(row)));
      FilterAllListed(init, newest, OtherSlots(SlotOf(row)));
      ListedSnoc(init, newest, row);
      ListedSnoc(init, Filter(newest, OtherSlots(SlotOf(row))), row);
    }
  }

  /** The rows handed over by one delivery, oldest first: of two of them the first is the older one. */
  lemma {:induction false} TriedByAge(queue: seq<Notice>, now: int, p: nat, q: nat, i: nat, j: nat)
    requires UniqueNotices(queue) && i < |queue| && j < |queue|
    requires p < q < |Collapse(Due(queue, now)).newest|
    requires Collapse(Due(queue, now)).newest[p] == queue[i] && Collapse(Due(queue, now)).newest[q] == queue[j]
    ensures Older(queue, i, j)
  {
    var due := Due(queue, now);
    CollapseListed(due);
    DueInOrder(queue, now);
    var a: nat, b: nat :| a < b < |due| && due[a] == queue[i] && due[b] == queue[j];
    PairIsOlder(queue, i, j);
  }

  /** Some call from the given one on is about the row. */
  ghost predicate Calls(log: seq<Attempt>, from: nat, n: Notice) {
    exists k :: from <= k < |log| && log[k].notice == n
  }

  /** The calls from the given one on are the ones a delivery of the queue makes: of once every row that stands for
      its slot, at that instant, taken or refused as the messenger pleases. */
  ghost predicate CallsStanding(queue: seq<Notice>, now: int, accepted: set<Key>, log: seq<Attempt>, from: nat) {
    && (forall k :: from <= k < |log| ==> log[k].at == now && log[k].ok == (log[k].notice.key in accepted))
    && (forall i: nat :: i < |queue| ==>
          (Calls(log, from, queue[i]) <==> NewestDue(queue, now, i) && !CancelsOutage(queue, now, i)))
  }

  /** The calls from the given one on are about ever newer rows. */
  ghost predicate CallsByAge(queue: seq<Notice>, log: seq<Attempt>, from: nat) {
    forall k, l, i: nat, j: nat :: (from <= k < l < |log| && i < |queue| && j < |queue|
      && log[k].notice == queue[i] && log[l].notice == queue[j]) ==> Older(queue, i, j)
  }

  lemma {:induction false} CallsMade(log: seq<Attempt>, rows: seq<Notice>, now: int, accepted: set<Key>, n: Notice)
    ensures Calls(log + Attempts(rows, now, accepted), |log|, n) <==> n in rows
  {
    var all := log + Attempts(rows, now, accepted);
    assert forall p :: 0 <= p < |rows| ==> all[|log| + p].notice == rows[p];
    if n in rows {
      var p :| 0 <= p < |rows| && rows[p] == n;
      assert all[|log| + p].notice == n;
    }
  }

  lemma {:induction false} StandingAreCalled(queue: seq<Notice>, now: int, accepted: set<Key>, log: seq<Attempt>)
    requires UniqueNotices(queue)
    ensures CallsStanding(queue, now, accepted, log + Attempts(Collapse(Due(queue, now)).newest, now, accepted), |log|)
  {
    var all := log + Attempts(Collapse(Due(queue, now)).newest, now, accepted);
    forall i: nat | i < |queue|
      ensures Calls(all, |log|, queue[i]) <==> NewestDue(queue, now, i) && !CancelsOutage(queue, now, i)
    {
      CallsMade(log, Collapse(Due(queue, now)).newest, now, accepted, queue[i]);
      TriedExactly(queue, now, i);
    }
  }

  lemma {:induction false} CalledByAge(queue: seq<Notice>, now: int, accepted: set<Key>, log: seq<Attempt>)
    requires UniqueNotices(queue)
    ensures CallsByAge(queue, log + Attempts(Collapse(Due(queue, now)).newest, now, accepted), |log|)
  {
    var newest := Collapse(Due(queue, now)).newest;
    var all := log + Attempts(newest, now, accepted);
    forall k, l, i: nat, j: nat | |log| <= k < l < |all| && i < |queue| && j < |queue|
      && all[k].notice == queue[i] && all[l].notice == queue[j] ensures Older(queue, i, j)
    {
      TriedByAge(queue, now, k - |log|, l - |log|, i, j);
    }
  }

  /** What one delivery sends: every row that stands for its slot, oldest first, at the instant of the delivery, and
      it is taken or refused as the messenger pleases. */
  lemma {:induction false} DeliveryExactly(w: World, now: int, accepted: set<Key>, t: Timing)
    requires UniqueNotices(w.store.queue)
    ensures var log := Step(w, DeliverPending(now, accepted), t).log;
      && w.log <= log
      && CallsStanding(w.store.queue, now, accepted, log, |w.log|)
      && CallsByAge(w.store.queue, log, |w.log|)
  {
    StepIsDelivery(w, now, accepted, t);
    StandingAreCalled(w.store.queue, now, accepted, w.log);
    CalledByAge(w.store.queue, now, accepted, w.log);
  }

  /** Delivering one message takes the oldest due row, whatever its slot. */
  lemma {:induction false} OldestExactly(queue: seq<Notice>, now: int, i: nat)
    requires UniqueNotices(queue) && i < |queue|
    ensures Oldest(queue, now) == [queue[i]] <==>
      DueRow(queue, now, i) && forall j: nat :: DueRow(queue, now, j) && j != i ==> Older(queue, i, j)
    ensures Oldest(queue, now) == [] <==> forall j: nat :: !DueRow(queue, now, j)
  {
    var due := Due(queue, now);
    DueMembers(queue, now);
    DueInOrder(queue, now);
    if due != [] {
      assert due[0] in due;
      var f: nat :| f < |queue| && queue[f] == due[0];
      forall j: nat | DueRow(queue, now, j) && j != f ensures Older(queue, f, j) {
        assert queue[j] in due && queue[j].key != queue[f].key;
        var p :| 0 <= p < |due| && due[p] == queue[j];
        PairIsOlder(queue, f, j);
      }
      assert DueRow(queue, now, f);
      assert queue[i] == queue[f] <==> i == f;
    }
  }
}
