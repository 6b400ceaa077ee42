/** The repository and the worker, statement by statement over the shared database. */
module Repository {
  import opened Domain
  import opened Sequences
  import opened Notifications
  import opened QueueFacts

  // ---------- the program ----------

  class Database {
    var snapshots: map<string, Snapshot>
    var transitions: seq<Transition>
    var queue: seq<Notice>

    ghost function View(): Store reads this { Store(snapshots, transitions, queue) }

    constructor ()
      ensures View() == Store(map[], [], [])
    {
      snapshots, transitions, queue := map[], [], [];
    }
  }

  class StateRepository {
    const db: Database
    const quiet: int

    constructor (db: Database, quiet: int)
      ensures this.db == db && this.quiet == quiet
    {
      this.db, this.quiet := db, quiet;
    }

    /** Returns the key that identifies the transition, when the state changed. */
    method SaveEvaluation(sv: Saving) returns (transition: Option<Key>)
      requires UniqueNotices(db.queue)
      modifies db
      ensures db.View() == Saved(old(db.View()), sv, quiet)
      ensures transition == if Changes(old(db.View()), sv) then Some(KeyOf(old(db.View()), sv)) else None
    {
      ghost var before := db.View();
      var previous := if sv.scope in db.snapshots then db.snapshots[sv.scope].state else Unknown;
      db.snapshots := db.snapshots[sv.scope := SnapshotOf(Store(db.snapshots, db.transitions, db.queue), sv)];
      transition := None;
      if sv.evaluation.state != previous {
        var key := Key(sv.scope, previous, sv.evaluation.state, sv.evaluation.observedAt);
        transition := Some(key);
        LogTransition(key, sv);
        var waiting := DropWaitingNotices(key.scope);
        var target := NotificationFor(previous, sv.evaluation.state, GroupAlerted(db.queue, key.scope));
        var sendAt := sv.at;
        if target.Some? && target.value.0 == Admin {
          if target.value.1 == BotRecovered && waiting {
            target := None;
          } else if Quiet(target.value.1) {
            var flapping := DroppedNotices(db.queue, key.scope, sv.at - HOUR) >= FLAP_NOTICE_AFTER;
            if !flapping {
              sendAt := sv.at + quiet;
            }
          }
        }
        if target.Some? && !HasNotice(db.queue, key) {
          var (destination, template) := target.value;
          db.queue := db.queue
            + [Notice(key, destination, template, sv.serverId, Pending, 0, sendAt, None, false, sv.at)];
        }
      }
    }

    method LogTransition(key: Key, sv: Saving)
      modifies db`transitions
      ensures db.transitions == CloseOthers(Inserted(old(db.transitions), key, sv), key, sv.at)
    {
      if !HasTransition(db.transitions, key) {
        db.transitions := db.transitions + [Transition(key, sv.evaluation.reasonCode, sv.at, None)];
      }
      ghost var inserted := db.transitions;
      for i := 0 to |db.transitions|
        modifies db`transitions
        invariant |db.transitions| == |inserted|
        invariant forall j :: 0 <= j < |inserted| ==>
            db.transitions[j] == if j < i then Close(inserted[j], key, sv.at) else inserted[j]
      {
        var t := db.transitions[i];
        if t.key.scope == key.scope && t.closedAt.None? && t.key != key {
          db.transitions := db.transitions[i := t.(closedAt := Some(sv.at))];
        }
      }
    }

    /** Supersedes the scope's queued admin notices and says whether there were any. */
    method DropWaitingNotices(scope: string) returns (any: bool)
      requires UniqueNotices(db.queue)
      modifies db`queue
      ensures db.queue == Supersede(old(db.queue), scope)
      ensures any == HasWaiting(old(db.queue), scope)
    {
      ghost var before := db.queue;
      var waiting := Filter(db.queue, WaitingIn(scope));
      WaitingKeys(before, scope);
      any := waiting != [];
      assert SettleAll(before, Keys(waiting[..0]), {}, {}, 0, 0) == before;
      for k := 0 to |waiting|
        modifies db`queue
        invariant db.queue == SettleAll(before, Keys(waiting[..k]), {}, {}, 0, 0)
      {
        DropOne(before, waiting[..k], waiting[k]);
        assert waiting[..k + 1] == waiting[..k] + [waiting[k]];
        db.queue := SupersedeById(db.queue, waiting[k].key);
      }
      assert waiting[..|waiting|] == waiting;
    }
  }

  class NotificationWorker {
    const db: Database
    const backoff: int

    constructor (db: Database, backoff: int)
      ensures this.db == db && this.backoff == backoff
    {
      this.db, this.backoff := db, backoff;
    }

    /** Hands one row to the messenger, which takes the messages in `accepted`, and records the outcome. */
    method Deliver(row: Notice, now: int, accepted: set<Key>) returns (ok: bool)
      requires UniqueNotices(db.queue) && row in db.queue
      modifies db`queue
      ensures ok == (row.key in accepted)
      ensures db.queue == SettleAll(old(db.queue), {}, {row.key}, accepted, now, backoff)
    {
      ok := row.key in accepted;
      var i: nat :| i < |db.queue| && db.queue[i] == row;
      var after;
      if ok {
        after := row.(state := Sent, attempts := row.attempts + 1, sentAt := Some(now), lastSendFailed := false);
      } else {
        var attempts := row.attempts + 1;
        var state := if attempts >= MAX_ATTEMPTS then Failed else Pending;
        after := row.(state := state, attempts := attempts, nextAttemptAt := now + backoff * attempts,
            lastSendFailed := true);
      }
      db.queue := db.queue[i := after];
    }

    method DeliverOne(now: int, accepted: set<Key>) returns (delivered: bool, sends: seq<Attempt>)
      requires UniqueNotices(db.queue)
      modifies db`queue
      ensures db.queue == AfterDeliveringOne(old(db.queue), now, accepted, backoff)
      ensures sends == Attempts(Oldest(old(db.queue), now), now, accepted)
      ensures delivered <==> Due(old(db.queue), now) != []
    {
      var due := Due(db.queue, now);
      if due == [] {
        assert db.queue == SettleAll(db.queue, {}, {}, accepted, now, backoff);
        return false, [];
      }
      assert due[0] in due;
      DueMembers(db.queue, now);
      var ok := Deliver(due[0], now, accepted);
      assert Keys(due[..1]) == {due[0].key};
      return true, [Attempt(due[0], now, ok)];
    }

    /** Keeps the newest due row of every slot and supersedes the others. */
    method SupersedeOlder(rows: seq<Notice>) returns (newest: seq<Notice>, superseded: nat)
      modifies db`queue
      ensures newest == Collapse(rows).newest && superseded == |Collapse(rows).dropped|
      ensures db.queue == SettleAll(old(db.queue), Keys(Collapse(rows).dropped), {}, {}, 0, 0)
    {
      ghost var before := db.queue;
      newest, superseded := [], 0;
      ghost var dropped: seq<Notice> := [];
      assert SettleAll(before, Keys(dropped), {}, {}, 0, 0) == before;
      for i := 0 to |rows|
        modifies db`queue
        invariant Collapsed(newest, dropped) == Collapse(rows[..i])
        invariant superseded == |dropped|
        invariant db.queue == SettleAll(before, Keys(dropped), {}, {}, 0, 0)
      {
        var row := rows[i];
        assert rows[..i + 1][..i] == rows[..i];
        var held := Filter(newest, InSlot(SlotOf(row)));
        if held == [] {
          newest := newest + [row];
        } else {
          newest := Filter(newest, OtherSlots(SlotOf(row)));
          DropOne(before, dropped, held[0]);
          db.queue := SupersedeById(db.queue, held[0].key);
          superseded := superseded + 1;
          dropped := dropped + [held[0]];
          if row.destination == Group && held[0].template == BotUnavailable && row.template == BotRecovered {
            DropOne(before, dropped, row);
            db.queue := SupersedeById(db.queue, row.key);
            superseded := superseded + 1;
            dropped := dropped + [row];
          } else {
            newest := newest + [row];
          }
        }
      }
      assert rows[..|rows|] == rows;
    }

    method DeliverAll(rows: seq<Notice>, now: int, accepted: set<Key>)
                      returns (sent: nat, failed: nat, sends: seq<Attempt>)
      requires UniqueNotices(db.queue) && UniqueNotices(rows)
      requires forall n :: n in rows ==> n in db.queue
      modifies db`queue
      ensures db.queue == SettleAll(old(db.queue), {}, Keys(rows), accepted, now, backoff)
      ensures sends == Attempts(rows, now, accepted)
      ensures sent == |Filter(sends, Succeeded())| && sent + failed == |rows|
    {
      ghost var before := db.queue;
      sent, failed, sends := 0, 0, [];
      assert SettleAll(before, {}, Keys(rows[..0]), accepted, now, backoff) == before;
      for k := 0 to |rows|
        modifies db`queue
        invariant db.queue == SettleAll(before, {}, Keys(rows[..k]), accepted, now, backoff)
        invariant sends == Attempts(rows[..k], now, accepted)
        invariant sent == |Filter(sends, Succeeded())| && sent + failed == k
      {
        var row := rows[k];
        KeysMembers(rows, k);
        SettleFinds(before, row, Keys(rows[..k]), accepted, now, backoff);
        SettleKeepsUnique(before, {}, Keys(rows[..k]), accepted, now, backoff);
        SettleNext(before, row.key, Keys(rows[..k]), accepted, now, backoff);
        assert rows[..k + 1] == rows[..k] + [row];
        KeysSnoc(rows[..k], row);
        var ok := Deliver(row, now, accepted);
        FilterSnoc(sends, Attempt(row, now, ok), Succeeded());
        sends := sends + [Attempt(row, now, ok)];
        if ok {
          sent := sent + 1;
        } else {
          failed := failed + 1;
        }
      }
      assert rows[..|rows|] == rows;
    }

    method DeliverPending(now: int, accepted: set<Key>)
                          returns (sent: nat, failed: nat, superseded: nat, sends: seq<Attempt>)
      requires UniqueNotices(db.queue)
      modifies db`queue
      ensures var before := old(db.queue);
              var c := Collapse(Due(before, now));
        && db.queue == AfterDelivery(before, now, accepted, backoff)
        && sends == Attempts(c.newest, now, accepted)
        && superseded == |c.dropped|
        && sent == |Filter(sends, Succeeded())|
        && sent + failed + superseded == |Due(before, now)|
    {
      ghost var before := db.queue;
      var rows := Due(db.queue, now);
      var newest;
      newest, superseded := SupersedeOlder(rows);
      ghost var dropped := Keys(Collapse(rows).dropped);
      DueMembers(before, now);
      DueUnique(before, now);
      CollapseMembers(rows);
      CollapseUnique(rows);
      CollapseCounts(rows);
      SettleKeepsUnique(before, dropped, {}, {}, 0, 0);
      forall n | n in newest ensures n in db.queue {
        assert n.key in Keys(newest);
        SettleKeeps(before, n, dropped);
      }
      sent, failed, sends := DeliverAll(newest, now, accepted);
      SettleTwice(before, dropped, Keys(newest), accepted, now, backoff);
    }
  }
}
