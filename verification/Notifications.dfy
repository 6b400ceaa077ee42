/** State snapshots, the transition log and the notification queue as values: what saving an
    evaluation and delivering messages do to the three tables. */
module Notifications {
  import opened Domain
  import opened Sequences

  const MAX_ATTEMPTS := 20
  const FLAP_NOTICE_AFTER := 6

  datatype Destination = Admin | Group
  datatype Template = BotUnavailable | BotRecovered | BotDegraded | BotUnknown
  datatype QueueState = Pending | Sent | Superseded | Failed

  /** What the deduplication key of a transition is derived from. The ids of the transition and of
      its notice are derived from the same key, so each is unique exactly when the key is. */
  datatype Key = Key(scope: string, fromState: State, toState: State, observedAt: Option<int>)

  datatype Snapshot = Snapshot(
    serverId: string,
    networkScope: string,
    state: State,
    reasonCode: Reason,
    sufficient: bool,
    observedAt: Option<int>,
    evaluatedAt: int,
    freshUntil: Option<int>,
    evidenceCount: nat,
    coverage: real,
    version: nat)

  datatype Transition = Transition(key: Key, reasonCode: Reason, confirmedAt: int, closedAt: Option<int>)

  datatype Notice = Notice(
    key: Key,
    destination: Destination,
    template: Template,
    serverId: string,
    state: QueueState,
    attempts: nat,
    nextAttemptAt: int,
    sentAt: Option<int>,
    lastSendFailed: bool,
    createdAt: int)

  datatype Store = Store(snapshots: map<string, Snapshot>, transitions: seq<Transition>, queue: seq<Notice>)

  /** One evaluation to be saved. */
  datatype Saving = Saving(scope: string, serverId: string, networkScope: string, evaluation: Evaluation, at: int)

  /** One call of the messenger, with the queue row as it was read. */
  datatype Attempt = Attempt(notice: Notice, at: int, ok: bool)

  // ---------- who is told ----------

  function NotificationFor(previous: State, current: State, groupAlerted: bool): Option<(Destination, Template)> {
    if current == Unavailable then Some((if groupAlerted then Admin else Group, BotUnavailable))
    else if current == Operational && groupAlerted then Some((Group, BotRecovered))
    else if current == Degraded then Some((Admin, BotDegraded))
    else if current == Unknown then Some((Admin, BotUnknown))
    else if previous != Unknown then Some((Admin, BotRecovered))
    else None
  }

  predicate Quiet(template: Template) {
    template == BotDegraded || template == BotUnknown
  }

  // ---------- queries ----------

  predicate Waiting(n: Notice, scope: string) {
    n.key.scope == scope && n.destination == Admin && n.state == Pending
  }

  predicate DroppedSince(n: Notice, scope: string, since: int) {
    n.key.scope == scope && n.destination == Admin && n.state == Superseded && n.createdAt >= since
  }

  predicate Heard(n: Notice, scope: string) {
    n.key.scope == scope && n.destination == Group && (n.state == Pending || n.state == Sent)
  }

  function WaitingIn(scope: string): Notice -> bool { (n: Notice) => Waiting(n, scope) }

  function Dropped(scope: string, since: int): Notice -> bool { (n: Notice) => DroppedSince(n, scope, since) }

  function DroppedNotices(queue: seq<Notice>, scope: string, since: int): nat {
    |Filter(queue, Dropped(scope, since))|
  }

  /** The group's newest message about the scope, by creation time and then by row. */
  function NewestHeard(queue: seq<Notice>, scope: string): Option<Notice> {
    if queue == [] then None
    else
      var rest, last := NewestHeard(queue[..|queue| - 1], scope), queue[|queue| - 1];
      if Heard(last, scope) && (rest.None? || last.createdAt >= rest.value.createdAt) then Some(last) else rest
  }

  predicate GroupAlerted(queue: seq<Notice>, scope: string) {
    var newest := NewestHeard(queue, scope);
    newest.Some? && newest.value.template == BotUnavailable
  }

  predicate HasTransition(transitions: seq<Transition>, key: Key) {
    exists i :: 0 <= i < |transitions| && transitions[i].key == key
  }

  predicate HasNotice(queue: seq<Notice>, key: Key) {
    exists i :: 0 <= i < |queue| && queue[i].key == key
  }

  predicate HasWaiting(queue: seq<Notice>, scope: string) {
    exists i :: 0 <= i < |queue| && Waiting(queue[i], scope)
  }

  // ---------- saving an evaluation ----------

  function PreviousState(s: Store, scope: string): State {
    if scope in s.snapshots then s.snapshots[scope].state else Unknown
  }

  function KeyOf(s: Store, sv: Saving): Key {
    Key(sv.scope, PreviousState(s, sv.scope), sv.evaluation.state, sv.evaluation.observedAt)
  }

  predicate Changes(s: Store, sv: Saving) {
    sv.evaluation.state != PreviousState(s, sv.scope)
  }

  function SnapshotOf(s: Store, sv: Saving): Snapshot {
    var e := sv.evaluation;
    if sv.scope in s.snapshots then
      var stored := s.snapshots[sv.scope];
      Snapshot(stored.serverId, stored.networkScope, e.state, e.reasonCode, e.coverage >= 1.0, e.observedAt, sv.at,
               e.freshUntil, e.evidenceCount, e.coverage, stored.version + 1)
    else
      Snapshot(sv.serverId, sv.networkScope, e.state, e.reasonCode, e.coverage >= 1.0, e.observedAt, sv.at,
               e.freshUntil, e.evidenceCount, e.coverage, 1)
  }

  function Inserted(transitions: seq<Transition>, key: Key, sv: Saving): seq<Transition> {
    if HasTransition(transitions, key) then transitions
    else transitions + [Transition(key, sv.evaluation.reasonCode, sv.at, None)]
  }

  function Close(t: Transition, key: Key, at: int): Transition {
    if t.key.scope == key.scope && t.closedAt.None? && t.key != key then t.(closedAt := Some(at)) else t
  }

  function CloseOthers(transitions: seq<Transition>, key: Key, at: int): (closed: seq<Transition>)
    ensures |closed| == |transitions|
  {
    seq(|transitions|, i requires 0 <= i < |transitions| => Close(transitions[i], key, at))
  }

  function DropWaiting(n: Notice, scope: string): Notice {
    if Waiting(n, scope) then n.(state := Superseded) else n
  }

  function Supersede(queue: seq<Notice>, scope: string): (rest: seq<Notice>)
    ensures |rest| == |queue|
  {
    seq(|queue|, i requires 0 <= i < |queue| => DropWaiting(queue[i], scope))
  }

  /** The message for a transition, given whether an unsent notice was just dropped. */
  function Target(queue: seq<Notice>, key: Key, dropped: bool): Option<(Destination, Template)> {
    var target := NotificationFor(key.fromState, key.toState, GroupAlerted(queue, key.scope));
    if target == Some((Admin, BotRecovered)) && dropped then None else target
  }

  predicate Flapping(queue: seq<Notice>, scope: string, at: int) {
    DroppedNotices(queue, scope, at - HOUR) >= FLAP_NOTICE_AFTER
  }

  function SendAt(queue: seq<Notice>, scope: string, target: (Destination, Template), at: int, quiet: int): int {
    if target.0 == Admin && Quiet(target.1) && !Flapping(queue, scope, at) then at + quiet else at
  }

  /** The queue after a transition: waiting admin notices are dropped and at most one is added. */
  function Announced(queue: seq<Notice>, key: Key, sv: Saving, quiet: int): seq<Notice> {
    var rest := Supersede(queue, key.scope);
    var target := Target(rest, key, HasWaiting(queue, key.scope));
    if target.None? || HasNotice(rest, key) then rest
    else
      rest + [Notice(key, target.value.0, target.value.1, sv.serverId, Pending, 0,
                     SendAt(rest, key.scope, target.value, sv.at, quiet), None, false, sv.at)]
  }

  function Saved(s: Store, sv: Saving, quiet: int): Store {
    var snapshots := s.snapshots[sv.scope := SnapshotOf(s, sv)];
    if !Changes(s, sv) then Store(snapshots, s.transitions, s.queue)
    else
      var key := KeyOf(s, sv);
      Store(snapshots, CloseOthers(Inserted(s.transitions, key, sv), key, sv.at), Announced(s.queue, key, sv, quiet))
  }

  // ---------- delivering ----------

  datatype Slot = Slot(scope: string, destination: Destination)

  function SlotOf(n: Notice): Slot { Slot(n.key.scope, n.destination) }

  function DueAt(now: int): Notice -> bool { (n: Notice) => n.state == Pending && n.nextAttemptAt <= now }
  function ByCreation(): Notice -> int { (n: Notice) => n.createdAt }

  function Due(queue: seq<Notice>, now: int): seq<Notice> {
    SortBy(Filter(queue, DueAt(now)), ByCreation())
  }

  /** The rows that stand for their slot, in delivery order, and the rows given up for them. */
  datatype Collapsed = Collapsed(newest: seq<Notice>, dropped: seq<Notice>)

  function OtherSlots(slot: Slot): Notice -> bool { (n: Notice) => SlotOf(n) != slot }
  function InSlot(slot: Slot): Notice -> bool { (n: Notice) => SlotOf(n) == slot }

  predicate Cancels(outage: Notice, recovery: Notice) {
    recovery.destination == Group && outage.template == BotUnavailable && recovery.template == BotRecovered
  }

  /** One step of collapsing: the row takes its slot over, or cancels out with an unsent outage. */
  function Take(c: Collapsed, row: Notice): Collapsed {
    var held := Filter(c.newest, InSlot(SlotOf(row)));
    var others := Filter(c.newest, OtherSlots(SlotOf(row)));
    if held == [] then Collapsed(c.newest + [row], c.dropped)
    else if Cancels(held[0], row) then Collapsed(others, c.dropped + [held[0], row])
    else Collapsed(others + [row], c.dropped + [held[0]])
  }

  function Collapse(rows: seq<Notice>): Collapsed {
    if rows == [] then Collapsed([], []) else Take(Collapse(rows[..|rows| - 1]), rows[|rows| - 1])
  }

  function Keys(rows: seq<Notice>): set<Key> { set n | n in rows :: n.key }

  function Delivered(n: Notice, now: int, ok: bool, backoff: int): Notice {
    if ok then n.(state := Sent, attempts := n.attempts + 1, sentAt := Some(now), lastSendFailed := false)
    else n.(state := if n.attempts + 1 >= MAX_ATTEMPTS then Failed else Pending, attempts := n.attempts + 1,
            nextAttemptAt := now + backoff * (n.attempts + 1), lastSendFailed := true)
  }

  /** What one delivery does to one queue row. */
  function Settle(n: Notice, dropped: set<Key>, tried: set<Key>, accepted: set<Key>, now: int, backoff: int): Notice {
    if n.key in dropped then n.(state := Superseded)
    else if n.key in tried then Delivered(n, now, n.key in accepted, backoff)
    else n
  }

  function SettleAll(queue: seq<Notice>, dropped: set<Key>, tried: set<Key>, accepted: set<Key>, now: int,
                     backoff: int): (r: seq<Notice>)
    ensures |r| == |queue|
  {
    seq(|queue|, i requires 0 <= i < |queue| => Settle(queue[i], dropped, tried, accepted, now, backoff))
  }

  function SupersedeById(queue: seq<Notice>, id: Key): (r: seq<Notice>)
    ensures |r| == |queue|
  {
    SettleAll(queue, {id}, {}, {}, 0, 0)
  }

  /** The queue after everything due was delivered; `accepted` are the messages the messenger took. */
  function AfterDelivery(queue: seq<Notice>, now: int, accepted: set<Key>, backoff: int): seq<Notice> {
    var c := Collapse(Due(queue, now));
    SettleAll(queue, Keys(c.dropped), Keys(c.newest), accepted, now, backoff)
  }

  function Attempts(rows: seq<Notice>, now: int, accepted: set<Key>): (r: seq<Attempt>)
    ensures |r| == |rows|
  {
    seq(|rows|, i requires 0 <= i < |rows| => Attempt(rows[i], now, rows[i].key in accepted))
  }

  function Succeeded(): Attempt -> bool { (a: Attempt) => a.ok }

  /** At most the oldest due row, which is what `deliver_one` looks at. */
  function Oldest(queue: seq<Notice>, now: int): seq<Notice> {
    var due := Due(queue, now);
    if due == [] then [] else due[..1]
  }

  function AfterDeliveringOne(queue: seq<Notice>, now: int, accepted: set<Key>, backoff: int): seq<Notice> {
    SettleAll(queue, {}, Keys(Oldest(queue, now)), accepted, now, backoff)
  }

  ghost predicate UniqueNotices(queue: seq<Notice>) {
    forall i, j :: 0 <= i < j < |queue| ==> queue[i].key != queue[j].key
  }
}
