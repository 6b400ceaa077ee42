/** Rounds, one every interval, in which the group is misled: a message that the messenger refuses stays behind
    while the server's state moves on. */
module Misled {
  import opened Domain
  import opened Sequences
  import opened Notifications
  import opened QueueFacts
  import opened Runs
  import opened GroupLaws
  import opened GroupRuns
  import opened Rounds
  import opened Shortfalls

  // ---------- steps of a run ----------

  function GroupNotice(previous: State, state: State, template: Template, at: int): Notice {
    Notice(Key(SERVER, previous, state, Some(at)), Group, template, "1", Pending, 0, at, None, false, at)
  }

  /** The first outage, at the instant 0. */
  const FIRST := GroupNotice(Unknown, Unavailable, BotUnavailable, 0)

  lemma {:induction false} DueOnly(before: seq<Notice>, n: Notice, after: seq<Notice>, now: int)
    requires DueAt(now)(n)
    requires forall m :: m in before || m in after ==> !DueAt(now)(m)
    ensures Due(before + [n] + after, now) == [n]
    ensures Collapse(Due(before + [n] + after, now)) == Collapsed([n], [])
  {
    FilterNone(before, DueAt(now));
    FilterNone(after, DueAt(now));
    FilterSnoc(before, n, DueAt(now));
    FilterConcat(before + [n], after, DueAt(now));
    SortOfSorted([n], ByCreation());
    assert [n][..0] == [];
    assert Filter([], InSlot(SlotOf(n))) == [];
  }

  lemma {:induction false} SettleOnly(before: seq<Notice>, n: Notice, after: seq<Notice>, accepted: set<Key>,
                                      now: int, backoff: int)
    requires forall m :: m in before || m in after ==> m.key != n.key
    ensures SettleAll(before + [n] + after, {}, {n.key}, accepted, now, backoff)
         == before + [Delivered(n, now, n.key in accepted, backoff)] + after
  {
  }

  /** Delivering when one row is due settles that row and leaves the others. */
  lemma {:induction false} DeliverOnly(w: World, before: seq<Notice>, n: Notice, after: seq<Notice>, now: int,
                                       accepted: set<Key>, t: Timing)
    requires w.store.queue == before + [n] + after && DueAt(now)(n)
    requires forall m :: m in before || m in after ==> !DueAt(now)(m) && m.key != n.key
    ensures var next := Step(w, DeliverPending(now, accepted), t);
      && next.store == w.store.(queue := before + [Delivered(n, now, n.key in accepted, t.backoff)] + after)
      && next.log == w.log + [Attempt(n, now, n.key in accepted)]
  {
    DueOnly(before, n, after, now);
    assert Keys([n]) == {n.key} && Keys([]) == {};
    SettleOnly(before, n, after, accepted, now, t.backoff);
    assert Attempts([n], now, accepted) == [Attempt(n, now, n.key in accepted)];
  }

  // ---------- rounds of one server, one every interval ----------

  /** `k` durations in a row. */
  function Times(k: nat, duration: int): (time: int)
    ensures duration >= 0 ==> time >= 0
  {
    if k == 0 then 0 else Times(k - 1, duration) + duration
  }

  lemma {:induction false} TimesIsProduct(k: nat, duration: int)
    ensures Times(k, duration) == k * duration
  {
    if k > 0 {
      TimesIsProduct(k - 1, duration);
    }
  }

  /** A round that evaluates the server to a state and delivers. */
  function Check(state: State, at: int, accepted: set<Key>): Round { Round(at, [Seen(state, at)], accepted) }

  predicate IsCheck(r: Round) { |r.savings| == 1 && r.savings[0] == Seen(r.savings[0].evaluation.state, r.now) }

  /** One round every interval, from the instant 0. */
  ghost predicate Regular(rounds: seq<Round>, interval: nat) {
    rounds == [] ||
    var last := |rounds| - 1;
    Regular(rounds[..last], interval) && rounds[last].now == Times(last, interval) && IsCheck(rounds[last])
  }

  function SavedAs(w: World, state: State, at: int, t: Timing): World { Step(w, Save(Seen(state, at)), t) }

  function Visit(w: World, state: State, at: int, accepted: set<Key>, t: Timing): World {
    Step(SavedAs(w, state, at, t), DeliverPending(at, accepted), t)
  }

  lemma {:induction false} PlayCheck(rounds: seq<Round>, state: State, at: int, accepted: set<Key>, t: Timing)
    ensures Play(rounds + [Check(state, at, accepted)], t) == Visit(Play(rounds, t), state, at, accepted, t)
  {
    var r := Check(state, at, accepted);
    assert (rounds + [r])[..|rounds|] == rounds;
    assert Saves(r.savings) == [Save(Seen(state, at))];
    RunSnoc(EventsOf(rounds), Save(Seen(state, at)), t);
    RunSnoc(EventsOf(rounds) + Saves(r.savings), DeliverPending(at, accepted), t);
  }

  lemma {:induction false} RegularGrows(rounds: seq<Round>, state: State, accepted: set<Key>, interval: nat)
    requires Regular(rounds, interval)
    ensures Regular(rounds + [Check(state, Times(|rounds|, interval), accepted)], interval)
  {
    var r := Check(state, Times(|rounds|, interval), accepted);
    assert (rounds + [r])[..|rounds|] == rounds;
  }

  /** A way of playing rounds that is known only by what one more round does. */
  ghost predicate Plays(play: seq<Round> -> World, t: Timing) {
    && play([]) == START
    && forall rounds: seq<Round>, state: State, at: int, accepted: set<Key> ::
         play(rounds + [Check(state, at, accepted)]) == Visit(play(rounds), state, at, accepted, t)
  }

  function Playing(t: Timing): seq<Round> -> World { (rounds: seq<Round>) => Play(rounds, t) }

  lemma {:induction false} PlayPlays(t: Timing)
    ensures Plays(Playing(t), t)
  {
    forall rounds: seq<Round>, state: State, at: int, accepted: set<Key>
      ensures Play(rounds + [Check(state, at, accepted)], t) == Visit(Play(rounds, t), state, at, accepted, t)
    {
      PlayCheck(rounds, state, at, accepted, t);
    }
  }

  /** What `k` rounds, one every interval, can lead to. */
  ghost predicate Reached(play: seq<Round> -> World, w: World, k: nat, interval: nat) {
    exists rounds :: |rounds| == k && Regular(rounds, interval) && play(rounds) == w
  }

  lemma {:induction false} OneMoreRound(play: seq<Round> -> World, w: World, k: nat, interval: nat, state: State,
                                        accepted: set<Key>, t: Timing)
    returns (next: World)
    requires Plays(play, t) && Reached(play, w, k, interval)
    ensures Reached(play, next, k + 1, interval) && next == Visit(w, state, Times(k, interval), accepted, t)
  {
    var rounds :| |rounds| == k && Regular(rounds, interval) && play(rounds) == w;
    RegularGrows(rounds, state, accepted, interval);
    next := play(rounds + [Check(state, Times(k, interval), accepted)]);
  }

  /** The queue, what the group has heard, and the state of the server. */
  ghost predicate At(w: World, queue: seq<Notice>, heard: seq<Template>, state: State) {
    w.store.queue == queue && GroupHeard(w, SERVER) == heard && PreviousState(w.store, SERVER) == state
  }

  lemma {:induction false} NewestIn(queue: seq<Notice>, scope: string)
    ensures NewestHeard(queue, scope).Some? ==> NewestHeard(queue, scope).value in queue
  {
    if queue != [] {
      NewestIn(queue[..|queue| - 1], scope);
    }
  }

  /** The latest row the group may hear decides whether it is alerted. */
  lemma {:induction false} LastDecides(queue: seq<Notice>, n: Notice)
    requires Heard(n, SERVER) && forall m :: m in queue ==> m.createdAt <= n.createdAt
    ensures GroupAlerted(queue + [n], SERVER) <==> n.template == BotUnavailable
  {
    NewestIn(queue, SERVER);
    assert (queue + [n])[..|queue|] == queue;
  }

  ghost predicate GroupOnly(queue: seq<Notice>) { forall n :: n in queue ==> SlotOf(n) == GroupSlot(SERVER) }

  /** The evaluation calls for this message and its key is new. */
  ghost predicate CallsFor(queue: seq<Notice>, previous: State, state: State, template: Template, at: int) {
    && GroupOnly(queue) && previous != state
    && !HasNotice(queue, Key(SERVER, previous, state, Some(at)))
    && GroupNews(GroupAlerted(queue, SERVER), state) == Some(template)
  }

  lemma {:induction false} NewsQueued(w: World, queue: seq<Notice>, heard: seq<Template>, previous: State,
                                      state: State, template: Template, at: int, t: Timing)
    requires At(w, queue, heard, previous) && CallsFor(queue, previous, state, template, at)
    ensures At(SavedAs(w, state, at, t), queue + [GroupNotice(previous, state, template, at)], heard, state)
  {
    var sv := Seen(state, at);
    forall i | 0 <= i < |queue| ensures DropWaiting(queue[i], SERVER) == queue[i] { assert queue[i] in queue; }
    assert Supersede(queue, SERVER) == queue;
    AnnouncedRowFacts(queue, KeyOf(w.store, sv), sv, t.quiet);
  }

  lemma {:induction false} NothingQueued(w: World, queue: seq<Notice>, heard: seq<Template>, state: State, at: int,
                                         t: Timing)
    requires At(w, queue, heard, state)
    ensures At(SavedAs(w, state, at, t), queue, heard, state)
  {
  }

  /** A delivery with one row due attempts that row. */
  lemma {:induction false} OneDelivered(w: World, before: seq<Notice>, n: Notice, after: seq<Notice>,
                                        heard: seq<Template>, state: State, now: int, accepted: set<Key>, t: Timing)
    requires At(w, before + [n] + after, heard, state) && SlotOf(n) == GroupSlot(SERVER) && DueAt(now)(n)
    requires forall m :: m in before || m in after ==> !DueAt(now)(m) && m.key != n.key
    ensures At(Step(w, DeliverPending(now, accepted), t),
               before + [Delivered(n, now, n.key in accepted, t.backoff)] + after,
               if n.key in accepted then heard + [n.template] else heard, state)
  {
    DeliverOnly(w, before, n, after, now, accepted, t);
    HeardSnoc(w.log, Attempt(n, now, n.key in accepted), SERVER);
  }

  // ---------- messages that are refused ----------

  /** A round in which one message is due, and taken or refused. */
  lemma {:induction false} RoundDelivers(play: seq<Round> -> World, w: World, before: seq<Notice>, n: Notice,
                                         after: seq<Notice>, heard: seq<Template>, state: State, k: nat,
                                         interval: nat, ok: bool, t: Timing)
    returns (next: World)
    requires Plays(play, t) && Reached(play, w, k, interval)
    requires At(SavedAs(w, state, Times(k, interval), t), before + [n] + after, heard, state)
    requires SlotOf(n) == GroupSlot(SERVER) && DueAt(Times(k, interval))(n)
    requires forall m :: m in before || m in after ==> !DueAt(Times(k, interval))(m) && m.key != n.key
    ensures Reached(play, next, k + 1, interval)
    ensures At(next, before + [Delivered(n, Times(k, interval), ok, t.backoff)] + after,
               if ok then heard + [n.template] else heard, state)
  {
    var accepted := if ok then {n.key} else {};
    next := OneMoreRound(play, w, k, interval, state, accepted, t);
    OneDelivered(SavedAs(w, state, Times(k, interval), t), before, n, after, heard, state, Times(k, interval), accepted,
                 t);
  }

  /** A group message after `k` refusals, the first in the round that queued it and then once every interval. */
  function Refused(n: Notice, k: nat, interval: nat, backoff: nat): Notice {
    if k == 0 then n
    else
      n.(attempts := k, nextAttemptAt := n.createdAt + Times(k - 1, interval) + Times(k, backoff),
         lastSendFailed := true)
  }

  /** The back-off after `k` refusals is the first that outlasts the interval. */
  ghost predicate Outlasts(k: nat, interval: nat, backoff: nat) {
    2 <= k < MAX_ATTEMPTS && 0 < backoff <= interval && Times(k - 1, backoff) <= interval < Times(k, backoff)
  }

  lemma {:induction false} OutlastsFrom(j: nat, interval: nat, backoff: nat) returns (k: nat)
    requires 1 <= j < MAX_ATTEMPTS - 1 && 0 < backoff <= interval
    requires Times(j, backoff) <= interval < Times(MAX_ATTEMPTS - 1, backoff)
    ensures Outlasts(k, interval, backoff)
    decreases MAX_ATTEMPTS - j
  {
    k := j + 1;
    if Times(j + 1, backoff) <= interval {
      k := OutlastsFrom(j + 1, interval, backoff);
    }
  }

  /** The interval is no shorter than the first back-off, and shorter than the last one. */
  predicate Ordinary(interval: nat, backoff: nat) { 0 < backoff <= interval < (MAX_ATTEMPTS - 1) * backoff }

  /** For every ordinary interval some back-off is the first that outlasts it. */
  lemma {:induction false} SomeOutlasts(interval: nat, backoff: nat) returns (k: nat)
    requires Ordinary(interval, backoff)
    ensures Outlasts(k, interval, backoff)
  {
    TimesIsProduct(1, backoff);
    TimesIsProduct(MAX_ATTEMPTS - 1, backoff);
    k := OutlastsFrom(1, interval, backoff);
  }

  lemma {:induction false} ShorterBackoffs(j: nat, k: nat, interval: nat, backoff: nat)
    requires j < k && Outlasts(k, interval, backoff)
    ensures Times(j, backoff) <= interval && Times(k, backoff) <= 2 * interval
    decreases k - j
  {
    if j < k - 1 {
      ShorterBackoffs(j + 1, k, interval, backoff);
    }
  }

  ghost predicate Unsent(n: Notice) {
    && n.attempts == 0 && n.state == Pending && !n.lastSendFailed && n.nextAttemptAt == n.createdAt
    && SlotOf(n) == GroupSlot(SERVER)
  }

  /** A message refused `j` times is due again one interval after it was refused last. */
  lemma {:induction false} DueAgain(n: Notice, j: nat, k: nat, at: int, interval: nat, backoff: nat)
    requires Unsent(n) && j < k && Outlasts(k, interval, backoff) && at == n.createdAt + Times(j, interval)
    ensures DueAt(at)(Refused(n, j, interval, backoff))
  {
    ShorterBackoffs(j, k, interval, backoff);
  }

  lemma {:induction false} RefusedOnceMore(n: Notice, j: nat, at: int, interval: nat, backoff: nat)
    requires Unsent(n) && j + 1 < MAX_ATTEMPTS && at == n.createdAt + Times(j, interval)
    ensures Delivered(Refused(n, j, interval, backoff), at, false, backoff) == Refused(n, j + 1, interval, backoff)
  {
    TimesIsProduct(j + 1, backoff);
  }

  /** The rows are finished, and other messages than this one. */
  ghost predicate Apart(queue: seq<Notice>, n: Notice) {
    forall m :: m in queue ==> m.state != Pending && m.key != n.key
  }

  lemma {:induction false} KeyApart(queue: seq<Notice>, n: Notice)
    requires !HasNotice(queue, n.key)
    ensures forall m :: m in queue ==> m.key != n.key
  {
    forall m | m in queue ensures m.key != n.key {
      var i :| 0 <= i < |queue| && queue[i] == m;
    }
  }

  /** The round that queues a message takes or refuses it. */
  lemma {:induction false} RoundAnnounces(play: seq<Round> -> World, w: World, queue: seq<Notice>,
                                          heard: seq<Template>, previous: State, state: State, template: Template,
                                          k: nat, interval: nat, ok: bool, t: Timing)
    returns (next: World)
    requires Plays(play, t) && Reached(play, w, k, interval) && At(w, queue, heard, previous)
    requires CallsFor(queue, previous, state, template, Times(k, interval))
    requires forall m :: m in queue ==> !DueAt(Times(k, interval))(m)
    ensures Reached(play, next, k + 1, interval)
    ensures var n := GroupNotice(previous, state, template, Times(k, interval));
      At(next, queue + [Delivered(n, Times(k, interval), ok, t.backoff)], if ok then heard + [template] else heard,
         state)
  {
    var at := Times(k, interval);
    var n := GroupNotice(previous, state, template, at);
    NewsQueued(w, queue, heard, previous, state, template, at, t);
    KeyApart(queue, n);
    assert queue + [n] + [] == queue + [n];
    next := RoundDelivers(play, w, queue, n, [], heard, state, k, interval, ok, t);
    assert queue + [Delivered(n, at, ok, t.backoff)] + [] == queue + [Delivered(n, at, ok, t.backoff)];
  }

  /** A round without news in which the last message of the queue is due again, and refused again. */
  lemma {:induction false} RoundRefuses(play: seq<Round> -> World, w: World, queue: seq<Notice>, heard: seq<Template>,
                                        due: Notice, state: State, k: nat, interval: nat, t: Timing)
    returns (next: World)
    requires Plays(play, t) && Reached(play, w, k, interval) && At(w, queue + [due], heard, state)
    requires SlotOf(due) == GroupSlot(SERVER) && DueAt(Times(k, interval))(due) && Apart(queue, due)
    ensures Reached(play, next, k + 1, interval)
    ensures At(next, queue + [Delivered(due, Times(k, interval), false, t.backoff)], heard, state)
  {
    NothingQueued(w, queue + [due], heard, state, Times(k, interval), t);
    assert queue + [due] + [] == queue + [due];
    next := RoundDelivers(play, w, queue, due, [], heard, state, k, interval, false, t);
    var after := Delivered(due, Times(k, interval), false, t.backoff);
    assert queue + [after] + [] == queue + [after];
  }

  /** After so many rounds the message has been refused `j` times, in a row from the round that queued it. */
  ghost predicate RefusedBy(play: seq<Round> -> World, w: World, queue: seq<Notice>, heard: seq<Template>, n: Notice,
                            j: nat, rounds: nat, interval: nat, t: Timing)
  {
    && Reached(play, w, rounds, interval) && At(w, queue + [Refused(n, j, interval, t.backoff)], heard, n.key.toState)
    && Times(rounds, interval) == n.createdAt + Times(j, interval)
  }

  lemma {:induction false} RefusedAgain(play: seq<Round> -> World, w: World, queue: seq<Notice>, heard: seq<Template>,
                                        n: Notice, j: nat, k: nat, i: nat, interval: nat, t: Timing)
    returns (next: World)
    requires Plays(play, t) && RefusedBy(play, w, queue, heard, n, j, i, interval, t)
    requires Unsent(n) && Apart(queue, n) && j < k && Outlasts(k, interval, t.backoff)
    ensures RefusedBy(play, next, queue, heard, n, j + 1, i + 1, interval, t)
  {
    DueAgain(n, j, k, Times(i, interval), interval, t.backoff);
    RefusedOnceMore(n, j, Times(i, interval), interval, t.backoff);
    next := RoundRefuses(play, w, queue, heard, Refused(n, j, interval, t.backoff), n.key.toState, i, interval, t);
  }

  /** A message refused once is refused again in every round, until its back-off outlasts the interval. */
  lemma {:induction false} KeepsRefusing(play: seq<Round> -> World, w: World, queue: seq<Notice>,
                                         heard: seq<Template>, n: Notice, j: nat, k: nat, i: nat, interval: nat,
                                         t: Timing)
    returns (next: World, rounds: nat)
    requires Plays(play, t) && RefusedBy(play, w, queue, heard, n, j, i, interval, t)
    requires Unsent(n) && Apart(queue, n) && j <= k && Outlasts(k, interval, t.backoff)
    ensures RefusedBy(play, next, queue, heard, n, k, rounds, interval, t)
    decreases k - j
  {
    next, rounds := w, i;
    if j < k {
      next := RefusedAgain(play, w, queue, heard, n, j, k, i, interval, t);
      next, rounds := KeepsRefusing(play, next, queue, heard, n, j + 1, k, i + 1, interval, t);
    }
  }

  // ---------- rounds that mislead the group ----------

  lemma {:induction false} FirstRound(play: seq<Round> -> World, interval: nat, ok: bool, t: Timing)
    returns (w: World)
    requires Plays(play, t)
    ensures Reached(play, w, 1, interval)
    ensures At(w, [Delivered(FIRST, 0, ok, t.backoff)], if ok then [BotUnavailable] else [], Unavailable)
  {
    var none: seq<Round> := [];
    assert |none| == 0 && Regular(none, interval) && play(none) == START;
    assert At(START, [], [], Unknown);
    w := RoundAnnounces(play, START, [], [], Unknown, Unavailable, BotUnavailable, 0, interval, ok, t);
    assert [] + [Delivered(FIRST, 0, ok, t.backoff)] == [Delivered(FIRST, 0, ok, t.backoff)];
  }

  ghost predicate Finished(queue: seq<Notice>) { forall n :: n in queue ==> n.state == Sent || n.state == Superseded }

  lemma {:induction false} HeldBack(play: seq<Round> -> World, k: nat, interval: nat, t: Timing)
    returns (w: World, m: nat)
    requires Plays(play, t) && Outlasts(k, interval, t.backoff)
    ensures RefusedBy(play, w, [], [], FIRST, k, m, interval, t)
  {
    w := FirstRound(play, interval, false, t);
    RefusedOnceMore(FIRST, 0, 0, interval, t.backoff);
    assert [] + [Refused(FIRST, 1, interval, t.backoff)] == [Refused(FIRST, 1, interval, t.backoff)];
    w, m := KeepsRefusing(play, w, [], [], FIRST, 1, k, 1, interval, t);
  }

  /** One interval after its last refusal the message is in back-off, two intervals after it is due. */
  lemma {:induction false} BackoffOutlasts(n: Notice, k: nat, at: int, interval: nat, backoff: nat)
    requires Unsent(n) && Outlasts(k, interval, backoff) && at == n.createdAt + Times(k, interval)
    ensures n.createdAt < at && !DueAt(at)(Refused(n, k, interval, backoff))
    ensures DueAt(at + interval)(Refused(n, k, interval, backoff))
  {
    ShorterBackoffs(0, k, interval, backoff);
  }

  /** The latest message decides which news an evaluation is for the group. */
  lemma {:induction false} CallsAfter(queue: seq<Notice>, last: Notice, previous: State, state: State,
                                      template: Template, at: int)
    requires GroupOnly(queue + [last]) && (last.state == Pending || last.state == Sent)
    requires forall m :: m in queue ==> m.createdAt <= last.createdAt
    requires forall m :: m in queue + [last] ==> m.key.toState != state || m.createdAt < at
    requires forall m :: m in queue + [last] ==> m.key.observedAt == Some(m.createdAt)
    requires previous != state && GroupNews(last.template == BotUnavailable, state) == Some(template)
    ensures CallsFor(queue + [last], previous, state, template, at)
  {
    assert last in queue + [last];
    LastDecides(queue, last);
  }

  lemma {:induction false} RecoveryGoesFirst(play: seq<Round> -> World, w: World, k: nat, m: nat, interval: nat,
                                             t: Timing)
    returns (next: World, gone: Notice)
    requires Plays(play, t) && RefusedBy(play, w, [], [], FIRST, k, m, interval, t) && Outlasts(k, interval, t.backoff)
    ensures Reached(play, next, m + 1, interval)
    ensures At(next, [Refused(FIRST, k, interval, t.backoff)] + [gone], [BotRecovered], Operational)
    ensures gone.state == Sent && gone.key != FIRST.key
  {
    var held, at := Refused(FIRST, k, interval, t.backoff), Times(m, interval);
    assert [] + [held] == [held];
    BackoffOutlasts(FIRST, k, at, interval, t.backoff);
    CallsAfter([], held, Unavailable, Operational, BotRecovered, at);
    next := RoundAnnounces(play, w, [held], [], Unavailable, Operational, BotRecovered, m, interval, true, t);
    gone := Delivered(GroupNotice(Unavailable, Operational, BotRecovered, at), at, true, t.backoff);
  }

  lemma {:induction false} OutageGoesLast(play: seq<Round> -> World, w: World, held: Notice, gone: Notice, m: nat,
                                          interval: nat, t: Timing)
    returns (next: World)
    requires Plays(play, t) && Reached(play, w, m, interval)
    requires At(w, [held] + [gone], [BotRecovered], Operational)
    requires held.template == BotUnavailable && SlotOf(held) == GroupSlot(SERVER) && DueAt(Times(m, interval))(held)
    requires gone.state == Sent && gone.key != held.key
    ensures Reached(play, next, m + 1, interval)
    ensures PreviousState(next.store, SERVER) == Operational
    ensures GroupHeard(next, SERVER) == [BotRecovered, BotUnavailable] && Finished(next.store.queue)
  {
    NothingQueued(w, [held] + [gone], [BotRecovered], Operational, Times(m, interval), t);
    assert [] + [held] + [gone] == [held] + [gone];
    next := RoundDelivers(play, w, [], held, [gone], [BotRecovered], Operational, m, interval, true, t);
  }

  /** An outage is refused in every round until its back-off outlasts the interval; the server recovers, and the
      recovery goes out first. For every such interval and back-off, the group's last word is then an outage of a
      server that works, and nothing is left to correct it. */
  lemma {:induction false} RecoveryOvertakesOutage(interval: nat, t: Timing) returns (rounds: seq<Round>)
    requires Ordinary(interval, t.backoff)
    ensures Regular(rounds, interval)
    ensures var w := Play(rounds, t);
      && PreviousState(w.store, SERVER) == Operational && Finished(w.store.queue)
      && GroupHeard(w, SERVER) == [BotRecovered, BotUnavailable]
  {
    PlayPlays(t);
    var k := SomeOutlasts(interval, t.backoff);
    var w, m := OvertakingRounds(Playing(t), k, interval, t);
    rounds :| |rounds| == m && Regular(rounds, interval) && Playing(t)(rounds) == w;
  }

  lemma {:induction false} OvertakingRounds(play: seq<Round> -> World, k: nat, interval: nat, t: Timing)
    returns (w: World, m: nat)
    requires Plays(play, t) && Outlasts(k, interval, t.backoff)
    ensures Reached(play, w, m, interval) && PreviousState(w.store, SERVER) == Operational
    ensures GroupHeard(w, SERVER) == [BotRecovered, BotUnavailable] && Finished(w.store.queue)
  {
    var held := Refused(FIRST, k, interval, t.backoff);
    w, m := HeldBack(play, k, interval, t);
    BackoffOutlasts(FIRST, k, Times(m, interval), interval, t.backoff);
    var gone;
    w, gone := RecoveryGoesFirst(play, w, k, m, interval, t);
    w := OutageGoesLast(play, w, held, gone, m + 1, interval, t);
    m := m + 2;
  }

  // ---------- batches that leave the group misinformed ----------

  lemma {:induction false} OneSlotCollapses(rows: seq<Notice>, slot: Slot)
    requires forall n :: n in rows ==> SlotOf(n) == slot
    ensures Collapse(rows).newest == Survivor(rows)
  {
    CollapseMembers(rows);
    CollapseBySlot(rows, slot);
    FilterAll(rows, InSlot(slot));
    FilterAll(Collapse(rows).newest, InSlot(slot));
  }

  lemma {:induction false} BatchIsDue(sent: Notice, rows: seq<Notice>, now: int)
    requires sent.state == Sent && SortedBy(rows, ByCreation())
    requires forall n :: n in rows ==> DueAt(now)(n)
    ensures Due([sent] + rows, now) == rows
  {
    FilterConcat([sent], rows, DueAt(now));
    FilterNone([sent], DueAt(now));
    FilterAll(rows, DueAt(now));
    SortOfSorted(rows, ByCreation());
    assert [] + rows == rows;
  }

  /** Due rows of the group's slot that alternate from a recovery. */
  ghost predicate Batch(rows: seq<Notice>, now: int) {
    && SortedBy(rows, ByCreation()) && Alternating(Templates(rows), BotRecovered)
    && forall n :: n in rows ==> DueAt(now)(n) && SlotOf(n) == GroupSlot(SERVER)
  }

  /** What such a batch sends. */
  function Outcome(rows: seq<Notice>): seq<Notice> {
    if |rows| == 1 || (rows != [] && |rows| % 2 == 0) then [rows[|rows| - 1]] else []
  }

  lemma {:induction false} BatchCollapses(sent: Notice, rows: seq<Notice>, now: int)
    requires sent.state == Sent && Batch(rows, now)
    ensures Due([sent] + rows, now) == rows && Collapse(rows).newest == Outcome(rows)
  {
    BatchIsDue(sent, rows, now);
    OneSlotCollapses(rows, GroupSlot(SERVER));
    forall i | 0 <= i < |rows| ensures rows[i].destination == Group { assert rows[i] in rows; }
    RecoveryBatch(rows);
  }

  lemma {:induction false} AllGivenUp(queue: seq<Notice>, sent: Notice, rows: seq<Notice>, now: int,
                                      accepted: set<Key>, backoff: int)
    requires queue == [sent] + rows && sent.state == Sent
    requires Due(queue, now) == rows && Collapse(rows).newest == []
    ensures Finished(AfterDelivery(queue, now, accepted, backoff))
  {
    var after := AfterDelivery(queue, now, accepted, backoff);
    CollapseMembers(rows);
    forall n | n in after ensures n.state == Sent || n.state == Superseded {
      var i :| 0 <= i < |after| && after[i] == n;
      if i > 0 {
        assert queue[i] in rows;
        assert queue[i].key in Keys(Collapse(rows).dropped);
      }
    }
  }

  /** After a sent message, a batch of alternating rows that begins with a recovery is delivered. */
  lemma {:induction false} BatchDelivered(w: World, sent: Notice, rows: seq<Notice>, heard: seq<Template>,
                                          state: State, now: int, accepted: set<Key>, t: Timing)
    requires At(w, [sent] + rows, heard, state) && sent.state == Sent && Batch(rows, now)
    ensures var next := Step(w, DeliverPending(now, accepted), t);
      && PreviousState(next.store, SERVER) == state
      && GroupHeard(next, SERVER) == heard + HeardIn(Attempts(Outcome(rows), now, accepted), SERVER)
      && (Outcome(rows) == [] ==> Finished(next.store.queue))
  {
    BatchCollapses(sent, rows, now);
    StepIsDelivery(w, now, accepted, t);
    HeardAppends(w.log, Attempts(Outcome(rows), now, accepted), SERVER);
    if Outcome(rows) == [] {
      AllGivenUp(w.store.queue, sent, rows, now, accepted, t.backoff);
    }
  }

  /** A round that delivers such a batch, in which the messenger takes every message of it. */
  lemma {:induction false} RoundCollapses(play: seq<Round> -> World, w: World, sent: Notice, rows: seq<Notice>,
                                          heard: seq<Template>, state: State, k: nat, interval: nat, t: Timing)
    returns (next: World)
    requires Plays(play, t) && Reached(play, w, k, interval)
    requires At(SavedAs(w, state, Times(k, interval), t), [sent] + rows, heard, state) && sent.state == Sent
    requires Batch(rows, Times(k, interval))
    ensures Reached(play, next, k + 1, interval) && PreviousState(next.store, SERVER) == state
    ensures GroupHeard(next, SERVER) == heard + Templates(Outcome(rows))
    ensures Outcome(rows) == [] ==> Finished(next.store.queue)
  {
    next := OneMoreRound(play, w, k, interval, state, Keys(rows), t);
    BatchDelivered(SavedAs(w, state, Times(k, interval), t), sent, rows, heard, state, Times(k, interval), Keys(rows),
                   t);
    OutcomeTaken(rows, Times(k, interval));
  }

  lemma {:induction false} OutcomeTaken(rows: seq<Notice>, now: int)
    requires forall n :: n in rows ==> SlotOf(n) == GroupSlot(SERVER)
    ensures HeardIn(Attempts(Outcome(rows), now, Keys(rows)), SERVER) == Templates(Outcome(rows))
  {
    HeardOf(Outcome(rows), now, Keys(rows), SERVER);
    FilterAll(Outcome(rows), InSlot(GroupSlot(SERVER)));
    FilterAll(Outcome(rows), AcceptedIn(Keys(rows)));
  }

  /** A round whose news makes the pending rows one batch with it. */
  lemma {:induction false} NewsCollapses(play: seq<Round> -> World, w: World, sent: Notice, rows: seq<Notice>,
                                         heard: seq<Template>, previous: State, state: State, template: Template,
                                         k: nat, interval: nat, t: Timing)
    returns (next: World)
    requires Plays(play, t) && Reached(play, w, k, interval)
    requires At(w, [sent] + rows, heard, previous) && sent.state == Sent
    requires CallsFor([sent] + rows, previous, state, template, Times(k, interval))
    requires Batch(rows + [GroupNotice(previous, state, template, Times(k, interval))], Times(k, interval))
    ensures var all := rows + [GroupNotice(previous, state, template, Times(k, interval))];
      && Reached(play, next, k + 1, interval) && PreviousState(next.store, SERVER) == state
      && GroupHeard(next, SERVER) == heard + Templates(Outcome(all))
      && (Outcome(all) == [] ==> Finished(next.store.queue))
  {
    var n := GroupNotice(previous, state, template, Times(k, interval));
    NewsQueued(w, [sent] + rows, heard, previous, state, template, Times(k, interval), t);
    assert [sent] + rows + [n] == [sent] + (rows + [n]);
    next := RoundCollapses(play, w, sent, rows + [n], heard, state, k, interval, t);
  }

  function Outage(at: int): Notice { GroupNotice(Operational, Unavailable, BotUnavailable, at) }
  function Recovery(at: int): Notice { GroupNotice(Unavailable, Operational, BotRecovered, at) }

  /** The first outage, as it stands once it was sent. */
  function FirstSent(t: Timing): Notice { Delivered(FIRST, 0, true, t.backoff) }

  lemma {:induction false} RecoveryCalled(interval: nat, t: Timing)
    requires 0 < interval
    ensures CallsFor([FirstSent(t)], Unavailable, Operational, BotRecovered, interval)
  {
    CallsAfter([], FirstSent(t), Unavailable, Operational, BotRecovered, interval);
    assert [] + [FirstSent(t)] == [FirstSent(t)];
  }

  /** After a sent outage the recovery is refused in the round that queues it. */
  lemma {:induction false} RecoveryRefused(play: seq<Round> -> World, interval: nat, t: Timing) returns (w: World)
    requires Plays(play, t) && 0 < interval
    ensures RefusedBy(play, w, [FirstSent(t)], [BotUnavailable], Recovery(interval), 1, 2, interval, t)
  {
    w := FirstRound(play, interval, true, t);
    RecoveryCalled(interval, t);
    w := RoundAnnounces(play, w, [FirstSent(t)], [BotUnavailable], Unavailable, Operational, BotRecovered, 1, interval,
                        false, t);
    RefusedOnceMore(Recovery(interval), 0, interval, interval, t.backoff);
  }

  lemma {:induction false} PairIsBatch(held: Notice, last: Notice, now: int)
    requires held.template == BotRecovered && last.template == BotUnavailable && held.createdAt <= last.createdAt
    requires DueAt(now)(held) && DueAt(now)(last)
    requires SlotOf(held) == GroupSlot(SERVER) && SlotOf(last) == GroupSlot(SERVER)
    ensures Batch([held] + [last], now) && Outcome([held] + [last]) == [last]
  {
  }

  lemma {:induction false} OutageCalled(held: Notice, at: int, t: Timing)
    requires held.template == BotRecovered && held.state == Pending && SlotOf(held) == GroupSlot(SERVER)
    requires 0 <= held.createdAt < at && held.key.observedAt == Some(held.createdAt)
    ensures CallsFor([FirstSent(t)] + [held], Operational, Unavailable, BotUnavailable, at)
  {
    CallsAfter([FirstSent(t)], held, Operational, Unavailable, BotUnavailable, at);
  }

  /** The outage was heard, and its recovery is refused once. An interval later the server is down again: the
      recovery, due again, and the new outage are one batch, and the group hears of two outages in a row. */
  lemma {:induction false} OutageHeardTwice(interval: nat, t: Timing) returns (rounds: seq<Round>)
    requires 0 < t.backoff <= interval
    ensures Regular(rounds, interval) && |rounds| == 3
    ensures GroupHeard(Play(rounds, t), SERVER) == [BotUnavailable, BotUnavailable]
  {
    PlayPlays(t);
    var w := RepeatingRounds(Playing(t), interval, t);
    rounds :| |rounds| == 3 && Regular(rounds, interval) && Playing(t)(rounds) == w;
  }

  lemma {:induction false} RepeatingRounds(play: seq<Round> -> World, interval: nat, t: Timing) returns (w: World)
    requires Plays(play, t) && 0 < t.backoff <= interval
    ensures Reached(play, w, 3, interval) && GroupHeard(w, SERVER) == [BotUnavailable, BotUnavailable]
  {
    var held, at := Refused(Recovery(interval), 1, interval, t.backoff), Times(2, interval);
    w := RecoveryRefused(play, interval, t);
    assert at == 2 * interval && Times(1, t.backoff) == t.backoff;
    OutageCalled(held, at, t);
    PairIsBatch(held, Outage(at), at);
    w := NewsCollapses(play, w, FirstSent(t), [held], [BotUnavailable], Operational, Unavailable, BotUnavailable, 2,
                       interval, t);
    assert Templates([Outage(at)]) == [BotUnavailable];
  }

  lemma {:induction false} TripleIsBatch(held: Notice, outage: Notice, last: Notice, now: int)
    requires held.template == BotRecovered && outage.template == BotUnavailable && last.template == BotRecovered
    requires held.createdAt <= outage.createdAt <= last.createdAt
    requires DueAt(now)(held) && DueAt(now)(outage) && DueAt(now)(last)
    requires SlotOf(held) == SlotOf(outage) == SlotOf(last) == GroupSlot(SERVER)
    ensures Batch([held, outage] + [last], now) && Outcome([held, outage] + [last]) == []
  {
  }

  lemma {:induction false} SecondRecoveryCalled(held: Notice, outage: Notice, at: int, t: Timing)
    requires outage.template == BotUnavailable && outage.state == Pending
    requires SlotOf(held) == SlotOf(outage) == GroupSlot(SERVER)
    requires 0 <= held.createdAt <= outage.createdAt < at
    requires held.key.observedAt == Some(held.createdAt) && outage.key.observedAt == Some(outage.createdAt)
    ensures CallsFor([FirstSent(t)] + [held, outage], Unavailable, Operational, BotRecovered, at)
  {
    CallsAfter([FirstSent(t), held], outage, Unavailable, Operational, BotRecovered, at);
    assert [FirstSent(t), held] + [outage] == [FirstSent(t)] + [held, outage];
  }

  /** While the recovery is in back-off the server fails again, and that outage is refused as well. */
  lemma {:induction false} OutageRefused(play: seq<Round> -> World, w: World, n: Notice, k: nat, m: nat,
                                         interval: nat, t: Timing)
    returns (next: World, outage: Notice)
    requires Plays(play, t) && Outlasts(k, interval, t.backoff) && n == Recovery(interval)
    requires RefusedBy(play, w, [FirstSent(t)], [BotUnavailable], n, k, m, interval, t)
    ensures Reached(play, next, m + 1, interval)
    ensures At(next, [FirstSent(t)] + [Refused(n, k, interval, t.backoff), outage], [BotUnavailable], Unavailable)
    ensures outage == Delivered(Outage(Times(m, interval)), Times(m, interval), false, t.backoff)
  {
    var held, at := Refused(n, k, interval, t.backoff), Times(m, interval);
    BackoffOutlasts(n, k, at, interval, t.backoff);
    OutageCalled(held, at, t);
    outage := Delivered(Outage(at), at, false, t.backoff);
    next := RoundAnnounces(play, w, [FirstSent(t)] + [held], [BotUnavailable], Operational, Unavailable, BotUnavailable,
                           m, interval, false, t);
    assert [FirstSent(t)] + [held] + [outage] == [FirstSent(t)] + [held, outage];
  }

  /** The outage was heard; its recovery is refused in every round until its back-off outlasts the interval, the
      server fails again, is refused once, and recovers. The three messages, due together, cancel: for every such
      interval and back-off the group's last word stays an outage of a server that works, and nothing is left to
      correct it. */
  lemma {:induction false} RecoveriesCancel(interval: nat, t: Timing) returns (rounds: seq<Round>)
    requires Ordinary(interval, t.backoff)
    ensures Regular(rounds, interval)
    ensures var w := Play(rounds, t);
      && PreviousState(w.store, SERVER) == Operational && Finished(w.store.queue)
      && GroupHeard(w, SERVER) == [BotUnavailable]
  {
    PlayPlays(t);
    var k := SomeOutlasts(interval, t.backoff);
    var w, m := CancellingRounds(Playing(t), k, interval, t);
    rounds :| |rounds| == m && Regular(rounds, interval) && Playing(t)(rounds) == w;
  }

  lemma {:induction false} CancellingRounds(play: seq<Round> -> World, k: nat, interval: nat, t: Timing)
    returns (w: World, m: nat)
    requires Plays(play, t) && Outlasts(k, interval, t.backoff)
    ensures Reached(play, w, m, interval) && PreviousState(w.store, SERVER) == Operational
    ensures GroupHeard(w, SERVER) == [BotUnavailable] && Finished(w.store.queue)
  {
    var n := Recovery(interval);
    w := RecoveryRefused(play, interval, t);
    w, m := KeepsRefusing(play, w, [FirstSent(t)], [BotUnavailable], n, 1, k, 2, interval, t);
    var outage;
    BackoffOutlasts(n, k, Times(m, interval), interval, t.backoff);
    w, outage := OutageRefused(play, w, n, k, m, interval, t);
    m := m + 1;
    w := LastCancels(play, w, Refused(n, k, interval, t.backoff), outage, m, interval, t);
    m := m + 1;
  }

  lemma {:induction false} LastCancels(play: seq<Round> -> World, w: World, held: Notice, outage: Notice, m: nat,
                                       interval: nat, t: Timing)
    returns (next: World)
    requires Plays(play, t) && Reached(play, w, m, interval)
    requires At(w, [FirstSent(t)] + [held, outage], [BotUnavailable], Unavailable)
    requires held.template == BotRecovered && outage.template == BotUnavailable
    requires SlotOf(held) == SlotOf(outage) == GroupSlot(SERVER)
    requires 0 <= held.createdAt <= outage.createdAt < Times(m, interval)
    requires held.key.observedAt == Some(held.createdAt) && outage.key.observedAt == Some(outage.createdAt)
    requires DueAt(Times(m, interval))(held) && DueAt(Times(m, interval))(outage)
    ensures Reached(play, next, m + 1, interval) && PreviousState(next.store, SERVER) == Operational
    ensures GroupHeard(next, SERVER) == [BotUnavailable] && Finished(next.store.queue)
  {
    var at := Times(m, interval);
    SecondRecoveryCalled(held, outage, at, t);
    TripleIsBatch(held, outage, Recovery(at), at);
    next := NewsCollapses(play, w, FirstSent(t), [held, outage], [BotUnavailable], Unavailable, Operational,
                          BotRecovered, m, interval, t);
    assert [BotUnavailable] + Templates([]) == [BotUnavailable];
  }
}
