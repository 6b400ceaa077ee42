/** What every run keeps, whatever the messenger does: keys, finished messages, retry accounting, and
    what the administrator is told. */
module RunLaws {
  import opened Domain
  import opened Sequences
  import opened Notifications
  import opened QueueFacts
  import opened Runs

  // ---------- the two tables keep their keys ----------

  ghost predicate UniqueTransitions(transitions: seq<Transition>) {
    forall i, j :: 0 <= i < j < |transitions| ==> transitions[i].key != transitions[j].key
  }

  ghost predicate OneOpen(transitions: seq<Transition>) {
    forall i, j :: 0 <= i < j < |transitions| && transitions[i].closedAt.None? && transitions[j].closedAt.None?
      ==> transitions[i].key.scope != transitions[j].key.scope
  }

  ghost predicate Consistent(s: Store) {
    && UniqueNotices(s.queue)
    && UniqueTransitions(s.transitions)
    && OneOpen(s.transitions)
    && (forall i :: 0 <= i < |s.queue| ==> HasTransition(s.transitions, s.queue[i].key))
  }

  lemma {:induction false} SavedTransitions(s: Store, sv: Saving, quiet: int)
    requires UniqueTransitions(s.transitions) && OneOpen(s.transitions) && Changes(s, sv)
    ensures var after := Saved(s, sv, quiet).transitions;
      && UniqueTransitions(after) && OneOpen(after)
      && HasTransition(after, KeyOf(s, sv))
      && forall key :: HasTransition(s.transitions, key) ==> HasTransition(after, key)
  {
    var key := KeyOf(s, sv);
    var inserted := Inserted(s.transitions, key, sv);
    var after := Saved(s, sv, quiet).transitions;
    assert forall i :: 0 <= i < |inserted| ==> after[i].key == inserted[i].key;
    forall k | HasTransition(s.transitions, k) ensures HasTransition(after, k) {
      var i :| 0 <= i < |s.transitions| && s.transitions[i].key == k;
      assert after[i].key == k;
    }
    if !HasTransition(s.transitions, key) {
      assert after[|s.transitions|].key == key;
    }
  }

  lemma {:induction false} SaveConsistent(s: Store, sv: Saving, quiet: int)
    requires Consistent(s)
    ensures Consistent(Saved(s, sv, quiet))
  {
    if Changes(s, sv) {
      var key := KeyOf(s, sv);
      SavedTransitions(s, sv, quiet);
      AnnouncedKeepsUnique(s.queue, key, sv, quiet);
      AnnouncedRowFacts(s.queue, key, sv, quiet);
      var after := Saved(s, sv, quiet);
      forall i | 0 <= i < |after.queue| ensures HasTransition(after.transitions, after.queue[i].key) {
        if i < |s.queue| {
          assert after.queue[i].key == s.queue[i].key;
        }
      }
    }
  }

  lemma {:induction false} StepConsistent(w: World, e: Event, t: Timing)
    requires Consistent(w.store)
    ensures Consistent(Step(w, e, t).store)
  {
    if e.Save? {
      SaveConsistent(w.store, e.saving, t.quiet);
    } else {
      var queue := w.store.queue;
      SettleKeepsUnique(queue, Keys(GivenUp(queue, e)), Keys(Tried(queue, e)), e.accepted, e.now, t.backoff);
    }
  }

  /** Notices and transitions have unique keys, every notice belongs to a logged transition, and a
      scope has at most one open transition. */
  lemma {:induction false} RunConsistent(events: seq<Event>, t: Timing)
    ensures Consistent(Run(events, t).store)
  {
    if events != [] {
      RunConsistent(events[..|events| - 1], t);
      StepConsistent(Run(events[..|events| - 1], t), events[|events| - 1], t);
    }
  }

  // ---------- rows handed over and rows given up ----------

  lemma {:induction false} TriedFacts(queue: seq<Notice>, e: Event)
    requires UniqueNotices(queue) && !e.Save?
    ensures UniqueNotices(Tried(queue, e))
    ensures Keys(Tried(queue, e)) !! Keys(GivenUp(queue, e))
    ensures forall n :: n in Tried(queue, e) || n in GivenUp(queue, e) ==>
        n in queue && n.state == Pending && n.nextAttemptAt <= e.now
  {
    var due := Due(queue, e.now);
    DueMembers(queue, e.now);
    DueUnique(queue, e.now);
    CollapseMembers(due);
    CollapseUnique(due);
    assert forall n :: n in Oldest(queue, e.now) ==> n in due;
  }

  lemma {:induction false} SameKeySameRow(queue: seq<Notice>, n: Notice, m: Notice)
    requires UniqueNotices(queue) && n in queue && m in queue && n.key == m.key
    ensures n == m
  {
  }

  ghost predicate SameMessage(n: Notice, m: Notice) {
    n.key == m.key && n.destination == m.destination && n.template == m.template
      && n.serverId == m.serverId && n.createdAt == m.createdAt
  }

  /** An event leaves a row alone, supersedes it, or attempts it when it was due. */
  lemma {:induction false} RowCases(w: World, e: Event, t: Timing, i: nat)
    requires Consistent(w.store) && i < |w.store.queue|
    ensures |w.store.queue| <= |Step(w, e, t).store.queue| <= |w.store.queue| + 1
    ensures var n, m := w.store.queue[i], Step(w, e, t).store.queue[i];
            var tried := n.key in Keys(Tried(w.store.queue, e));
      && SameMessage(n, m)
      && (tried ==> !e.Save? && n in Tried(w.store.queue, e) && n.state == Pending && n.nextAttemptAt <= e.now
                    && m == Delivered(n, e.now, n.key in e.accepted, t.backoff))
      && (!tried ==> m == n || (n.state == Pending && m == n.(state := Superseded)))
  {
    var queue := w.store.queue;
    var n := queue[i];
    assert n in queue;
    if !e.Save? {
      TriedFacts(queue, e);
      if n.key in Keys(Tried(queue, e)) {
        var k :| k in Tried(queue, e) && k.key == n.key;
        SameKeySameRow(queue, n, k);
      }
      if n.key in Keys(GivenUp(queue, e)) {
        var k :| k in GivenUp(queue, e) && k.key == n.key;
        SameKeySameRow(queue, n, k);
      }
    }
  }

  /** Sent, superseded and failed are final: such a row never changes again. */
  lemma {:induction false} FinishedStaysFinished(events: seq<Event>, k: nat, i: nat, t: Timing)
    requires k <= |events| && i < |Run(events[..k], t).store.queue|
    ensures i < |Run(events, t).store.queue|
    ensures SameMessage(Run(events[..k], t).store.queue[i], Run(events, t).store.queue[i])
    ensures Run(events[..k], t).store.queue[i].state != Pending ==>
        Run(events, t).store.queue[i] == Run(events[..k], t).store.queue[i]
    decreases |events|
  {
    if k == |events| {
      assert events[..k] == events;
    } else {
      var init := events[..|events| - 1];
      assert init[..k] == events[..k];
      FinishedStaysFinished(init, k, i, t);
      RunConsistent(init, t);
      RowCases(Run(init, t), events[|events| - 1], t, i);
    }
  }

  // ---------- retries ----------

  function AttemptOf(key: Key): Attempt -> bool { (a: Attempt) => a.notice.key == key }

  function AttemptsFor(w: World, key: Key): seq<Attempt> { Filter(w.log, AttemptOf(key)) }

  lemma {:induction false} NoAttemptsOf(rows: seq<Notice>, now: int, accepted: set<Key>, key: Key)
    requires key !in Keys(rows)
    ensures Filter(Attempts(rows, now, accepted), AttemptOf(key)) == []
  {
    var made := Attempts(rows, now, accepted);
    forall a | a in made ensures a.notice.key != key {
      var i :| 0 <= i < |made| && made[i] == a;
      assert rows[i] in rows;
    }
    FilterNone(made, AttemptOf(key));
  }

  lemma {:induction false} OneAttemptOf(rows: seq<Notice>, now: int, accepted: set<Key>, n: Notice)
    requires UniqueNotices(rows) && n in rows
    ensures Filter(Attempts(rows, now, accepted), AttemptOf(n.key)) == [Attempt(n, now, n.key in accepted)]
  {
    var i :| 0 <= i < |rows| && rows[i] == n;
    var before, after := rows[..i], rows[i + 1..];
    var keep, mine := AttemptOf(n.key), Attempt(n, now, n.key in accepted);
    NoAttemptsOf(before, now, accepted, n.key);
    NoAttemptsOf(after, now, accepted, n.key);
    var a, b := Attempts(before, now, accepted), Attempts(after, now, accepted);
    assert Attempts(rows, now, accepted) == (a + [mine]) + b;
    FilterSnoc(a, mine, keep);
    assert Filter(a + [mine], keep) == [mine];
    FilterConcat(a + [mine], b, keep);
  }

  /** What an event adds to the attempts made for one row. */
  lemma {:induction false} AttemptsStep(w: World, e: Event, t: Timing, n: Notice)
    requires Consistent(w.store) && n in w.store.queue
    ensures AttemptsFor(Step(w, e, t), n.key)
         == if n.key in Keys(Tried(w.store.queue, e)) then AttemptsFor(w, n.key)
             + [Attempt(n, e.now, n.key in e.accepted)]
            else AttemptsFor(w, n.key)
  {
    if !e.Save? {
      var tried := Tried(w.store.queue, e);
      TriedFacts(w.store.queue, e);
      FilterConcat(w.log, Attempts(tried, e.now, e.accepted), AttemptOf(n.key));
      if n.key in Keys(tried) {
        var k :| k in tried && k.key == n.key;
        SameKeySameRow(w.store.queue, n, k);
        OneAttemptOf(tried, e.now, e.accepted, n);
      } else {
        NoAttemptsOf(tried, e.now, e.accepted, n.key);
      }
    }
  }

  /** 1 + 2 + ... + k. */
  function Triangle(k: nat): nat { if k == 0 then 0 else Triangle(k - 1) + k }

  lemma {:induction false} TriangleClosed(k: nat)
    ensures 2 * Triangle(k) == k * (k + 1)
  {
    if k > 0 {
      TriangleClosed(k - 1);
    }
  }

  ghost predicate Spaced(tries: seq<Attempt>, backoff: nat) {
    forall k :: 0 <= k < |tries| ==> tries[k].at - tries[0].at >= backoff * Triangle(k)
  }

  /** A row's attempts as the log shows them account for its columns. */
  ghost predicate Accounted(n: Notice, tries: seq<Attempt>, backoff: nat) {
    && |tries| == n.attempts <= MAX_ATTEMPTS
    && (forall k :: 0 <= k < |tries| - 1 ==> !tries[k].ok)
    && (tries != [] ==> (tries[|tries| - 1].ok <==> n.state == Sent))
    && (n.state == Sent ==> tries != [])
    && n.sentAt == (if n.state == Sent then Some(tries[|tries| - 1].at) else None)
    && (n.lastSendFailed <==> tries != [] && !tries[|tries| - 1].ok)
    && (n.state == Failed ==> |tries| == MAX_ATTEMPTS)
    && (n.state == Pending ==> |tries| < MAX_ATTEMPTS)
    && (n.state == Pending && tries != [] ==> n.nextAttemptAt == tries[|tries| - 1].at + backoff * |tries|)
    && Spaced(tries, backoff)
  }

  lemma {:induction false} SpacedGrows(tries: seq<Attempt>, next: Attempt, backoff: nat)
    requires Spaced(tries, backoff)
    requires tries != [] ==> next.at >= tries[|tries| - 1].at + backoff * |tries|
    ensures Spaced(tries + [next], backoff)
  {
  }

  lemma {:induction false} AccountedStep(n: Notice, tries: seq<Attempt>, now: int, ok: bool, backoff: nat)
    requires Accounted(n, tries, backoff) && n.state == Pending && n.nextAttemptAt <= now
    ensures Accounted(Delivered(n, now, ok, backoff), tries + [Attempt(n, now, ok)], backoff)
  {
    SpacedGrows(tries, Attempt(n, now, ok), backoff);
    var after := tries + [Attempt(n, now, ok)];
    assert forall k :: 0 <= k < |after| - 1 ==> after[k] == tries[k];
  }

  ghost predicate AllAccounted(w: World, backoff: nat) {
    && (forall i :: 0 <= i < |w.store.queue| ==>
        Accounted(w.store.queue[i], AttemptsFor(w, w.store.queue[i].key), backoff))
    && (forall a :: a in w.log ==> HasNotice(w.store.queue, a.notice.key))
  }

  lemma {:induction false} LogStaysKnown(w: World, e: Event, t: Timing, a: Attempt)
    requires Consistent(w.store)
    requires forall b :: b in w.log ==> HasNotice(w.store.queue, b.notice.key)
    requires a in Step(w, e, t).log
    ensures HasNotice(Step(w, e, t).store.queue, a.notice.key)
  {
    var queue, after := w.store.queue, Step(w, e, t).store.queue;
    if a !in w.log {
      var made := Attempts(Tried(queue, e), e.now, e.accepted);
      assert a in made;
      var j :| 0 <= j < |made| && made[j] == a;
      TriedFacts(queue, e);
      assert Tried(queue, e)[j] in Tried(queue, e);
      assert a.notice in queue;
    }
    var i :| 0 <= i < |queue| && queue[i].key == a.notice.key;
    RowCases(w, e, t, i);
    assert after[i].key == a.notice.key;
  }

  lemma {:induction false} NewRowUnattempted(w: World, e: Event, t: Timing)
    requires Consistent(w.store) && AllAccounted(w, t.backoff)
    requires |Step(w, e, t).store.queue| == |w.store.queue| + 1
    ensures var after := Step(w, e, t);
            var n := after.store.queue[|w.store.queue|];
      && e.Save? && n.attempts == 0 && n.state == Pending && n.sentAt == None && !n.lastSendFailed
      && AttemptsFor(after, n.key) == []
  {
    var n := Step(w, e, t).store.queue[|w.store.queue|];
    var rest := Supersede(w.store.queue, n.key.scope);
    assert !HasNotice(rest, n.key);
    forall a | a in w.log ensures a.notice.key != n.key {
      var i :| 0 <= i < |w.store.queue| && w.store.queue[i].key == a.notice.key;
      assert rest[i].key == a.notice.key;
    }
    FilterNone(w.log, AttemptOf(n.key));
  }

  lemma {:induction false} RowAccounted(w: World, e: Event, t: Timing, i: nat)
    requires Consistent(w.store) && AllAccounted(w, t.backoff) && i < |w.store.queue|
    ensures |Step(w, e, t).store.queue| >= |w.store.queue|
    ensures var m := Step(w, e, t).store.queue[i]; Accounted(m, AttemptsFor(Step(w, e, t), m.key), t.backoff)
  {
    var queue := w.store.queue;
    var n := queue[i];
    RowCases(w, e, t, i);
    AttemptsStep(w, e, t, n);
    assert Accounted(n, AttemptsFor(w, n.key), t.backoff);
    if n.key in Keys(Tried(queue, e)) {
      AccountedStep(n, AttemptsFor(w, n.key), e.now, n.key in e.accepted, t.backoff);
    }
  }

  lemma {:induction false} NewRowAccounted(w: World, e: Event, t: Timing)
    requires Consistent(w.store) && AllAccounted(w, t.backoff)
    requires |Step(w, e, t).store.queue| == |w.store.queue| + 1
    ensures var m := Step(w, e, t).store.queue[|w.store.queue|];
      Accounted(m, AttemptsFor(Step(w, e, t), m.key), t.backoff)
  {
    NewRowUnattempted(w, e, t);
  }

  lemma {:induction false} StepAccounted(w: World, e: Event, t: Timing)
    requires Consistent(w.store) && AllAccounted(w, t.backoff)
    ensures AllAccounted(Step(w, e, t), t.backoff)
  {
    var next := Step(w, e, t);
    RowCount(w, e, t);
    forall i | 0 <= i < |next.store.queue|
      ensures Accounted(next.store.queue[i], AttemptsFor(next, next.store.queue[i].key), t.backoff)
    {
      if i < |w.store.queue| {
        RowAccounted(w, e, t, i);
      } else {
        NewRowAccounted(w, e, t);
      }
    }
    forall a | a in next.log ensures HasNotice(next.store.queue, a.notice.key) {
      LogStaysKnown(w, e, t, a);
    }
  }

  /** In every run each message has at most twenty attempts, none after a success, and the k-th attempt
      (counting from 0) comes at least backoff * (1 + ... + k) after the first. */
  lemma {:induction false} RetriesAccounted(events: seq<Event>, t: Timing)
    ensures AllAccounted(Run(events, t), t.backoff)
  {
    if events != [] {
      var init := events[..|events| - 1];
      RetriesAccounted(init, t);
      RunConsistent(init, t);
      StepAccounted(Run(init, t), events[|events| - 1], t);
    }
  }

  lemma {:induction false} SpacedAt(tries: seq<Attempt>, backoff: nat, k: nat, periods: nat)
    requires Spaced(tries, backoff) && k < |tries|
    requires 2 * periods == k * (k + 1)
    ensures tries[k].at - tries[0].at >= periods * backoff
  {
    TriangleClosed(k);
  }

  /** A message fails for good only after twenty refusals spread over at least 190 back-off periods. */
  lemma {:induction false} FailsOnlyAfterLongRefusal(events: seq<Event>, i: nat, t: Timing)
    requires i < |Run(events, t).store.queue| && Run(events, t).store.queue[i].state == Failed
    ensures var tries := AttemptsFor(Run(events, t), Run(events, t).store.queue[i].key);
      && |tries| == 20
      && (forall k :: 0 <= k < 20 ==> !tries[k].ok)
      && tries[19].at - tries[0].at >= 190 * t.backoff
  {
    RetriesAccounted(events, t);
    var n := Run(events, t).store.queue[i];
    var tries := AttemptsFor(Run(events, t), n.key);
    assert Accounted(n, tries, t.backoff);
    SpacedAt(tries, t.backoff, 19, 190);
  }

  lemma {:induction false} TwoAttempts(log: seq<Attempt>, i: nat, j: nat, key: Key)
    requires i < j < |log| && log[i].notice.key == key && log[j].notice.key == key
    ensures exists p :: 0 <= p < |Filter(log, AttemptOf(key))| - 1 && Filter(log, AttemptOf(key))[p] == log[i]
  {
    var keep := AttemptOf(key);
    var before, after := log[..i], log[i + 1..];
    assert log == before + [log[i]] + after;
    FilterConcat(before + [log[i]], after, keep);
    FilterSnoc(before, log[i], keep);
    FilterMembers(after, keep);
    assert after[j - i - 1] == log[j];
    assert log[j] in after && keep(log[j]);
    assert log[j] in Filter(after, keep);
    assert Filter(log, keep)[|Filter(before, keep)|] == log[i];
  }

  /** No message is accepted twice. */
  lemma {:induction false} AcceptedOnce(events: seq<Event>, i: nat, j: nat, t: Timing)
    requires i < j < |Run(events, t).log|
    requires Run(events, t).log[i].ok && Run(events, t).log[j].ok
    ensures Run(events, t).log[i].notice.key != Run(events, t).log[j].notice.key
  {
    var w := Run(events, t);
    var key := w.log[i].notice.key;
    if w.log[j].notice.key == key {
      TwoAttempts(w.log, i, j, key);
      assert w.log[i] in w.log;
      RetriesAccounted(events, t);
      assert false;
    }
  }

  // ---------- what the administrator is told ----------

  function Describes(template: Template): State {
    match template
    case BotUnavailable => Unavailable
    case BotRecovered => Operational
    case BotDegraded => Degraded
    case BotUnknown => Unknown
  }

  ghost predicate AwaitingAdmin(n: Notice) { n.destination == Admin && n.state == Pending }

  ghost predicate AdminInformed(s: Store) {
    && (forall i :: 0 <= i < |s.queue| ==>
         Describes(s.queue[i].template) == s.queue[i].key.toState
             && (Quiet(s.queue[i].template) ==> s.queue[i].destination == Admin))
    && (forall i :: 0 <= i < |s.queue| && AwaitingAdmin(s.queue[i]) ==>
         s.queue[i].key.scope in s.snapshots && s.snapshots[s.queue[i].key.scope].state == s.queue[i].key.toState)
    && (forall i, j :: 0 <= i < j < |s.queue| && AwaitingAdmin(s.queue[i]) && AwaitingAdmin(s.queue[j]) ==>
         s.queue[i].key.scope != s.queue[j].key.scope)
  }

  /** After a transition no older row of its scope awaits the administrator. */
  lemma {:induction false} OlderRowsStopWaiting(s: Store, sv: Saving, quiet: int, i: nat)
    requires Changes(s, sv) && i < |s.queue|
    ensures |Saved(s, sv, quiet).queue| >= |s.queue|
    ensures var n, m := s.queue[i], Saved(s, sv, quiet).queue[i];
      SameMessage(n, m) && (AwaitingAdmin(m) ==> m == n && n.key.scope != sv.scope)
  {
  }

  lemma {:induction false} SaveInforms(s: Store, sv: Saving, quiet: int)
    requires AdminInformed(s)
    ensures AdminInformed(Saved(s, sv, quiet))
  {
    var after := Saved(s, sv, quiet);
    if Changes(s, sv) {
      AnnouncedRowFacts(s.queue, KeyOf(s, sv), sv, quiet);
      forall i | 0 <= i < |s.queue|
        ensures var n, m := s.queue[i], after.queue[i];
          SameMessage(n, m) && (AwaitingAdmin(m) ==> m == n && n.key.scope != sv.scope)
      {
        OlderRowsStopWaiting(s, sv, quiet, i);
      }
    }
  }

  lemma {:induction false} DeliveryInforms(w: World, e: Event, t: Timing)
    requires Consistent(w.store) && AdminInformed(w.store) && !e.Save?
    ensures AdminInformed(Step(w, e, t).store)
  {
    var queue, after := w.store.queue, Step(w, e, t).store.queue;
    forall i | 0 <= i < |queue|
      ensures SameMessage(queue[i], after[i]) && (AwaitingAdmin(after[i]) ==> AwaitingAdmin(queue[i]))
    {
      RowCases(w, e, t, i);
    }
  }

  lemma {:induction false} RunInformed(events: seq<Event>, t: Timing)
    ensures AdminInformed(Run(events, t).store)
  {
    if events != [] {
      var init, e := events[..|events| - 1], events[|events| - 1];
      RunInformed(init, t);
      RunConsistent(init, t);
      if e.Save? {
        SaveInforms(Run(init, t).store, e.saving, t.quiet);
      } else {
        DeliveryInforms(Run(init, t), e, t);
      }
    }
  }

  ghost predicate Current(n: Notice, s: Store) {
    n.key.scope in s.snapshots && s.snapshots[n.key.scope].state == Describes(n.template)
  }

  /** Whatever failed before, every message handed over for the administrator describes the state its
      scope is in at that moment. */
  lemma {:induction false} AdminMessagesAreCurrent(events: seq<Event>, e: Event, t: Timing)
    ensures forall n :: n in Tried(Run(events, t).store.queue, e) && n.destination == Admin ==>
        Current(n, Run(events, t).store)
  {
    var s := Run(events, t).store;
    if !e.Save? {
      RunConsistent(events, t);
      RunInformed(events, t);
      TriedFacts(s.queue, e);
    }
  }

  lemma {:induction false} AdminSurvives(rows: seq<Notice>)
    requires rows != [] && forall n :: n in rows ==> n.destination == Admin
    ensures Survivor(rows) == [rows[|rows| - 1]]
  {
  }

  lemma {:induction false} LastAdminStands(rows: seq<Notice>, n: Notice) returns (m: Notice)
    requires n in rows && n.destination == Admin
    ensures m in Collapse(rows).newest && m in rows && SlotOf(m) == SlotOf(n)
  {
    var mine := Filter(rows, InSlot(SlotOf(n)));
    FilterMembers(rows, InSlot(SlotOf(n)));
    assert InSlot(SlotOf(n))(n);
    AdminSurvives(mine);
    CollapseBySlot(rows, SlotOf(n));
    m := mine[|mine| - 1];
    assert m in Survivor(mine);
    FilterMembers(Collapse(rows).newest, InSlot(SlotOf(n)));
  }

  lemma {:induction false} TriedNotGivenUp(queue: seq<Notice>, e: Event, n: Notice)
    requires UniqueNotices(queue) && !e.Save? && n in Tried(queue, e)
    ensures n !in GivenUp(queue, e)
  {
    TriedFacts(queue, e);
    assert n.key in Keys(Tried(queue, e));
  }

  lemma {:induction false} OneWaiting(s: Store, n: Notice, m: Notice)
    requires AdminInformed(s) && n in s.queue && m in s.queue
    requires AwaitingAdmin(n) && AwaitingAdmin(m) && n.key.scope == m.key.scope
    ensures n == m
  {
  }

  lemma {:induction false} AdminRowsStand(s: Store, e: Event, n: Notice)
    requires UniqueNotices(s.queue) && AdminInformed(s)
    requires e.DeliverPending? && n in Due(s.queue, e.now) && n.destination == Admin
    ensures n !in GivenUp(s.queue, e)
  {
    var m := LastAdminStands(Due(s.queue, e.now), n);
    DueMembers(s.queue, e.now);
    OneWaiting(s, n, m);
    TriedNotGivenUp(s.queue, e, m);
  }

  /** Only group messages are ever given up for a newer one; an admin message never is. */
  lemma {:induction false} OnlyGroupRowsCollapse(events: seq<Event>, e: Event, t: Timing)
    ensures forall n :: n in GivenUp(Run(events, t).store.queue, e) ==> n.destination == Group
  {
    var s := Run(events, t).store;
    RunConsistent(events, t);
    RunInformed(events, t);
    forall n | n in GivenUp(s.queue, e) ensures n.destination == Group {
      CollapseMembers(Due(s.queue, e.now));
      if n.destination == Admin {
        AdminRowsStand(s, e, n);
      }
    }
  }

  // ---------- the quiet hold ----------

  /** The i-th event queued this notice, its scope has been evaluated to the same state ever since, and
      if it is one of the quiet ones it was put on hold unless the scope was flapping. */
  ghost predicate Opens(events: seq<Event>, t: Timing, i: nat, n: Notice) {
    && i < |events| && events[i].Save?
    && var sv := events[i].saving;
       var s := Run(events[..i], t).store;
    && Changes(s, sv) && KeyOf(s, sv) == n.key && sv.at == n.createdAt
    && SameStateSince(events, i, n.key)
    && (Quiet(n.template) ==>
         n.nextAttemptAt >= n.createdAt + t.quiet
             || Flapping(Supersede(s.queue, n.key.scope), n.key.scope, n.createdAt))
  }

  ghost predicate SameStateSince(events: seq<Event>, i: nat, key: Key) {
    forall k :: i <= k < |events| && events[k].Save? && events[k].saving.scope == key.scope
      ==> events[k].saving.evaluation.state == key.toState
  }

  /** A row still waiting after one more event was opened earlier or by that event. */
  lemma {:induction false} OpensCarries(events: seq<Event>, e: Event, t: Timing, i: nat, n: Notice, m: Notice)
    requires Opens(events, t, i, n)
    requires SameMessage(n, m) && m.nextAttemptAt >= n.nextAttemptAt
    requires e.Save? && e.saving.scope == n.key.scope ==> e.saving.evaluation.state == n.key.toState
    ensures Opens(events + [e], t, i, m)
  {
    assert (events + [e])[..i] == events[..i];
  }

  lemma {:induction false} OpensNew(events: seq<Event>, e: Event, t: Timing)
    requires |Step(Run(events, t), e, t).store.queue| == |Run(events, t).store.queue| + 1
    requires AwaitingAdmin(Step(Run(events, t), e, t).store.queue[|Run(events, t).store.queue|])
    ensures Opens(events + [e], t, |events|, Step(Run(events, t), e, t).store.queue[|Run(events, t).store.queue|])
  {
  }

  lemma {:induction false} WaitingStays(w: World, e: Event, t: Timing, j: nat)
    requires Consistent(w.store) && AdminInformed(w.store) && j < |w.store.queue|
    requires AwaitingAdmin(Step(w, e, t).store.queue[j])
    ensures var n, m := w.store.queue[j], Step(w, e, t).store.queue[j];
      && AwaitingAdmin(n) && SameMessage(n, m) && m.nextAttemptAt >= n.nextAttemptAt
      && (e.Save? && e.saving.scope == n.key.scope ==> e.saving.evaluation.state == n.key.toState)
  {
    var n := w.store.queue[j];
    if !e.Save? {
      RowCases(w, e, t, j);
      DueRowsMoveOn(w, e, t, j);
    } else if Changes(w.store, e.saving) {
      OlderRowsStopWaiting(w.store, e.saving, t.quiet, j);
    }
  }

  lemma {:induction false} DueRowsMoveOn(w: World, e: Event, t: Timing, j: nat)
    requires Consistent(w.store) && j < |w.store.queue| && !e.Save?
    ensures var n, m := w.store.queue[j], Step(w, e, t).store.queue[j];
      m.state == Pending ==> n.state == Pending && m.nextAttemptAt >= n.nextAttemptAt
  {
    RowCases(w, e, t, j);
    var n := w.store.queue[j];
    if n.key in Keys(Tried(w.store.queue, e)) {
      RetryIsLater(n, e.now, n.key in e.accepted, t.backoff);
    }
  }

  lemma {:induction false} RetryIsLater(n: Notice, now: int, ok: bool, backoff: nat)
    requires n.nextAttemptAt <= now
    ensures Delivered(n, now, ok, backoff).nextAttemptAt >= n.nextAttemptAt
  {
  }

  lemma {:induction false} StillOpened(init: seq<Event>, e: Event, t: Timing, i: nat, j: nat)
    requires j < |Run(init, t).store.queue| && Opens(init, t, i, Run(init, t).store.queue[j])
    requires j < |Step(Run(init, t), e, t).store.queue| && AwaitingAdmin(Step(Run(init, t), e, t).store.queue[j])
    ensures Opens(init + [e], t, i, Step(Run(init, t), e, t).store.queue[j])
  {
    RunConsistent(init, t);
    RunInformed(init, t);
    WaitingStays(Run(init, t), e, t, j);
    OpensCarries(init, e, t, i, Run(init, t).store.queue[j], Step(Run(init, t), e, t).store.queue[j]);
  }

  lemma {:induction false} RowCount(w: World, e: Event, t: Timing)
    ensures |w.store.queue| <= |Step(w, e, t).store.queue| <= |w.store.queue| + 1
  {
  }

  lemma {:induction false} WaitedBefore(init: seq<Event>, e: Event, t: Timing, j: nat)
    requires j < |Run(init, t).store.queue| <= |Step(Run(init, t), e, t).store.queue|
    requires AwaitingAdmin(Step(Run(init, t), e, t).store.queue[j])
    ensures AwaitingAdmin(Run(init, t).store.queue[j])
  {
    RunConsistent(init, t);
    RunInformed(init, t);
    WaitingStays(Run(init, t), e, t, j);
  }

  lemma {:induction false} OpenedByLast(init: seq<Event>, e: Event, t: Timing, j: nat)
    requires |Run(init, t).store.queue| <= j < |Step(Run(init, t), e, t).store.queue|
    requires AwaitingAdmin(Step(Run(init, t), e, t).store.queue[j])
    ensures Opens(init + [e], t, |init|, Step(Run(init, t), e, t).store.queue[j])
  {
    RowCount(Run(init, t), e, t);
    OpensNew(init, e, t);
  }

  lemma {:induction false} WaitingWasOpened(events: seq<Event>, j: nat, t: Timing) returns (i: nat)
    requires j < |Run(events, t).store.queue| && AwaitingAdmin(Run(events, t).store.queue[j])
    ensures Opens(events, t, i, Run(events, t).store.queue[j])
    decreases |events|
  {
    var init, e := events[..|events| - 1], events[|events| - 1];
    assert events == init + [e];
    RunSnoc(init, e, t);
    RowCount(Run(init, t), e, t);
    if j < |Run(init, t).store.queue| {
      WaitedBefore(init, e, t, j);
      i := WaitingWasOpened(init, j, t);
      StillOpened(init, e, t, i, j);
    } else {
      OpenedByLast(init, e, t, j);
      i := |init|;
    }
  }

  /** A notice about a degraded scope or missing data is handed over only if every evaluation since it
      was queued found the same state and the hold has passed, unless the scope was flapping then. */
  lemma {:induction false} QuietHold(events: seq<Event>, e: Event, n: Notice, t: Timing) returns (i: nat)
    requires !e.Save?
    requires n in Tried(Run(events, t).store.queue, e) && Quiet(n.template)
    ensures Opens(events, t, i, n)
    ensures e.now >= n.createdAt + t.quiet
      || Flapping(Supersede(Run(events[..i], t).store.queue, n.key.scope), n.key.scope, n.createdAt)
  {
    i := QuietOpened(events, e, n, t);
    TriedIsDue(events, e, n, t);
  }

  lemma {:induction false} TriedIsDue(events: seq<Event>, e: Event, n: Notice, t: Timing)
    requires !e.Save? && n in Tried(Run(events, t).store.queue, e)
    ensures n.nextAttemptAt <= e.now
  {
    RunConsistent(events, t);
    TriedFacts(Run(events, t).store.queue, e);
  }

  lemma {:induction false} QuietOpened(events: seq<Event>, e: Event, n: Notice, t: Timing) returns (i: nat)
    requires !e.Save?
    requires n in Tried(Run(events, t).store.queue, e) && Quiet(n.template)
    ensures Opens(events, t, i, n)
  {
    var queue := Run(events, t).store.queue;
    RunConsistent(events, t);
    TriedFacts(queue, e);
    var j: nat :| j < |queue| && queue[j] == n;
    RunInformed(events, t);
    i := WaitingWasOpened(events, j, t);
  }

  /** The return to operation, when the group has no outage open, after a data gap or after a problem that
      was still waiting to be announced. */
  predicate Unannounced(s: Store, sv: Saving) {
    && sv.evaluation.state == Operational
    && !GroupAlerted(Supersede(s.queue, sv.scope), sv.scope)
    && (PreviousState(s, sv.scope) == Unknown || HasWaiting(s.queue, sv.scope))
  }

  /** A transition adds a notice, one that describes the new state, if and only if it is to be announced
      and its key is new. */
  lemma {:induction false} SilentExactly(s: Store, sv: Saving, quiet: int)
    requires Changes(s, sv)
    ensures var rest, after := Supersede(s.queue, sv.scope), Saved(s, sv, quiet).queue;
      if Unannounced(s, sv) || HasNotice(s.queue, KeyOf(s, sv)) then after == rest
      else |after| == |rest| + 1 && after[..|rest|] == rest && Describes(after[|rest|].template) == sv.evaluation.state
  {
    SupersedeKeys(s.queue, sv.scope, KeyOf(s, sv));
  }

  // ---------- after a delivery ----------

  lemma {:induction false} RefusedIsLater(n: Notice, now: int, backoff: nat)
    requires backoff > 0
    ensures Delivered(n, now, false, backoff).nextAttemptAt > now
  {
    assert backoff * (n.attempts + 1) >= backoff * 1;
  }

  /** With a back-off, a delivery leaves nothing behind that is due. */
  lemma {:induction false} NothingLeftDue(w: World, now: int, accepted: set<Key>, t: Timing)
    requires Consistent(w.store) && t.backoff > 0
    ensures forall n :: n in Step(w, DeliverPending(now, accepted), t).store.queue && n.state == Pending ==>
        n.nextAttemptAt > now
  {
    var e := DeliverPending(now, accepted);
    var queue, after := w.store.queue, Step(w, e, t).store.queue;
    forall m | m in after && m.state == Pending ensures m.nextAttemptAt > now {
      var i :| 0 <= i < |after| && after[i] == m;
      RowStaysUndue(w, e, t, i);
    }
  }

  lemma {:induction false} DueIsHandled(queue: seq<Notice>, e: Event, n: Notice)
    requires e.DeliverPending? && n in queue && n.state == Pending && n.nextAttemptAt <= e.now
    ensures n.key in Keys(Tried(queue, e)) || n.key in Keys(GivenUp(queue, e))
  {
    DueMembers(queue, e.now);
    CollapseMembers(Due(queue, e.now));
  }

  lemma {:induction false} RowStaysUndue(w: World, e: Event, t: Timing, i: nat)
    requires Consistent(w.store) && t.backoff > 0 && e.DeliverPending? && i < |w.store.queue|
    requires Step(w, e, t).store.queue[i].state == Pending
    ensures Step(w, e, t).store.queue[i].nextAttemptAt > e.now
  {
    var queue := w.store.queue;
    var n := queue[i];
    RowCases(w, e, t, i);
    assert n in queue;
    if n.key in Keys(Tried(queue, e)) {
      RefusedIsLater(n, e.now, t.backoff);
    } else if n.nextAttemptAt <= e.now {
      DueIsHandled(queue, e, n);
    }
  }
}
