/** The reader agrees with the writer: what the timeline shows is the history of evaluations, as long
    as no transition was dropped for a repeated key. */
module TimelineLaws {
  import opened Domain
  import opened Sequences
  import opened Notifications
  import opened Runs
  import opened ReadModel
  import opened Views

  // ---------- the plain history of a scope ----------

  datatype Moment = Moment(at: int, state: State)

  function History(events: seq<Event>, scope: string): seq<Moment> {
    if events == [] then []
    else
      var rest, e := History(events[..|events| - 1], scope), events[|events| - 1];
      if e.Save? && e.saving.scope == scope then rest + [Moment(e.saving.at, e.saving.evaluation.state)] else rest
  }

  function StateOf(history: seq<Moment>): State {
    if history == [] then Unknown else history[|history| - 1].state
  }

  /** The state of the last evaluation at or before an instant. */
  function EvaluatedAt(history: seq<Moment>, x: int): State {
    if history == [] then Unknown
    else if history[|history| - 1].at <= x then history[|history| - 1].state
    else EvaluatedAt(history[..|history| - 1], x)
  }

  /** The log one would write from the history alone: a row wherever the state changes. */
  function ChangesOf(history: seq<Moment>): seq<LogRow> {
    if history == [] then []
    else
      var init, last := history[..|history| - 1], history[|history| - 1];
      if last.state == StateOf(init) then ChangesOf(init)
          else ChangesOf(init) + [LogRow(last.at, StateOf(init), last.state)]
  }

  ghost predicate Nondecreasing(history: seq<Moment>) { forall i, j :: 0 <= i < j < |history| ==>
                                history[i].at <= history[j].at }
  ghost predicate Increasing(history: seq<Moment>) { forall i, j :: 0 <= i < j < |history| ==>
                             history[i].at < history[j].at }

  /** Every change of the scope's state came with a key not in the log yet. */
  ghost predicate FreshKeys(events: seq<Event>, t: Timing, scope: string) {
    forall i :: 0 <= i < |events| && events[i].Save? && events[i].saving.scope == scope ==> FreshAt(events, t, i)
  }

  ghost predicate FreshAt(events: seq<Event>, t: Timing, i: nat)
    requires i < |events| && events[i].Save?
  {
    var s := Run(events[..i], t).store;
    Changes(s, events[i].saving) ==> !HasTransition(s.transitions, KeyOf(s, events[i].saving))
  }

  // ---------- what one event does to the log ----------

  lemma {:induction false} CloseKeepsRows(transitions: seq<Transition>, key: Key, at: int, scope: string)
    ensures Rows(CloseOthers(transitions, key, at), scope) == Rows(transitions, scope)
  {
    if transitions != [] {
      var init := transitions[..|transitions| - 1];
      CloseKeepsRows(init, key, at, scope);
      assert CloseOthers(transitions, key, at)[..|init|] == CloseOthers(init, key, at);
    }
  }

  lemma {:induction false} StepRows(w: World, e: Event, t: Timing, scope: string)
    ensures Rows(Step(w, e, t).store.transitions, scope)
         == if e.Save? && e.saving.scope == scope && Changes(w.store, e.saving)
               && !HasTransition(w.store.transitions, KeyOf(w.store, e.saving))
            then Rows(w.store.transitions, scope)
                + [LogRow(e.saving.at, PreviousState(w.store, scope), e.saving.evaluation.state)]
            else Rows(w.store.transitions, scope)
  {
    if e.Save? && Changes(w.store, e.saving) {
      var key := KeyOf(w.store, e.saving);
      var inserted := Inserted(w.store.transitions, key, e.saving);
      CloseKeepsRows(inserted, key, e.saving.at, scope);
      if inserted != w.store.transitions {
        assert inserted[..|inserted| - 1] == w.store.transitions;
      }
    }
  }

  /** A scope's snapshot carries the last evaluation, and its version counts them all. */
  ghost predicate Summarises(snapshots: map<string, Snapshot>, scope: string, history: seq<Moment>) {
    if history == [] then scope !in snapshots
    else
      && scope in snapshots
      && snapshots[scope].version == |history|
      && Moment(snapshots[scope].evaluatedAt, snapshots[scope].state) == history[|history| - 1]
  }

  lemma {:induction false} SnapshotStep(w: World, e: Event, t: Timing, scope: string, history: seq<Moment>)
    requires Summarises(w.store.snapshots, scope, history)
    ensures var more :=
        if e.Save? && e.saving.scope == scope then history + [Moment(e.saving.at, e.saving.evaluation.state)]
        else history;
      Summarises(Step(w, e, t).store.snapshots, scope, more)
  {
  }

  lemma {:induction false} SnapshotSummarises(events: seq<Event>, t: Timing, scope: string)
    ensures Summarises(Run(events, t).store.snapshots, scope, History(events, scope))
  {
    if events != [] {
      var init := events[..|events| - 1];
      SnapshotSummarises(init, t, scope);
      SnapshotStep(Run(init, t), events[|events| - 1], t, scope, History(init, scope));
    }
  }

  lemma {:induction false} SnapshotIsLast(events: seq<Event>, t: Timing, scope: string)
    ensures PreviousState(Run(events, t).store, scope) == StateOf(History(events, scope))
  {
    SnapshotSummarises(events, t, scope);
  }

  // ---------- the log and the history ----------

  lemma {:induction false} FreshPrefix(events: seq<Event>, t: Timing, scope: string)
    requires events != []
    ensures var init, n := events[..|events| - 1], |events| - 1;
      FreshKeys(events, t, scope) <==>
        FreshKeys(init, t, scope) && (events[n].Save? && events[n].saving.scope == scope ==> FreshAt(events, t, n))
  {
    var init := events[..|events| - 1];
    forall i | 0 <= i < |init| && init[i].Save? ensures FreshAt(init, t, i) <==> FreshAt(events, t, i) {
      assert init[..i] == events[..i];
    }
  }

  // ---------- when keys are fresh ----------

  /** The i-th event changes the scope's state. */
  ghost predicate ChangesAt(events: seq<Event>, t: Timing, i: nat, scope: string)
    requires i < |events|
  {
    events[i].Save? && events[i].saving.scope == scope && Changes(Run(events[..i], t).store, events[i].saving)
  }

  ghost function KeyAt(events: seq<Event>, t: Timing, i: nat): Key
    requires i < |events| && events[i].Save?
  {
    KeyOf(Run(events[..i], t).store, events[i].saving)
  }

  ghost predicate KeyedAt(events: seq<Event>, t: Timing, i: nat, key: Key)
    requires i < |events|
  {
    ChangesAt(events, t, i, key.scope) && KeyAt(events, t, i) == key
  }

  lemma {:induction false} CloseKeepsKeys(transitions: seq<Transition>, closing: Key, at: int, key: Key)
    ensures HasTransition(CloseOthers(transitions, closing, at), key) <==> HasTransition(transitions, key)
  {
    var closed := CloseOthers(transitions, closing, at);
    forall i | 0 <= i < |transitions| ensures closed[i].key == transitions[i].key {}
    if HasTransition(transitions, key) {
      var i :| 0 <= i < |transitions| && transitions[i].key == key;
      assert closed[i].key == key;
    }
  }

  lemma {:induction false} StepKeys(w: World, e: Event, t: Timing, key: Key)
    ensures HasTransition(Step(w, e, t).store.transitions, key) <==>
      || HasTransition(w.store.transitions, key)
      || (e.Save? && Changes(w.store, e.saving) && KeyOf(w.store, e.saving) == key)
  {
    if e.Save? && Changes(w.store, e.saving) {
      var logged, mine := w.store.transitions, KeyOf(w.store, e.saving);
      var inserted := Inserted(logged, mine, e.saving);
      CloseKeepsKeys(inserted, mine, e.saving.at, key);
      if inserted != logged {
        assert inserted[|logged|].key == mine;
        assert forall i :: 0 <= i < |logged| ==> inserted[i] == logged[i];
      }
    }
  }

  lemma {:induction false} KeyedPrefix(init: seq<Event>, e: Event, t: Timing, key: Key)
    ensures forall i: nat :: i < |init| ==> (KeyedAt(init + [e], t, i, key) <==> KeyedAt(init, t, i, key))
    ensures KeyedAt(init + [e], t, |init|, key) <==>
      e.Save? && Changes(Run(init, t).store, e.saving) && KeyOf(Run(init, t).store, e.saving) == key
  {
    var all := init + [e];
    assert all[..|init|] == init && all[|init|] == e;
    forall i: nat | i < |init| ensures KeyedAt(all, t, i, key) <==> KeyedAt(init, t, i, key) {
      assert all[..i] == init[..i] && all[i] == init[i];
    }
  }

  /** Some event changed its scope's state under the key. */
  ghost predicate Keyed(events: seq<Event>, t: Timing, key: Key) {
    exists i: nat :: i < |events| && KeyedAt(events, t, i, key)
  }

  lemma {:induction false} KeyedGrows(init: seq<Event>, e: Event, t: Timing, key: Key)
    ensures Keyed(init + [e], t, key) <==>
      || Keyed(init, t, key)
      || (e.Save? && Changes(Run(init, t).store, e.saving) && KeyOf(Run(init, t).store, e.saving) == key)
  {
    KeyedPrefix(init, e, t, key);
    if Keyed(init, t, key) {
      var i: nat :| i < |init| && KeyedAt(init, t, i, key);
      assert KeyedAt(init + [e], t, i, key);
    }
  }

  /** A key is in the log exactly when some event changed its scope's state under that key. */
  lemma {:induction false} LoggedKeys(events: seq<Event>, t: Timing, key: Key)
    ensures HasTransition(Run(events, t).store.transitions, key) <==> Keyed(events, t, key)
  {
    if events != [] {
      var init, e := events[..|events| - 1], events[|events| - 1];
      assert events == init + [e];
      RunSnoc(init, e, t);
      LoggedKeys(init, t, key);
      StepKeys(Run(init, t), e, t, key);
      KeyedGrows(init, e, t, key);
    }
  }

  ghost predicate DistinctKeys(events: seq<Event>, t: Timing, scope: string) {
    forall i: nat, j: nat :: i < j < |events| && ChangesAt(events, t, i, scope) && ChangesAt(events, t, j, scope)
      ==> KeyAt(events, t, i) != KeyAt(events, t, j)
  }

  lemma {:induction false} FreshAtExactly(events: seq<Event>, t: Timing, j: nat, scope: string)
    requires j < |events| && events[j].Save? && events[j].saving.scope == scope
    ensures FreshAt(events, t, j) <==>
      (ChangesAt(events, t, j, scope) ==>
         forall i: nat :: i < j && ChangesAt(events, t, i, scope) ==> KeyAt(events, t, i) != KeyAt(events, t, j))
  {
    var before, key := events[..j], KeyAt(events, t, j);
    LoggedKeys(before, t, key);
    forall i: nat | i < j
      ensures KeyedAt(before, t, i, key) <==> ChangesAt(events, t, i, scope) && KeyAt(events, t, i) == key
    {
      assert before[..i] == events[..i];
    }
  }

  /** All keys were fresh exactly when no two changes of the scope's state had the same key. */
  lemma {:induction false} FreshKeysExactly(events: seq<Event>, t: Timing, scope: string)
    ensures FreshKeys(events, t, scope) <==> DistinctKeys(events, t, scope)
  {
    forall j: nat | j < |events| && events[j].Save? && events[j].saving.scope == scope
      ensures FreshAt(events, t, j) <==>
        (ChangesAt(events, t, j, scope) ==>
           forall i: nat :: i < j && ChangesAt(events, t, i, scope) ==> KeyAt(events, t, i) != KeyAt(events, t, j))
    {
      FreshAtExactly(events, t, j, scope);
    }
  }

  /** The evidence moves on: an evaluation that changes the state is observed later than those that did before. */
  ghost predicate EvidenceAdvances(events: seq<Event>, t: Timing, scope: string) {
    forall i: nat, j: nat :: i < j < |events| && ChangesAt(events, t, i, scope) && ChangesAt(events, t, j, scope) ==>
      Later(events[i].saving.evaluation.observedAt, events[j].saving.evaluation.observedAt)
  }

  predicate Later(a: Option<int>, b: Option<int>) { a.Some? && b.Some? && a.value < b.value }

  /** Transitions whose evidence moves on have fresh keys. */
  lemma {:induction false} AdvancingEvidenceIsFresh(events: seq<Event>, t: Timing, scope: string)
    requires EvidenceAdvances(events, t, scope)
    ensures FreshKeys(events, t, scope)
  {
    FreshKeysExactly(events, t, scope);
  }

  // ---------- the log and the history, compared ----------

  /** The log holds exactly the changes of the history, in order, if and only if every key was fresh;
      otherwise it is shorter. */
  lemma {:induction false} LogIsChangesExactly(events: seq<Event>, t: Timing, scope: string)
    ensures |Rows(Run(events, t).store.transitions, scope)| <= |ChangesOf(History(events, scope))|
    ensures Rows(Run(events, t).store.transitions, scope) == ChangesOf(History(events, scope))
        <==> FreshKeys(events, t, scope)
    ensures |Rows(Run(events, t).store.transitions, scope)| == |ChangesOf(History(events, scope))| ==>
        FreshKeys(events, t, scope)
  {
    if events != [] {
      var init, e := events[..|events| - 1], events[|events| - 1];
      LogIsChangesExactly(init, t, scope);
      SnapshotIsLast(init, t, scope);
      StepRows(Run(init, t), e, t, scope);
      FreshPrefix(events, t, scope);
      if e.Save? && e.saving.scope == scope {
        var history := History(init, scope);
        var more := history + [Moment(e.saving.at, e.saving.evaluation.state)];
        assert more[..|history|] == history;
      }
    }
  }

  lemma {:induction false} ChangesCarryState(history: seq<Moment>, x: int)
    requires Nondecreasing(history)
    ensures StateAt(ChangesOf(history), Unknown, x) == EvaluatedAt(history, x)
  {
    if history != [] {
      var init, last := history[..|history| - 1], history[|history| - 1];
      ChangesCarryState(init, x);
      if last.state == StateOf(init) {
        if last.at <= x {
          if init != [] { assert init[|init| - 1].at <= last.at; }
        }
      } else {
        assert (ChangesOf(init) + [LogRow(last.at, StateOf(init), last.state)])[..|ChangesOf(init)|] == ChangesOf(init);
      }
    }
  }

  lemma {:induction false} ChangesSorted(history: seq<Moment>)
    requires Nondecreasing(history)
    ensures SortedBy(ChangesOf(history), ByConfirmation())
    ensures forall r :: r in ChangesOf(history) ==> history != [] && r.at <= history[|history| - 1].at
    ensures ChangesOf(history) != [] ==> ChangesOf(history)[0].fromState == Unknown
    ensures ChangesOf(history) == [] ==> StateOf(history) == Unknown
  {
    if history != [] {
      var init := history[..|history| - 1];
      ChangesSorted(init);
      var rows := ChangesOf(init);
      if init != [] { assert init[|init| - 1].at <= history[|history| - 1].at; }
      assert forall i :: 0 <= i < |rows| ==> rows[i] in rows;
    }
  }

  lemma {:induction false} RowsKeepUnknownFirst(events: seq<Event>, t: Timing, scope: string)
    ensures Rows(Run(events, t).store.transitions, scope) == [] ==>
        PreviousState(Run(events, t).store, scope) == Unknown
    ensures Rows(Run(events, t).store.transitions, scope) != [] ==>
        Rows(Run(events, t).store.transitions, scope)[0].fromState == Unknown
  {
    if events != [] {
      var init, e := events[..|events| - 1], events[|events| - 1];
      var w := Run(init, t);
      RowsKeepUnknownFirst(init, t, scope);
      StepRows(w, e, t, scope);
      if e.Save? && Rows(w.store.transitions, scope) == [] {
        NoRowsNoKeys(w.store.transitions, scope);
        assert e.saving.scope == scope ==> KeyOf(w.store, e.saving).scope == scope;
      }
    }
  }

  lemma {:induction false} NoRowsNoKeys(transitions: seq<Transition>, scope: string)
    requires Rows(transitions, scope) == []
    ensures forall key :: HasTransition(transitions, key) ==> key.scope != scope
  {
    if transitions != [] {
      var init := transitions[..|transitions| - 1];
      NoRowsNoKeys(init, scope);
      forall key | HasTransition(transitions, key) ensures key.scope != scope {
        var i :| 0 <= i < |transitions| && transitions[i].key == key;
        if i < |init| { assert init[i].key == key && HasTransition(init, key); }
      }
    }
  }

  ghost predicate InOrder(rows: seq<LogRow>, history: seq<Moment>) {
    && SortedBy(rows, ByConfirmation())
    && forall r :: r in rows ==> history != [] && r.at <= history[|history| - 1].at
  }

  lemma {:induction false} InOrderGrows(rows: seq<LogRow>, history: seq<Moment>, m: Moment, row: LogRow)
    requires InOrder(rows, history) && Nondecreasing(history + [m]) && row.at == m.at
    ensures InOrder(rows, history + [m]) && InOrder(rows + [row], history + [m])
    ensures Nondecreasing(history)
  {
    var more := history + [m];
    if history != [] { assert more[|history| - 1].at <= more[|history|].at; }
    assert forall i :: 0 <= i < |rows| ==> rows[i] in rows;
    assert forall i :: 0 <= i < |history| ==> more[i] == history[i];
  }

  lemma {:induction false} RowsInOrder(events: seq<Event>, t: Timing, scope: string)
    requires Nondecreasing(History(events, scope))
    ensures InOrder(Rows(Run(events, t).store.transitions, scope), History(events, scope))
  {
    if events != [] {
      var init, e := events[..|events| - 1], events[|events| - 1];
      StepRows(Run(init, t), e, t, scope);
      if e.Save? && e.saving.scope == scope {
        var m := Moment(e.saving.at, e.saving.evaluation.state);
        NondecreasingPrefix(History(init, scope), m);
        RowsInOrder(init, t, scope);
        InOrderGrows(Rows(Run(init, t).store.transitions, scope), History(init, scope), m,
                     LogRow(m.at, PreviousState(Run(init, t).store, scope), m.state));
      } else {
        RowsInOrder(init, t, scope);
      }
    }
  }

  lemma {:induction false} NondecreasingPrefix(history: seq<Moment>, m: Moment)
    requires Nondecreasing(history + [m])
    ensures Nondecreasing(history)
  {
    assert forall i :: 0 <= i < |history| ==> (history + [m])[i] == history[i];
  }

  /** While the clock does not run backwards, ORDER BY leaves the log as it was written, and what is
      shown before its first row is "unknown". */
  lemma {:induction false} LogAsWritten(events: seq<Event>, t: Timing, scope: string, end: int)
    requires Nondecreasing(History(events, scope))
    ensures LogOf(Run(events, t).store, scope) == Rows(Run(events, t).store.transitions, scope)
    ensures Initial(LogOf(Run(events, t).store, scope), CurrentState(Run(events, t).store, scope, end)) == Unknown
  {
    RowsInOrder(events, t, scope);
    SortOfSorted(Rows(Run(events, t).store.transitions, scope), ByConfirmation());
    RowsKeepUnknownFirst(events, t, scope);
  }

  lemma {:induction false} ShownIsHistory(events: seq<Event>, t: Timing, scope: string, first: Option<int>, end: int,
                                          x: int)
    requires Nondecreasing(History(events, scope)) && FreshKeys(events, t, scope)
    ensures var s := Run(events, t).store;
      Shown(LogOf(s, scope), Initial(LogOf(s, scope), CurrentState(s, scope, end)), first, x)
      == if first.None? || x < first.value then Unknown else EvaluatedAt(History(events, scope), x)
  {
    LogAsWritten(events, t, scope, end);
    LogIsChangesExactly(events, t, scope);
    ChangesCarryState(History(events, scope), x);
  }

  /** Writer and reader agree: an instant of the timeline carries the state of the last evaluation saved
      at or before it, or "unknown" before the server's first observation. */
  lemma {:induction false} TimelineShowsHistory(events: seq<Event>, t: Timing, scope: string, observed: seq<int>,
                                                end: int,
                             intervals: seq<Interval>, i: nat, x: int)
    requires Nondecreasing(History(events, scope)) && FreshKeys(events, t, scope)
    requires var s := Run(events, t).store;
      Depicts(intervals, LogOf(s, scope), Initial(LogOf(s, scope), CurrentState(s, scope, end)), First(observed))
    requires i < |intervals| && intervals[i].from <= x < intervals[i].until
    ensures intervals[i].state
         == if observed == [] || x < First(observed).value then Unknown else EvaluatedAt(History(events, scope), x)
  {
    ShownIsHistory(events, t, scope, First(observed), end, x);
  }

  // ---------- exactly when they agree ----------

  ghost predicate Agrees(events: seq<Event>, t: Timing, scope: string) {
    forall x :: StateAt(Rows(Run(events, t).store.transitions, scope), Unknown, x)
        == EvaluatedAt(History(events, scope), x)
  }

  lemma {:induction false} StateAfterAll(rows: seq<LogRow>, initial: State, x: int, y: int)
    requires forall r :: r in rows ==> r.at <= x && r.at <= y
    ensures StateAt(rows, initial, x) == StateAt(rows, initial, y)
  {
  }

  /** The same log with or without one more row, beside the same history with one more evaluation. */
  lemma {:induction false} AgreedBefore(rows: seq<LogRow>, after: seq<LogRow>, history: seq<Moment>, m: Moment)
    requires forall r :: r in rows ==> r.at < m.at
    requires history != [] ==> history[|history| - 1].at < m.at
    requires after == rows || (|after| == |rows| + 1 && after[..|rows|] == rows && after[|rows|].at == m.at)
    requires forall x :: StateAt(after, Unknown, x) == EvaluatedAt(history + [m], x)
    ensures forall x :: StateAt(rows, Unknown, x) == EvaluatedAt(history, x)
    ensures StateOf(history) != m.state ==> after != rows
  {
    var more := history + [m];
    assert more[..|history|] == history;
    forall x ensures StateAt(rows, Unknown, x) == EvaluatedAt(history, x) {
      var y := if x < m.at then x else m.at - 1;
      assert StateAt(after, Unknown, y) == StateAt(rows, Unknown, y);
      assert EvaluatedAt(more, y) == EvaluatedAt(history, y);
      if x >= m.at {
        StateAfterAll(rows, Unknown, x, y);
      }
    }
    assert StateAt(after, Unknown, m.at) == EvaluatedAt(more, m.at) == m.state;
    assert StateAt(rows, Unknown, m.at) == EvaluatedAt(history, m.at) == StateOf(history);
  }

  lemma {:induction false} IncreasingPrefix(history: seq<Moment>, m: Moment)
    requires Increasing(history + [m])
    ensures Increasing(history) && Nondecreasing(history)
    ensures history != [] ==> history[|history| - 1].at < m.at
  {
    var more := history + [m];
    assert forall i :: 0 <= i < |history| ==> more[i] == history[i];
    assert history != [] ==> more[|history| - 1].at < more[|history|].at;
  }

  /** If the log of a longer run agrees, so did the shorter one, and the last change was not lost. */
  lemma {:induction false} AgreementIsInherited(events: seq<Event>, t: Timing, scope: string)
    requires events != [] && Increasing(History(events, scope)) && Agrees(events, t, scope)
    ensures Agrees(events[..|events| - 1], t, scope)
    ensures var n := |events| - 1; events[n].Save? && events[n].saving.scope == scope ==> FreshAt(events, t, n)
  {
    var init, e := events[..|events| - 1], events[|events| - 1];
    var rows, history := Rows(Run(init, t).store.transitions, scope), History(init, scope);
    var after := Rows(Run(events, t).store.transitions, scope);
    StepRows(Run(init, t), e, t, scope);
    if e.Save? && e.saving.scope == scope {
      var m := Moment(e.saving.at, e.saving.evaluation.state);
      SnapshotIsLast(init, t, scope);
      IncreasingPrefix(history, m);
      RowsInOrder(init, t, scope);
      AgreedBefore(rows, after, history, m);
    }
  }

  /** With a clock that moves on between evaluations, the log shows the right state at every instant if
      and only if no key was repeated. */
  lemma {:induction false} AgreesExactlyWhenKeysFresh(events: seq<Event>, t: Timing, scope: string)
    requires Increasing(History(events, scope))
    ensures Agrees(events, t, scope) <==> FreshKeys(events, t, scope)
  {
    var history := History(events, scope);
    if FreshKeys(events, t, scope) {
      LogIsChangesExactly(events, t, scope);
      forall x ensures StateAt(Rows(Run(events, t).store.transitions, scope), Unknown, x) == EvaluatedAt(history, x) {
        ChangesCarryState(history, x);
      }
    }
    if Agrees(events, t, scope) && events != [] {
      var init := events[..|events| - 1];
      assert forall i :: 0 <= i < |History(init, scope)| ==> history[i] == History(init, scope)[i];
      AgreementIsInherited(events, t, scope);
      AgreesExactlyWhenKeysFresh(init, t, scope);
      FreshPrefix(events, t, scope);
    }
  }

  // ---------- since when ----------

  /** The k-th evaluation began the constant suffix the history ends with. */
  ghost predicate SuffixBegins(history: seq<Moment>, k: int) {
    && 0 <= k < |history|
    && (forall j :: k <= j < |history| ==> history[j].state == StateOf(history))
    && StateOf(history[..k]) != StateOf(history)
  }

  lemma {:induction false} SuffixGrows(init: seq<Moment>, m: Moment, k: int)
    requires SuffixBegins(init, k) && m.state == StateOf(init)
    ensures SuffixBegins(init + [m], k)
  {
  }

  lemma {:induction false} LastChangeBeginsSuffix(history: seq<Moment>)
    requires ChangesOf(history) != []
    ensures exists k :: SuffixBegins(history, k) && history[k].at == ChangesOf(history)[|ChangesOf(history)| - 1].at
  {
    var n := |history| - 1;
    var init, last := history[..n], history[n];
    assert history == init + [last];
    if last.state == StateOf(init) {
      LastChangeBeginsSuffix(init);
      var k :| SuffixBegins(init, k) && init[k].at == ChangesOf(init)[|ChangesOf(init)| - 1].at;
      SuffixGrows(init, last, k);
      assert ChangesOf(history) == ChangesOf(init);
      assert history[k].at == init[k].at;
    } else {
      var rows := ChangesOf(init) + [LogRow(last.at, StateOf(init), last.state)];
      assert ChangesOf(history) == rows && rows[|rows| - 1].at == history[n].at;
      assert SuffixBegins(history, n);
    }
  }

  /** `state_since` is when the current state began, and absent only while nothing but "unknown" was
      ever found. */
  lemma {:induction false} StateSinceIsSuffixStart(events: seq<Event>, t: Timing, scope: string)
    requires Nondecreasing(History(events, scope)) && FreshKeys(events, t, scope)
    ensures var since, history := StateTimes(Run(events, t).store, scope).0, History(events, scope);
      && (since.Some? ==> exists k :: SuffixBegins(history, k) && history[k].at == since.value)
      && (since.None? ==> forall k :: 0 <= k < |history| ==> history[k].state == Unknown)
  {
    LogAsWritten(events, t, scope, 0);
    LogIsChangesExactly(events, t, scope);
    var history := History(events, scope);
    if ChangesOf(history) != [] {
      LastChangeBeginsSuffix(history);
    } else {
      NoChangesAllUnknown(history);
    }
  }

  lemma {:induction false} NoChangesAllUnknown(history: seq<Moment>)
    requires ChangesOf(history) == []
    ensures forall k :: 0 <= k < |history| ==> history[k].state == Unknown
  {
    if history != [] {
      NoChangesAllUnknown(history[..|history| - 1]);
    }
  }

  /** The k-th evaluation ended a spell of trouble. */
  ghost predicate TroubleEnds(history: seq<Moment>, k: int) {
    && 0 <= k < |history| && history[k].state == Operational
    && (StateOf(history[..k]) == Degraded || StateOf(history[..k]) == Unavailable)
  }

  /** The last evaluation that ended trouble came at the last of these rows; without rows none did. */
  ghost predicate EndsAt(history: seq<Moment>, ends: seq<LogRow>) {
    if ends == [] then forall k :: !TroubleEnds(history, k)
    else exists k :: LastEnd(history, k) && history[k].at == ends[|ends| - 1].at
  }

  ghost predicate LastEnd(history: seq<Moment>, k: int) {
    TroubleEnds(history, k) && forall j :: j > k ==> !TroubleEnds(history, j)
  }

  lemma {:induction false} EndsGrow(init: seq<Moment>, m: Moment, k: int)
    ensures TroubleEnds(init + [m], k) <==>
      TroubleEnds(init, k)
      || (k == |init| && m.state == Operational && (StateOf(init) == Degraded || StateOf(init) == Unavailable))
  {
  }

  lemma {:induction false} EndsCarry(init: seq<Moment>, m: Moment, ends: seq<LogRow>)
    requires EndsAt(init, ends) && !TroubleEnds(init + [m], |init|)
    ensures EndsAt(init + [m], ends)
  {
    forall k ensures TroubleEnds(init + [m], k) <==> TroubleEnds(init, k) {
      EndsGrow(init, m, k);
    }
    if ends != [] {
      var k :| LastEnd(init, k) && init[k].at == ends[|ends| - 1].at;
      assert LastEnd(init + [m], k) && (init + [m])[k] == init[k];
    }
  }

  lemma {:induction false} RecoveriesAreEnds(history: seq<Moment>)
    ensures EndsAt(history, Filter(ChangesOf(history), Recoveries()))
  {
    if history != [] {
      var init, m := history[..|history| - 1], history[|history| - 1];
      assert history == init + [m];
      RecoveriesAreEnds(init);
      EndsGrow(init, m, |init|);
      if m.state != StateOf(init) {
        FilterSnoc(ChangesOf(init), LogRow(m.at, StateOf(init), m.state), Recoveries());
      }
      if TroubleEnds(history, |init|) {
        assert LastEnd(history, |init|);
      } else {
        EndsCarry(init, m, Filter(ChangesOf(init), Recoveries()));
      }
    }
  }

  /** `last_incident_at` is the end of the last degraded or unavailable spell. */
  lemma {:induction false} LastIncidentIsLastEnd(events: seq<Event>, t: Timing, scope: string)
    requires Nondecreasing(History(events, scope)) && FreshKeys(events, t, scope)
    ensures var ended, history := StateTimes(Run(events, t).store, scope).1, History(events, scope);
      && (ended.None? ==> forall k :: !TroubleEnds(history, k))
      && (ended.Some? ==> exists k :: LastEnd(history, k) && history[k].at == ended.value)
  {
    LogAsWritten(events, t, scope, 0);
    LogIsChangesExactly(events, t, scope);
    RecoveriesAreEnds(History(events, scope));
  }
}
