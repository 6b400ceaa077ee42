/** The read side: the state timeline of a server rebuilt from the transition log, and what is shown
    from it. Nothing here changes a table. */
module ReadModel {
  import opened Domain
  import opened Sequences
  import opened Notifications

  /** One row of the log as the timeline query reads it. */
  datatype LogRow = LogRow(at: int, fromState: State, toState: State)

  datatype Interval = Interval(from: int, until: int, state: State)

  function RowOf(tr: Transition): LogRow { LogRow(tr.confirmedAt, tr.key.fromState, tr.key.toState) }

  /** The scope's rows in insertion order. */
  function Rows(transitions: seq<Transition>, scope: string): seq<LogRow> {
    if transitions == [] then []
    else
      var rest, last := Rows(transitions[..|transitions| - 1], scope), transitions[|transitions| - 1];
      if last.key.scope == scope then rest + [RowOf(last)] else rest
  }

  function ByConfirmation(): LogRow -> int { (r: LogRow) => r.at }

  function LogOf(s: Store, scope: string): seq<LogRow> {
    SortBy(Rows(s.transitions, scope), ByConfirmation())
  }

  /** The state assumed when the log is empty: the snapshot's, unless it has expired by then. */
  function CurrentState(s: Store, scope: string, end: int): State {
    if scope !in s.snapshots then Unknown
    else
      var snapshot := s.snapshots[scope];
      if snapshot.freshUntil.Some? && snapshot.freshUntil.value < end then Unknown else snapshot.state
  }

  function Initial(rows: seq<LogRow>, current: State): State {
    if rows == [] then current else rows[0].fromState
  }

  /** The state the log carries at an instant. */
  function StateAt(rows: seq<LogRow>, initial: State, x: int): State {
    if rows == [] then initial
    else if rows[|rows| - 1].at <= x then rows[|rows| - 1].toState
    else StateAt(rows[..|rows| - 1], initial, x)
  }

  /** What is shown: nothing is known before the server's first observation. */
  function Shown(rows: seq<LogRow>, initial: State, first: Option<int>, x: int): State {
    if first.None? || x < first.value then Unknown else StateAt(rows, initial, x)
  }

  // ---------- the timeline ----------

  /** Non-empty intervals, in order and without gaps, from lo to hi. */
  ghost predicate Tiles(intervals: seq<Interval>, lo: int, hi: int) {
    if intervals == [] then lo == hi
    else
      && intervals[0].from == lo && intervals[|intervals| - 1].until == hi
      && (forall i :: 0 <= i < |intervals| ==> intervals[i].from < intervals[i].until)
      && (forall i :: 0 <= i < |intervals| - 1 ==> intervals[i].until == intervals[i + 1].from)
  }

  ghost predicate Depicts(intervals: seq<Interval>, rows: seq<LogRow>, initial: State, first: Option<int>) {
    forall i, x :: 0 <= i < |intervals| && intervals[i].from <= x < intervals[i].until ==>
      intervals[i].state == Shown(rows, initial, first, x)
  }

  datatype Point = Point(at: int, state: State)

  function EndOf(points: seq<Point>, i: nat, end: int): int
    requires i < |points|
  {
    if i + 1 < |points| then points[i + 1].at else end
  }

  /** The pieces of constant state between the log's points, some possibly empty. */
  ghost predicate Pieces(points: seq<Point>, rows: seq<LogRow>, initial: State, end: int) {
    forall i, x :: 0 <= i < |points| && points[i].at <= x < EndOf(points, i, end) ==>
        points[i].state == StateAt(rows, initial, x)
  }

  ghost predicate Ascending(points: seq<Point>) {
    forall i, j :: 0 <= i < j < |points| ==> points[i].at <= points[j].at
  }

  lemma {:induction false} StateAtLater(rows: seq<LogRow>, k: nat, initial: State, x: int)
    requires k <= |rows|
    requires forall i :: k <= i < |rows| ==> rows[i].at > x
    ensures StateAt(rows, initial, x) == StateAt(rows[..k], initial, x)
    decreases |rows|
  {
    if k < |rows| {
      assert rows[..|rows| - 1][..k] == rows[..k];
      StateAtLater(rows[..|rows| - 1], k, initial, x);
    } else {
      assert rows[..k] == rows;
    }
  }

  lemma {:induction false} StateAtNext(rows: seq<LogRow>, k: nat, initial: State, x: int)
    requires k < |rows|
    ensures StateAt(rows[..k + 1], initial, x) == if rows[k].at <= x then rows[k].toState
        else StateAt(rows[..k], initial, x)
  {
    assert rows[..k + 1][..k] == rows[..k];
  }

  method CutAtTransitions(rows: seq<LogRow>, initial: State, start: int, end: int) returns (points: seq<Point>)
    requires SortedBy(rows, ByConfirmation())
    ensures points != [] && points[0].at == start && Ascending(points)
    ensures start < end ==> points[|points| - 1].at < end
    ensures start >= end ==> |points| == 1
    ensures Pieces(points, rows, initial, end)
  {
    points := [];
    var state, cursor := initial, start;
    var k := 0;
    while k < |rows|
      invariant 0 <= k <= |rows|
      invariant start <= cursor
      invariant cursor > start ==> k > 0 && rows[k - 1].at == cursor < end
      invariant k > 0 ==> rows[k - 1].at <= cursor
      invariant points == [] <==> cursor == start
      invariant points != [] ==> points[0].at == start && points[|points| - 1].at <= cursor
      invariant Ascending(points)
      invariant forall x :: cursor <= x ==> StateAt(rows[..k], initial, x) == state
      invariant Pieces(points, rows[..k], initial, cursor)
    {
      var t := rows[k].at;
      assert k > 0 ==> ByConfirmation()(rows[k - 1]) <= ByConfirmation()(rows[k]);
      if t > start && t >= end {
        break;
      }
      forall x ensures StateAt(rows[..k + 1], initial, x) == if t <= x then rows[k].toState
          else StateAt(rows[..k], initial, x) {
        StateAtNext(rows, k, initial, x);
      }
      if t <= start {
        state := rows[k].toState;
      } else {
        PiecesGrow(points, rows[..k], rows[..k + 1], initial, cursor, state, t);
        points := points + [Point(cursor, state)];
        cursor, state := t, rows[k].toState;
      }
      k := k + 1;
    }
    forall x | x < end && (k < |rows| ==> x < rows[k].at)
        ensures StateAt(rows, initial, x) == StateAt(rows[..k], initial, x) {
      assert forall i :: k <= i < |rows| ==> ByConfirmation()(rows[k]) <= ByConfirmation()(rows[i]);
      StateAtLater(rows, k, initial, x);
    }
    PiecesGrow(points, rows[..k], rows, initial, cursor, state, end);
    points := points + [Point(cursor, state)];
  }

  /** Closing the current piece at `until`, where the log next changes, keeps all pieces right. */
  lemma {:induction false} PiecesGrow(points: seq<Point>, rows: seq<LogRow>, more: seq<LogRow>, initial: State,
                                      cursor: int, state: State, until: int)
    requires Ascending(points) && (points != [] ==> points[|points| - 1].at <= cursor)
    requires Pieces(points, rows, initial, cursor)
    requires forall x :: cursor <= x ==> StateAt(rows, initial, x) == state
    requires forall x :: x < until ==> StateAt(more, initial, x) == StateAt(rows, initial, x)
    requires cursor <= until || points == []
    ensures Ascending(points + [Point(cursor, state)])
    ensures Pieces(points + [Point(cursor, state)], more, initial, until)
  {
  }

  function KnownState(rows: seq<LogRow>, initial: State, knownFrom: int, x: int): State {
    if x < knownFrom then Unknown else StateAt(rows, initial, x)
  }

  ghost predicate DepictsKnown(intervals: seq<Interval>, rows: seq<LogRow>, initial: State, knownFrom: int) {
    forall j, x :: 0 <= j < |intervals| && intervals[j].from <= x < intervals[j].until ==>
      intervals[j].state == KnownState(rows, initial, knownFrom, x)
  }

  lemma {:induction false} TilesGrow(intervals: seq<Interval>, lo: int, next: Interval)
    requires Tiles(intervals, lo, next.from) && next.from < next.until
    ensures Tiles(intervals + [next], lo, next.until)
  {
  }

  lemma {:induction false} DepictsGrow(intervals: seq<Interval>, next: Interval, rows: seq<LogRow>, initial: State,
                                       knownFrom: int)
    requires DepictsKnown(intervals, rows, initial, knownFrom)
    requires forall x :: next.from <= x < next.until ==> next.state == KnownState(rows, initial, knownFrom, x)
    ensures DepictsKnown(intervals + [next], rows, initial, knownFrom)
  {
  }

  /** The intervals one piece contributes: split where the server becomes known, empty if it is. */
  method AddPiece(intervals: seq<Interval>, ghost lo: int, from: int, until: int, state: State, knownFrom: int,
                  ghost rows: seq<LogRow>, ghost initial: State)
    returns (more: seq<Interval>)
    requires Tiles(intervals, lo, from) && from <= until
    requires DepictsKnown(intervals, rows, initial, knownFrom)
    requires forall x :: from <= x < until ==> state == StateAt(rows, initial, x)
    ensures Tiles(more, lo, until) && DepictsKnown(more, rows, initial, knownFrom)
  {
    more := intervals;
    if until <= from {
      return;
    }
    var at := from;
    if at < knownFrom {
      var unknownUntil := if until <= knownFrom then until else knownFrom;
      TilesGrow(more, lo, Interval(at, unknownUntil, Unknown));
      DepictsGrow(more, Interval(at, unknownUntil, Unknown), rows, initial, knownFrom);
      more := more + [Interval(at, unknownUntil, Unknown)];
      if until <= knownFrom {
        return;
      }
      at := knownFrom;
    }
    TilesGrow(more, lo, Interval(at, until, state));
    DepictsGrow(more, Interval(at, until, state), rows, initial, knownFrom);
    more := more + [Interval(at, until, state)];
  }

  method ClipToKnown(points: seq<Point>, ghost rows: seq<LogRow>, ghost initial: State, knownFrom: int, end: int)
    returns (intervals: seq<Interval>)
    requires points != [] && Ascending(points)
    requires points[|points| - 1].at < end || |points| == 1
    requires Pieces(points, rows, initial, end)
    ensures points[|points| - 1].at < end ==> Tiles(intervals, points[0].at, end)
    ensures points[|points| - 1].at >= end ==> intervals == []
    ensures DepictsKnown(intervals, rows, initial, knownFrom)
  {
    intervals := [];
    if points[|points| - 1].at >= end {
      return;  // an empty window: the only piece is empty and adds nothing
    }
    for i := 0 to |points|
      invariant Tiles(intervals, points[0].at, if i < |points| then points[i].at else end)
      invariant DepictsKnown(intervals, rows, initial, knownFrom)
    {
      var until := EndOf(points, i, end);
      intervals := AddPiece(intervals, points[0].at, points[i].at, until, points[i].state, knownFrom, rows, initial);
    }
  }

  method Timeline(s: Store, scope: string, observed: seq<int>, start: int, end: int) returns (intervals: seq<Interval>)
    ensures start < end ==> intervals != [] && Tiles(intervals, start, end)
    ensures start >= end ==> intervals == []
    ensures Depicts(intervals, LogOf(s, scope), Initial(LogOf(s, scope), CurrentState(s, scope, end)), First(observed))
  {
    var rows := LogOf(s, scope);
    SortSorts(Rows(s.transitions, scope), ByConfirmation());
    var first := First(observed);
    var knownFrom := if first.Some? then first.value else end;
    var initial := Initial(rows, CurrentState(s, scope, end));
    var points := CutAtTransitions(rows, initial, start, end);
    intervals := ClipToKnown(points, rows, initial, knownFrom, end);
    forall j, x | 0 <= j < |intervals| && intervals[j].from <= x < intervals[j].until
      ensures intervals[j].state == Shown(rows, initial, first, x)
    {
      TiledBelow(intervals, start, end, j);
      assert intervals[j].state == KnownState(rows, initial, knownFrom, x);
    }
  }

  lemma {:induction false} TiledBelow(intervals: seq<Interval>, lo: int, hi: int, j: nat)
    requires Tiles(intervals, lo, hi) && j < |intervals|
    ensures lo <= intervals[j].from && intervals[j].until <= hi
    decreases |intervals|
  {
    if j < |intervals| - 1 {
      var init := intervals[..|intervals| - 1];
      TiledBelow(init, lo, intervals[|intervals| - 1].from, j);
    } else if j > 0 {
      var init := intervals[..|intervals| - 1];
      TiledBelow(init, lo, intervals[|intervals| - 1].from, j - 1);
    }
  }

  function First(observed: seq<int>): (first: Option<int>)
    ensures first.None? <==> observed == []
    ensures first.Some? ==> first.value in observed && forall x :: x in observed ==> first.value <= x
  {
    if observed == [] then None
    else
      var rest, last := First(observed[..|observed| - 1]), observed[|observed| - 1];
      assert observed == observed[..|observed| - 1] + [last];
      if rest.None? || last < rest.value then Some(last) else rest
  }
}
