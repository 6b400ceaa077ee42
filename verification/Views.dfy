/** What the screens show from the timeline: availability, the points of a chart, the card's state,
    and when the current state began. */
module Views {
  import opened Domain
  import opened Sequences
  import opened Notifications
  import opened ReadModel

  // ---------- how long each state was shown ----------

  function TimeIn(intervals: seq<Interval>, state: State): int {
    if intervals == [] then 0
    else
      var last := intervals[|intervals| - 1];
      TimeIn(intervals[..|intervals| - 1], state) + if last.state == state then last.until - last.from else 0
  }

  /** How many of the instants in [lo, hi) show the state: durations without any intervals. */
  function Instants(rows: seq<LogRow>, initial: State, first: Option<int>, lo: int, hi: int, state: State): nat
    decreases hi - lo
  {
    if hi <= lo then 0
    else Instants(rows, initial, first, lo, hi - 1, state) + if Shown(rows, initial, first, hi - 1) == state then 1
        else 0
  }

  lemma {:induction false} InstantsAdd(rows: seq<LogRow>, initial: State, first: Option<int>, lo: int, mid: int,
                                       hi: int, state: State)
    requires lo <= mid <= hi
    ensures Instants(rows, initial, first, lo, hi, state)
         == Instants(rows, initial, first, lo, mid, state) + Instants(rows, initial, first, mid, hi, state)
    decreases hi - mid
  {
    if mid < hi {
      InstantsAdd(rows, initial, first, lo, mid, hi - 1, state);
    }
  }

  lemma {:induction false} InstantsConstant(rows: seq<LogRow>, initial: State, first: Option<int>, lo: int, hi: int,
                                            state: State, shown: State)
    requires lo <= hi && forall x :: lo <= x < hi ==> Shown(rows, initial, first, x) == shown
    ensures Instants(rows, initial, first, lo, hi, state) == if shown == state then hi - lo else 0
    decreases hi - lo
  {
    if lo < hi {
      InstantsConstant(rows, initial, first, lo, hi - 1, state, shown);
    }
  }

  /** The intervals of a timeline measure each state exactly. */
  lemma {:induction false} TimeIsInstants(intervals: seq<Interval>, rows: seq<LogRow>, initial: State,
                                          first: Option<int>,
                                          lo: int, hi: int, state: State)
    requires Tiles(intervals, lo, hi) && Depicts(intervals, rows, initial, first)
    ensures lo <= hi && TimeIn(intervals, state) == Instants(rows, initial, first, lo, hi, state)
    decreases |intervals|
  {
    if intervals != [] {
      var init, last := intervals[..|intervals| - 1], intervals[|intervals| - 1];
      assert forall i :: 0 <= i < |init| ==> init[i] == intervals[i];
      assert Tiles(init, lo, last.from);
      TimeIsInstants(init, rows, initial, first, lo, last.from, state);
      InstantsConstant(rows, initial, first, last.from, last.until, state, last.state);
      InstantsAdd(rows, initial, first, lo, last.from, last.until, state);
    }
  }

  lemma {:induction false} InstantsTotal(rows: seq<LogRow>, initial: State, first: Option<int>, lo: int, hi: int)
    requires lo <= hi
    ensures Instants(rows, initial, first, lo, hi, Operational) + Instants(rows, initial, first, lo, hi, Degraded)
          + Instants(rows, initial, first, lo, hi, Unavailable) + Instants(rows, initial, first, lo, hi, Unknown)
              == hi - lo
    decreases hi - lo
  {
    if lo < hi {
      InstantsTotal(rows, initial, first, lo, hi - 1);
    }
  }

  /** Splitting a window splits the time in every state. With an empty log both parts must assume the
      same current state, because the snapshot may expire between them. */
  lemma {:induction false} TimeAddsOverSplit(s: Store, scope: string, observed: seq<int>, lo: int, mid: int, hi: int,
                          a: seq<Interval>, b: seq<Interval>, whole: seq<Interval>, state: State)
    requires var rows := LogOf(s, scope);
      && (rows != [] || CurrentState(s, scope, mid) == CurrentState(s, scope, hi))
      && Depicts(a, rows, Initial(rows, CurrentState(s, scope, mid)), First(observed))
      && Depicts(b, rows, Initial(rows, CurrentState(s, scope, hi)), First(observed))
      && Depicts(whole, rows, Initial(rows, CurrentState(s, scope, hi)), First(observed))
    requires Tiles(a, lo, mid) && Tiles(b, mid, hi) && Tiles(whole, lo, hi)
    ensures TimeIn(whole, state) == TimeIn(a, state) + TimeIn(b, state)
  {
    var rows, first := LogOf(s, scope), First(observed);
    var initial := Initial(rows, CurrentState(s, scope, hi));
    TimeIsInstants(a, rows, initial, first, lo, mid, state);
    TimeIsInstants(b, rows, initial, first, mid, hi, state);
    TimeIsInstants(whole, rows, initial, first, lo, hi, state);
    InstantsAdd(rows, initial, first, lo, mid, hi, state);
  }

  // ---------- availability ----------

  /** Rounding to four decimals, ties to even. */
  function Round4(x: real): real {
    var scaled := x * 10000.0;
    var below := scaled.Floor;
    var rest := scaled - below as real;
    var n := if rest < 0.5 then below else if rest > 0.5 then below + 1 else if below % 2 == 0 then below
        else below + 1;
    n as real / 10000.0
  }

  /** So many ten-thousandths. */
  function TenThousandths(n: int): real { n as real / 10000.0 }

  /** The value with four decimals is nearest to x, and even if there are two. */
  ghost predicate Nearest(value: real, x: real) {
    exists n: int :: value == TenThousandths(n) && NearestWhole(n, 10000.0 * x)
  }

  ghost predicate NearestWhole(n: int, y: real) {
    && n as real - 0.5 <= y <= n as real + 0.5
    && (n % 2 != 0 ==> n as real - 0.5 < y < n as real + 0.5)
  }

  lemma {:induction false} RoundIsNearest(x: real)
    ensures Nearest(Round4(x), x)
  {
    var y := x * 10000.0;
    var n := if y - y.Floor as real < 0.5 || (y - y.Floor as real == 0.5 && y.Floor % 2 == 0) then y.Floor
        else y.Floor + 1;
    assert Round4(x) == TenThousandths(n) && NearestWhole(n, 10000.0 * x);
  }

  lemma {:induction false} NearestIsOne(n: int, m: int, y: real)
    requires NearestWhole(n, y) && NearestWhole(m, y)
    ensures n == m
  {
  }

  /** Rounding is exactly taking the nearest. */
  lemma {:induction false} RoundExactly(value: real, x: real)
    ensures value == Round4(x) <==> Nearest(value, x)
  {
    RoundIsNearest(x);
    if Nearest(value, x) {
      var n: int :| value == TenThousandths(n) && NearestWhole(n, 10000.0 * x);
      var m: int :| Round4(x) == TenThousandths(m) && NearestWhole(m, 10000.0 * x);
      NearestIsOne(n, m, 10000.0 * x);
    }
  }

  lemma {:induction false} RoundStaysInUnit(x: real)
    requires 0.0 <= x <= 1.0
    ensures 0.0 <= Round4(x) <= 1.0
  {
  }

  function Share(part: real, whole: real): real
    requires whole > 0.0
  {
    Round4(part / whole)
  }

  lemma {:induction false} ShareInUnit(part: real, whole: real)
    requires whole > 0.0 && 0.0 <= part <= whole
    ensures 0.0 <= Share(part, whole) <= 1.0
    ensures Nearest(Share(part, whole), part / whole)
  {
    RoundIsNearest(part / whole);
    QuotientInUnit(part, whole, part / whole);
    RoundStaysInUnit(part / whole);
  }

  lemma {:induction false} QuotientInUnit(part: real, whole: real, share: real)
    requires whole > 0.0 && 0.0 <= part <= whole && share == part / whole
    ensures 0.0 <= share <= 1.0
  {
    assert share * whole == part && (1.0 - share) * whole == whole - part;
  }

  lemma {:induction false} KnownTime(intervals: seq<Interval>, rows: seq<LogRow>, initial: State, first: Option<int>,
                                     lo: int, hi: int)
    requires Tiles(intervals, lo, hi) && Depicts(intervals, rows, initial, first)
    ensures TimeIn(intervals, Operational) == Instants(rows, initial, first, lo, hi, Operational)
    ensures TimeIn(intervals, Degraded) == Instants(rows, initial, first, lo, hi, Degraded)
    ensures TimeIn(intervals, Operational) + TimeIn(intervals, Degraded) + TimeIn(intervals, Unavailable)
         == hi - lo - Instants(rows, initial, first, lo, hi, Unknown)
    ensures TimeIn(intervals, Unavailable) >= 0
  {
    TimeIsInstants(intervals, rows, initial, first, lo, hi, Operational);
    TimeIsInstants(intervals, rows, initial, first, lo, hi, Degraded);
    TimeIsInstants(intervals, rows, initial, first, lo, hi, Unavailable);
    InstantsTotal(rows, initial, first, lo, hi);
  }

  method Measure(intervals: seq<Interval>) returns (known: real, operational: real)
    ensures known
        == (TimeIn(intervals, Operational) + TimeIn(intervals, Degraded) + TimeIn(intervals, Unavailable)) as real
    ensures operational == TimeIn(intervals, Operational) as real + TimeIn(intervals, Degraded) as real / 2.0
  {
    known, operational := 0.0, 0.0;
    for i := 0 to |intervals|
      invariant known
          == (TimeIn(intervals[..i], Operational) + TimeIn(intervals[..i], Degraded)
          + TimeIn(intervals[..i], Unavailable)) as real
      invariant operational
          == TimeIn(intervals[..i], Operational) as real + TimeIn(intervals[..i], Degraded) as real / 2.0
    {
      var seconds := (intervals[i].until - intervals[i].from) as real;
      assert intervals[..i + 1][..i] == intervals[..i];
      if intervals[i].state != Unknown {
        known := known + seconds;
        operational := operational
          + if intervals[i].state == Operational then seconds
              else if intervals[i].state == Degraded then seconds / 2.0 else 0.0;
      }
    }
    assert intervals[..|intervals|] == intervals;
  }

  /** Uptime counts operational time fully and degraded time half, over the time with a known state;
      coverage is the share of the window with a known state. */
  method Availability(s: Store, scope: string, observed: seq<int>, window: int, now: int)
    returns (uptime: Option<real>, coverage: Option<real>)
    requires window >= 0
    ensures var rows := LogOf(s, scope);
            var initial := Initial(rows, CurrentState(s, scope, now));
            var first := First(observed);
            var known := window - Instants(rows, initial, first, now - window, now, Unknown);
            var up := Instants(rows, initial, first, now - window, now, Operational) as real
                    + Instants(rows, initial, first, now - window, now, Degraded) as real / 2.0;
      && (coverage.Some? <==> window > 0)
      && (coverage.Some? ==> Nearest(coverage.value, known as real / window as real))
      && (uptime.Some? <==> known > 0)
      && (uptime.Some? ==> Nearest(uptime.value, up / known as real))
    ensures uptime.Some? ==> 0.0 <= uptime.value <= 1.0
    ensures coverage.Some? ==> 0.0 <= coverage.value <= 1.0
  {
    var intervals := Timeline(s, scope, observed, now - window, now);
    var known, operational := Measure(intervals);
    ghost var rows, first := LogOf(s, scope), First(observed);
    ghost var initial := Initial(rows, CurrentState(s, scope, now));
    KnownTime(intervals, rows, initial, first, now - window, now);
    coverage := None;
    if window != 0 {
      ShareInUnit(known, window as real);
      coverage := Some(Share(known, window as real));
    }
    uptime := None;
    if known > 0.0 {
      ShareInUnit(operational, known);
      uptime := Some(Share(operational, known));
    }
  }

  // ---------- the points of a chart ----------

  /** A value offered to the chart, if the row it comes from carries one. */
  datatype Entry = Entry(at: int, value: Option<real>)

  datatype ChartPoint = ChartPoint(at: int, state: State, seen: bool, connections: Option<int>)

  predicate InSlot(at: int, lo: int, hi: int) { lo <= at < hi }

  ghost predicate SeenIn(observed: seq<int>, lo: int, hi: int) {
    exists i :: 0 <= i < |observed| && InSlot(observed[i], lo, hi)
  }

  /** The values of the entries in [lo, hi), in order. */
  function ValuesIn(entries: seq<Entry>, lo: int, hi: int): seq<real> {
    if entries == [] then []
    else
      var rest, last := ValuesIn(entries[..|entries| - 1], lo, hi), entries[|entries| - 1];
      if InSlot(last.at, lo, hi) && last.value.Some? then rest + [last.value.value] else rest
  }

  /** The mean rounded half up, if there is anything to average. */
  function Average(values: seq<real>): Option<int> {
    if values == [] then None else Some((Total(values) / |values| as real + 0.5).Floor)
  }

  /** Python's `int(value / step)` for a positive step: truncation toward zero. */
  function Quotient(value: int, step: int): int
    requires step > 0
  {
    if value >= 0 then value / step else -((-value) / step)
  }

  function BucketOf(at: int, start: int, step: int, count: nat): Option<nat>
    requires step > 0
  {
    var index := Quotient(at - start, step);
    if 0 <= index < count then Some(index) else None
  }

  lemma {:induction false} SlotOfQuotient(value: int, step: int, i: int)
    requires step > 0 && value >= 0
    ensures value / step == i <==> i * step <= value < (i + 1) * step
  {
    var q := value / step;
    assert q * step <= value < q * step + step;
    if i < q {
      assert (i + 1) * step <= q * step by { MulMonotone(i + 1, q, step); }
    } else if i > q {
      assert (q + 1) * step <= i * step by { MulMonotone(q + 1, i, step); }
    }
  }

  lemma {:induction false} MulMonotone(a: int, b: int, c: int)
    requires a <= b && c >= 0
    ensures a * c <= b * c
  {
  }

  /** Where the i-th slot begins. */
  function Edge(start: int, step: int, i: int): int { start + i * step }

  /** The slot an instant of the window is counted in; earlier rows are not even selected. */
  function SlotFor(at: int, start: int, step: int, count: nat): Option<nat>
    requires step > 0
  {
    if at < start then None else BucketOf(at, start, step, count)
  }

  /** Every instant of the window has a slot, and only those. */
  lemma {:induction false} SlotForWindow(at: int, start: int, step: int, count: nat)
    requires step > 0
    ensures SlotFor(at, start, step, count).Some? <==> start <= at < Edge(start, step, count)
  {
    if at >= start {
      var q := (at - start) / step;
      if q < count {
        MulMonotone(q + 1, count, step);
      } else {
        MulMonotone(count, q, step);
      }
    }
  }

  /** An instant is counted in the one half-open slot that contains it. */
  lemma {:induction false} SlotExactly(at: int, start: int, step: int, count: nat, i: nat)
    requires step > 0 && i < count
    ensures SlotFor(at, start, step, count) == Some(i) <==> InSlot(at, Edge(start, step, i), Edge(start, step, i + 1))
    ensures SlotFor(at, start, step, count).Some? <==> start <= at < Edge(start, step, count)
  {
    SlotForWindow(at, start, step, count);
    if at < start {
      MulMonotone(0, i, step);
    } else {
      SlotOfQuotient(at - start, step, i);
    }
  }

  method StateAtInstant(intervals: seq<Interval>, t: int, ghost rows: seq<LogRow>, ghost initial: State,
                        ghost first: Option<int>)
    returns (state: State)
    requires intervals != [] && Tiles(intervals, intervals[0].from, intervals[|intervals| - 1].until)
    requires intervals[0].from <= t < intervals[|intervals| - 1].until
    requires Depicts(intervals, rows, initial, first)
    ensures state == Shown(rows, initial, first, t)
  {
    for i := 0 to |intervals|
      invariant i < |intervals| ==> intervals[i].from <= t
      invariant i == |intervals| ==> intervals[|intervals| - 1].until <= t
    {
      if intervals[i].from <= t < intervals[i].until {
        return intervals[i].state;
      }
    }
    assert false;
  }

  method MarkSeen(observed: seq<int>, start: int, step: int, count: nat) returns (seen: array<bool>)
    requires step > 0
    ensures fresh(seen) && seen.Length == count
    ensures forall i: nat :: i < count ==> seen[i] == SeenIn(observed, Edge(start, step, i), Edge(start, step, i + 1))
  {
    seen := new bool[count](_ => false);
    for k := 0 to |observed|
      invariant forall i: nat :: i < count ==>
          seen[i] == SeenIn(observed[..k], Edge(start, step, i), Edge(start, step, i + 1))
    {
      var slot := SlotFor(observed[k], start, step, count);
      forall i: nat | i < count
        ensures SeenIn(observed[..k + 1], Edge(start, step, i), Edge(start, step, i + 1))
           <==> SeenIn(observed[..k], Edge(start, step, i), Edge(start, step, i + 1)) || slot == Some(i)
      {
        SlotExactly(observed[k], start, step, count, i);
        SeenGrows(observed, k, Edge(start, step, i), Edge(start, step, i + 1));
      }
      if slot.Some? {
        seen[slot.value] := true;
      }
    }
    assert observed[..|observed|] == observed;
  }

  lemma {:induction false} SeenGrows(observed: seq<int>, k: nat, lo: int, hi: int)
    requires k < |observed|
    ensures SeenIn(observed[..k + 1], lo, hi) <==> SeenIn(observed[..k], lo, hi) || InSlot(observed[k], lo, hi)
  {
  }

  method CollectValues(entries: seq<Entry>, start: int, step: int, count: nat) returns (values: array<seq<real>>)
    requires step > 0
    ensures fresh(values) && values.Length == count
    ensures forall i: nat :: i < count ==>
        values[i] == ValuesIn(entries, Edge(start, step, i), Edge(start, step, i + 1))
  {
    values := new seq<real>[count](_ => []);
    for k := 0 to |entries|
      invariant forall i: nat :: i < count ==>
          values[i] == ValuesIn(entries[..k], Edge(start, step, i), Edge(start, step, i + 1))
    {
      assert entries[..k + 1][..k] == entries[..k];
      var slot := SlotFor(entries[k].at, start, step, count);
      forall i: nat | i < count
        ensures slot == Some(i) <==> InSlot(entries[k].at, Edge(start, step, i), Edge(start, step, i + 1))
      {
        SlotExactly(entries[k].at, start, step, count, i);
      }
      if slot.Some? && entries[k].value.Some? {
        values[slot.value] := values[slot.value] + [entries[k].value.value];
      }
    }
    assert entries[..|entries|] == entries;
  }

  /** One point: whether anything was observed in its slot, the state shown one second before the slot
      ends if so, and the average of the slot's values. */
  ghost function PointOf(s: Store, scope: string, observed: seq<int>, entries: seq<Entry>, lo: int, hi: int,
                         now: int): ChartPoint {
    var rows := LogOf(s, scope);
    var seen := SeenIn(observed, lo, hi);
    ChartPoint(hi,
               if seen then Shown(rows, Initial(rows, CurrentState(s, scope, now)), First(observed), hi - SECOND)
                   else Unknown,
               seen,
               Average(ValuesIn(entries, lo, hi)))
  }

  lemma {:induction false} EdgesInside(start: int, step: int, count: nat, i: nat)
    requires step > 0 && i < count
    ensures start <= Edge(start, step, i)
        && Edge(start, step, i + 1) == Edge(start, step, i) + step <= Edge(start, step, count)
  {
  }

  method MakePoint(s: Store, scope: string, observed: seq<int>, ghost entries: seq<Entry>, timeline: seq<Interval>,
                   ghost start: int, ghost lo: int, hi: int, now: int, seen: bool, values: seq<real>)
    returns (point: ChartPoint)
    requires start <= lo && lo + SECOND <= hi <= now
    requires Tiles(timeline, start, now) && timeline != []
    requires Depicts(timeline, LogOf(s, scope), Initial(LogOf(s, scope), CurrentState(s, scope, now)), First(observed))
    requires seen == SeenIn(observed, lo, hi) && values == ValuesIn(entries, lo, hi)
    ensures point == PointOf(s, scope, observed, entries, lo, hi, now)
  {
    var state := Unknown;
    if seen {
      var t := if hi - SECOND < now - SECOND then hi - SECOND else now - SECOND;
      state := StateAtInstant(timeline, t, LogOf(s, scope), Initial(LogOf(s, scope), CurrentState(s, scope, now)),
          First(observed));
    }
    point := ChartPoint(hi, state, seen, Average(values));
  }

  /** The chart of a period of `count` steps that ends now. */
  method Points(s: Store, scope: string, observed: seq<int>, entries: seq<Entry>, step: int, count: nat, now: int)
    returns (points: seq<ChartPoint>)
    requires step >= SECOND
    ensures |points| == count
    ensures var start := now - count * step;
      forall i: nat :: i < count ==>
        points[i] == PointOf(s, scope, observed, entries, Edge(start, step, i), Edge(start, step, i + 1), now)
  {
    var start := now - count * step;
    var seen := MarkSeen(observed, start, step, count);
    var values := CollectValues(entries, start, step, count);
    var timeline := Timeline(s, scope, observed, start, now);
    assert Edge(start, step, count) == now;
    points := [];
    for i := 0 to count
      modifies {}
      invariant |points| == i
      invariant forall k: nat :: k < i ==>
        points[k] == PointOf(s, scope, observed, entries, Edge(start, step, k), Edge(start, step, k + 1), now)
    {
      EdgesInside(start, step, count, i);
      var end := Edge(start, step, i) + step;
      var point :=
          MakePoint(s, scope, observed, entries, timeline, start, Edge(start, step, i), end, now, seen[i], values[i]);
      points := points + [point];
    }
  }

  // ---------- the card ----------

  /** The card's state: an expired or missing snapshot reads as unknown. */
  function CardState(s: Store, scope: string, now: int): State {
    if scope !in s.snapshots then Unknown
    else
      var snapshot := s.snapshots[scope];
      if snapshot.freshUntil.None? || snapshot.freshUntil.value < now then Unknown else snapshot.state
  }

  /** When the current state began, and when the last spell of trouble ended. */
  function StateTimes(s: Store, scope: string): (Option<int>, Option<int>) {
    var log := LogOf(s, scope);
    var ends := Filter(log, Recoveries());
    ((if log == [] then None else Some(log[|log| - 1].at)), if ends == [] then None else Some(ends[|ends| - 1].at))
  }

  function Recoveries(): LogRow -> bool { (r: LogRow) => r.toState == Operational && r.fromState != Unknown }
}
