/** The aggregate maintained hour by hour against the one computed from all evidence ever stored. */
module AggregateLaws {
  import opened Domain
  import opened Sequences
  import opened Evidence
  import opened Aggregates

  datatype Act = Observe(row: ObservationRow) | Maintenance(now: int)

  datatype Setup = Setup(protocols: seq<Protocol>, interval: int, retention: int, aggregatesKept: int)

  datatype Books = Books(rows: seq<ObservationRow>, hourly: Hourly)

  /** What the two kinds of steps do to the tables; the second is what `Maintain` promises. */
  ghost predicate Steps(before: Books, act: Act, after: Books, s: Setup) {
    match act
    case Observe(row) => after == Books(before.rows + [row], before.hourly)
    case Maintenance(now) =>
      && after.rows == Filter(before.rows, NotBefore(now - s.retention))
      && Rebuilt(Kept(before.hourly, now - s.aggregatesKept), after.hourly, after.rows, s.protocols, |s.protocols|,
          now, s.interval)
  }

  ghost predicate Trace(acts: seq<Act>, states: seq<Books>, s: Setup) {
    && |states| == |acts| + 1
    && states[0] == Books([], map[])
    && forall i :: 0 <= i < |acts| ==> Steps(states[i], acts[i], states[i + 1], s)
  }

  /** Every observation ever stored. */
  function Ever(acts: seq<Act>): seq<ObservationRow> {
    if acts == [] then []
    else
      var rest, last := Ever(acts[..|acts| - 1]), acts[|acts| - 1];
      if last.Observe? then rest + [last.row] else rest
  }

  function LastMaintained(acts: seq<Act>): Option<int> {
    if acts == [] then None
    else if acts[|acts| - 1].Maintenance? then Some(acts[|acts| - 1].now)
    else LastMaintained(acts[..|acts| - 1])
  }

  /** Where the first maintenance's window began. */
  function CoveredFrom(acts: seq<Act>): Option<int> {
    if acts == [] then None
    else
      var rest, last := CoveredFrom(acts[..|acts| - 1]), acts[|acts| - 1];
      if rest.Some? || last.Observe? then rest else Some(WindowStart(last.now))
  }

  /** What had been stored by the last maintenance, and what has been stored since. */
  function Settled(acts: seq<Act>): seq<ObservationRow> {
    if acts == [] then []
    else if acts[|acts| - 1].Maintenance? then Ever(acts)
    else Settled(acts[..|acts| - 1])
  }

  function Since(acts: seq<Act>): seq<ObservationRow> {
    if acts == [] || acts[|acts| - 1].Maintenance? then []
    else Since(acts[..|acts| - 1]) + [acts[|acts| - 1].row]
  }

  /** Maintenance runs forwards and often enough that windows leave no gap, and what was stored since the
      last one is not older than the window. */
  ghost predicate Steady(acts: seq<Act>) {
    acts == [] ||
    (var init, last := acts[..|acts| - 1], acts[|acts| - 1];
     && Steady(init)
     && (last.Maintenance? ==> SteadyAt(init, last.now)))
  }

  ghost predicate SteadyAt(init: seq<Act>, now: int) {
    LastMaintained(init).Some? ==>
      && LastMaintained(init).value <= now
      && WindowStart(now) <= WindowEnd(LastMaintained(init).value)
      && forall o :: o in Since(init) ==> o.observedAt >= WindowStart(now)
  }

  /** Retention reaches back to the start of the window. */
  predicate Reaches(retention: int, now: int) { retention >= HOURS * HOUR + now % HOUR }

  ghost predicate Timely(acts: seq<Act>, s: Setup) {
    && Steady(acts)
    && forall i :: 0 <= i < |acts| && acts[i].Maintenance? ==> Reaches(s.retention, acts[i].now)
  }

  // ---------- samples ----------

  lemma {:induction false} SamplesConcat(a: seq<ObservationRow>, b: seq<ObservationRow>, p: Protocol, bucketAt: int)
    ensures Samples(a + b, p, bucketAt) == Samples(a, p, bucketAt) + Samples(b, p, bucketAt)
  {
    if b == [] {
      assert a + b == a;
    } else {
      SamplesConcat(a, b[..|b| - 1], p, bucketAt);
      assert (a + b)[..|a + b| - 1] == a + b[..|b| - 1];
    }
  }

  lemma {:induction false} SamplesSwept(rows: seq<ObservationRow>, horizon: int, p: Protocol, bucketAt: int)
    requires horizon <= bucketAt
    ensures Samples(Filter(rows, NotBefore(horizon)), p, bucketAt) == Samples(rows, p, bucketAt)
  {
    if rows != [] {
      var init, last := rows[..|rows| - 1], rows[|rows| - 1];
      SamplesSwept(init, horizon, p, bucketAt);
      var kept := Filter(init, NotBefore(horizon));
      assert (kept + [last])[..|kept|] == kept;
    }
  }

  lemma {:induction false} SamplesNewer(rows: seq<ObservationRow>, now: int, p: Protocol, bucketAt: int)
    requires forall o :: o in rows ==> o.observedAt >= WindowStart(now)
    requires bucketAt < WindowStart(now)
    ensures Samples(rows, p, bucketAt) == []
  {
    if rows != [] {
      var last := rows[|rows| - 1];
      SamplesNewer(rows[..|rows| - 1], now, p, bucketAt);
      assert last in rows;
      HourNotBefore(last.observedAt, now);
    }
  }

  lemma {:induction false} HourNotBefore(at: int, now: int)
    requires at >= WindowStart(now)
    ensures HourOf(at) >= WindowStart(now)
  {
  }

  lemma {:induction false} EverIsSettledAndSince(acts: seq<Act>)
    ensures Ever(acts) == Settled(acts) + Since(acts)
  {
    if acts != [] && acts[|acts| - 1].Observe? {
      EverIsSettledAndSince(acts[..|acts| - 1]);
    }
  }

  // ---------- the invariant ----------

  /** No sample of an hour still within retention is missing from the table. */
  ghost predicate SamplesComplete(books: Books, acts: seq<Act>, s: Setup) {
    forall p: Protocol, b: int ::
      (LastMaintained(acts).Some? ==> b >= LastMaintained(acts).value - s.retention) ==>
        Samples(books.rows, p, b) == Samples(Ever(acts), p, b)
  }

  /** The hours from the first window to the last maintenance whose aggregates have not expired. */
  ghost predicate Covered(acts: seq<Act>, s: Setup, b: int) {
    && LastMaintained(acts).Some? && CoveredFrom(acts).Some?
    && CoveredFrom(acts).value <= b < WindowEnd(LastMaintained(acts).value)
    && b >= LastMaintained(acts).value - s.aggregatesKept
  }

  /** The row of every covered hour is right about everything ever stored by the last maintenance. */
  ghost predicate AggregatesRight(books: Books, acts: seq<Act>, s: Setup) {
    forall i, key: HourKey :: 0 <= i < |s.protocols| && Owns(s.protocols[i], key) && Covered(acts, s, key.bucketAt) ==>
      HourRight(Lookup(books.hourly, key), Settled(acts), s.protocols[i], key.bucketAt, s.interval)
  }

  ghost predicate MatchesScratch(books: Books, acts: seq<Act>, s: Setup) {
    forall i, key: HourKey :: 0 <= i < |s.protocols| && Owns(s.protocols[i], key) && Covered(acts, s, key.bucketAt) ==>
      Lookup(books.hourly, key) == FromScratch(Settled(acts), s.protocols[i], key.bucketAt, s.interval)
  }

  lemma {:induction false} RightExactly(books: Books, acts: seq<Act>, s: Setup)
    ensures AggregatesRight(books, acts, s) <==> MatchesScratch(books, acts, s)
  {
    forall i, key: HourKey | 0 <= i < |s.protocols|
      ensures HourRight(Lookup(books.hourly, key), Settled(acts), s.protocols[i], key.bucketAt, s.interval)
         <==> Lookup(books.hourly, key) == FromScratch(Settled(acts), s.protocols[i], key.bucketAt, s.interval)
    {
      ScratchExactly(Lookup(books.hourly, key), Settled(acts), s.protocols[i], key.bucketAt, s.interval);
    }
  }

  lemma {:induction false} CoverageStarts(acts: seq<Act>)
    ensures CoveredFrom(acts).Some? <==> LastMaintained(acts).Some?
  {
    if acts != [] {
      CoverageStarts(acts[..|acts| - 1]);
    }
  }

  lemma {:induction false} CompleteStep(before: Books, after: Books, init: seq<Act>, act: Act, s: Setup)
    requires Steps(before, act, after, s) && Steady(init + [act])
    requires SamplesComplete(before, init, s)
    ensures SamplesComplete(after, init + [act], s)
  {
    var acts := init + [act];
    assert acts[..|acts| - 1] == init;
    forall p: Protocol, b: int | LastMaintained(acts).Some? ==> b >= LastMaintained(acts).value - s.retention
      ensures Samples(after.rows, p, b) == Samples(Ever(acts), p, b)
    {
      if act.Observe? {
        SamplesConcat(before.rows, [act.row], p, b);
        SamplesConcat(Ever(init), [act.row], p, b);
      } else {
        SamplesSwept(before.rows, act.now - s.retention, p, b);
      }
    }
  }

  lemma {:induction false} CoveredBefore(init: seq<Act>, now: int, s: Setup, b: int)
    requires Steady(init + [Maintenance(now)])
    requires Covered(init + [Maintenance(now)], s, b) && b < WindowStart(now)
    ensures Covered(init, s, b)
  {
    var acts := init + [Maintenance(now)];
    assert acts[..|acts| - 1] == init;
    CoverageStarts(init);
  }

  lemma {:induction false} SinceIsInWindow(init: seq<Act>, now: int)
    requires Steady(init + [Maintenance(now)]) && LastMaintained(init).Some?
    ensures forall o :: o in Since(init) ==> o.observedAt >= WindowStart(now)
  {
    assert (init + [Maintenance(now)])[..|init|] == init;
  }

  /** What was stored since the last maintenance lies in the window, so an hour before it is as it was. */
  lemma {:induction false} OldHourUnchanged(init: seq<Act>, now: int, p: Protocol, b: int)
    requires forall o :: o in Since(init) ==> o.observedAt >= WindowStart(now)
    requires b < WindowStart(now)
    ensures Samples(Ever(init), p, b) == Samples(Settled(init), p, b)
  {
    EverIsSettledAndSince(init);
    SamplesConcat(Settled(init), Since(init), p, b);
    SamplesNewer(Since(init), now, p, b);
  }

  /** An hour before the window is left alone by the rebuild, and has not expired. */
  lemma {:induction false} OldHourKept(before: Books, after: Books, now: int, s: Setup, key: HourKey)
    requires Steps(before, Maintenance(now), after, s)
    requires now - s.aggregatesKept <= key.bucketAt < WindowStart(now)
    ensures Lookup(after.hourly, key) == Lookup(before.hourly, key)
  {
  }

  /** What has expired is gone, unless the rebuild puts it back. */
  lemma {:induction false} ExpiredAreGone(before: Books, after: Books, now: int, s: Setup, key: HourKey)
    requires Steps(before, Maintenance(now), after, s)
    requires key.bucketAt < now - s.aggregatesKept && key.bucketAt < now - now % 3_600_000_000 - 25 * 3_600_000_000
    ensures key !in after.hourly
  {
    assert !InWindow(key.bucketAt, now);
    assert Lookup(after.hourly, key) == Lookup(Kept(before.hourly, now - s.aggregatesKept), key);
  }

  lemma {:induction false} AggregatesStep(before: Books, after: Books, init: seq<Act>, act: Act, s: Setup)
    requires Steps(before, act, after, s) && Steady(init + [act])
    requires act.Maintenance? ==> Reaches(s.retention, act.now)
    requires SamplesComplete(before, init, s) && MatchesScratch(before, init, s)
    ensures MatchesScratch(after, init + [act], s)
  {
    var acts := init + [act];
    assert acts[..|acts| - 1] == init;
    if act.Maintenance? {
      CompleteStep(before, after, init, act, s);
      forall i, key: HourKey | 0 <= i < |s.protocols| && Owns(s.protocols[i], key) && Covered(acts, s, key.bucketAt)
        ensures Lookup(after.hourly, key) == FromScratch(Ever(init), s.protocols[i], key.bucketAt, s.interval)
      {
        if key.bucketAt < WindowStart(act.now) {
          CoveredBefore(init, act.now, s, key.bucketAt);
          SinceIsInWindow(init, act.now);
          OldHourUnchanged(init, act.now, s.protocols[i], key.bucketAt);
          OldHourKept(before, after, act.now, s, key);
        } else {
          assert InWindow(key.bucketAt, act.now);
          assert Samples(after.rows, s.protocols[i], key.bucketAt) == Samples(Ever(acts), s.protocols[i], key.bucketAt);
        }
      }
    }
  }

  lemma {:induction false} TracePrefix(acts: seq<Act>, states: seq<Books>, s: Setup)
    requires Trace(acts, states, s) && Steady(acts) && acts != []
    ensures var n := |acts| - 1;
      && Trace(acts[..n], states[..n + 1], s) && Steady(acts[..n])
      && acts == acts[..n] + [acts[n]] && Steps(states[n], acts[n], states[n + 1], s)
  {
    var n := |acts| - 1;
    assert forall i :: 0 <= i < n ==> Steps(states[i], acts[i], states[i + 1], s);
  }

  /** Whatever the retention, the samples of an hour it reaches back to are all there. */
  lemma {:induction false} SteadyComplete(acts: seq<Act>, states: seq<Books>, s: Setup)
    requires Trace(acts, states, s) && Steady(acts)
    ensures SamplesComplete(states[|acts|], acts, s)
  {
    if acts != [] {
      var n := |acts| - 1;
      TracePrefix(acts, states, s);
      SteadyComplete(acts[..n], states[..n + 1], s);
      CompleteStep(states[n], states[n + 1], acts[..n], acts[n], s);
    }
  }

  lemma {:induction false} MaintainedMatchesScratch(acts: seq<Act>, states: seq<Books>, s: Setup)
    requires Trace(acts, states, s) && Timely(acts, s)
    ensures MatchesScratch(states[|acts|], acts, s)
  {
    if acts != [] {
      var n := |acts| - 1;
      TracePrefix(acts, states, s);
      MaintainedMatchesScratch(acts[..n], states[..n + 1], s);
      SteadyComplete(acts[..n], states[..n + 1], s);
      AggregatesStep(states[n], states[n + 1], acts[..n], acts[n], s);
    }
  }

  /** In every timely run, after each maintenance the rows of all covered hours are right about everything ever
      stored: least and greatest count, number, average and unknown time. */
  lemma {:induction false} MaintainedEqualsRecomputed(acts: seq<Act>, states: seq<Books>, s: Setup)
    requires Trace(acts, states, s) && Timely(acts, s)
    ensures AggregatesRight(states[|acts|], acts, s)
  {
    MaintainedMatchesScratch(acts, states, s);
    RightExactly(states[|acts|], acts, s);
  }

  // ---------- repetition and retention ----------

  lemma {:induction false} SameLookups(a: Hourly, b: Hourly)
    requires forall key: HourKey :: Lookup(a, key) == Lookup(b, key)
    ensures a == b
  {
    forall key: HourKey ensures (key in a <==> key in b) && (key in a ==> a[key] == b[key]) {
      assert Lookup(a, key) == Lookup(b, key);
    }
  }

  /** Rebuilding a window twice gives what rebuilding it once gives. */
  lemma {:induction false} RebuildIsIdempotent(start: Hourly, once: Hourly, twice: Hourly, rows: seq<ObservationRow>,
                                               s: Setup, now: int)
    requires Rebuilt(start, once, rows, s.protocols, |s.protocols|, now, s.interval)
    requires Rebuilt(once, twice, rows, s.protocols, |s.protocols|, now, s.interval)
    ensures once == twice
  {
    forall key: HourKey ensures Lookup(once, key) == Lookup(twice, key) {
      if i :| 0 <= i < |s.protocols| && Owns(s.protocols[i], key) && InWindow(key.bucketAt, now) {
        assert Lookup(once, key) == FromScratch(rows, s.protocols[i], key.bucketAt, s.interval) == Lookup(twice, key);
      }
    }
    SameLookups(once, twice);
  }

  // ---------- a retention shorter than the window ----------

  function CollectorRow(p: Protocol, at: int): ObservationRow {
    ObservationRow(p.serverId, "collector", at, at, Some(Success), at, false, None, None, None, map[p.kind := 1.0],
        None)
  }

  lemma {:induction false} SampleOf(p: Protocol, at: int, b: int)
    ensures Samples([CollectorRow(p, at)], p, b) == if HourOf(at) == b then [1.0] else []
  {
    assert [CollectorRow(p, at)][..0] == [];
  }

  lemma {:induction false} RowSwept(p: Protocol, at: int, horizon: int)
    ensures Filter([CollectorRow(p, at)], NotBefore(horizon)) == if at >= horizon then [CollectorRow(p, at)] else []
  {
    assert [CollectorRow(p, at)][..0] == [];
  }

  lemma {:induction false} HourStarts(now: int)
    ensures HourOf(WindowStart(now)) == WindowStart(now) && HourOf(WindowStart(now) + HOUR) == WindowStart(now) + HOUR
    ensures now - (HOURS * HOUR + now % HOUR) == WindowStart(now)
  {
    assert WindowStart(now) == (now / HOUR - HOURS) * HOUR;
    assert WindowStart(now) + HOUR == (now / HOUR - HOURS + 1) * HOUR;
  }

  /** The table with one row of one sample, as every rebuild leaves it that sees just that sample. */
  function OneHour(p: Protocol, at: int, interval: int): Hourly {
    map[KeyFor(p, at) := Summary([1.0], interval)]
  }

  lemma {:induction false} RebuiltOne(before: Hourly, after: Hourly, rows: seq<ObservationRow>, p: Protocol,
                                      now: int, interval: int)
    requires Replaced(before, after, rows, p, now, interval)
    ensures Rebuilt(before, after, rows, [p], 1, now, interval)
  {
    RebuildsOneMore(before, before, after, rows, [p], 0, now, interval);
  }

  lemma {:induction false} RebuiltWithSample(p: Protocol, at: int, now: int, interval: int)
    requires HourOf(at) == at && InWindow(at, now)
    ensures Rebuilt(map[], OneHour(p, at, interval), [CollectorRow(p, at)], [p], 1, now, interval)
  {
    forall key: HourKey | Owns(p, key) && InWindow(key.bucketAt, now)
      ensures Lookup(OneHour(p, at, interval), key) == FromScratch([CollectorRow(p, at)], p, key.bucketAt, interval)
    {
      SampleOf(p, at, key.bucketAt);
    }
    RebuiltOne(map[], OneHour(p, at, interval), [CollectorRow(p, at)], p, now, interval);
  }

  lemma {:induction false} RebuiltWithout(p: Protocol, at: int, now: int, interval: int)
    requires InWindow(at, now)
    ensures Rebuilt(OneHour(p, at, interval), map[], [], [p], 1, now, interval)
  {
    RebuiltOne(OneHour(p, at, interval), map[], [], p, now, interval);
  }

  /** What one more act does to the summaries of a run. */
  lemma {:induction false} OneMoreAct(init: seq<Act>, act: Act)
    ensures var acts := init + [act];
      && (Steady(acts) <==> Steady(init) && (act.Maintenance? ==> SteadyAt(init, act.now)))
      && LastMaintained(acts) == (if act.Maintenance? then Some(act.now) else LastMaintained(init))
      && CoveredFrom(acts)
          == (if CoveredFrom(init).Some? || act.Observe? then CoveredFrom(init) else Some(WindowStart(act.now)))
      && Ever(acts) == (if act.Observe? then Ever(init) + [act.row] else Ever(init))
      && Settled(acts) == (if act.Maintenance? then Ever(init) else Settled(init))
      && Since(acts) == (if act.Maintenance? then [] else Since(init) + [act.row])
  {
    var acts := init + [act];
    assert acts[..|acts| - 1] == init;
  }

  /** A retention that reaches back an hour but not to the window's start erases a row that was right: the
      hour is summarised by a first maintenance, its sample is swept, and the next one deletes the row. */
  lemma {:induction false} ShortRetentionErases(p: Protocol, interval: int, retention: int, kept: int, now: int)
    returns (acts: seq<Act>, states: seq<Books>)
    requires HOUR <= retention && !Reaches(retention, now) && kept >= (HOURS + 1) * HOUR
    ensures var s := Setup([p], interval, retention, kept);
      && Trace(acts, states, s) && Steady(acts) && |acts| == 3 && acts[2] == Maintenance(now)
      && Lookup(states[2].hourly, KeyFor(p, WindowStart(now))) == Some(Summary([1.0], interval))
      && Lookup(states[3].hourly, KeyFor(p, WindowStart(now))) == None
  {
    var at := WindowStart(now);
    var row, table := CollectorRow(p, at), OneHour(p, at, interval);
    HourStarts(now);
    acts := [Observe(row), Maintenance(at + HOUR), Maintenance(now)];
    states := [Books([], map[]), Books([row], map[]), Books([row], table), Books([], map[])];
    FirstMaintenance(p, at, interval, retention, kept);
    SecondMaintenance(p, interval, retention, kept, now);
    ThreeSteps(row, at + HOUR, now, table, Setup([p], interval, retention, kept));
    ThreeActsSteady(row, at + HOUR, now);
  }

  lemma {:induction false} ThreeSteps(row: ObservationRow, first: int, now: int, table: Hourly, s: Setup)
    requires Steps(Books([row], map[]), Maintenance(first), Books([row], table), s)
    requires Steps(Books([row], table), Maintenance(now), Books([], map[]), s)
    ensures Trace([Observe(row), Maintenance(first), Maintenance(now)],
                  [Books([], map[]), Books([row], map[]), Books([row], table), Books([], map[])], s)
  {
    assert [] + [row] == [row];
  }

  lemma {:induction false} KeptNothing(horizon: int)
    ensures Kept(map[], horizon) == map[]
  {
  }

  lemma {:induction false} LastHourIsIn(at: int)
    requires HourOf(at + HOUR) == at + HOUR
    ensures InWindow(at, at + HOUR)
  {
  }

  lemma {:induction false} FirstMaintenance(p: Protocol, at: int, interval: int, retention: int, kept: int)
    requires HourOf(at) == at && HourOf(at + HOUR) == at + HOUR && HOUR <= retention
    ensures Steps(Books([CollectorRow(p, at)], map[]), Maintenance(at + HOUR),
                  Books([CollectorRow(p, at)], OneHour(p, at, interval)), Setup([p], interval, retention, kept))
  {
    RowSwept(p, at, at + HOUR - retention);
    LastHourIsIn(at);
    RebuiltWithSample(p, at, at + HOUR, interval);
    KeptNothing(at + HOUR - kept);
  }

  lemma {:induction false} SecondMaintenance(p: Protocol, interval: int, retention: int, kept: int, now: int)
    requires !Reaches(retention, now) && kept >= (HOURS + 1) * HOUR
    ensures Steps(Books([CollectorRow(p, WindowStart(now))], OneHour(p, WindowStart(now), interval)), Maintenance(now),
                  Books([], map[]), Setup([p], interval, retention, kept))
  {
    var at := WindowStart(now);
    HourStarts(now);
    RowSwept(p, at, now - retention);
    RebuiltWithout(p, at, now, interval);
    assert Kept(OneHour(p, at, interval), now - kept) == OneHour(p, at, interval);
  }

  lemma {:induction false} ThreeActsSteady(row: ObservationRow, first: int, now: int)
    requires first <= now && WindowStart(now) <= WindowEnd(first)
    ensures Steady([Observe(row), Maintenance(first), Maintenance(now)])
  {
    TwoActs(row, first);
    OneMoreAct([Observe(row), Maintenance(first)], Maintenance(now));
    OneMoreAct([Observe(row)], Maintenance(first));
    assert [Observe(row), Maintenance(first)] + [Maintenance(now)]
        == [Observe(row), Maintenance(first), Maintenance(now)];
    assert [Observe(row)] + [Maintenance(first)] == [Observe(row), Maintenance(first)];
  }

  /** Runs that a maintenance at `now` ends, in which the table was right until then. */
  ghost predicate RightUntil(acts: seq<Act>, states: seq<Books>, s: Setup, now: int) {
    && Trace(acts, states, s) && Steady(acts)
    && acts != [] && acts[|acts| - 1] == Maintenance(now)
    && AggregatesRight(states[|acts| - 1], acts[..|acts| - 1], s)
  }

  lemma {:induction false} ReachingKeepsRight(acts: seq<Act>, states: seq<Books>, s: Setup, now: int)
    requires RightUntil(acts, states, s, now) && Reaches(s.retention, now)
    ensures AggregatesRight(states[|acts|], acts, s)
  {
    var n := |acts| - 1;
    TracePrefix(acts, states, s);
    SteadyComplete(acts[..n], states[..n + 1], s);
    RightExactly(states[n], acts[..n], s);
    AggregatesStep(states[n], states[n + 1], acts[..n], acts[n], s);
    RightExactly(states[|acts|], acts, s);
  }

  lemma {:induction false} NothingRebuilt(protocols: seq<Protocol>, now: int, interval: int)
    ensures Rebuilt(map[], map[], [], protocols, |protocols|, now, interval)
  {
  }

  /** Otherwise one observation stored at the window's start is swept before it is ever summarised. */
  lemma {:induction false} ShortRetentionMisses(s: Setup, now: int) returns (acts: seq<Act>, states: seq<Books>)
    requires s.protocols != [] && s.aggregatesKept >= (HOURS + 1) * HOUR && !Reaches(s.retention, now)
    ensures RightUntil(acts, states, s, now) && !AggregatesRight(states[|acts|], acts, s)
  {
    var p, at := s.protocols[0], WindowStart(now);
    var row := CollectorRow(p, at);
    HourStarts(now);
    acts := [Observe(row), Maintenance(now)];
    states := [Books([], map[]), Books([row], map[]), Books([], map[])];
    SweptUnseen(s, row, now);
    assert [] + [row] == [row];
    TwoActs(row, now);
    SampleOf(p, at, at);
    StartIsIn(now);
    assert Covered(acts, s, at);
    var key := KeyFor(p, at);
    assert Owns(p, key) && Lookup(states[2].hourly, key) != FromScratch(Settled(acts), p, key.bucketAt, s.interval);
    RightExactly(states[2], acts, s);
  }

  lemma {:induction false} StartIsIn(now: int)
    ensures WindowStart(now) < WindowEnd(now)
  {
  }

  lemma {:induction false} SweptUnseen(s: Setup, row: ObservationRow, now: int)
    requires row.observedAt < now - s.retention
    ensures Steps(Books([row], map[]), Maintenance(now), Books([], map[]), s)
  {
    assert [row][..0] == [];
    NothingRebuilt(s.protocols, now, s.interval);
    KeptNothing(now - s.aggregatesKept);
  }

  lemma {:induction false} TwoActs(row: ObservationRow, now: int)
    ensures var acts := [Observe(row), Maintenance(now)];
      && Steady(acts) && acts[..1] == [Observe(row)] && LastMaintained(acts[..1]) == None
      && LastMaintained(acts) == Some(now) && CoveredFrom(acts) == Some(WindowStart(now)) && Settled(acts) == [row]
  {
    OneMoreAct([], Observe(row));
    OneMoreAct([Observe(row)], Maintenance(now));
    assert [] + [Observe(row)] == [Observe(row)] && [] + [row] == [row];
    assert [Observe(row)] + [Maintenance(now)] == [Observe(row), Maintenance(now)];
  }

  /** A maintenance keeps the table right, in every steady run in which it was right before, if and only if
      retention reaches back to the window's start: 25 hours plus the minutes of the current one. */
  lemma {:induction false} RetentionSufficesExactly(s: Setup, now: int)
    requires s.protocols != [] && s.aggregatesKept >= (HOURS + 1) * HOUR
    ensures (forall acts, states :: RightUntil(acts, states, s, now) ==> AggregatesRight(states[|acts|], acts, s))
       <==> s.retention >= 25 * 3_600_000_000 + now % 3_600_000_000
  {
    if Reaches(s.retention, now) {
      forall acts, states | RightUntil(acts, states, s, now) ensures AggregatesRight(states[|acts|], acts, s) {
        ReachingKeepsRight(acts, states, s, now);
      }
    } else {
      var acts, states := ShortRetentionMisses(s, now);
      assert RightUntil(acts, states, s, now);
    }
  }
}
