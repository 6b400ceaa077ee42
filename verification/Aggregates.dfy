/** The hourly connection aggregate, rebuilt by every maintenance over the last 25 complete hours. */
module Aggregates {
  import opened Domain
  import opened Sequences
  import opened Evidence

  const HOURS := 25

  datatype Protocol = Protocol(id: string, serverId: string, kind: string)
  datatype HourKey = HourKey(bucketAt: int, serverId: string, protocolId: string)
  datatype HourRow = HourRow(min: real, max: real, average: real, samples: nat, unknownSeconds: int)

  type Hourly = map<HourKey, HourRow>

  function HourOf(at: int): int { at - at % HOUR }

  function WindowEnd(now: int): int { HourOf(now) }
  function WindowStart(now: int): int { HourOf(now) - HOURS * HOUR }

  predicate InWindow(at: int, now: int) { WindowStart(now) <= at < WindowEnd(now) }

  function KeyFor(p: Protocol, bucketAt: int): HourKey { HourKey(bucketAt, p.serverId, p.id) }

  predicate Counts(o: ObservationRow, p: Protocol) {
    o.serverId == p.serverId && o.source == "collector" && p.kind in o.connections
  }

  /** The connection counts a protocol reported in one hour, in stored order. */
  function Samples(rows: seq<ObservationRow>, p: Protocol, bucketAt: int): seq<real> {
    if rows == [] then []
    else
      var rest, last := Samples(rows[..|rows| - 1], p, bucketAt), rows[|rows| - 1];
      if Counts(last, p) && HourOf(last.observedAt) == bucketAt then rest + [last.connections[p.kind]] else rest
  }

  function Least(values: seq<real>): (m: real)
    requires values != []
    ensures m in values && forall v :: v in values ==> m <= v
  {
    var last := values[|values| - 1];
    assert values == values[..|values| - 1] + [last];
    if |values| == 1 then last
    else
      var rest := Least(values[..|values| - 1]);
      if last < rest then last else rest
  }

  function Greatest(values: seq<real>): (m: real)
    requires values != []
    ensures m in values && forall v :: v in values ==> v <= m
  {
    var last := values[|values| - 1];
    assert values == values[..|values| - 1] + [last];
    if |values| == 1 then last
    else
      var rest := Greatest(values[..|values| - 1]);
      if last > rest then last else rest
  }

  function RowFrom(least: real, greatest: real, sum: real, n: nat, interval: int): HourRow
    requires n > 0
  {
    var unknown := 3600 - n * interval;
    HourRow(least, greatest, sum / n as real, n, if unknown > 0 then unknown else 0)
  }

  function Summary(values: seq<real>, interval: int): HourRow
    requires values != []
  {
    RowFrom(Least(values), Greatest(values), Total(values), |values|, interval)
  }

  /** The row of an hour computed from scratch, if there is anything to summarise. */
  function FromScratch(rows: seq<ObservationRow>, p: Protocol, bucketAt: int, interval: int): Option<HourRow> {
    var values := Samples(rows, p, bucketAt);
    if values == [] then None else Some(Summary(values, interval))
  }

  // ---------- an hour without any of that ----------

  /** The row carries a count of the protocol's kind, taken in the hour that begins at `hour`. */
  predicate Carries(o: ObservationRow, p: Protocol, hour: int) {
    && o.source == "collector" && o.serverId == p.serverId && p.kind in o.connections
    && hour % HOUR == 0 && hour <= o.observedAt < hour + HOUR
  }

  function Carriers(rows: seq<ObservationRow>, p: Protocol, hour: int): set<nat> {
    set i: nat | i < |rows| && Carries(rows[i], p, hour)
  }

  function SumOf(rows: seq<ObservationRow>, p: Protocol, hour: int): real {
    if rows == [] then 0.0
    else
      var rest, last := SumOf(rows[..|rows| - 1], p, hour), rows[|rows| - 1];
      if Carries(last, p, hour) then rest + last.connections[p.kind] else rest
  }

  /** Some count taken in the hour is `v`. */
  ghost predicate Counted(rows: seq<ObservationRow>, p: Protocol, hour: int, v: real) {
    exists i :: i in Carriers(rows, p, hour) && rows[i].connections[p.kind] == v
  }

  ghost predicate Bounded(rows: seq<ObservationRow>, p: Protocol, hour: int, min: real, max: real) {
    forall i :: i in Carriers(rows, p, hour) ==> min <= rows[i].connections[p.kind] <= max
  }

  /** The row says how many counts there are, its average times their number is their sum, and what their intervals
      leave of the hour is unknown. */
  predicate Adds(r: HourRow, n: nat, sum: real, interval: int) {
    && r.samples == n && r.average * n as real == sum
    && r.unknownSeconds == if n * interval < 3600 then 3600 - n * interval else 0
  }

  /** There is a row exactly when a count was taken; its least and greatest are counts that bound all of them, and
      its number, average and unknown time are theirs. */
  ghost predicate HourRight(row: Option<HourRow>, rows: seq<ObservationRow>, p: Protocol, hour: int, interval: int) {
    var carriers := Carriers(rows, p, hour);
    && (row.None? <==> carriers == {})
    && (row.Some? ==>
          var r := row.value;
          && Counted(rows, p, hour, r.min) && Counted(rows, p, hour, r.max)
          && Bounded(rows, p, hour, r.min, r.max)
          && Adds(r, |carriers|, SumOf(rows, p, hour), interval))
  }

  lemma {:induction false} HourExactly(at: int, hour: int)
    ensures HourOf(at) == hour <==> hour % HOUR == 0 && hour <= at < hour + HOUR
  {
  }

  lemma {:induction false} CarriersSnoc(init: seq<ObservationRow>, last: ObservationRow, p: Protocol, hour: int)
    ensures Carriers(init + [last], p, hour)
         == Carriers(init, p, hour) + if Carries(last, p, hour) then {|init|} else {}
    ensures |init| !in Carriers(init, p, hour)
  {
  }

  /** The samples of an hour are the counts taken in it. */
  lemma {:induction false} SamplesCounted(rows: seq<ObservationRow>, p: Protocol, hour: int)
    ensures |Samples(rows, p, hour)| == |Carriers(rows, p, hour)|
    ensures Total(Samples(rows, p, hour)) == SumOf(rows, p, hour)
  {
    if rows != [] {
      var init, last := rows[..|rows| - 1], rows[|rows| - 1];
      assert rows == init + [last];
      SamplesCounted(init, p, hour);
      CarriersSnoc(init, last, p, hour);
      SamplesSnoc(init, last, p, hour);
    }
  }

  lemma {:induction false} CarriedIsSample(rows: seq<ObservationRow>, p: Protocol, hour: int, i: nat)
    requires i in Carriers(rows, p, hour)
    ensures rows[i].connections[p.kind] in Samples(rows, p, hour)
  {
    var init, last := rows[..|rows| - 1], rows[|rows| - 1];
    assert rows == init + [last];
    SamplesSnoc(init, last, p, hour);
    if i < |init| {
      CarriedIsSample(init, p, hour, i);
    }
  }

  lemma {:induction false} SampleIsCarried(rows: seq<ObservationRow>, p: Protocol, hour: int, v: real) returns (i: nat)
    requires v in Samples(rows, p, hour)
    ensures i in Carriers(rows, p, hour) && rows[i].connections[p.kind] == v
  {
    var init, last := rows[..|rows| - 1], rows[|rows| - 1];
    assert rows == init + [last];
    SamplesSnoc(init, last, p, hour);
    if v in Samples(init, p, hour) {
      i := SampleIsCarried(init, p, hour, v);
    } else {
      i := |init|;
    }
  }

  lemma {:induction false} SamplesSnoc(init: seq<ObservationRow>, last: ObservationRow, p: Protocol, hour: int)
    ensures Samples(init + [last], p, hour)
         == Samples(init, p, hour) + if Carries(last, p, hour) then [last.connections[p.kind]] else []
    ensures Total(Samples(init + [last], p, hour))
         == Total(Samples(init, p, hour)) + if Carries(last, p, hour) then last.connections[p.kind] else 0.0
  {
    HourExactly(last.observedAt, hour);
    assert (init + [last])[..|init|] == init;
  }

  lemma {:induction false} MeanExactly(sum: real, n: nat, mean: real)
    requires n > 0
    ensures mean * n as real == sum <==> mean == sum / n as real
  {
  }

  ghost predicate Within(values: seq<real>, min: real, max: real) { forall v :: v in values ==> min <= v <= max }

  lemma {:induction false} ExtremesExactly(values: seq<real>, min: real, max: real)
    requires values != []
    ensures min == Least(values) && max == Greatest(values) <==>
      min in values && max in values && Within(values, min, max)
  {
    assert Least(values) in values && Greatest(values) in values;
  }

  /** The row says what there is to say about the values. */
  ghost predicate Describes(r: HourRow, values: seq<real>, interval: int) {
    r.min in values && r.max in values && Within(values, r.min, r.max) && Adds(r, |values|, Total(values), interval)
  }

  lemma {:induction false} RowIs(r: HourRow, least: real, greatest: real, sum: real, n: nat, interval: int)
    requires n > 0
    ensures r == RowFrom(least, greatest, sum, n, interval) <==>
      r.min == least && r.max == greatest && Adds(r, n, sum, interval)
  {
    MeanExactly(sum, n, r.average);
  }

  lemma {:induction false} SummaryExactly(r: HourRow, values: seq<real>, interval: int)
    requires values != []
    ensures r == Summary(values, interval) <==> Describes(r, values, interval)
  {
    ExtremesExactly(values, r.min, r.max);
    RowIs(r, Least(values), Greatest(values), Total(values), |values|, interval);
  }

  lemma {:induction false} SamplesCarried(rows: seq<ObservationRow>, p: Protocol, hour: int, v: real)
    ensures v in Samples(rows, p, hour) <==> Counted(rows, p, hour, v)
  {
    if v in Samples(rows, p, hour) {
      var i := SampleIsCarried(rows, p, hour, v);
    }
    if Counted(rows, p, hour, v) {
      var i :| i in Carriers(rows, p, hour) && rows[i].connections[p.kind] == v;
      CarriedIsSample(rows, p, hour, i);
    }
  }

  lemma {:induction false} BoundsCarried(rows: seq<ObservationRow>, p: Protocol, hour: int, min: real, max: real)
    ensures Within(Samples(rows, p, hour), min, max) <==> Bounded(rows, p, hour, min, max)
  {
    if Bounded(rows, p, hour, min, max) {
      forall v | v in Samples(rows, p, hour) ensures min <= v <= max {
        var i := SampleIsCarried(rows, p, hour, v);
      }
    }
    if Within(Samples(rows, p, hour), min, max) {
      forall i | i in Carriers(rows, p, hour) ensures min <= rows[i].connections[p.kind] <= max {
        CarriedIsSample(rows, p, hour, i);
        var v := rows[i].connections[p.kind];
        assert v in Samples(rows, p, hour);
      }
    }
  }

  lemma {:induction false} DescribesCarried(r: HourRow, rows: seq<ObservationRow>, p: Protocol, hour: int,
                                            interval: int)
    ensures Describes(r, Samples(rows, p, hour), interval) && Samples(rows, p, hour) != []
       <==> HourRight(Some(r), rows, p, hour, interval)
  {
    SamplesCounted(rows, p, hour);
    SamplesCarried(rows, p, hour, r.min);
    SamplesCarried(rows, p, hour, r.max);
    BoundsCarried(rows, p, hour, r.min, r.max);
    assert Samples(rows, p, hour) == [] <==> Carriers(rows, p, hour) == {} by {
      assert |Samples(rows, p, hour)| == 0 <==> |Carriers(rows, p, hour)| == 0;
    }
  }

  /** The summary of an hour is the one row that is right about it. */
  lemma {:induction false} ScratchExactly(row: Option<HourRow>, rows: seq<ObservationRow>, p: Protocol, hour: int,
                                          interval: int)
    ensures row == FromScratch(rows, p, hour, interval) <==> HourRight(row, rows, p, hour, interval)
  {
    if row.None? {
      SamplesCounted(rows, p, hour);
      assert |Samples(rows, p, hour)| == 0 <==> |Carriers(rows, p, hour)| == 0;
    } else {
      DescribesCarried(row.value, rows, p, hour, interval);
      if Samples(rows, p, hour) != [] {
        SummaryExactly(row.value, Samples(rows, p, hour), interval);
      }
    }
  }

  function Lookup(hourly: Hourly, key: HourKey): Option<HourRow> {
    if key in hourly then Some(hourly[key]) else None
  }

  ghost predicate UniqueProtocols(protocols: seq<Protocol>) {
    forall i, j :: 0 <= i < j < |protocols| ==> protocols[i].id != protocols[j].id
  }

  predicate Owns(p: Protocol, key: HourKey) { key.serverId == p.serverId && key.protocolId == p.id }

  /** One protocol's window replaced by what its samples say; everything else as before. */
  ghost predicate Replaced(before: Hourly, after: Hourly, rows: seq<ObservationRow>, p: Protocol, now: int,
                           interval: int) {
    forall key: HourKey ::
      Lookup(after, key)
          == if Owns(p, key) && InWindow(key.bucketAt, now) then FromScratch(rows, p, key.bucketAt, interval)
          else Lookup(before, key)
  }

  /** The windows of the first `n` protocols are what their samples say; everything else is as before. */
  ghost predicate Rebuilt(before: Hourly, after: Hourly, rows: seq<ObservationRow>, protocols: seq<Protocol>, n: nat,
                          now: int, interval: int)
    requires n <= |protocols|
  {
    && (forall i, key: HourKey :: 0 <= i < n && Owns(protocols[i], key) && InWindow(key.bucketAt, now) ==>
          Lookup(after, key) == FromScratch(rows, protocols[i], key.bucketAt, interval))
    && (forall key: HourKey ::
        (forall i :: 0 <= i < n ==> !(Owns(protocols[i], key) && InWindow(key.bucketAt, now))) ==>
          Lookup(after, key) == Lookup(before, key))
  }

  /** The rows of the last 25 complete hours are right, protocol by protocol; all others are as they were. */
  ghost predicate WindowsRight(before: Hourly, after: Hourly, rows: seq<ObservationRow>, protocols: seq<Protocol>,
                               now: int, interval: int)
  {
    var end := now - now % 3_600_000_000;
    && (forall i, key: HourKey ::
        (0 <= i < |protocols| && Owns(protocols[i], key) && end - 25 * 3_600_000_000 <= key.bucketAt < end) ==>
          HourRight(Lookup(after, key), rows, protocols[i], key.bucketAt, interval))
    && (forall key: HourKey ::
        (forall i :: 0 <= i < |protocols| && Owns(protocols[i], key) ==>
           !(end - 25 * 3_600_000_000 <= key.bucketAt < end)) ==>
          Lookup(after, key) == Lookup(before, key))
  }

  lemma {:induction false} RebuiltRight(before: Hourly, after: Hourly, rows: seq<ObservationRow>,
                                        protocols: seq<Protocol>, now: int, interval: int)
    requires Rebuilt(before, after, rows, protocols, |protocols|, now, interval)
    ensures WindowsRight(before, after, rows, protocols, now, interval)
  {
    var end := now - now % 3_600_000_000;
    forall i, key: HourKey | 0 <= i < |protocols| && Owns(protocols[i], key)
      && end - 25 * 3_600_000_000 <= key.bucketAt < end
      ensures HourRight(Lookup(after, key), rows, protocols[i], key.bucketAt, interval)
    {
      ScratchExactly(Lookup(after, key), rows, protocols[i], key.bucketAt, interval);
    }
  }

  lemma {:induction false} RebuildsOneMore(before: Hourly, middle: Hourly, after: Hourly, rows: seq<ObservationRow>,
                                          protocols: seq<Protocol>, n: nat, now: int, interval: int)
    requires n < |protocols| && UniqueProtocols(protocols)
    requires Rebuilt(before, middle, rows, protocols, n, now, interval)
    requires Replaced(middle, after, rows, protocols[n], now, interval)
    ensures Rebuilt(before, after, rows, protocols, n + 1, now, interval)
  {
  }

  ghost function Elements(hours: seq<int>): set<int> { set b | b in hours }

  /** What the hours of a protocol should say. */
  function ScratchOf(rows: seq<ObservationRow>, p: Protocol, interval: int): int -> Option<HourRow> {
    (bucketAt: int) => FromScratch(rows, p, bucketAt, interval)
  }

  lemma {:induction false} SummaryIsScratch(rows: seq<ObservationRow>, p: Protocol, at: int, values: seq<real>,
                                            interval: int)
    requires values != [] && values == Samples(rows, p, at)
    ensures ScratchOf(rows, p, interval)(at) == Some(Summary(values, interval))
  {
  }

  /** Part of one protocol's window inserted: the hours in `done`. */
  ghost predicate Filled(before: Hourly, after: Hourly, wanted: int -> Option<HourRow>, p: Protocol, done: set<int>,
                         now: int) {
    forall key: HourKey ::
      Lookup(after, key)
      == if !(Owns(p, key) && InWindow(key.bucketAt, now)) then Lookup(before, key)
         else if key.bucketAt in done then wanted(key.bucketAt)
         else None
  }

  lemma {:induction false} LookupUpdated(hourly: Hourly, at: HourKey, row: HourRow, key: HourKey)
    ensures Lookup(hourly[at := row], key) == if key == at then Some(row) else Lookup(hourly, key)
  {
  }

  lemma {:induction false} FillsOneMore(before: Hourly, after: Hourly, wanted: int -> Option<HourRow>, p: Protocol,
                                        done: set<int>, at: int, row: HourRow, now: int)
    requires Filled(before, after, wanted, p, done, now)
    requires InWindow(at, now) && wanted(at) == Some(row)
    ensures Filled(before, after[KeyFor(p, at) := row], wanted, p, done + {at}, now)
  {
    forall key: HourKey
      ensures Lookup(after[KeyFor(p, at) := row], key)
           == if Owns(p, key) && key.bucketAt == at then Some(row) else Lookup(after, key)
    {
      LookupUpdated(after, KeyFor(p, at), row, key);
    }
  }

  /** The rows outside one protocol's window. */
  function Outside(hourly: Hourly, p: Protocol, now: int): Hourly {
    map key | key in hourly && !(Owns(p, key) && InWindow(key.bucketAt, now)) :: hourly[key]
  }

  lemma {:induction false} FillStarts(before: Hourly, wanted: int -> Option<HourRow>, p: Protocol, now: int)
    ensures Filled(before, Outside(before, p, now), wanted, p, {}, now)
  {
  }

  lemma {:induction false} FillEnds(before: Hourly, after: Hourly, rows: seq<ObservationRow>, p: Protocol,
                                    done: set<int>, now: int, interval: int)
    requires Filled(before, after, ScratchOf(rows, p, interval), p, done, now)
    requires forall b :: InWindow(b, now) && Samples(rows, p, b) != [] ==> b in done
    ensures Replaced(before, after, rows, p, now, interval)
  {
    forall key: HourKey | Owns(p, key) && InWindow(key.bucketAt, now)
      ensures Lookup(after, key) == FromScratch(rows, p, key.bucketAt, interval)
    {
      assert ScratchOf(rows, p, interval)(key.bucketAt) == FromScratch(rows, p, key.bucketAt, interval);
    }
  }

  // ---------- hours ----------

  lemma {:induction false} HourInWindow(at: int, now: int)
    ensures InWindow(HourOf(at), now) <==> InWindow(at, now)
  {
  }

  // ---------- the program ----------

  class Aggregator {
    var observations: seq<ObservationRow>
    var hourly: Hourly

    constructor ()
      ensures observations == [] && hourly == map[]
    {
      observations, hourly := [], map[];
    }

    /** The window's samples of one protocol, hour by hour, and the hours in order of appearance. */
    method Buckets(p: Protocol, now: int) returns (hours: seq<int>, buckets: map<int, seq<real>>)
      ensures forall b :: b in buckets <==> InWindow(b, now) && Samples(observations, p, b) != []
      ensures forall b :: b in buckets ==> buckets[b] == Samples(observations, p, b)
      ensures forall b :: b in hours <==> b in buckets
    {
      hours, buckets := [], map[];
      for i := 0 to |observations|
        invariant forall b :: b in buckets <==> InWindow(b, now) && Samples(observations[..i], p, b) != []
        invariant forall b :: b in buckets ==> buckets[b] == Samples(observations[..i], p, b)
        invariant forall b :: b in hours <==> b in buckets
      {
        var o := observations[i];
        assert observations[..i + 1][..i] == observations[..i];
        HourInWindow(o.observedAt, now);
        if Counts(o, p) && InWindow(o.observedAt, now) {
          var at := HourOf(o.observedAt);
          if at in buckets {
            buckets := buckets[at := buckets[at] + [o.connections[p.kind]]];
          } else {
            hours, buckets := hours + [at], buckets[at := [o.connections[p.kind]]];
          }
        }
      }
      assert observations[..|observations|] == observations;
    }

    method AggregateHourly(protocols: seq<Protocol>, now: int, interval: int)
      requires UniqueProtocols(protocols)
      modifies this`hourly
      ensures Rebuilt(old(hourly), hourly, observations, protocols, |protocols|, now, interval)
      ensures WindowsRight(old(hourly), hourly, observations, protocols, now, interval)
    {
      ghost var before := hourly;
      for i := 0 to |protocols|
        modifies this`hourly
        invariant Rebuilt(before, hourly, observations, protocols, i, now, interval)
      {
        ghost var middle := hourly;
        var hours, buckets := Buckets(protocols[i], now);
        ReplaceWindow(protocols[i], hours, buckets, now, interval);
        RebuildsOneMore(before, middle, hourly, observations, protocols, i, now, interval);
      }
      RebuiltRight(before, hourly, observations, protocols, now, interval);
    }

    /** Deletes the protocol's rows of the window and inserts one row for every bucket. */
    method ReplaceWindow(p: Protocol, hours: seq<int>, buckets: map<int, seq<real>>, now: int, interval: int)
      requires forall b :: b in buckets <==> InWindow(b, now) && Samples(observations, p, b) != []
      requires forall b :: b in buckets ==> buckets[b] == Samples(observations, p, b)
      requires forall b :: b in hours <==> b in buckets
      modifies this`hourly
      ensures Replaced(old(hourly), hourly, observations, p, now, interval)
    {
      ghost var before := hourly;
      hourly := Outside(hourly, p, now);
      FillStarts(before, ScratchOf(observations, p, interval), p, now);
      assert hours[..0] == [];
      for i := 0 to |hours|
        modifies this`hourly
        invariant Filled(before, hourly, ScratchOf(observations, p, interval), p, Elements(hours[..i]), now)
      {
        assert hours[i] in hours;
        SummaryIsScratch(observations, p, hours[i], buckets[hours[i]], interval);
        InsertBucket(before, p, hours[..i], hours[i], Summary(buckets[hours[i]], interval), now, interval);
        assert hours[..i + 1] == hours[..i] + [hours[i]];
      }
      assert hours[..|hours|] == hours;
      FillEnds(before, hourly, observations, p, Elements(hours), now, interval);
    }

    method InsertBucket(ghost before: Hourly, p: Protocol, ghost done: seq<int>, at: int, row: HourRow,
                        now: int, ghost interval: int)
      requires Filled(before, hourly, ScratchOf(observations, p, interval), p, Elements(done), now)
      requires InWindow(at, now) && ScratchOf(observations, p, interval)(at) == Some(row)
      modifies this`hourly
      ensures Filled(before, hourly, ScratchOf(observations, p, interval), p, Elements(done + [at]), now)
    {
      FillsOneMore(before, hourly, ScratchOf(observations, p, interval), p, Elements(done), at, row, now);
      assert Elements(done + [at]) == Elements(done) + {at};
      hourly := hourly[KeyFor(p, at) := row];
    }

    /** One maintenance: sweep old observations, drop old aggregates, rebuild the window. */
    method Maintain(protocols: seq<Protocol>, now: int, interval: int, retention: int, aggregatesKept: int)
      requires UniqueProtocols(protocols)
      modifies this
      ensures observations == Filter(old(observations), NotBefore(now - retention))
      ensures Rebuilt(Kept(old(hourly), now - aggregatesKept), hourly, observations, protocols, |protocols|, now,
          interval)
    {
      observations := Filter(observations, NotBefore(now - retention));
      hourly := map key | key in hourly && !(key.bucketAt < now - aggregatesKept) :: hourly[key];
      AggregateHourly(protocols, now, interval);
    }
  }

  function Kept(hourly: Hourly, horizon: int): Hourly {
    map key | key in hourly && !(key.bucketAt < horizon) :: hourly[key]
  }
}
