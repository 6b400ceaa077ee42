/** Reports may be delivered repeatedly and in any order: what is stored, and the evaluation of it, are the
    same. */
module EvidenceLaws {
  import opened Domain
  import opened Sequences
  import opened Evaluator
  import opened EvaluatorLaws
  import opened Streaks
  import opened VerdictLaws
  import opened Evidence

  datatype Delivery = Delivery(probe: Probe, payload: Report, at: int)

  function Receive(deliveries: seq<Delivery>, start: Tables, servers: set<string>, freshness: int): Tables {
    if deliveries == [] then start
    else
      var d := deliveries[|deliveries| - 1];
      Accepted(Receive(deliveries[..|deliveries| - 1], start, servers, freshness), d.probe, d.payload, servers, d.at,
          freshness).0
  }

  /** Deliveries with one report id carry one payload from one probe. */
  ghost predicate Consistent(deliveries: seq<Delivery>) {
    forall i, j :: 0 <= i < |deliveries| && 0 <= j < |deliveries| ==>
      (deliveries[i].payload.id == deliveries[j].payload.id ==>
         deliveries[i].payload == deliveries[j].payload && deliveries[i].probe == deliveries[j].probe)
  }

  ghost predicate Delivers(deliveries: seq<Delivery>, id: string) {
    exists i :: 0 <= i < |deliveries| && deliveries[i].payload.id == id
  }

  lemma {:induction false} DeliversSnoc(deliveries: seq<Delivery>, id: string)
    requires deliveries != []
    ensures Delivers(deliveries, id)
       <==> Delivers(deliveries[..|deliveries| - 1], id) || deliveries[|deliveries| - 1].payload.id == id
  {
  }

  lemma {:induction false} ConsistentPrefix(deliveries: seq<Delivery>)
    requires deliveries != [] && Consistent(deliveries)
    ensures Consistent(deliveries[..|deliveries| - 1])
  {
  }

  // ---------- exactly-once effect ----------

  ghost predicate Holds(t: Tables, d: Delivery) {
    d.payload.id in t.reports && t.reports[d.payload.id].payload == d.payload
        && t.reports[d.payload.id].probe == d.probe
  }

  ghost predicate AllHeld(t: Tables, deliveries: seq<Delivery>, start: Tables) {
    && (forall id :: id in t.reports <==> id in start.reports || Delivers(deliveries, id))
    && (forall i :: 0 <= i < |deliveries| ==> Holds(t, deliveries[i]))
  }

  lemma {:induction false} StillHeld(t: Tables, init: seq<Delivery>, d: Delivery, start: Tables,
                                     servers: set<string>, freshness: int)
    requires Consistent(init + [d]) && d.payload.id !in start.reports
    requires AllHeld(t, init, start)
    ensures AllHeld(Accepted(t, d.probe, d.payload, servers, d.at, freshness).0, init + [d], start)
  {
    var all := init + [d];
    var next := Accepted(t, d.probe, d.payload, servers, d.at, freshness).0;
    forall id ensures Delivers(all, id) <==> Delivers(init, id) || id == d.payload.id {
      assert all[..|all| - 1] == init;
      DeliversSnoc(all, id);
    }
    if d.payload.id in t.reports {
      assert Delivers(init, d.payload.id);
      var i :| 0 <= i < |init| && init[i].payload.id == d.payload.id;
      assert all[i] == init[i] && all[|init|] == d;
      assert Holds(t, init[i]);
    } else {
      forall i | 0 <= i < |init| ensures Holds(next, init[i]) {
        assert Holds(t, init[i]);
      }
    }
  }

  lemma {:induction false} ReportsAreDelivered(deliveries: seq<Delivery>, start: Tables, servers: set<string>,
                                               freshness: int)
    requires Consistent(deliveries)
    requires forall i :: 0 <= i < |deliveries| ==> deliveries[i].payload.id !in start.reports
    ensures AllHeld(Receive(deliveries, start, servers, freshness), deliveries, start)
  {
    if deliveries != [] {
      var init, d := deliveries[..|deliveries| - 1], deliveries[|deliveries| - 1];
      ConsistentPrefix(deliveries);
      ReportsAreDelivered(init, start, servers, freshness);
      assert deliveries == init + [d];
      StillHeld(Receive(init, start, servers, freshness), init, d, start, servers, freshness);
    }
  }

  /** Once delivered, a report changes nothing when it comes again, whoever came in between. */
  lemma {:induction false} RedeliveryChangesNothing(deliveries: seq<Delivery>, i: nat, at: int, start: Tables,
                                                    servers: set<string>, freshness: int)
    requires Consistent(deliveries) && i < |deliveries|
    requires forall k :: 0 <= k < |deliveries| ==> deliveries[k].payload.id !in start.reports
    ensures var t := Receive(deliveries, start, servers, freshness);
      Accepted(t, deliveries[i].probe, deliveries[i].payload, servers, at, freshness) == (t, Duplicate)
  {
    ReportsAreDelivered(deliveries, start, servers, freshness);
    assert Holds(Receive(deliveries, start, servers, freshness), deliveries[i]);
  }

  // ---------- order of delivery ----------

  /** A row without the moment it was received. */
  function Timeless(o: ObservationRow): ObservationRow { o.(receivedAt := 0) }

  function TimelessRows(rows: seq<ObservationRow>): seq<ObservationRow> {
    seq(|rows|, i requires 0 <= i < |rows| => Timeless(rows[i]))
  }

  lemma {:induction false} TimelessConcat(a: seq<ObservationRow>, b: seq<ObservationRow>)
    ensures TimelessRows(a + b) == TimelessRows(a) + TimelessRows(b)
  {
  }

  /** Which report a delivery order assigns to an id does not matter: it is always the same one. */
  ghost function RowsById(deliveries: seq<Delivery>, id: string, servers: set<string>,
                          freshness: int): seq<ObservationRow> {
    if deliveries == [] then []
    else
      var d := deliveries[|deliveries| - 1];
      if d.payload.id == id then RowsOf(d.probe, d.payload, servers, 0, freshness)
      else RowsById(deliveries[..|deliveries| - 1], id, servers, freshness)
  }

  lemma {:induction false} RowsByIdOf(deliveries: seq<Delivery>, i: nat, servers: set<string>, freshness: int)
    requires Consistent(deliveries) && i < |deliveries|
    ensures RowsById(deliveries, deliveries[i].payload.id, servers, freshness)
         == RowsOf(deliveries[i].probe, deliveries[i].payload, servers, 0, freshness)
    decreases |deliveries|
  {
    var n := |deliveries| - 1;
    if deliveries[n].payload.id != deliveries[i].payload.id {
      var init := deliveries[..n];
      ConsistentPrefix(deliveries);
      RowsByIdOf(init, i, servers, freshness);
    }
  }

  lemma {:induction false} RowsByIdNone(deliveries: seq<Delivery>, id: string, servers: set<string>, freshness: int)
    requires !Delivers(deliveries, id)
    ensures RowsById(deliveries, id, servers, freshness) == []
  {
    if deliveries != [] {
      var n := |deliveries| - 1;
      var init := deliveries[..n];
      DeliversSnoc(deliveries, id);
      RowsByIdNone(init, id, servers, freshness);
    }
  }

  lemma {:induction false} RowsCarryId(probe: Probe, payload: Report, servers: set<string>, now: int, freshness: int)
    ensures TimelessRows(RowsOf(probe, payload, servers, now, freshness))
        == RowsOf(probe, payload, servers, 0, freshness)
    ensures forall o :: o in RowsOf(probe, payload, servers, now, freshness) ==> o.reportId == Some(payload.id)
  {
  }

  /** How often a row is stored depends only on the report it comes from. */
  lemma {:induction false} StoredByReport(deliveries: seq<Delivery>, start: Tables, servers: set<string>,
                                          freshness: int, o: ObservationRow)
    requires Consistent(deliveries)
    requires forall i :: 0 <= i < |deliveries| ==> deliveries[i].payload.id !in start.reports
    ensures multiset(TimelessRows(Receive(deliveries, start, servers, freshness).observations))[o]
         == multiset(TimelessRows(start.observations))[o]
          + if o.reportId.Some? then multiset(RowsById(deliveries, o.reportId.value, servers, freshness))[o] else 0
  {
    if deliveries != [] {
      var n := |deliveries| - 1;
      var init, d := deliveries[..n], deliveries[n];
      ConsistentPrefix(deliveries);
      assert forall i :: 0 <= i < n ==> init[i] == deliveries[i];
      StoredByReport(init, start, servers, freshness, o);
      ReportsAreDelivered(init, start, servers, freshness);
      var before := Receive(init, start, servers, freshness);
      var rows := RowsOf(d.probe, d.payload, servers, d.at, freshness);
      RowsCarryId(d.probe, d.payload, servers, d.at, freshness);
      RowsCarryId(d.probe, d.payload, servers, 0, freshness);
      if Delivers(init, d.payload.id) {
        var i :| 0 <= i < |init| && init[i].payload.id == d.payload.id;
        assert Holds(before, init[i]);
        RowsByIdOf(init, i, servers, freshness);
        RowsByIdOf(deliveries, n, servers, freshness);
      } else {
        assert d.payload.id !in before.reports by { assert d == deliveries[n]; }
        TimelessConcat(before.observations, rows);
        RowsByIdNone(init, d.payload.id, servers, freshness);
        var mine := RowsOf(d.probe, d.payload, servers, 0, freshness);
        if o.reportId != Some(d.payload.id) {
          assert o !in mine;
        }
      }
    }
  }

  ghost predicate SameReports(a: seq<Delivery>, b: seq<Delivery>) {
    && Consistent(a + b)
    && (forall id :: Delivers(a, id) <==> Delivers(b, id))
  }

  lemma {:induction false} SameRowsById(a: seq<Delivery>, b: seq<Delivery>, id: string, servers: set<string>,
                                        freshness: int)
    requires SameReports(a, b)
    ensures RowsById(a, id, servers, freshness) == RowsById(b, id, servers, freshness)
  {
    ConsistentParts(a, b);
    if Delivers(a, id) {
      var i :| 0 <= i < |a| && a[i].payload.id == id;
      assert Delivers(b, id);
      var j :| 0 <= j < |b| && b[j].payload.id == id;
      RowsByIdOf(a, i, servers, freshness);
      RowsByIdOf(b, j, servers, freshness);
      assert (a + b)[i] == a[i] && (a + b)[|a| + j] == b[j];
    } else {
      RowsByIdNone(a, id, servers, freshness);
      RowsByIdNone(b, id, servers, freshness);
    }
  }

  lemma {:induction false} ConsistentParts(a: seq<Delivery>, b: seq<Delivery>)
    requires Consistent(a + b)
    ensures Consistent(a) && Consistent(b)
  {
    var both := a + b;
    assert forall i :: 0 <= i < |a| ==> both[i] == a[i];
    assert forall j :: 0 <= j < |b| ==> both[|a| + j] == b[j];
  }

  /** Confluence: two deliveries of the same reports, with any repetition and order, store the same
      observations up to the time of receipt. */
  lemma {:induction false} DeliveryOrderIrrelevant(a: seq<Delivery>, b: seq<Delivery>, start: Tables,
                                                   servers: set<string>, freshness: int)
    requires SameReports(a, b)
    requires forall d :: d in a || d in b ==> d.payload.id !in start.reports
    ensures multiset(TimelessRows(Receive(a, start, servers, freshness).observations))
         == multiset(TimelessRows(Receive(b, start, servers, freshness).observations))
  {
    ConsistentParts(a, b);
    var ma := multiset(TimelessRows(Receive(a, start, servers, freshness).observations));
    var mb := multiset(TimelessRows(Receive(b, start, servers, freshness).observations));
    forall o ensures ma[o] == mb[o] {
      StoredByReport(a, start, servers, freshness, o);
      StoredByReport(b, start, servers, freshness, o);
      if o.reportId.Some? {
        SameRowsById(a, b, o.reportId.value, servers, freshness);
      }
    }
  }

  // ---------- the evaluation of what was delivered ----------

  lemma {:induction false} ReadableOfTimeless(rows: seq<ObservationRow>, server: string, now: int)
    ensures TimelessRows(Filter(rows, ReadableAt(server, now))) == Filter(TimelessRows(rows), ReadableAt(server, now))
  {
    if rows != [] {
      var init := rows[..|rows| - 1];
      ReadableOfTimeless(init, server, now);
      assert TimelessRows(rows)[..|init|] == TimelessRows(init);
    }
  }

  /** What an evaluation reads, as a multiset of observations, from rows in any order. */
  ghost function ReadFrom(rows: seq<ObservationRow>): multiset<Observation>
    requires forall o :: o in rows ==> o.result.Some?
  {
    multiset(ToObservations(rows))
  }

  lemma {:induction false} ReadFromTimeless(rows: seq<ObservationRow>)
    requires forall o :: o in rows ==> o.result.Some?
    ensures forall o :: o in TimelessRows(rows) ==> o.result.Some?
    ensures ToObservations(TimelessRows(rows)) == ToObservations(rows)
  {
  }

  lemma {:induction false} ReadAround(front: seq<ObservationRow>, o: ObservationRow, back: seq<ObservationRow>)
    requires o.result.Some? && (forall p :: p in front ==> p.result.Some?) && (forall p :: p in back ==> p.result.Some?)
    ensures ReadFrom(front + [o] + back) == ReadFrom(front + back) + multiset{ToObservation(o)}
  {
    assert ToObservations(front + [o] + back) == ToObservations(front) + [ToObservation(o)] + ToObservations(back);
    assert ToObservations(front + back) == ToObservations(front) + ToObservations(back);
  }

  /** Equal multisets of rows are read as equal multisets of observations. */
  lemma {:induction false} ReadFromPermutation(a: seq<ObservationRow>, b: seq<ObservationRow>)
    requires multiset(a) == multiset(b)
    requires (forall o :: o in a ==> o.result.Some?) && (forall o :: o in b ==> o.result.Some?)
    ensures ReadFrom(a) == ReadFrom(b)
    decreases |a|
  {
    SameMembers(a, b);
    if a == [] {
      assert b == [];
    } else {
      var init, last := a[..|a| - 1], a[|a| - 1];
      assert last in a;
      var front, back := WithoutLast(a, b);
      assert a == init + [last] + [] && init + [] == init;
      forall o: ObservationRow | o in front + back ensures o in b {}
      ReadFromPermutation(init, front + back);
      ReadAround(init, last, []);
      ReadAround(front, last, back);
    }
  }

  lemma {:induction false} ReadablePermutation(a: seq<ObservationRow>, b: seq<ObservationRow>, server: string, now: int)
    requires multiset(TimelessRows(a)) == multiset(TimelessRows(b))
    ensures multiset(ToObservations(Readable(a, server, now))) == multiset(ToObservations(Readable(b, server, now)))
  {
    var fa, fb := Filter(a, ReadableAt(server, now)), Filter(b, ReadableAt(server, now));
    FilterMembers(a, ReadableAt(server, now));
    FilterMembers(b, ReadableAt(server, now));
    SortMultiset(fa, ByObservation());
    SortMultiset(fb, ByObservation());
    ReadFromPermutation(Readable(a, server, now), fa);
    ReadFromPermutation(Readable(b, server, now), fb);
    ReadableOfTimeless(a, server, now);
    ReadableOfTimeless(b, server, now);
    FilterPermutation(TimelessRows(a), TimelessRows(b), ReadableAt(server, now));
    ReadFromTimeless(fa);
    ReadFromTimeless(fb);
    ReadFromPermutation(TimelessRows(fa), TimelessRows(fb));
  }

  lemma {:induction false} ExpectedPermutation(a: seq<ObservationRow>, b: seq<ObservationRow>, server: string, now: int)
    requires multiset(TimelessRows(a)) == multiset(TimelessRows(b))
    ensures ExpectedSources(a, server, now) == ExpectedSources(b, server, now)
  {
    SourcesWithin(a, b, server, now);
    SourcesWithin(b, a, server, now);
    assert (set o | o in a && o.serverId == server && o.observedAt >= now - 24 * HOUR :: o.source)
        == (set o | o in b && o.serverId == server && o.observedAt >= now - 24 * HOUR :: o.source);
  }

  lemma {:induction false} SourcesWithin(a: seq<ObservationRow>, b: seq<ObservationRow>, server: string, now: int)
    requires multiset(TimelessRows(a)) == multiset(TimelessRows(b))
    ensures (set o | o in a && o.serverId == server && o.observedAt >= now - 24 * HOUR :: o.source)
         <= (set o | o in b && o.serverId == server && o.observedAt >= now - 24 * HOUR :: o.source)
  {
    forall o | o in a ensures exists p :: p in b && Timeless(p) == Timeless(o) {
      var i :| 0 <= i < |a| && a[i] == o;
      assert TimelessRows(a)[i] == Timeless(o);
      assert Timeless(o) in multiset(TimelessRows(a));
      assert Timeless(o) in TimelessRows(b);
      var j :| 0 <= j < |b| && TimelessRows(b)[j] == Timeless(o);
      assert b[j] in b;
    }
  }

  /** The evaluation of a server is the same for every order and repetition of the deliveries, unless ties
      decide it; distinct timestamps within a source exclude that. */
  lemma {:induction false} EvaluationIsConfluent(a: seq<Delivery>, b: seq<Delivery>, start: Tables,
                                                 servers: set<string>, freshness: int,
                                                server: string, now: int, confirmations: int)
    requires SameReports(a, b)
    requires forall d :: d in a || d in b ==> d.payload.id !in start.reports
    requires OrderSettled(ToObservations(Readable(Receive(a, start, servers, freshness).observations, server, now)),
        now, confirmations)
    ensures EvaluationOf(Receive(a, start, servers, freshness).observations, server, now, confirmations)
         == EvaluationOf(Receive(b, start, servers, freshness).observations, server, now, confirmations)
  {
    var ra, rb := Receive(a, start, servers, freshness).observations,
        Receive(b, start, servers, freshness).observations;
    DeliveryOrderIrrelevant(a, b, start, servers, freshness);
    ReadablePermutation(ra, rb, server, now);
    ExpectedPermutation(ra, rb, server, now);
    SettledIsIndependent(ToObservations(Readable(ra, server, now)), ToObservations(Readable(rb, server, now)), now,
                         ExpectedSources(ra, server, now), confirmations);
  }

  // ---------- retention ----------

  /** After a sweep a report that comes again is still recognised if and only if it is not older than
      the horizon; an older one is stored a second time. */
  lemma {:induction false} RedeliveryAfterSweep(t: Tables, d: Delivery, horizon: int, servers: set<string>,
                                                freshness: int)
    requires ReferencesIntact(t) && Holds(t, d)
    ensures Accepted(Swept(t, horizon), d.probe, d.payload, servers, d.at, freshness).1 == Duplicate
        <==> d.payload.observedAt >= horizon
  {
    SweepIsExact(t, horizon);
  }

  // ---------- coverage ----------

  /** Sources of the server that have something to say at `now`, and those heard in the last 24 hours. */
  function SourcesLive(rows: seq<ObservationRow>, server: string, now: int): set<string> {
    set o | o in rows && o.serverId == server && o.freshUntil >= now && o.result.Some? && o.routeVerified != Some(false)
      :: o.source
  }

  function SourcesHeard(rows: seq<ObservationRow>, server: string, now: int): set<string> {
    set o | o in rows && o.serverId == server && o.observedAt >= now - 86_400_000_000 :: o.source
  }

  /** The coverage of a stored evaluation: the sources with something to say over those heard in the last 24 hours,
      at least one of them, and at most 1. */
  lemma {:induction false} CoverageOfStored(rows: seq<ObservationRow>, server: string, now: int, n: int)
    ensures var live, heard := |SourcesLive(rows, server, now)|, |SourcesHeard(rows, server, now)|;
            var whole := if heard < 1 then 1 else heard;
      EvaluationOf(rows, server, now, n).coverage == if live >= whole then 1.0 else live as real / whole as real
  {
    var observations := ToObservations(Readable(rows, server, now));
    CoverageIs(observations, now, ExpectedSources(rows, server, now), n);
    LiveSourcesRead(rows, server, now);
    assert SourcesHeard(rows, server, now)
        == set o | o in rows && o.serverId == server && o.observedAt >= now - 24 * HOUR :: o.source;
  }

  lemma {:induction false} LiveSourcesRead(rows: seq<ObservationRow>, server: string, now: int)
    ensures (set o | o in ToObservations(Readable(rows, server, now)) && Live(o, now) :: o.source)
         == SourcesLive(rows, server, now)
  {
    var read := Readable(rows, server, now);
    var observations := ToObservations(read);
    ReadableParsed(rows, server, now);
    forall o | o in observations && Live(o, now) ensures o.source in SourcesLive(rows, server, now) {
      var i :| 0 <= i < |read| && observations[i] == o;
      assert read[i] in read;
    }
    forall r | r in rows && r.serverId == server && r.freshUntil >= now && r.result.Some?
               && r.routeVerified != Some(false)
      ensures r.source in set o | o in observations && Live(o, now) :: o.source
    {
      assert ReadableAt(server, now)(r);
      var i :| 0 <= i < |read| && read[i] == r;
      assert observations[i] in observations && Live(observations[i], now);
    }
  }

  // ---------- what an evaluation reads ----------

  /** The observation repeats the row, a row of the server with a known result that has not expired. */
  ghost predicate ReadAs(x: Observation, o: ObservationRow, server: string, now: int) {
    && o.serverId == server && o.freshUntil >= now && o.result == Some(x.result)
    && x.source == o.source && x.observedAt == o.observedAt && x.freshUntil == o.freshUntil
    && x.fullVpnTest == o.fullVpnTest && x.controlInternetOk == o.controlInternetOk
    && x.routeVerified == o.routeVerified && x.reasonCode == o.errorCode
  }

  lemma {:induction false} ReadEach(rows: seq<ObservationRow>, server: string, now: int, k: nat)
    requires k < |Readable(rows, server, now)|
    ensures ReadAs(ToObservations(Readable(rows, server, now))[k], Readable(rows, server, now)[k], server, now)
  {
    ReadableParsed(rows, server, now);
    assert Readable(rows, server, now)[k] in Readable(rows, server, now);
  }

  lemma {:induction false} ReadByAge(rows: seq<ObservationRow>, server: string, now: int, j: nat, k: nat)
    requires j < k < |Readable(rows, server, now)|
    ensures Readable(rows, server, now)[j].observedAt <= Readable(rows, server, now)[k].observedAt
  {
    var read := Readable(rows, server, now);
    SortSorts(Filter(rows, ReadableAt(server, now)), ByObservation());
    assert ByObservation()(read[j]) <= ByObservation()(read[k]);
  }

  lemma {:induction false} ReadOften(rows: seq<ObservationRow>, server: string, now: int, o: ObservationRow)
    ensures multiset(Readable(rows, server, now))[o]
         == if o.serverId == server && o.freshUntil >= now && o.result.Some? then multiset(rows)[o] else 0
  {
    FilterMultiset(rows, ReadableAt(server, now));
    SortMultiset(Filter(rows, ReadableAt(server, now)), ByObservation());
  }

  /** An evaluation reads every row of the server that has a known result and has not expired, as often as it is
      stored, oldest first, and each as it is stored. */
  lemma {:induction false} ReadExactly(rows: seq<ObservationRow>, server: string, now: int)
    ensures var read := Readable(rows, server, now);
      && (forall o :: multiset(read)[o]
            == if o.serverId == server && o.freshUntil >= now && o.result.Some? then multiset(rows)[o] else 0)
      && (forall j, k :: 0 <= j < k < |read| ==> read[j].observedAt <= read[k].observedAt)
      && |ToObservations(read)| == |read|
      && forall k :: 0 <= k < |read| ==> ReadAs(ToObservations(read)[k], read[k], server, now)
  {
    var read := Readable(rows, server, now);
    forall o: ObservationRow ensures multiset(read)[o]
      == if o.serverId == server && o.freshUntil >= now && o.result.Some? then multiset(rows)[o] else 0
    {
      ReadOften(rows, server, now, o);
    }
    forall j, k | 0 <= j < k < |read| ensures read[j].observedAt <= read[k].observedAt {
      ReadByAge(rows, server, now, j, k);
    }
    forall k | 0 <= k < |read| ensures ReadAs(ToObservations(read)[k], read[k], server, now) {
      ReadEach(rows, server, now, k);
    }
  }
}
