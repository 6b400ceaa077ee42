/** Deliveries and sweeps in any order: what is not older than the last sweep is stored once per report. */
module RetentionLaws {
  import opened Domain
  import opened Sequences
  import opened Evidence
  import opened EvidenceLaws

  datatype Act = Deliver(delivery: Delivery) | Sweep(horizon: int)

  function After(acts: seq<Act>, start: Tables, servers: set<string>, freshness: int): Tables {
    if acts == [] then start
    else
      var before := After(acts[..|acts| - 1], start, servers, freshness);
      match acts[|acts| - 1]
      case Deliver(d) => Accepted(before, d.probe, d.payload, servers, d.at, freshness).0
      case Sweep(horizon) => Swept(before, horizon)
  }

  function Deliveries(acts: seq<Act>): seq<Delivery> {
    if acts == [] then []
    else
      var rest, last := Deliveries(acts[..|acts| - 1]), acts[|acts| - 1];
      if last.Deliver? then rest + [last.delivery] else rest
  }

  function LastHorizon(acts: seq<Act>): Option<int> {
    if acts == [] then None
    else if acts[|acts| - 1].Sweep? then Some(acts[|acts| - 1].horizon)
    else LastHorizon(acts[..|acts| - 1])
  }

  /** Not older than the last sweep. */
  predicate Recent(acts: seq<Act>, at: int) {
    LastHorizon(acts).Some? ==> at >= LastHorizon(acts).value
  }

  /** Horizons do not move backwards. */
  ghost predicate Advancing(acts: seq<Act>) {
    acts == [] ||
    (var init, last := acts[..|acts| - 1], acts[|acts| - 1];
     && Advancing(init)
     && (last.Sweep? && LastHorizon(init).Some? ==> LastHorizon(init).value <= last.horizon))
  }

  ghost predicate Proper(acts: seq<Act>, start: Tables) {
    && Advancing(acts) && Consistent(Deliveries(acts)) && ReferencesIntact(start)
    && forall i :: 0 <= i < |Deliveries(acts)| ==> Deliveries(acts)[i].payload.id !in start.reports
  }

  lemma {:induction false} ProperPrefix(acts: seq<Act>, start: Tables)
    requires acts != [] && Proper(acts, start)
    ensures Proper(acts[..|acts| - 1], start)
  {
    if acts[|acts| - 1].Deliver? {
      ConsistentPrefix(Deliveries(acts));
      var rest := Deliveries(acts[..|acts| - 1]);
      assert Deliveries(acts)[..|rest|] == rest;
      forall i | 0 <= i < |rest| ensures rest[i].payload.id !in start.reports { assert rest[i] == Deliveries(acts)[i]; }
    }
  }

  // ---------- reports ----------

  /** References are intact, every stored report is an initial or a delivered one, and every recent one that
      was delivered is stored as it was. */
  ghost predicate Kept(t: Tables, acts: seq<Act>, start: Tables) {
    && ReferencesIntact(t)
    && (forall id :: id in t.reports ==> id in start.reports || Delivers(Deliveries(acts), id))
    && (forall i :: 0 <= i < |Deliveries(acts)| ==> KeptOne(t, acts, Deliveries(acts)[i]))
  }

  ghost predicate KeptOne(t: Tables, acts: seq<Act>, d: Delivery) {
    && (d.payload.id in t.reports ==> Holds(t, d))
    && (Recent(acts, d.payload.observedAt) ==> d.payload.id in t.reports)
  }

  lemma {:induction false} SweepKeeps(t: Tables, init: seq<Act>, horizon: int, start: Tables)
    requires Kept(t, init, start) && (LastHorizon(init).Some? ==> LastHorizon(init).value <= horizon)
    ensures Kept(Swept(t, horizon), init + [Sweep(horizon)], start)
  {
    var acts := init + [Sweep(horizon)];
    assert acts[..|init|] == init;
    SweepIsExact(t, horizon);
    forall i | 0 <= i < |Deliveries(acts)| ensures KeptOne(Swept(t, horizon), acts, Deliveries(acts)[i]) {
      assert KeptOne(t, init, Deliveries(init)[i]);
    }
  }

  lemma {:induction false} DeliveryKeepsOne(t: Tables, init: seq<Act>, d: Delivery, start: Tables, servers: set<string>,
                                            freshness: int, i: nat)
    requires Kept(t, init, start) && Proper(init + [Deliver(d)], start) && i <= |Deliveries(init)|
    requires Deliveries(init + [Deliver(d)]) == Deliveries(init) + [d]
    requires LastHorizon(init + [Deliver(d)]) == LastHorizon(init)
    ensures KeptOne(Accepted(t, d.probe, d.payload, servers, d.at, freshness).0, init + [Deliver(d)],
                    (Deliveries(init) + [d])[i])
  {
    var before, all := Deliveries(init), Deliveries(init) + [d];
    assert all[|before|] == d;
    if i < |before| {
      assert KeptOne(t, init, before[i]) && all[i] == before[i];
    } else if d.payload.id in t.reports {
      var j :| 0 <= j < |before| && before[j].payload.id == d.payload.id;
      assert all[j] == before[j] && KeptOne(t, init, before[j]);
    }
  }

  lemma {:induction false} DeliveryKeeps(t: Tables, init: seq<Act>, d: Delivery, start: Tables, servers: set<string>,
                                         freshness: int)
    requires Kept(t, init, start) && Proper(init + [Deliver(d)], start)
    ensures Kept(Accepted(t, d.probe, d.payload, servers, d.at, freshness).0, init + [Deliver(d)], start)
  {
    var acts, next := init + [Deliver(d)], Accepted(t, d.probe, d.payload, servers, d.at, freshness).0;
    var before, all := Deliveries(init), Deliveries(init) + [d];
    assert acts[..|init|] == init && Deliveries(acts) == all && all[..|before|] == before;
    AcceptKeepsReferences(t, d.probe, d.payload, servers, d.at, freshness);
    forall id | id in next.reports ensures id in start.reports || Delivers(all, id) { DeliversSnoc(all, id); }
    forall i | 0 <= i < |all| ensures KeptOne(next, acts, all[i]) {
      DeliveryKeepsOne(t, init, d, start, servers, freshness, i);
    }
  }

  lemma {:induction false} RunKeeps(acts: seq<Act>, start: Tables, servers: set<string>, freshness: int)
    requires Proper(acts, start)
    ensures Kept(After(acts, start, servers, freshness), acts, start)
  {
    if acts == [] {
    } else {
      var init, last := acts[..|acts| - 1], acts[|acts| - 1];
      assert acts == init + [last];
      ProperPrefix(acts, start);
      RunKeeps(init, start, servers, freshness);
      var t := After(init, start, servers, freshness);
      if last.Sweep? {
        SweepKeeps(t, init, last.horizon, start);
      } else {
        DeliveryKeeps(t, init, last.delivery, start, servers, freshness);
      }
    }
  }

  // ---------- observations ----------

  function Copies(rows: seq<ObservationRow>, o: ObservationRow): nat { multiset(TimelessRows(rows))[o] }

  lemma {:induction false} CopiesSwept(rows: seq<ObservationRow>, horizon: int, o: ObservationRow)
    requires o.observedAt >= horizon
    ensures Copies(Filter(rows, NotBefore(horizon)), o) == Copies(rows, o)
  {
    if rows != [] {
      var init, last := rows[..|rows| - 1], rows[|rows| - 1];
      CopiesSwept(init, horizon, o);
      CopiesSnoc(init, last, o);
      assert rows == init + [last];
      CopiesSnoc(Filter(init, NotBefore(horizon)), last, o);
    }
  }

  lemma {:induction false} CopiesSnoc(rows: seq<ObservationRow>, last: ObservationRow, o: ObservationRow)
    ensures Copies(rows + [last], o) == Copies(rows, o) + if Timeless(last) == o then 1 else 0
  {
    assert TimelessRows(rows + [last]) == TimelessRows(rows) + [Timeless(last)];
  }

  /** How often a row comes with the reports delivered, each counted once. */
  ghost function Owed(deliveries: seq<Delivery>, o: ObservationRow, servers: set<string>, freshness: int): nat {
    if o.reportId.Some? then multiset(RowsById(deliveries, o.reportId.value, servers, freshness))[o] else 0
  }

  lemma {:induction false} NewReportAdds(before: seq<Delivery>, d: Delivery, rows: seq<ObservationRow>,
                                         o: ObservationRow,
                                         servers: set<string>, freshness: int)
    requires !Delivers(before, d.payload.id)
    ensures Copies(rows + RowsOf(d.probe, d.payload, servers, d.at, freshness), o) - Copies(rows, o)
         == Owed(before + [d], o, servers, freshness) - Owed(before, o, servers, freshness)
  {
    var added, mine := RowsOf(d.probe, d.payload, servers, d.at, freshness),
        RowsOf(d.probe, d.payload, servers, 0, freshness);
    RowsCarryId(d.probe, d.payload, servers, d.at, freshness);
    RowsCarryId(d.probe, d.payload, servers, 0, freshness);
    TimelessConcat(rows, added);
    RowsByIdNone(before, d.payload.id, servers, freshness);
    assert (before + [d])[..|before|] == before;
    if o.reportId != Some(d.payload.id) {
      assert o !in mine;
    }
  }

  lemma {:induction false} KnownReportAdds(before: seq<Delivery>, d: Delivery, o: ObservationRow,
                                           servers: set<string>, freshness: int)
    requires Consistent(before + [d]) && Delivers(before, d.payload.id)
    ensures Owed(before + [d], o, servers, freshness) == Owed(before, o, servers, freshness)
  {
    var all := before + [d];
    var i :| 0 <= i < |before| && before[i].payload.id == d.payload.id;
    assert all[..|before|] == before && all[i] == before[i];
    ConsistentPrefix(all);
    RowsByIdOf(before, i, servers, freshness);
    RowsByIdOf(all, |before|, servers, freshness);
    assert all[|before|] == d;
  }

  lemma {:induction false} RowsAsOld(probe: Probe, payload: Report, servers: set<string>, now: int, freshness: int,
                                     o: ObservationRow)
    requires o.observedAt != payload.observedAt
    ensures o !in TimelessRows(RowsOf(probe, payload, servers, now, freshness))
  {
  }

  /** A delivery adds the recent rows of its report if and only if the report is new. */
  lemma {:induction false} DeliveryCounts(t: Tables, init: seq<Act>, d: Delivery, start: Tables,
                                          servers: set<string>, freshness: int,
                                          o: ObservationRow)
    requires Kept(t, init, start) && Proper(init + [Deliver(d)], start) && Recent(init, o.observedAt)
    ensures var next := Accepted(t, d.probe, d.payload, servers, d.at, freshness).0;
      Copies(next.observations, o) - Copies(t.observations, o)
         == Owed(Deliveries(init) + [d], o, servers, freshness) - Owed(Deliveries(init), o, servers, freshness)
  {
    var before := Deliveries(init);
    assert (init + [Deliver(d)])[..|init|] == init;
    assert (before + [d])[|before|] == d;
    if !Delivers(before, d.payload.id) {
      NewReportAdds(before, d, t.observations, o, servers, freshness);
    } else {
      KnownReportAdds(before, d, o, servers, freshness);
      if d.payload.id !in t.reports {
        var j :| 0 <= j < |before| && before[j].payload.id == d.payload.id;
        assert KeptOne(t, init, before[j]) && (before + [d])[j] == before[j];
        var added := RowsOf(d.probe, d.payload, servers, d.at, freshness);
        RowsAsOld(d.probe, d.payload, servers, d.at, freshness, o);
        TimelessConcat(t.observations, added);
      }
    }
  }

  /** Exactly once, in every run of deliveries and sweeps: of the observations not older than the last sweep,
      those stored are, up to the time of receipt, the ones stored at first and those of every delivered
      report counted once. */
  lemma {:induction false} RecentRowsOnce(acts: seq<Act>, start: Tables, servers: set<string>, freshness: int,
                                          o: ObservationRow)
    requires Proper(acts, start) && Recent(acts, o.observedAt)
    ensures Copies(After(acts, start, servers, freshness).observations, o)
         == Copies(start.observations, o) + Owed(Deliveries(acts), o, servers, freshness)
  {
    if acts != [] {
      var init, last := acts[..|acts| - 1], acts[|acts| - 1];
      var t := After(init, start, servers, freshness);
      assert acts == init + [last];
      ProperPrefix(acts, start);
      RecentRowsOnce(init, start, servers, freshness, o);
      RunKeeps(init, start, servers, freshness);
      if last.Sweep? {
        CopiesSwept(t.observations, last.horizon, o);
      } else {
        DeliveryCounts(t, init, last.delivery, start, servers, freshness, o);
      }
    }
  }
}
