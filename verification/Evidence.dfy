/** The evidence tables: probe reports and the observations made from them, retention, and the
    observations an evaluation reads. */
module Evidence {
  import opened Domain
  import opened Sequences
  import opened Evaluator

  datatype ProbeKind = Pc | Android | AbroadProbe | Watchdog
  datatype Probe = Probe(id: string, kind: ProbeKind)

  datatype CheckItem = CheckItem(
    targetId: string,
    check: string,
    result: ObservationResult,
    errorCode: Option<string>,
    notRunReason: Option<string>)

  datatype Report = Report(id: string, observedAt: int, networkType: string, routeVerified: bool,
      results: seq<CheckItem>)

  datatype ReportRow = ReportRow(probe: Probe, payload: Report, receivedAt: int)

  /** `result` is None for a stored word that is not one of the three results. */
  datatype ObservationRow = ObservationRow(
    serverId: string,
    source: string,
    observedAt: int,
    receivedAt: int,
    result: Option<ObservationResult>,
    freshUntil: int,
    fullVpnTest: bool,
    controlInternetOk: Option<bool>,
    routeVerified: Option<bool>,
    errorCode: Option<string>,
    connections: map<string, real>,
    reportId: Option<string>)

  datatype Tables = Tables(reports: map<string, ReportRow>, observations: seq<ObservationRow>)

  datatype Outcome = Duplicate | Written(observations: nat) | Conflict

  function SourceOf(kind: ProbeKind): string {
    match kind
    case Pc => "pc"
    case Android => "mobile"
    case AbroadProbe => "abroad"
    case Watchdog => "collector"
  }

  // ---------- one observation per target ----------

  function ForTarget(target: string): CheckItem -> bool { (i: CheckItem) => i.targetId == target }

  /** The targets in the order they first appear. */
  function Targets(results: seq<CheckItem>): seq<string> {
    if results == [] then []
    else
      var rest, last := Targets(results[..|results| - 1]), results[|results| - 1];
      if last.targetId in rest then rest else rest + [last.targetId]
  }

  function LastResult(items: seq<CheckItem>, check: string): Option<ObservationResult> {
    if items == [] then None
    else if items[|items| - 1].check == check then Some(items[|items| - 1].result)
    else LastResult(items[..|items| - 1], check)
  }

  predicate Truthy(text: Option<string>) { text.Some? && text.value != "" }

  function FirstError(items: seq<CheckItem>): Option<string> {
    if items == [] then None
    else if items[0].result != Success && Truthy(items[0].errorCode) then items[0].errorCode
    else if items[0].result != Success && Truthy(items[0].notRunReason) then items[0].notRunReason
    else FirstError(items[1..])
  }

  function TargetResult(items: seq<CheckItem>): ObservationResult {
    if forall i :: 0 <= i < |items| ==> items[i].result == NotRun then NotRun
    else if exists i :: 0 <= i < |items| && items[i].result == Failure then Failure
    else Success
  }

  function RowFor(probe: Probe, payload: Report, target: string, now: int, freshness: int): ObservationRow {
    var items := Filter(payload.results, ForTarget(target));
    var control := LastResult(items, "control_internet");
    ObservationRow(
      target, SourceOf(probe.kind), payload.observedAt, now, Some(TargetResult(items)), payload.observedAt + freshness,
      LastResult(items, "handshake").Some? && LastResult(items, "https").Some?,
      if control.None? then None else Some(control.value == Success),
      Some(payload.routeVerified), FirstError(items), map[], Some(payload.id))
  }

  function Known(servers: set<string>): string -> bool { (t: string) => t in servers }

  function RowsFor(probe: Probe, payload: Report, targets: seq<string>, now: int, freshness: int): seq<ObservationRow> {
    seq(|targets|, i requires 0 <= i < |targets| => RowFor(probe, payload, targets[i], now, freshness))
  }

  lemma {:induction false} RowsForSnoc(probe: Probe, payload: Report, targets: seq<string>, target: string, now: int,
                                       freshness: int)
    ensures RowsFor(probe, payload, targets + [target], now, freshness)
         == RowsFor(probe, payload, targets, now, freshness) + [RowFor(probe, payload, target, now, freshness)]
  {
  }

  /** The observations a report turns into: one for every target that is one of the servers. */
  function RowsOf(probe: Probe, payload: Report, servers: set<string>, now: int, freshness: int): seq<ObservationRow> {
    RowsFor(probe, payload, Filter(Targets(payload.results), Known(servers)), now, freshness)
  }

  function Accepted(t: Tables, probe: Probe, payload: Report, servers: set<string>, now: int,
                    freshness: int): (Tables, Outcome) {
    if payload.id in t.reports then
      (t, if t.reports[payload.id].payload == payload then Duplicate else Conflict)
    else
      var rows := RowsOf(probe, payload, servers, now, freshness);
      (Tables(t.reports[payload.id := ReportRow(probe, payload, now)], t.observations + rows), Written(|rows|))
  }

  // ---------- retention ----------

  function NotBefore(horizon: int): ObservationRow -> bool { (o: ObservationRow) => o.observedAt >= horizon }

  predicate Referenced(observations: seq<ObservationRow>, id: string) {
    exists i :: 0 <= i < |observations| && observations[i].reportId == Some(id)
  }

  function Swept(t: Tables, horizon: int): Tables {
    var kept := Filter(t.observations, NotBefore(horizon));
    Tables(map id | id in t.reports
        && !(t.reports[id].payload.observedAt < horizon && !Referenced(kept, id)) :: t.reports[id], kept)
  }

  /** Every observation made from a report finds it, made at the same instant. */
  ghost predicate ReferencesIntact(t: Tables) {
    forall o :: o in t.observations && o.reportId.Some? ==>
      o.reportId.value in t.reports && t.reports[o.reportId.value].payload.observedAt == o.observedAt
  }

  lemma {:induction false} AcceptKeepsReferences(t: Tables, probe: Probe, payload: Report, servers: set<string>,
                                                 now: int, freshness: int)
    requires ReferencesIntact(t)
    ensures ReferencesIntact(Accepted(t, probe, payload, servers, now, freshness).0)
  {
  }

  /** A sweep keeps every reference, and removes exactly the observations and the reports made before
      the horizon. */
  lemma {:induction false} SweepIsExact(t: Tables, horizon: int)
    requires ReferencesIntact(t)
    ensures ReferencesIntact(Swept(t, horizon))
    ensures forall o :: o in Swept(t, horizon).observations <==> o in t.observations && o.observedAt >= horizon
    ensures forall id :: id in Swept(t, horizon).reports <==>
        id in t.reports && t.reports[id].payload.observedAt >= horizon
  {
    var kept := Filter(t.observations, NotBefore(horizon));
    FilterMembers(t.observations, NotBefore(horizon));
    forall o | o in t.observations && o.observedAt >= horizon ensures o in kept { assert NotBefore(horizon)(o); }
    forall id | id in t.reports && Referenced(kept, id) ensures t.reports[id].payload.observedAt >= horizon {
      var i :| 0 <= i < |kept| && kept[i].reportId == Some(id);
      assert kept[i] in kept;
    }
    forall o | o in kept && o.reportId.Some? ensures Referenced(kept, o.reportId.value) {
      var i :| 0 <= i < |kept| && kept[i] == o;
      assert kept[i].reportId == Some(o.reportId.value);
    }
  }

  lemma {:induction false} SweepCounts(t: Tables, horizon: int)
    ensures forall o :: multiset(Swept(t, horizon).observations)[o]
                     == if o.observedAt >= horizon then multiset(t.observations)[o] else 0
    ensures forall id :: id in Swept(t, horizon).reports ==>
        id in t.reports && Swept(t, horizon).reports[id] == t.reports[id]
  {
    FilterMultiset(t.observations, NotBefore(horizon));
  }

  // ---------- what an evaluation reads ----------

  function ReadableAt(server: string, now: int): ObservationRow -> bool {
    (o: ObservationRow) => o.serverId == server && o.freshUntil >= now && o.result.Some?
  }

  function ByObservation(): ObservationRow -> int { (o: ObservationRow) => o.observedAt }

  function ToObservation(o: ObservationRow): Observation
    requires o.result.Some?
  {
    Observation(o.source, o.result.value, o.observedAt, o.freshUntil, o.fullVpnTest, o.controlInternetOk,
        o.errorCode, o.routeVerified)
  }

  function ToObservations(rows: seq<ObservationRow>): seq<Observation>
    requires forall o :: o in rows ==> o.result.Some?
  {
    seq(|rows|, i requires 0 <= i < |rows| => ToObservation(rows[i]))
  }

  lemma {:induction false} ReadableParsed(rows: seq<ObservationRow>, server: string, now: int)
    ensures forall o :: o in SortBy(Filter(rows, ReadableAt(server, now)), ByObservation()) ==>
        o in rows && ReadableAt(server, now)(o)
    ensures forall o :: o in rows && ReadableAt(server, now)(o) ==>
        o in SortBy(Filter(rows, ReadableAt(server, now)), ByObservation())
  {
    FilterMembers(rows, ReadableAt(server, now));
    SortMembers(Filter(rows, ReadableAt(server, now)), ByObservation());
  }

  function Readable(rows: seq<ObservationRow>, server: string, now: int): (read: seq<ObservationRow>)
    ensures forall o :: o in read ==> o.result.Some?
  {
    ReadableParsed(rows, server, now);
    SortBy(Filter(rows, ReadableAt(server, now)), ByObservation())
  }

  function ExpectedSources(rows: seq<ObservationRow>, server: string, now: int): int {
    var seen := |set o | o in rows && o.serverId == server && o.observedAt >= now - 24 * HOUR :: o.source|;
    if seen > 1 then seen else 1
  }

  /** The evaluation of one server from the stored observations. */
  ghost function EvaluationOf(rows: seq<ObservationRow>, server: string, now: int, confirmations: int): Evaluation {
    Evaluate(ToObservations(Readable(rows, server, now)), now, ExpectedSources(rows, server, now), confirmations)
  }

  // ---------- the program ----------

  class EvidenceStore {
    const servers: set<string>
    const freshness: int
    var reports: map<string, ReportRow>
    var observations: seq<ObservationRow>

    ghost function View(): Tables reads this { Tables(reports, observations) }

    ghost predicate Valid() reads this { ReferencesIntact(View()) }

    constructor (servers: set<string>, freshness: int)
      ensures Valid() && View() == Tables(map[], []) && this.servers == servers && this.freshness == freshness
    {
      this.servers, this.freshness := servers, freshness;
      reports, observations := map[], [];
    }

    /** Stores one report; a repeated id writes nothing, and is an error when the payload differs. */
    method AcceptReport(probe: Probe, payload: Report, now: int) returns (outcome: Outcome)
      requires Valid()
      modifies this
      ensures Valid()
      ensures (View(), outcome) == Accepted(old(View()), probe, payload, servers, now, freshness)
    {
      AcceptKeepsReferences(View(), probe, payload, servers, now, freshness);
      if payload.id in reports {
        return if reports[payload.id].payload == payload then Duplicate else Conflict;
      }
      reports := reports[payload.id := ReportRow(probe, payload, now)];
      var written := WriteObservations(probe, payload, now);
      outcome := Written(written);
    }

    method WriteObservations(probe: Probe, payload: Report, now: int) returns (written: nat)
      modifies this`observations
      ensures observations == old(observations) + RowsOf(probe, payload, servers, now, freshness)
      ensures written == |RowsOf(probe, payload, servers, now, freshness)|
    {
      var order, byTarget := GroupByTarget(payload.results);
      ghost var before, chosen: seq<string> := observations, [];
      written := 0;
      for i := 0 to |order|
        modifies this`observations
        invariant chosen == Filter(order[..i], Known(servers)) && written == |chosen|
        invariant observations == before + RowsFor(probe, payload, chosen, now, freshness)
      {
        var target := order[i];
        assert target in order;
        assert order[..i + 1] == order[..i] + [target];
        FilterSnoc(order[..i], target, Known(servers));
        if target in servers {
          var row := RowFromItems(probe, payload, target, byTarget[target], now);
          RowsForSnoc(probe, payload, chosen, target, now, freshness);
          observations := observations + [row];
          chosen, written := chosen + [target], written + 1;
        }
      }
      assert order[..|order|] == order;
    }

    method RowFromItems(probe: Probe, payload: Report, target: string, items: seq<CheckItem>, now: int)
                        returns (row: ObservationRow)
      requires items == Filter(payload.results, ForTarget(target))
      ensures row == RowFor(probe, payload, target, now, freshness)
    {
      var ran := Filter(items, HasRun());
      RanDecides(items);
      var result;
      if ran == [] {
        result := NotRun;
      } else if exists k :: 0 <= k < |ran| && ran[k].result == Failure {
        result := Failure;
      } else {
        result := Success;
      }
      var control := LastResult(items, "control_internet");
      var fullTest := LastResult(items, "handshake").Some? && LastResult(items, "https").Some?;
      row := ObservationRow(
        target, SourceOf(probe.kind), payload.observedAt, now, Some(result), payload.observedAt + freshness, fullTest,
        if control.None? then None else Some(control.value == Success),
        Some(payload.routeVerified), FirstError(items), map[], Some(payload.id));
    }

    method GroupByTarget(results: seq<CheckItem>) returns (order: seq<string>, byTarget: map<string, seq<CheckItem>>)
      ensures order == Targets(results)
      ensures forall t :: t in order ==> t in byTarget && byTarget[t] == Filter(results, ForTarget(t))
    {
      order, byTarget := [], map[];
      for i := 0 to |results|
        invariant order == Targets(results[..i])
        invariant forall t :: t in byTarget <==> t in order
        invariant forall t :: t in order ==> byTarget[t] == Filter(results[..i], ForTarget(t))
        invariant forall t :: t !in order ==> Filter(results[..i], ForTarget(t)) == []
      {
        var item := results[i];
        assert results[..i + 1][..i] == results[..i];
        if item.targetId !in byTarget {
          order := order + [item.targetId];
          byTarget := byTarget[item.targetId := [item]];
        } else {
          byTarget := byTarget[item.targetId := byTarget[item.targetId] + [item]];
        }
      }
      assert results[..|results|] == results;
    }

    /** Deletes what was made before the horizon: every older observation, and every older report, because
        then no observation refers to it any more. */
    method Sweep(horizon: int)
      requires Valid()
      modifies this
      ensures Valid()
      ensures forall o :: multiset(observations)[o] == if o.observedAt >= horizon then multiset(old(observations))[o]
          else 0
      ensures forall id :: id in reports <==> id in old(reports) && old(reports)[id].payload.observedAt >= horizon
      ensures forall id :: id in reports ==> reports[id] == old(reports)[id]
      ensures View() == Swept(old(View()), horizon)
    {
      ghost var before := View();
      observations := Filter(observations, NotBefore(horizon));
      var referenced := set o | o in observations && o.reportId.Some? :: o.reportId.value;
      reports := map id | id in reports
          && !(reports[id].payload.observedAt < horizon && id !in referenced) :: reports[id];
      ReferencedIds(observations, referenced);
      assert View() == Swept(before, horizon);
      SweepIsExact(before, horizon);
      SweepCounts(before, horizon);
    }
  }

  lemma {:induction false} ReferencedIds(observations: seq<ObservationRow>, referenced: set<string>)
    requires referenced == set o | o in observations && o.reportId.Some? :: o.reportId.value
    ensures forall id :: id in referenced <==> Referenced(observations, id)
  {
    forall id | id in referenced ensures Referenced(observations, id) {
      var o :| o in observations && o.reportId.Some? && o.reportId.value == id;
      var i :| 0 <= i < |observations| && observations[i] == o;
    }
    forall id | Referenced(observations, id) ensures id in referenced {
      var i :| 0 <= i < |observations| && observations[i].reportId == Some(id);
      assert observations[i] in observations;
    }
  }

  function HasRun(): CheckItem -> bool { (c: CheckItem) => c.result != NotRun }

  lemma {:induction false} RanDecides(items: seq<CheckItem>)
    ensures var ran := Filter(items, HasRun());
      TargetResult(items) == if ran == [] then NotRun
          else if exists k :: 0 <= k < |ran| && ran[k].result == Failure then Failure else Success
  {
    var ran := Filter(items, HasRun());
    FilterMembers(items, HasRun());
    forall i | 0 <= i < |items| && items[i].result != NotRun ensures items[i] in ran {
      assert items[i] in items && HasRun()(items[i]);
    }
    forall k | 0 <= k < |ran| ensures ran[k] in items && ran[k].result != NotRun { assert ran[k] in ran; }
    if ran != [] {
      var i :| 0 <= i < |items| && items[i] == ran[0];
      assert items[i].result != NotRun;
    }
    if exists k :: 0 <= k < |ran| && ran[k].result == Failure {
      var k :| 0 <= k < |ran| && ran[k].result == Failure;
      var i :| 0 <= i < |items| && items[i] == ran[k];
      assert items[i].result == Failure;
    }
    if exists i :: 0 <= i < |items| && items[i].result == Failure {
      var i :| 0 <= i < |items| && items[i].result == Failure;
      var k :| 0 <= k < |ran| && ran[k] == items[i];
      assert ran[k].result == Failure;
    }
  }
}
