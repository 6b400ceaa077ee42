/** What a stored row says of the report or the collected item it was made from, column by column. */
module ReportLaws {
  import opened Domain
  import opened Sequences
  import opened Evidence
  import opened Inputs

  // ---------- the items of one target ----------

  /** The i-th result is a check of the target. */
  predicate Checked(results: seq<CheckItem>, target: string, i: nat) {
    i < |results| && results[i].targetId == target
  }

  ghost predicate Ran(results: seq<CheckItem>, target: string, check: string) {
    exists i: nat :: Checked(results, target, i) && results[i].check == check
  }

  /** The i-th result is the target's last one of this check. */
  ghost predicate LastOf(results: seq<CheckItem>, target: string, check: string, i: nat) {
    && Checked(results, target, i) && results[i].check == check
    && forall k: nat :: i < k && Checked(results, target, k) ==> results[k].check != check
  }

  ghost predicate AnyResult(results: seq<CheckItem>, target: string, result: ObservationResult) {
    exists i: nat :: Checked(results, target, i) && results[i].result == result
  }

  /** What the i-th result says went wrong: its error, or else why the check was not run. */
  function Complaint(item: CheckItem): Option<string> {
    if item.result == Success then None
    else if item.errorCode.Some? && item.errorCode.value != "" then item.errorCode
    else if item.notRunReason.Some? && item.notRunReason.value != "" then item.notRunReason
    else None
  }

  ghost predicate FirstComplaint(results: seq<CheckItem>, target: string, i: nat) {
    && Checked(results, target, i) && Complaint(results[i]).Some?
    && forall k: nat :: k < i && Checked(results, target, k) ==> Complaint(results[k]).None?
  }

  // ---------- the columns ----------

  lemma {:induction false} ItemStands(results: seq<CheckItem>, target: string, i: nat) returns (k: nat)
    requires Checked(results, target, i)
    ensures var items := Filter(results, ForTarget(target)); k < |items| && items[k] == results[i]
  {
    FilterMembers(results, ForTarget(target));
    assert ForTarget(target)(results[i]) && results[i] in results;
    k :| 0 <= k < |Filter(results, ForTarget(target))| && Filter(results, ForTarget(target))[k] == results[i];
  }

  lemma {:induction false} ItemFrom(results: seq<CheckItem>, target: string, k: nat) returns (i: nat)
    requires k < |Filter(results, ForTarget(target))|
    ensures Checked(results, target, i) && results[i] == Filter(results, ForTarget(target))[k]
  {
    FilterMembers(results, ForTarget(target));
    assert Filter(results, ForTarget(target))[k] in Filter(results, ForTarget(target));
    i :| 0 <= i < |results| && results[i] == Filter(results, ForTarget(target))[k];
  }

  lemma {:induction false} CheckedSnoc(init: seq<CheckItem>, last: CheckItem, target: string)
    ensures forall i: nat ::
      Checked(init + [last], target, i) <==> Checked(init, target, i) || (i == |init| && last.targetId == target)
  {
  }

  lemma {:induction false} LastOfSnoc(init: seq<CheckItem>, last: CheckItem, target: string, check: string, i: nat)
    ensures LastOf(init + [last], target, check, i) <==>
      if last.targetId == target && last.check == check then i == |init| else LastOf(init, target, check, i)
  {
    CheckedSnoc(init, last, target);
    var all := init + [last];
    if last.targetId == target && last.check == check {
      assert Checked(all, target, |init|) && all[|init|] == last;
    }
    assert forall k: nat :: k < |init| ==> all[k] == init[k];
  }

  lemma {:induction false} LastResultStands(results: seq<CheckItem>, target: string, check: string) returns (i: nat)
    requires LastResult(Filter(results, ForTarget(target)), check).Some?
    ensures LastOf(results, target, check, i)
    ensures LastResult(Filter(results, ForTarget(target)), check) == Some(results[i].result)
  {
    var init, last := results[..|results| - 1], results[|results| - 1];
    assert results == init + [last];
    FilterSnoc(init, last, ForTarget(target));
    if last.targetId == target && last.check == check {
      i := |init|;
    } else {
      i := LastResultStands(init, target, check);
      LastOfSnoc(init, last, target, check, i);
    }
  }

  lemma {:induction false} NoLastResult(results: seq<CheckItem>, target: string, check: string)
    requires LastResult(Filter(results, ForTarget(target)), check).None?
    ensures !Ran(results, target, check)
  {
    if results != [] {
      var init, last := results[..|results| - 1], results[|results| - 1];
      assert results == init + [last];
      FilterSnoc(init, last, ForTarget(target));
      NoLastResult(init, target, check);
      CheckedSnoc(init, last, target);
    }
  }

  /** The last result of a check decides, and it has none exactly when it is not among the target's checks. */
  lemma {:induction false} LastResultExactly(results: seq<CheckItem>, target: string, check: string)
    ensures var last := LastResult(Filter(results, ForTarget(target)), check);
      && (last.None? <==> !Ran(results, target, check))
      && (forall i: nat :: LastOf(results, target, check, i) ==> last == Some(results[i].result))
  {
    var last := LastResult(Filter(results, ForTarget(target)), check);
    if last.None? {
      NoLastResult(results, target, check);
      assert forall i: nat :: LastOf(results, target, check, i) ==> Checked(results, target, i);
    } else {
      var i := LastResultStands(results, target, check);
      assert Checked(results, target, i);
      forall k: nat | LastOf(results, target, check, k) ensures k == i {
        assert Checked(results, target, k);
      }
    }
  }

  lemma {:induction false} AnyItem(results: seq<CheckItem>, target: string, result: ObservationResult)
    ensures AnyResult(results, target, result) <==>
      exists k :: 0 <= k < |Filter(results, ForTarget(target))|
                  && Filter(results, ForTarget(target))[k].result == result
  {
    if AnyResult(results, target, result) {
      var i: nat :| Checked(results, target, i) && results[i].result == result;
      var k := ItemStands(results, target, i);
    }
    if k :| 0 <= k < |Filter(results, ForTarget(target))| && Filter(results, ForTarget(target))[k].result == result {
      var i := ItemFrom(results, target, k);
    }
  }

  /** A failed check makes a failure, checks none of which ran make a NOT_RUN, and anything else a success. */
  lemma {:induction false} ResultExactly(results: seq<CheckItem>, target: string)
    ensures var result := TargetResult(Filter(results, ForTarget(target)));
      && (result == Failure <==> AnyResult(results, target, Failure))
      && (result == NotRun <==> !AnyResult(results, target, Failure) && !AnyResult(results, target, Success))
  {
    AnyItem(results, target, Failure);
    AnyItem(results, target, Success);
    var items := Filter(results, ForTarget(target));
    if k :| 0 <= k < |items| && items[k].result != NotRun {
      assert items[k].result == Failure || items[k].result == Success;
    }
  }

  lemma {:induction false} ErrorSnoc(items: seq<CheckItem>, last: CheckItem)
    ensures FirstError(items + [last]) == if FirstError(items).Some? then FirstError(items) else Complaint(last)
  {
    if items != [] {
      assert (items + [last])[1..] == items[1..] + [last];
      ErrorSnoc(items[1..], last);
    } else {
      assert ([] + [last])[1..] == [];
    }
  }

  lemma {:induction false} ErrorStands(results: seq<CheckItem>, target: string) returns (i: nat)
    requires FirstError(Filter(results, ForTarget(target))).Some?
    ensures FirstComplaint(results, target, i)
    ensures FirstError(Filter(results, ForTarget(target))) == Complaint(results[i])
  {
    var init, last := results[..|results| - 1], results[|results| - 1];
    assert results == init + [last];
    FilterSnoc(init, last, ForTarget(target));
    ErrorSnoc(Filter(init, ForTarget(target)), last);
    if FirstError(Filter(init, ForTarget(target))).Some? {
      i := ErrorStands(init, target);
    } else {
      NoError(init, target);
      i := |init|;
    }
  }

  lemma {:induction false} NoError(results: seq<CheckItem>, target: string)
    requires FirstError(Filter(results, ForTarget(target))).None?
    ensures forall i: nat :: Checked(results, target, i) ==> Complaint(results[i]).None?
  {
    if results != [] {
      var init, last := results[..|results| - 1], results[|results| - 1];
      assert results == init + [last];
      FilterSnoc(init, last, ForTarget(target));
      ErrorSnoc(Filter(init, ForTarget(target)), last);
      NoError(init, target);
    }
  }

  lemma {:induction false} ErrorExactly(results: seq<CheckItem>, target: string)
    ensures var error := FirstError(Filter(results, ForTarget(target)));
      && (error.None? <==> forall i: nat :: Checked(results, target, i) ==> Complaint(results[i]).None?)
      && (forall i: nat :: FirstComplaint(results, target, i) ==> error == Complaint(results[i]))
  {
    if FirstError(Filter(results, ForTarget(target))).None? {
      NoError(results, target);
    } else {
      var i := ErrorStands(results, target);
      forall k: nat | FirstComplaint(results, target, k) ensures k == i {}
    }
  }

  // ---------- the rows of a report ----------

  /** The row says what the report found for its target. */
  ghost predicate Says(o: ObservationRow, probe: Probe, payload: Report, now: int, freshness: int) {
    var results, target := payload.results, o.serverId;
    && (o.result == Some(Failure) <==> AnyResult(results, target, Failure))
    && (o.result == Some(NotRun) <==> !AnyResult(results, target, Failure) && !AnyResult(results, target, Success))
    && o.result.Some?
    && (o.controlInternetOk.None? <==> !Ran(results, target, "control_internet"))
    && (forall i: nat :: LastOf(results, target, "control_internet", i) ==>
          o.controlInternetOk == Some(results[i].result == Success))
    && (o.fullVpnTest <==> Ran(results, target, "handshake") && Ran(results, target, "https"))
    && (o.errorCode.None? <==> forall i: nat :: Checked(results, target, i) ==> Complaint(results[i]).None?)
    && (forall i: nat :: FirstComplaint(results, target, i) ==> o.errorCode == Complaint(results[i]))
    && o.routeVerified == Some(payload.routeVerified)
    && o.source == (match probe.kind case Pc => "pc" case Android => "mobile" case AbroadProbe => "abroad"
                    case Watchdog => "collector")
    && o.observedAt == payload.observedAt && o.freshUntil == payload.observedAt + freshness && o.receivedAt == now
    && o.reportId == Some(payload.id) && o.connections == map[]
  }

  lemma {:induction false} RowSays(probe: Probe, payload: Report, target: string, now: int, freshness: int)
    ensures Says(RowFor(probe, payload, target, now, freshness), probe, payload, now, freshness)
  {
    ResultExactly(payload.results, target);
    LastResultExactly(payload.results, target, "control_internet");
    LastResultExactly(payload.results, target, "handshake");
    LastResultExactly(payload.results, target, "https");
    ErrorExactly(payload.results, target);
  }

  lemma {:induction false} TargetsExactly(results: seq<CheckItem>)
    ensures forall t :: t in Targets(results) <==> exists i: nat :: Checked(results, t, i)
    ensures AllDiffer(Targets(results))
  {
    if results != [] {
      var init, last := results[..|results| - 1], results[|results| - 1];
      assert results == init + [last];
      TargetsExactly(init);
      forall t ensures t in Targets(results) <==> exists i: nat :: Checked(results, t, i) {
        CheckedSnoc(init, last, t);
        if t == last.targetId {
          assert Checked(results, t, |init|);
        }
        if i: nat :| Checked(init, t, i) {
          assert Checked(results, t, i);
        }
      }
    }
  }

  /** A target that first appears earlier comes earlier. */
  lemma {:induction false} TargetsInOrder(results: seq<CheckItem>, a: nat, b: nat) returns (i: nat)
    requires a < b < |Targets(results)|
    ensures Checked(results, Targets(results)[a], i)
    ensures forall k: nat :: Checked(results, Targets(results)[b], k) ==> i < k
  {
    var init, last := results[..|results| - 1], results[|results| - 1];
    assert results == init + [last];
    TargetsExactly(init);
    CheckedSnoc(init, last, Targets(results)[a]);
    CheckedSnoc(init, last, Targets(results)[b]);
    if b < |Targets(init)| {
      i := TargetsInOrder(init, a, b);
    } else {
      assert Targets(init)[a] in Targets(init);
      i :| Checked(init, Targets(init)[a], i);
    }
  }

  ghost predicate AllDiffer(names: seq<string>) {
    forall i, j :: 0 <= i < j < |names| ==> names[i] != names[j]
  }

  lemma {:induction false} DifferSnoc(init: seq<string>, last: string)
    ensures AllDiffer(init + [last]) <==> AllDiffer(init) && last !in init
  {
    var all := init + [last];
    if AllDiffer(all) {
      forall i, j | 0 <= i < j < |init| ensures init[i] != init[j] { assert all[i] != all[j]; }
      forall i | 0 <= i < |init| ensures init[i] != last { assert all[i] != all[|init|]; }
    }
  }

  lemma {:induction false} KnownDiffer(targets: seq<string>, servers: set<string>)
    requires AllDiffer(targets)
    ensures AllDiffer(Filter(targets, Known(servers)))
  {
    if targets != [] {
      var init, last := targets[..|targets| - 1], targets[|targets| - 1];
      assert targets == init + [last];
      DifferSnoc(init, last);
      KnownDiffer(init, servers);
      FilterMembers(init, Known(servers));
      DifferSnoc(Filter(init, Known(servers)), last);
    }
  }

  /** The known servers a report checked, in the order they first appear. */
  function KnownTargets(payload: Report, servers: set<string>): seq<string> {
    Filter(Targets(payload.results), Known(servers))
  }

  lemma {:induction false} KnownTargetsExactly(payload: Report, servers: set<string>)
    ensures AllDiffer(KnownTargets(payload, servers))
    ensures forall s :: s in KnownTargets(payload, servers) <==>
      s in servers && exists i: nat :: Checked(payload.results, s, i)
  {
    TargetsExactly(payload.results);
    KnownDiffer(Targets(payload.results), servers);
    FilterMembers(Targets(payload.results), Known(servers));
  }

  /** A report turns into one row for every known server it checked, each of which says what the report found. */
  lemma {:induction false} RowsSay(probe: Probe, payload: Report, servers: set<string>, now: int, freshness: int)
    ensures var rows, known := RowsOf(probe, payload, servers, now, freshness), KnownTargets(payload, servers);
      && |rows| == |known| && AllDiffer(known)
      && (forall s :: s in known <==> s in servers && exists i: nat :: Checked(payload.results, s, i))
      && (forall k :: 0 <= k < |rows| ==>
            rows[k].serverId == known[k] && Says(rows[k], probe, payload, now, freshness))
  {
    var rows, known := RowsOf(probe, payload, servers, now, freshness), KnownTargets(payload, servers);
    KnownTargetsExactly(payload, servers);
    forall k | 0 <= k < |rows| ensures Says(rows[k], probe, payload, now, freshness) {
      RowSays(probe, payload, known[k], now, freshness);
    }
  }

  // ---------- accepting a report ----------

  /** The servers a report writes a row for. */
  ghost function ServersChecked(payload: Report, servers: set<string>): set<string> {
    set s | s in servers && exists i: nat :: Checked(payload.results, s, i)
  }

  /** A known report is a duplicate when its payload is the stored one and a conflict when it is not; a new one is
      stored, with as many rows as it checks known servers. */
  lemma {:induction false} OutcomeExactly(t: Tables, probe: Probe, payload: Report, servers: set<string>, now: int,
                                          freshness: int)
    ensures var (after, outcome) := Accepted(t, probe, payload, servers, now, freshness);
            var known := payload.id in t.reports;
      && (outcome == Duplicate <==> known && t.reports[payload.id].payload == payload)
      && (outcome == Conflict <==> known && t.reports[payload.id].payload != payload)
      && (outcome.Written? <==> !known)
      && (known ==> after == t)
      && (outcome.Written? ==>
            && outcome.observations == |ServersChecked(payload, servers)|
            && after.reports == t.reports[payload.id := ReportRow(probe, payload, now)])
  {
    KnownTargetsExactly(payload, servers);
    DifferentCounted(KnownTargets(payload, servers), ServersChecked(payload, servers));
  }

  lemma {:induction false} DifferentCounted(names: seq<string>, all: set<string>)
    requires AllDiffer(names) && forall s :: s in all <==> s in names
    ensures |names| == |all|
  {
    if names == [] {
      assert all == {};
    } else {
      var init, last := names[..|names| - 1], names[|names| - 1];
      assert names == init + [last];
      DifferSnoc(init, last);
      DifferentCounted(init, all - {last});
    }
  }

  // ---------- collected items ----------

  /** The row says what the collector delivered; on full tests the collector's own word counts only for the server's
      own health. */
  ghost predicate Repeats(o: ObservationRow, item: Item, now: int, freshness: int) {
    && o.serverId == item.serverId && o.source == item.source && o.result == item.result
    && o.observedAt == item.observedAt && o.freshUntil == item.observedAt + freshness && o.receivedAt == now
    && (o.fullVpnTest <==> (item.source == "collector" && item.metrics.fullVpnTest)
                           || (item.source != "collector" && item.fullVpnTest))
    && (item.source == "collector" ==> o.controlInternetOk == item.metrics.controlInternetOk)
    && (item.source != "collector" ==> o.controlInternetOk == item.controlInternetOk)
    && o.routeVerified == item.metrics.routeVerified && o.connections == item.metrics.connections
    && o.errorCode == item.errorCode && o.reportId == None
  }

  /** A collection turns into one row for every item of a known server, in order. */
  lemma {:induction false} ItemRowsRepeat(items: seq<Item>, servers: set<string>, now: int, freshness: int)
    ensures var rows, known := ItemRows(items, servers, now, freshness), Filter(items, OfServer(servers));
      && |rows| == |known| && (forall i :: 0 <= i < |rows| ==> Repeats(rows[i], known[i], now, freshness))
      && (forall item :: item in known <==> item in items && item.serverId in servers)
  {
    FilterMembers(items, OfServer(servers));
  }
}
