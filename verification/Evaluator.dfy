/** Evaluating one scope from its observations: `EvaluateScope` follows the program step by step,
    `Evaluate` says what it computes, and the lemmas say what that means for the evidence. */
module Evaluator {
  import opened Domain
  import opened Sequences

  // ---------- conditions on one observation ----------

  const HUMAN_ACTIVITY := "human_activity"
  const ABROAD := "abroad"

  predicate ValidFullFailure(o: Observation) {
    o.result == Failure && o.fullVpnTest && o.controlInternetOk == Some(true)
  }

  predicate ValidSuccess(o: Observation) {
    o.result == Success && (o.source == HUMAN_ACTIVITY || o.source == ABROAD || o.fullVpnTest)
  }

  predicate StrongSuccess(o: Observation) {
    ValidSuccess(o) && o.source != ABROAD
  }

  predicate RouteUsable(o: Observation) {
    o.routeVerified != Some(false)
  }

  predicate Live(o: Observation, now: int) {
    RouteUsable(o) && o.freshUntil >= now
  }

  function ByTime(): Observation -> int { (o: Observation) => o.observedAt }
  function UsableRoutes(): Observation -> bool { (o: Observation) => RouteUsable(o) }
  function FreshAt(now: int): Observation -> bool { (o: Observation) => o.freshUntil >= now }
  function LiveAt(now: int): Observation -> bool { (o: Observation) => Live(o, now) }
  function FullTestOf(source: string): Observation -> bool { (o: Observation) => o.fullVpnTest && o.source == source }

  // ---------- what is computed ----------

  /** The usable, unexpired observations in time order. */
  function Fresh(observations: seq<Observation>, now: int): seq<Observation> {
    Filter(SortBy(Filter(observations, UsableRoutes()), ByTime()), FreshAt(now))
  }

  function FullTests(live: seq<Observation>, source: string): seq<Observation> {
    Filter(live, FullTestOf(source))
  }

  /** Python's `items[-n:]`, for every integer n. */
  function Tail<T>(items: seq<T>, n: int): (tail: seq<T>) {
    if n == 0 || |items| <= n then items
    else if n > 0 then items[|items| - n..]
    else if -n <= |items| then items[-n..]
    else []
  }

  predicate TailFails(items: seq<Observation>, n: int) {
    |Tail(items, n)| == n && forall o :: o in Tail(items, n) ==> ValidFullFailure(o)
  }

  ghost predicate ConfirmedFailure(live: seq<Observation>, n: int) {
    exists source :: FullTests(live, source) != [] && TailFails(FullTests(live, source), n)
  }

  function Sources(live: seq<Observation>): set<string> {
    set o | o in live :: o.source
  }

  function Coverage(live: seq<Observation>, expectedSources: int): real {
    var share := |Sources(live)| as real / (if expectedSources > 1 then expectedSources else 1) as real;
    if share < 1.0 then share else 1.0
  }

  function Latest(times: seq<int>): (t: int)
    requires times != []
    ensures t in times
    ensures forall u :: u in times ==> u <= t
  {
    var last := times[|times| - 1];
    if |times| == 1 then last
    else
      var rest := Latest(times[..|times| - 1]);
      assert times == times[..|times| - 1] + [last];
      if rest > last then rest else last
  }

  function ObservedTimes(live: seq<Observation>): seq<int> {
    seq(|live|, i requires 0 <= i < |live| => live[i].observedAt)
  }

  function ExpiryTimes(live: seq<Observation>): seq<int> {
    seq(|live|, i requires 0 <= i < |live| => live[i].freshUntil)
  }

  /** The precedence ladder over the four facts the evidence can establish. */
  function Decide(confirmed: bool, strong: bool, success: bool, failure: bool): (State, Reason) {
    if confirmed && !strong then (Unavailable, FullTestFailureConfirmed)
    else if success && failure then (Degraded, ConflictingFreshEvidence)
    else if confirmed then (Unavailable, FullTestFailureConfirmed)
    else if success then (Operational, FullSuccessConfirmed)
    else if failure then (Degraded, PartialOrUnconfirmedFailure)
    else (Unknown, NoConclusiveEvidence)
  }

  ghost predicate HasStrong(items: seq<Observation>) { exists o :: o in items && StrongSuccess(o) }
  ghost predicate HasSuccess(items: seq<Observation>) { exists o :: o in items && ValidSuccess(o) }
  ghost predicate HasFailure(items: seq<Observation>) { exists o :: o in items && o.result == Failure }

  ghost function Judge(live: seq<Observation>, expectedSources: int, n: int): Evaluation {
    var coverage := Coverage(live, expectedSources);
    if live == [] then Evaluation(Unknown, NoFreshEvidence, None, None, 0, coverage)
    else
      var (state, reason) := Decide(ConfirmedFailure(live, n), HasStrong(live), HasSuccess(live), HasFailure(live));
      Evaluation(state, reason, Some(Latest(ObservedTimes(live))), Some(Latest(ExpiryTimes(live))), |live|, coverage)
  }

  ghost function Evaluate(observations: seq<Observation>, now: int, expectedSources: int, n: int): Evaluation {
    Judge(Fresh(observations, now), expectedSources, n)
  }

  // ---------- the program ----------

  /** Groups the full tests by source, keeping their order within each source. */
  method GroupFullTests(live: seq<Observation>) returns (fullBySource: map<string, seq<Observation>>)
    ensures forall s :: s in fullBySource <==> FullTests(live, s) != []
    ensures forall s :: s in fullBySource ==> fullBySource[s] == FullTests(live, s)
  {
    fullBySource := map[];
    for i := 0 to |live|
      invariant forall s :: s in fullBySource <==> FullTests(live[..i], s) != []
      invariant forall s :: s in fullBySource ==> fullBySource[s] == FullTests(live[..i], s)
    {
      var item := live[i];
      assert live[..i + 1] == live[..i] + [item];
      forall s ensures FullTests(live[..i + 1], s)
                    == if item.fullVpnTest && item.source == s then FullTests(live[..i], s) + [item]
                        else FullTests(live[..i], s) {
        FilterSnoc(live[..i], item, FullTestOf(s));
      }
      if item.fullVpnTest {
        var earlier := if item.source in fullBySource then fullBySource[item.source] else [];
        fullBySource := fullBySource[item.source := earlier + [item]];
      }
    }
    assert live[..|live|] == live;
  }

  method FailureConfirmed(live: seq<Observation>, n: int) returns (confirmed: bool)
    ensures confirmed <==> ConfirmedFailure(live, n)
  {
    var fullBySource := GroupFullTests(live);
    confirmed := false;
    var pending := fullBySource.Keys;
    while pending != {}
      invariant pending <= fullBySource.Keys
      invariant !confirmed
      invariant forall s :: s in fullBySource && s !in pending ==> !TailFails(FullTests(live, s), n)
      decreases pending
    {
      var source :| source in pending;
      pending := pending - {source};
      if TailFails(fullBySource[source], n) {
        confirmed := true;
        break;
      }
    }
  }

  lemma {:induction false} ListsDecide(live: seq<Observation>, succeeded: Observation -> bool,
                                       failed: Observation -> bool, here: Observation -> bool)
    requires forall o :: succeeded(o) == ValidSuccess(o)
    requires forall o: Observation :: failed(o) == (o.result == Failure)
    requires forall o: Observation :: here(o) == (o.source != ABROAD)
    ensures Filter(live, succeeded) != [] <==> HasSuccess(live)
    ensures Filter(live, failed) != [] <==> HasFailure(live)
    ensures Filter(Filter(live, succeeded), here) != [] <==> HasStrong(live)
  {
    FilterFinds(live, succeeded);
    FilterFinds(live, failed);
    FilterFinds(Filter(live, succeeded), here);
    FilterMembers(live, succeeded);
  }

  method EvaluateScope(observations: seq<Observation>, now: int, expectedSources: int, failureConfirmations: int)
    returns (evaluation: Evaluation)
    ensures evaluation == Evaluate(observations, now, expectedSources, failureConfirmations)
  {
    var items := SortBy(Filter(observations, UsableRoutes()), ByTime());
    var live := Filter(items, FreshAt(now));
    var coverage := Coverage(live, expectedSources);
    if live == [] {
      return Evaluation(Unknown, NoFreshEvidence, None, None, 0, coverage);
    }
    var succeeded := (o: Observation) =>
        o.result == Success && (o.source in [HUMAN_ACTIVITY, ABROAD] || o.fullVpnTest);
    var failed := (o: Observation) => o.result == Failure;
    var here := (o: Observation) => o.source != ABROAD;
    var validSuccesses := Filter(live, succeeded);
    var partialFailures := Filter(live, failed);
    var confirmed := FailureConfirmed(live, failureConfirmations);
    var strongSuccesses := Filter(validSuccesses, here);
    ListsDecide(live, succeeded, failed, here);
    var state, reason;
    if confirmed && strongSuccesses == [] {
      state, reason := Unavailable, FullTestFailureConfirmed;
    } else if validSuccesses != [] && partialFailures != [] {
      state, reason := Degraded, ConflictingFreshEvidence;
    } else if confirmed {
      state, reason := Unavailable, FullTestFailureConfirmed;
    } else if validSuccesses != [] {
      state, reason := Operational, FullSuccessConfirmed;
    } else if partialFailures != [] {
      state, reason := Degraded, PartialOrUnconfirmedFailure;
    } else {
      state, reason := Unknown, NoConclusiveEvidence;
    }
    evaluation :=
        Evaluation(state, reason, Some(Latest(ObservedTimes(live))), Some(Latest(ExpiryTimes(live))), |live|, coverage);
  }
}
