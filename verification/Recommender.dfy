/** Choosing the recommended server. Server ids are integers here: only their total order matters. */
module Recommender {
  import opened Domain
  import opened Sequences

  predicate Eligible(c: ServerCandidate) {
    c.evaluation.state == Operational && c.evaluation.coverage > 0.0 && c.completeProtocolCoverage
  }

  function EligibleOnes(): ServerCandidate -> bool { (c: ServerCandidate) => Eligible(c) }

  /** The ranking: known load before unknown, then lower load, higher priority, smaller id. */
  predicate Before(a: ServerCandidate, b: ServerCandidate) {
    if a.loadScore.None? != b.loadScore.None? then b.loadScore.None?
    else if a.loadScore.Some? && a.loadScore != b.loadScore then a.loadScore.value < b.loadScore.value
    else if a.priority != b.priority then a.priority > b.priority
    else a.serverId < b.serverId
  }

  /** The first of the best-ranked candidates, which is where a stable sort puts it. */
  function Best(items: seq<ServerCandidate>): (best: ServerCandidate)
    requires items != []
    ensures best in items
    ensures forall c :: c in items ==> !Before(c, best)
  {
    var last := items[|items| - 1];
    assert items == items[..|items| - 1] + [last];
    if |items| == 1 then last
    else
      var rest := Best(items[..|items| - 1]);
      if Before(last, rest) then last else rest
  }

  function WithId(items: seq<ServerCandidate>, id: int): (found: Option<ServerCandidate>)
    ensures found.Some? ==> found.value in items && found.value.serverId == id
    ensures found.None? ==> forall c :: c in items ==> c.serverId != id
  {
    if items == [] then None
    else if items[0].serverId == id then Some(items[0])
    else WithId(items[1..], id)
  }

  function Recommend(candidates: seq<ServerCandidate>, previousServerId: Option<int>): Option<int> {
    var eligible := Filter(candidates, EligibleOnes());
    if eligible == [] then None
    else
      var best := Best(eligible);
      var previous := if previousServerId.Some? then WithId(eligible, previousServerId.value) else None;
      if previous.Some? && KeepsPlace(previous.value, best) then Some(previous.value.serverId) else Some(best.serverId)
  }

  predicate KeepsPlace(previous: ServerCandidate, best: ServerCandidate) {
    previous.loadScore.None? || best.loadScore.None? || previous.loadScore.value <= best.loadScore.value * 1.10
  }

  // ---------- what is promised ----------

  lemma {:induction false} RecommendsEligibleOrNothing(candidates: seq<ServerCandidate>, previousServerId: Option<int>)
    ensures var r := Recommend(candidates, previousServerId);
      && (r.None? <==> forall c :: c in candidates ==> !Eligible(c))
      && (r.Some? ==> exists c :: c in candidates && Eligible(c) && c.serverId == r.value)
  {
    FilterMembers(candidates, EligibleOnes());
    var eligible := Filter(candidates, EligibleOnes());
    if eligible == [] {
      forall c | c in candidates ensures !Eligible(c) {
        assert EligibleOnes()(c) ==> c in eligible;
      }
    } else {
      var best := Best(eligible);
      assert best in candidates && EligibleOnes()(best);
    }
  }

  /** A known recommended load is within ten percent of every known eligible load. */
  lemma {:induction false} LoadWithinTenPercent(candidates: seq<ServerCandidate>, previousServerId: Option<int>)
    returns (chosen: ServerCandidate)
    requires exists c :: c in candidates && Eligible(c)
    requires forall c :: c in candidates && c.loadScore.Some? ==> c.loadScore.value >= 0.0
    ensures chosen in candidates && Eligible(chosen)
    ensures Recommend(candidates, previousServerId) == Some(chosen.serverId)
    ensures chosen.loadScore.Some? ==>
      forall c :: c in candidates && Eligible(c) && c.loadScore.Some? ==>
          chosen.loadScore.value <= c.loadScore.value * 1.10
  {
    FilterMembers(candidates, EligibleOnes());
    var eligible := Filter(candidates, EligibleOnes());
    var some :| some in candidates && Eligible(some);
    assert EligibleOnes()(some);
    assert some in eligible;
    var best := Best(eligible);
    var previous := if previousServerId.Some? then WithId(eligible, previousServerId.value) else None;
    chosen := if previous.Some? && KeepsPlace(previous.value, best) then previous.value else best;
    assert chosen in eligible && EligibleOnes()(chosen);
    forall c | c in candidates && Eligible(c) && c.loadScore.Some? && chosen.loadScore.Some?
      ensures chosen.loadScore.value <= c.loadScore.value * 1.10
    {
      assert EligibleOnes()(c);
      assert c in eligible && !Before(c, best);
      assert best.loadScore.Some? && best.loadScore.value <= c.loadScore.value;
    }
  }

  /** The answer is a fixed point: fed back as the previous server it is given again. */
  lemma {:induction false} AnswerIsStable(candidates: seq<ServerCandidate>, previousServerId: Option<int>)
    ensures var r := Recommend(candidates, previousServerId);
            r.Some? ==> Recommend(candidates, r) == r
  {
  }

  lemma {:induction false} BestOfPermutation(a: seq<ServerCandidate>, b: seq<ServerCandidate>)
    requires a != [] && b != []
    requires forall c :: c in a ==> c in b
    requires forall c :: c in b ==> c in a
    requires forall c, d :: c in a && d in a && c.serverId == d.serverId ==> c == d
    ensures Best(a) == Best(b)
  {
  }

  /** With distinct ids the listing order of the candidates is irrelevant. */
  lemma {:induction false} CandidateOrderIrrelevant(a: seq<ServerCandidate>, b: seq<ServerCandidate>,
                                                    previousServerId: Option<int>)
    requires multiset(a) == multiset(b)
    requires forall c, d :: c in a && d in a && c.serverId == d.serverId ==> c == d
    ensures Recommend(a, previousServerId) == Recommend(b, previousServerId)
  {
    FilterPermutation(a, b, EligibleOnes());
    FilterMembers(a, EligibleOnes());
    var ea, eb := Filter(a, EligibleOnes()), Filter(b, EligibleOnes());
    forall c | c in ea ensures c in eb { assert c in multiset(ea); }
    forall c | c in eb ensures c in ea { assert c in multiset(eb); }
    if ea != [] {
      BestOfPermutation(ea, eb);
    }
  }

  // ---------- which one it is ----------

  /** Known load before unknown, then lower load, higher priority, smaller id. */
  ghost predicate Ahead(a: ServerCandidate, b: ServerCandidate) {
    || (a.loadScore.Some? && b.loadScore.None?)
    || (a.loadScore.Some? && b.loadScore.Some? && a.loadScore.value < b.loadScore.value)
    || (a.loadScore == b.loadScore && a.priority > b.priority)
    || (a.loadScore == b.loadScore && a.priority == b.priority && a.serverId < b.serverId)
  }

  /** Operational, with some evidence, over every protocol. */
  ghost predicate OnOffer(candidates: seq<ServerCandidate>, c: ServerCandidate) {
    && c in candidates && c.evaluation.state == Operational && c.evaluation.coverage > 0.0
    && c.completeProtocolCoverage
  }

  ghost predicate LeadsAll(candidates: seq<ServerCandidate>, c: ServerCandidate) {
    OnOffer(candidates, c) && forall d :: OnOffer(candidates, d) ==> !Ahead(d, c)
  }

  /** The previous choice, still on offer, and not known to carry over a tenth more than the best. */
  ghost predicate StaysChosen(candidates: seq<ServerCandidate>, previousServerId: Option<int>, c: ServerCandidate,
                              best: ServerCandidate)
  {
    && OnOffer(candidates, c) && previousServerId == Some(c.serverId)
    && (c.loadScore.Some? && best.loadScore.Some? ==> 10.0 * c.loadScore.value <= 11.0 * best.loadScore.value)
  }

  ghost predicate Picks(candidates: seq<ServerCandidate>, previousServerId: Option<int>, c: ServerCandidate,
                        best: ServerCandidate)
  {
    && LeadsAll(candidates, best)
    && (StaysChosen(candidates, previousServerId, c, best)
        || (c == best && forall p :: !StaysChosen(candidates, previousServerId, p, best)))
  }

  lemma {:induction false} PickIsAnswer(candidates: seq<ServerCandidate>, previousServerId: Option<int>,
                                        c: ServerCandidate, best: ServerCandidate)
    requires forall a, b :: a in candidates && b in candidates && a.serverId == b.serverId ==> a == b
    requires Picks(candidates, previousServerId, c, best)
    ensures Recommend(candidates, previousServerId) == Some(c.serverId)
  {
    FilterMembers(candidates, EligibleOnes());
    var eligible := Filter(candidates, EligibleOnes());
    assert EligibleOnes()(best) && best in eligible;
    var found := Best(eligible);
    assert EligibleOnes()(found) && !Before(best, found) && !Ahead(found, best);
    assert found == best;
    if StaysChosen(candidates, previousServerId, c, best) {
      assert EligibleOnes()(c) && c in eligible;
    } else {
      var previous := if previousServerId.Some? then WithId(eligible, previousServerId.value) else None;
      if previous.Some? {
        assert EligibleOnes()(previous.value);
        assert !StaysChosen(candidates, previousServerId, previous.value, best);
      }
    }
  }

  /** Something on offer means that some candidate is picked. */
  lemma {:induction false} SomeIsPicked(candidates: seq<ServerCandidate>, previousServerId: Option<int>)
    returns (c: ServerCandidate, best: ServerCandidate)
    requires exists d :: OnOffer(candidates, d)
    ensures Picks(candidates, previousServerId, c, best)
  {
    FilterMembers(candidates, EligibleOnes());
    var eligible := Filter(candidates, EligibleOnes());
    var d :| OnOffer(candidates, d);
    assert EligibleOnes()(d) && d in eligible;
    best := Best(eligible);
    assert EligibleOnes()(best);
    forall e | OnOffer(candidates, e) ensures !Ahead(e, best) {
      assert EligibleOnes()(e) && e in eligible && !Before(e, best);
    }
    if p :| StaysChosen(candidates, previousServerId, p, best) {
      c := p;
    } else {
      c := best;
    }
  }

  /** With distinct ids a server is recommended if and only if it is the previous choice and may stay, or it may not
      and this one is the candidate on offer that no other is ranked ahead of. */
  lemma {:induction false} ChosenExactly(candidates: seq<ServerCandidate>, previousServerId: Option<int>, id: int)
    requires forall a, b :: a in candidates && b in candidates && a.serverId == b.serverId ==> a == b
    ensures Recommend(candidates, previousServerId) == Some(id)
       <==> exists c, best :: Picks(candidates, previousServerId, c, best) && c.serverId == id
  {
    if c, best :| Picks(candidates, previousServerId, c, best) && c.serverId == id {
      PickIsAnswer(candidates, previousServerId, c, best);
    }
    if Recommend(candidates, previousServerId) == Some(id) {
      RecommendsEligibleOrNothing(candidates, previousServerId);
      var d :| d in candidates && Eligible(d);
      assert OnOffer(candidates, d);
      var c, best := SomeIsPicked(candidates, previousServerId);
      PickIsAnswer(candidates, previousServerId, c, best);
    }
  }
}
