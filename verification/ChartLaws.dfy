/** What a point of a chart says, in terms of the entries and observations of its slot alone. */
module ChartLaws {
  import opened Domain
  import opened Sequences
  import opened Notifications
  import opened ReadModel
  import opened Views

  /** The entries of the slot that carry a value, and what they add up to. */
  function Valued(entries: seq<Entry>, lo: int, hi: int): set<nat> {
    set i: nat | i < |entries| && lo <= entries[i].at < hi && entries[i].value.Some?
  }

  function SumIn(entries: seq<Entry>, lo: int, hi: int): real {
    if entries == [] then 0.0
    else
      var rest, last := SumIn(entries[..|entries| - 1], lo, hi), entries[|entries| - 1];
      if lo <= last.at < hi && last.value.Some? then rest + last.value.value else rest
  }

  /** The whole number whose neighbourhood, from half below to less than half above, holds the mean. */
  ghost predicate Averages(mean: int, n: nat, sum: real) {
    (mean as real - 0.5) * n as real <= sum < (mean as real + 0.5) * n as real
  }

  lemma {:induction false} ValuedSnoc(init: seq<Entry>, last: Entry, lo: int, hi: int)
    ensures Valued(init + [last], lo, hi)
         == Valued(init, lo, hi) + if lo <= last.at < hi && last.value.Some? then {|init|} else {}
    ensures |init| !in Valued(init, lo, hi)
  {
  }

  lemma {:induction false} TotalSnoc(values: seq<real>, v: real)
    ensures Total(values + [v]) == Total(values) + v
  {
    assert (values + [v])[..|values|] == values;
  }

  lemma {:induction false} ValuesSnoc(init: seq<Entry>, last: Entry, lo: int, hi: int)
    ensures var more := if lo <= last.at < hi && last.value.Some? then [last.value.value] else [];
      && ValuesIn(init + [last], lo, hi) == ValuesIn(init, lo, hi) + more
      && SumIn(init + [last], lo, hi) == SumIn(init, lo, hi) + if more == [] then 0.0 else more[0]
  {
    assert (init + [last])[..|init|] == init;
  }

  lemma {:induction false} ValuesCounted(entries: seq<Entry>, lo: int, hi: int)
    ensures |ValuesIn(entries, lo, hi)| == |Valued(entries, lo, hi)|
    ensures Total(ValuesIn(entries, lo, hi)) == SumIn(entries, lo, hi)
  {
    if entries != [] {
      var init, last := entries[..|entries| - 1], entries[|entries| - 1];
      assert entries == init + [last];
      ValuesCounted(init, lo, hi);
      ValuedSnoc(init, last, lo, hi);
      ValuesSnoc(init, last, lo, hi);
      if lo <= last.at < hi && last.value.Some? {
        TotalSnoc(ValuesIn(init, lo, hi), last.value.value);
      }
    }
  }

  lemma {:induction false} MeanRounds(values: seq<real>, n: nat)
    requires |values| == n
    ensures Average(values).None? <==> n == 0
    ensures n > 0 ==> Averages(Average(values).value, n, Total(values))
  {
    if n > 0 {
      FloorRounds(Total(values) / n as real, n as real, Total(values), Average(values).value);
    }
  }

  lemma {:induction false} FloorRounds(mean: real, n: real, sum: real, rounded: int)
    requires n > 0.0 && mean == sum / n && rounded == (mean + 0.5).Floor
    ensures (rounded as real - 0.5) * n <= sum < (rounded as real + 0.5) * n
  {
    assert sum == mean * n;
    var below, above := rounded as real - 0.5, rounded as real + 0.5;
    Scaled(below, mean, n, below * n, sum);
    Scaled(mean, above, n, sum, above * n);
  }

  lemma {:induction false} Scaled(a: real, b: real, n: real, an: real, bn: real)
    requires n > 0.0 && an == a * n && bn == b * n
    ensures a <= b ==> an <= bn
    ensures a < b ==> an < bn
  {
    assert bn - an == (b - a) * n;
  }

  lemma {:induction false} WholeGap(a: int, b: int, above: real, below: real)
    requires above == a as real + 0.5 && below == b as real - 0.5
    ensures above <= below <==> a < b
  {
  }

  lemma {:induction false} BelowAbove(a: int, b: int, n: nat, above: real, below: real)
    requires n > 0 && above == (a as real + 0.5) * n as real && below == (b as real - 0.5) * n as real
    ensures a < b ==> above <= below
  {
    WholeGap(a, b, a as real + 0.5, b as real - 0.5);
    Scaled(a as real + 0.5, b as real - 0.5, n as real, above, below);
  }

  lemma {:induction false} NoLess(a: int, b: int, sum: real, above: real, below: real)
    requires (a < b ==> above <= below) && below <= sum < above
    ensures a >= b
  {
  }

  lemma {:induction false} AveragesNoLess(a: int, b: int, n: nat, sum: real)
    requires n > 0 && Averages(a, n, sum) && Averages(b, n, sum)
    ensures a >= b
  {
    var above, below := (a as real + 0.5) * n as real, (b as real - 0.5) * n as real;
    BelowAbove(a, b, n, above, below);
    NoLess(a, b, sum, above, below);
  }

  lemma {:induction false} AveragesOne(a: int, b: int, n: nat, sum: real)
    requires n > 0 && Averages(a, n, sum) && Averages(b, n, sum)
    ensures a == b
  {
    AveragesNoLess(a, b, n, sum);
    AveragesNoLess(b, a, n, sum);
  }

  /** A point stands at the end of its slot; it was seen exactly when something was observed in the slot, and then
      shows the state one second before the end; it has a number exactly when some entry of the slot carries a value,
      and exactly the mean of those values, rounded half up. */
  lemma {:induction false} PointExactly(s: Store, scope: string, observed: seq<int>, entries: seq<Entry>, lo: int,
                                        hi: int, now: int, mean: int)
    ensures var p, rows := PointOf(s, scope, observed, entries, lo, hi, now), LogOf(s, scope);
            var valued := Valued(entries, lo, hi);
      && p.at == hi
      && (p.seen <==> exists at :: at in observed && lo <= at < hi)
      && p.state == (if p.seen then Shown(rows, Initial(rows, CurrentState(s, scope, now)), First(observed),
                                          hi - 1_000_000)
                     else Unknown)
      && (p.connections.None? <==> valued == {})
      && (p.connections == Some(mean) <==> valued != {} && Averages(mean, |valued|, SumIn(entries, lo, hi)))
  {
    var values, valued := ValuesIn(entries, lo, hi), Valued(entries, lo, hi);
    var n := |valued|;
    assert n == 0 <==> valued == {};
    ValuesCounted(entries, lo, hi);
    MeanRounds(values, n);
    if n > 0 && Averages(mean, n, SumIn(entries, lo, hi)) {
      AveragesOne(mean, Average(values).value, n, Total(values));
    }
    SeenExactly(observed, lo, hi);
  }

  lemma {:induction false} SeenExactly(observed: seq<int>, lo: int, hi: int)
    ensures SeenIn(observed, lo, hi) <==> exists at :: at in observed && lo <= at < hi
  {
    if at :| at in observed && lo <= at < hi {
      var i :| 0 <= i < |observed| && observed[i] == at;
      assert Views.InSlot(observed[i], lo, hi);
    }
    if SeenIn(observed, lo, hi) {
      var i :| 0 <= i < |observed| && Views.InSlot(observed[i], lo, hi);
      assert observed[i] in observed;
    }
  }
}
