/** Filtering and stable sorting of sequences, as SQL's WHERE / ORDER BY and Python's comprehensions
    and `sorted` use them. Both recurse on the last element, because tables and histories grow there. */
module Sequences {
  function Filter<T>(xs: seq<T>, keep: T -> bool): (ys: seq<T>)
    ensures |ys| <= |xs|
  {
    if xs == [] then []
    else
      var rest := Filter(xs[..|xs| - 1], keep);
      if keep(xs[|xs| - 1]) then rest + [xs[|xs| - 1]] else rest
  }

  lemma {:induction false} FilterSnoc<T>(xs: seq<T>, x: T, keep: T -> bool)
    ensures Filter(xs + [x], keep) == if keep(x) then Filter(xs, keep) + [x] else Filter(xs, keep)
  {
  }

  lemma {:induction false} FilterMembers<T>(xs: seq<T>, keep: T -> bool)
    ensures forall x :: x in Filter(xs, keep) ==> x in xs && keep(x)
    ensures forall x :: x in xs && keep(x) ==> x in Filter(xs, keep)
  {
    if xs != [] {
      var init := xs[..|xs| - 1];
      FilterMembers(init, keep);
      assert xs == init + [xs[|xs| - 1]];
    }
  }

  lemma {:induction false} FilterFinds<T>(xs: seq<T>, keep: T -> bool)
    ensures Filter(xs, keep) != [] <==> exists x :: x in xs && keep(x)
  {
    FilterMembers(xs, keep);
    if Filter(xs, keep) != [] {
      assert Filter(xs, keep)[0] in Filter(xs, keep);
    }
  }

  lemma {:induction false} FilterMultiset<T>(xs: seq<T>, keep: T -> bool)
    ensures forall x :: multiset(Filter(xs, keep))[x] == if keep(x) then multiset(xs)[x] else 0
  {
    if xs != [] {
      var init := xs[..|xs| - 1];
      FilterMultiset(init, keep);
      assert xs == init + [xs[|xs| - 1]];
    }
  }

  lemma {:induction false} FilterConcat<T>(xs: seq<T>, ys: seq<T>, keep: T -> bool)
    ensures Filter(xs + ys, keep) == Filter(xs, keep) + Filter(ys, keep)
  {
    if ys == [] {
      assert xs + ys == xs;
    } else {
      var init, last := ys[..|ys| - 1], ys[|ys| - 1];
      FilterConcat(xs, init, keep);
      assert xs + ys == (xs + init) + [last];
      FilterSnoc(xs + init, last, keep);
      if keep(last) {
        assert Filter(xs, keep) + Filter(ys, keep) == (Filter(xs, keep) + Filter(init, keep)) + [last];
      }
    }
  }

  lemma {:induction false} MultisetCancel<T>(a: multiset<T>, b: multiset<T>, x: T)
    requires a + multiset{x} == b + multiset{x}
    ensures a == b
  {
    assert a == (a + multiset{x}) - multiset{x};
    assert b == (b + multiset{x}) - multiset{x};
  }

  /** In a permutation the last element stands somewhere, and the rest permutes the rest. */
  lemma {:induction false} WithoutLast<T>(xs: seq<T>, ys: seq<T>) returns (front: seq<T>, back: seq<T>)
    requires multiset(xs) == multiset(ys) && xs != []
    ensures ys == front + [xs[|xs| - 1]] + back
    ensures multiset(xs[..|xs| - 1]) == multiset(front + back)
  {
    var init, last := xs[..|xs| - 1], xs[|xs| - 1];
    assert xs == init + [last];
    assert last in multiset(xs);
    var j :| 0 <= j < |ys| && ys[j] == last;
    front, back := ys[..j], ys[j + 1..];
    assert ys == front + [last] + back;
    assert multiset(ys) == multiset(front) + multiset{last} + multiset(back);
    MultisetCancel(multiset(init), multiset(front + back), last);
  }

  /** Filtering sees only how often each element occurs, so permutations keep the same elements. */
  lemma {:induction false} FilterPermutation<T>(xs: seq<T>, ys: seq<T>, keep: T -> bool)
    requires multiset(xs) == multiset(ys)
    ensures multiset(Filter(xs, keep)) == multiset(Filter(ys, keep))
    ensures |Filter(xs, keep)| == |Filter(ys, keep)|
    decreases |xs|
  {
    assert |multiset(xs)| == |xs| && |multiset(ys)| == |ys|;
    if xs != [] {
      var last := xs[|xs| - 1];
      var front, back := WithoutLast(xs, ys);
      FilterPermutation(xs[..|xs| - 1], front + back, keep);
      FilterConcat(front, back, keep);
      FilterConcat(front + [last], back, keep);
      FilterSnoc(front, last, keep);
    }
  }

  /** Two conditions that agree on the elements select the same subsequence. */
  lemma {:induction false} FilterAgrees<T>(xs: seq<T>, p: T -> bool, q: T -> bool)
    requires forall x :: x in xs ==> p(x) == q(x)
    ensures Filter(xs, p) == Filter(xs, q)
  {
    if xs != [] {
      FilterAgrees(xs[..|xs| - 1], p, q);
    }
  }

  lemma {:induction false} FilterAll<T>(xs: seq<T>, keep: T -> bool)
    requires forall x :: x in xs ==> keep(x)
    ensures Filter(xs, keep) == xs
  {
    if xs != [] {
      FilterAll(xs[..|xs| - 1], keep);
      assert xs == xs[..|xs| - 1] + [xs[|xs| - 1]];
    }
  }

  lemma {:induction false} FilterNone<T>(xs: seq<T>, keep: T -> bool)
    requires forall x :: x in xs ==> !keep(x)
    ensures Filter(xs, keep) == []
  {
    if xs != [] {
      FilterNone(xs[..|xs| - 1], keep);
    }
  }

  /** A condition implied by a second one may be applied first without changing the outcome. */
  lemma {:induction false} FilterWeaker<T>(xs: seq<T>, weak: T -> bool, strong: T -> bool)
    requires forall x :: x in xs && strong(x) ==> weak(x)
    ensures Filter(Filter(xs, weak), strong) == Filter(xs, strong)
  {
    if xs != [] {
      var init, last := xs[..|xs| - 1], xs[|xs| - 1];
      FilterWeaker(init, weak, strong);
      FilterSnoc(Filter(init, weak), last, strong);
    }
  }

  lemma {:induction false} FilterSwap<T>(xs: seq<T>, p: T -> bool, q: T -> bool)
    ensures Filter(Filter(xs, p), q) == Filter(Filter(xs, q), p)
  {
    if xs != [] {
      var init, last := xs[..|xs| - 1], xs[|xs| - 1];
      FilterSwap(init, p, q);
      FilterSnoc(Filter(init, p), last, q);
      FilterSnoc(Filter(init, q), last, p);
    }
  }

  // ---------- sums ----------

  function Total(values: seq<real>): real {
    if values == [] then 0.0 else Total(values[..|values| - 1]) + values[|values| - 1]
  }

  // ---------- stable sorting ----------

  ghost predicate SortedBy<T>(xs: seq<T>, key: T -> int) {
    forall i, j :: 0 <= i < j < |xs| ==> key(xs[i]) <= key(xs[j])
  }

  lemma {:induction false} SortedLast<T>(xs: seq<T>, x: T, key: T -> int)
    requires SortedBy(xs, key) && x in xs
    ensures key(x) <= key(xs[|xs| - 1])
  {
  }

  function Insert<T>(xs: seq<T>, x: T, key: T -> int): (ys: seq<T>)
  {
    if xs == [] || key(xs[|xs| - 1]) <= key(x) then xs + [x]
    else Insert(xs[..|xs| - 1], x, key) + [xs[|xs| - 1]]
  }

  /** Ascending and stable: equal keys keep their original order. */
  function SortBy<T>(xs: seq<T>, key: T -> int): (ys: seq<T>)
  {
    if xs == [] then [] else Insert(SortBy(xs[..|xs| - 1], key), xs[|xs| - 1], key)
  }

  lemma {:induction false} InsertMultiset<T>(xs: seq<T>, x: T, key: T -> int)
    ensures multiset(Insert(xs, x, key)) == multiset(xs) + multiset{x}
    ensures forall y :: y in Insert(xs, x, key) ==> y in xs || y == x
  {
    if xs != [] && key(xs[|xs| - 1]) > key(x) {
      InsertMultiset(xs[..|xs| - 1], x, key);
      assert xs == xs[..|xs| - 1] + [xs[|xs| - 1]];
    }
  }

  lemma {:induction false} InsertSorts<T>(xs: seq<T>, x: T, key: T -> int)
    requires SortedBy(xs, key)
    ensures SortedBy(Insert(xs, x, key), key)
  {
    if xs == [] {
    } else if key(xs[|xs| - 1]) <= key(x) {
      forall i | 0 <= i < |xs| ensures key(xs[i]) <= key(x) {
        SortedLast(xs, xs[i], key);
      }
    } else {
      var init, last := xs[..|xs| - 1], xs[|xs| - 1];
      InsertSorts(init, x, key);
      InsertMultiset(init, x, key);
      var ys := Insert(init, x, key);
      forall i | 0 <= i < |ys| ensures key(ys[i]) <= key(last) {
        assert ys[i] in ys;
        if ys[i] != x {
          assert ys[i] in xs by { assert ys[i] in init; }
          SortedLast(xs, ys[i], key);
        }
      }
    }
  }

  lemma {:induction false} SortMultiset<T>(xs: seq<T>, key: T -> int)
    ensures multiset(SortBy(xs, key)) == multiset(xs)
    ensures |SortBy(xs, key)| == |xs|
  {
    if xs != [] {
      var init, last := xs[..|xs| - 1], xs[|xs| - 1];
      SortMultiset(init, key);
      InsertMultiset(SortBy(init, key), last, key);
      assert xs == init + [last];
    }
    assert |multiset(SortBy(xs, key))| == |SortBy(xs, key)|;
    assert |multiset(xs)| == |xs|;
  }

  lemma {:induction false} SortMembers<T>(xs: seq<T>, key: T -> int)
    ensures forall x :: x in SortBy(xs, key) ==> x in xs
    ensures forall x :: x in xs ==> x in SortBy(xs, key)
  {
    SortMultiset(xs, key);
    forall x | x in SortBy(xs, key) ensures x in xs {
      assert x in multiset(SortBy(xs, key));
    }
    forall x | x in xs ensures x in SortBy(xs, key) {
      assert x in multiset(xs);
    }
  }

  lemma {:induction false} SortSorts<T>(xs: seq<T>, key: T -> int)
    ensures SortedBy(SortBy(xs, key), key)
  {
    if xs != [] {
      SortSorts(xs[..|xs| - 1], key);
      InsertSorts(SortBy(xs[..|xs| - 1], key), xs[|xs| - 1], key);
    }
  }

  lemma {:induction false} SortOfSorted<T>(xs: seq<T>, key: T -> int)
    requires SortedBy(xs, key)
    ensures SortBy(xs, key) == xs
  {
    if xs != [] {
      SortOfSorted(xs[..|xs| - 1], key);
      assert xs == xs[..|xs| - 1] + [xs[|xs| - 1]];
    }
  }

  lemma {:induction false} FilterSorted<T>(xs: seq<T>, key: T -> int, keep: T -> bool)
    requires SortedBy(xs, key)
    ensures SortedBy(Filter(xs, keep), key)
  {
    if xs != [] {
      var init, last := xs[..|xs| - 1], xs[|xs| - 1];
      FilterSorted(init, key, keep);
      FilterMembers(init, keep);
      var ys := Filter(init, keep);
      forall i | 0 <= i < |ys| ensures key(ys[i]) <= key(last) {
        assert ys[i] in ys;
        assert ys[i] in init;
        SortedLast(xs, ys[i], key);
      }
    }
  }

  lemma {:induction false} FilterAppended<T>(xs: seq<T>, x: T, key: T -> int, keep: T -> bool)
    requires SortedBy(xs, key) && keep(x)
    requires xs == [] || key(xs[|xs| - 1]) <= key(x)
    ensures Insert(Filter(xs, keep), x, key) == Filter(xs, keep) + [x]
  {
    var ys := Filter(xs, keep);
    if ys != [] {
      FilterMembers(xs, keep);
      assert ys[|ys| - 1] in ys;
      SortedLast(xs, ys[|ys| - 1], key);
    }
  }

  lemma {:induction false} InsertBelow<T>(xs: seq<T>, x: T, last: T, key: T -> int)
    requires key(x) < key(last)
    ensures Insert(xs + [last], x, key) == Insert(xs, x, key) + [last]
  {
  }

  /** Sorting is stable, so it commutes with filtering. */
  lemma {:induction false} FilterInsert<T>(xs: seq<T>, x: T, key: T -> int, keep: T -> bool)
    requires SortedBy(xs, key)
    ensures Filter(Insert(xs, x, key), keep)
         == if keep(x) then Insert(Filter(xs, keep), x, key) else Filter(xs, keep)
  {
    if xs == [] || key(xs[|xs| - 1]) <= key(x) {
      FilterSnoc(xs, x, keep);
      if keep(x) {
        FilterAppended(xs, x, key, keep);
      }
    } else {
      var init, last := xs[..|xs| - 1], xs[|xs| - 1];
      FilterInsert(init, x, key, keep);
      FilterSnoc(Insert(init, x, key), last, keep);
      InsertBelow(Filter(init, keep), x, last, key);
    }
  }

  lemma {:induction false} FilterSort<T>(xs: seq<T>, key: T -> int, keep: T -> bool)
    ensures Filter(SortBy(xs, key), keep) == SortBy(Filter(xs, keep), key)
  {
    if xs != [] {
      var init, last := xs[..|xs| - 1], xs[|xs| - 1];
      FilterSort(init, key, keep);
      SortSorts(init, key);
      FilterInsert(SortBy(init, key), last, key, keep);
      if keep(last) {
        var ys := Filter(init, keep);
        assert (ys + [last])[..|ys|] == ys;
      }
    }
  }
}
