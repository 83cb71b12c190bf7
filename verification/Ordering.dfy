/**
 Sorted arrangements of finite sets. A strict total order has exactly one
 sorted arrangement of a set, so `Arrange` stands for any correct sort:
 `sort.Strings` on map keys and the `ORDER BY` clauses of the queries.
 */
module Ordering {
  import opened Prelude

  ghost predicate StrictTotalOrder<T(!new)>(less: (T, T) -> bool) {
    && (forall x :: !less(x, x))
    && (forall x, y, z :: less(x, y) && less(y, z) ==> less(x, z))
    && (forall x, y :: x != y ==> less(x, y) || less(y, x))
  }

  ghost predicate Sorted<T>(less: (T, T) -> bool, xs: seq<T>) {
    forall i, j | 0 <= i < j < |xs| :: less(xs[i], xs[j])
  }

  ghost function Elements<T>(xs: seq<T>): set<T> {
    set x | x in xs
  }

  predicate IsFirst<T(==)>(less: (T, T) -> bool, items: set<T>, m: T) {
    m in items && forall x :: x in items && x != m ==> less(m, x)
  }

  lemma FirstExists<T(!new)>(less: (T, T) -> bool, items: set<T>)
    requires StrictTotalOrder(less) && items != {}
    ensures exists m :: IsFirst(less, items, m)
    decreases |items|
  {
    var a :| a in items;
    if items == {a} {
      assert IsFirst(less, items, a);
    } else {
      var rest := items - {a};
      FirstExists(less, rest);
      var m :| IsFirst(less, rest, m);
      var least := if less(a, m) then a else m;
      forall x | x in items && x != least ensures less(least, x) {
        assert x == a || x in rest;
      }
      assert IsFirst(less, items, least);
    }
  }

  /** The elements of `items` in increasing order. */
  function Arrange<T(==, !new)>(less: (T, T) -> bool, items: set<T>): (xs: seq<T>)
    requires StrictTotalOrder(less)
    ensures Sorted(less, xs)
    ensures forall x :: x in xs <==> x in items
    ensures |xs| == |items|
    decreases |items|
  {
    if items == {} then []
    else
      FirstExists(less, items);
      var m :| IsFirst(less, items, m);
      [m] + Arrange(less, items - {m})
  }

  ghost predicate Distinct<T>(xs: seq<T>) {
    forall i, j | 0 <= i < j < |xs| :: xs[i] != xs[j]
  }

  lemma {:induction false} DistinctSize<T>(xs: seq<T>)
    requires Distinct(xs)
    ensures |Elements(xs)| == |xs|
  {
    if xs != [] {
      var n := |xs| - 1;
      var front := xs[..n];
      DistinctSize(front);
      assert xs == front + [xs[n]];
      assert Elements(xs) == Elements(front) + {xs[n]};
    }
  }

  lemma SortedSize<T(!new)>(less: (T, T) -> bool, xs: seq<T>)
    requires StrictTotalOrder(less) && Sorted(less, xs)
    ensures |Elements(xs)| == |xs|
  {
    assert forall x :: !less(x, x);
    DistinctSize(xs);
  }

  /** A set has only one sorted arrangement. */
  lemma {:induction false} SortedUnique<T(!new)>(less: (T, T) -> bool, xs: seq<T>, ys: seq<T>)
    requires StrictTotalOrder(less) && Sorted(less, xs) && Sorted(less, ys)
    requires forall x :: x in xs <==> x in ys
    ensures xs == ys
  {
    SortedSize(less, xs);
    SortedSize(less, ys);
    assert Elements(xs) == Elements(ys);
    if xs != [] {
      assert xs[0] in ys;
      assert ys[0] in xs;
      assert xs[0] == ys[0];
      forall x ensures x in xs[1..] <==> x in ys[1..] {
        assert x in xs[1..] <==> x in xs && x != xs[0];
        assert x in ys[1..] <==> x in ys && x != ys[0];
      }
      SortedUnique(less, xs[1..], ys[1..]);
    }
  }

  lemma {:induction false} FilterSorted<T(!new)>(less: (T, T) -> bool, xs: seq<T>, keep: T -> bool)
    requires Sorted(less, xs)
    ensures Sorted(less, Filter(xs, keep))
  {
    if xs != [] {
      var n := |xs| - 1;
      var front := Filter(xs[..n], keep);
      FilterSorted(less, xs[..n], keep);
      FilterMembers(xs[..n], keep);
      forall i | 0 <= i < |front| ensures less(front[i], xs[n]) {
        assert front[i] in xs[..n];
      }
    }
  }

  /** Selecting before sorting equals sorting before selecting. */
  lemma ArrangeFilter<T(!new)>(less: (T, T) -> bool, items: set<T>, keep: T -> bool, chosen: set<T>)
    requires StrictTotalOrder(less)
    requires forall x :: x in chosen <==> x in items && keep(x)
    ensures Arrange(less, chosen) == Filter(Arrange(less, items), keep)
  {
    FilterSorted(less, Arrange(less, items), keep);
    FilterMembers(Arrange(less, items), keep);
    SortedUnique(less, Arrange(less, chosen), Filter(Arrange(less, items), keep));
  }

  /** An element's position is the number of elements that precede it in the order. */
  lemma PositionCounts<T(!new)>(less: (T, T) -> bool, xs: seq<T>, k: nat, before: set<T>)
    requires StrictTotalOrder(less) && Sorted(less, xs) && k < |xs|
    requires forall x :: x in before <==> x in xs && less(x, xs[k])
    ensures |before| == k
  {
    var front := xs[..k];
    assert forall i | k <= i < |xs| :: !less(xs[i], xs[k]);
    assert before == Elements(front);
    SortedSize(less, front);
  }
}
