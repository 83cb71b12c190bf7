/** Optional values and fallible results, and filtering of sequences. */
module Prelude {
  datatype Option<+T> = None | Some(value: T)

  datatype Result<+T, +E> = Success(value: T) | Failure(error: E)

  /** The elements of `xs` that satisfy `keep`, in their order. */
  function Filter<T(!new)>(xs: seq<T>, keep: T -> bool): (ys: seq<T>)
    ensures forall x :: x in ys ==> x in xs
  {
    if xs == [] then []
    else
      var n := |xs| - 1;
      Filter(xs[..n], keep) + (if keep(xs[n]) then [xs[n]] else [])
  }

  lemma {:induction false} FilterMembers<T(!new)>(xs: seq<T>, keep: T -> bool)
    ensures forall x :: x in Filter(xs, keep) <==> x in xs && keep(x)
  {
    if xs != [] {
      var n := |xs| - 1;
      assert xs == xs[..n] + [xs[n]];
      FilterMembers(xs[..n], keep);
    }
  }

  /** The parts one after the other. */
  function Flatten<T>(parts: seq<seq<T>>): seq<T> {
    if parts == [] then [] else Flatten(parts[..|parts| - 1]) + parts[|parts| - 1]
  }

  lemma {:induction false} FlattenEmpty<T>(parts: seq<seq<T>>)
    ensures Flatten(parts) == [] <==> forall i | 0 <= i < |parts| :: parts[i] == []
  {
    if parts != [] { FlattenEmpty(parts[..|parts| - 1]); }
  }

  lemma {:induction false} FlattenMember<T>(parts: seq<seq<T>>, x: T)
    ensures x in Flatten(parts) <==> exists i :: 0 <= i < |parts| && x in parts[i]
  {
    if parts != [] { FlattenMember(parts[..|parts| - 1], x); }
  }

  lemma FlattenNext<T>(parts: seq<seq<T>>, k: nat)
    requires k < |parts|
    ensures Flatten(parts[..k + 1]) == Flatten(parts[..k]) + parts[k]
  {
    assert parts[..k + 1][..k] == parts[..k];
  }

  /** The results of `step` at 0, 1, ..., n - 1, one after the other. */
  function Collect<T>(n: nat, step: nat -> seq<T>): seq<T> {
    if n == 0 then [] else Collect(n - 1, step) + step(n - 1)
  }

  lemma {:induction false} CollectEmpty<T>(n: nat, step: nat -> seq<T>)
    ensures Collect(n, step) == [] <==> forall i: nat | i < n :: step(i) == []
  {
    if n > 0 { CollectEmpty(n - 1, step); }
  }

  lemma {:induction false} CollectMember<T>(n: nat, step: nat -> seq<T>, x: T)
    ensures x in Collect(n, step) <==> exists i: nat :: i < n && x in step(i)
  {
    if n > 0 { CollectMember(n - 1, step, x); }
  }

  function Count<T(==)>(xs: seq<T>, x: T): nat {
    multiset(xs)[x]
  }

  lemma CountAppended<T>(xs: seq<T>, ys: seq<T>, x: T)
    ensures Count(xs + ys, x) == Count(xs, x) + Count(ys, x)
  {
    assert multiset(xs + ys) == multiset(xs) + multiset(ys);
  }

  /** An element that step `k` alone produces, once or never, occurs as often in all. */
  lemma {:induction false} CountCollected<T>(n: nat, step: nat -> seq<T>, x: T, k: nat, occurs: bool)
    requires forall i: nat | i < n :: Count(step(i), x) == if i == k && occurs then 1 else 0
    ensures Count(Collect(n, step), x) == if k < n && occurs then 1 else 0
  {
    if n > 0 {
      CountCollected(n - 1, step, x, k, occurs);
      CountAppended(Collect(n - 1, step), step(n - 1), x);
    }
  }

  /** The values of `f` at 0, 1, ..., n - 1. */
  function Tabulate<T>(n: nat, f: nat -> T): (xs: seq<T>)
    ensures |xs| == n
  {
    if n == 0 then [] else Tabulate(n - 1, f) + [f(n - 1)]
  }

  lemma {:induction false} TabulateAt<T>(n: nat, f: nat -> T, i: nat)
    requires i < n
    ensures Tabulate(n, f)[i] == f(i)
  {
    if i < n - 1 { TabulateAt(n - 1, f, i); }
  }
}
