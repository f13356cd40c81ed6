/** Optional values, standing for Python's `None`-or-value returns. */
module Wrappers {

  datatype Option<+T> = None | Some(value: T) {

    /** The value, or `default` when there is none (Python's `dict.get(key, default)`). */
    function GetOr(default: T): T {
      match this
      case Some(v) => v
      case None => default
    }
  }
}

/** Facts about sequences shared by the mapping, the aggregation and the batch driver. */
module Seqs {

  /** `xs` can be obtained from `ys` by deleting elements: order is kept. */
  predicate IsSubsequence<T(==)>(xs: seq<T>, ys: seq<T>)
    decreases |ys|
  {
    if xs == [] then true
    else if ys == [] then false
    else if xs[0] == ys[0] then IsSubsequence(xs[1..], ys[1..])
    else IsSubsequence(xs, ys[1..])
  }

  /** Appending one element to the longer sequence keeps a subsequence a subsequence. */
  lemma {:induction false} SubsequenceSnoc<T>(xs: seq<T>, ys: seq<T>, y: T)
    requires IsSubsequence(xs, ys)
    ensures IsSubsequence(xs, ys + [y])
    ensures IsSubsequence(xs + [y], ys + [y])
    decreases |ys|
  {
    if xs == [] {
      SingletonSubsequence(y, ys);
      assert xs + [y] == [y];
    } else if xs[0] == ys[0] {
      SubsequenceSnoc(xs[1..], ys[1..], y);
      assert (ys + [y])[1..] == ys[1..] + [y];
      assert (xs + [y])[1..] == xs[1..] + [y];
    } else {
      SubsequenceSnoc(xs, ys[1..], y);
      assert (ys + [y])[1..] == ys[1..] + [y];
    }
  }

  lemma {:induction false} SingletonSubsequence<T>(y: T, ys: seq<T>)
    ensures IsSubsequence([y], ys + [y])
    decreases |ys|
  {
    if ys != [] {
      if ys[0] != y {
        SingletonSubsequence(y, ys[1..]);
        assert (ys + [y])[1..] == ys[1..] + [y];
      }
    }
  }

  /** Every element of a subsequence occurs in the sequence it was taken from. */
  lemma {:induction false} SubsequenceMembers<T>(xs: seq<T>, ys: seq<T>)
    requires IsSubsequence(xs, ys)
    ensures forall x :: x in xs ==> x in ys
    ensures |xs| <= |ys|
    decreases |ys|
  {
    if xs == [] {
    } else if xs[0] == ys[0] {
      SubsequenceMembers(xs[1..], ys[1..]);
      assert forall x :: x in xs ==> x == xs[0] || x in xs[1..];
    } else {
      SubsequenceMembers(xs, ys[1..]);
    }
  }

  /** No element occurs twice. */
  predicate NoDuplicates<T(==)>(xs: seq<T>) {
    forall i, j :: 0 <= i < j < |xs| ==> xs[i] != xs[j]
  }
}
