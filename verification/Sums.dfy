/** Sums of a weight over the elements of a sequence. */
module Sums {

  function Sum<T>(xs: seq<T>, w: T -> int): int {
    if xs == [] then 0 else Sum(xs[..|xs| - 1], w) + w(xs[|xs| - 1])
  }

  lemma {:induction false} SumUpdate<T>(xs: seq<T>, i: nat, x: T, w: T -> int)
    requires i < |xs|
    ensures Sum(xs[i := x], w) == Sum(xs, w) - w(xs[i]) + w(x)
  {
    var n := |xs| - 1;
    if i < n {
      SumUpdate(xs[..n], i, x, w);
      assert xs[i := x][..n] == xs[..n][i := x];
    } else {
      assert xs[i := x][..n] == xs[..n];
    }
  }

  lemma SumAppend<T>(xs: seq<T>, x: T, w: T -> int)
    ensures Sum(xs + [x], w) == Sum(xs, w) + w(x)
  {
    assert (xs + [x])[..|xs|] == xs;
  }

  lemma {:induction false} SumConst<T>(xs: seq<T>, w: T -> int, c: int)
    requires forall i :: 0 <= i < |xs| ==> w(xs[i]) == c
    ensures Sum(xs, w) == c * |xs|
    decreases |xs|
  {
    if xs != [] {
      SumConst(xs[..|xs| - 1], w, c);
    }
  }

  /** A 0/1 sum is at most the length, and reaches it exactly when every weight is 1. */
  lemma {:induction false} SumFull<T>(xs: seq<T>, w: T -> int)
    requires forall x :: w(x) == 0 || w(x) == 1
    ensures 0 <= Sum(xs, w) <= |xs|
    ensures Sum(xs, w) == |xs| <==> forall i :: 0 <= i < |xs| ==> w(xs[i]) == 1
    ensures Sum(xs, w) == 0 ==> forall i :: 0 <= i < |xs| ==> w(xs[i]) == 0
    decreases |xs|
  {
    if xs != [] {
      var n := |xs| - 1;
      SumFull(xs[..n], w);
      if Sum(xs, w) == |xs| {
        forall i | 0 <= i < |xs| ensures w(xs[i]) == 1 {
          if i < n { assert xs[..n][i] == xs[i]; }
        }
      }
      if Sum(xs, w) == 0 {
        forall i | 0 <= i < |xs| ensures w(xs[i]) == 0 {
          if i < n { assert xs[..n][i] == xs[i]; }
        }
      }
    }
  }

  lemma {:induction false} SumNonNegative<T>(xs: seq<T>, w: T -> int)
    requires forall x :: w(x) >= 0
    ensures Sum(xs, w) >= 0
    decreases |xs|
  {
    if xs != [] {
      SumNonNegative(xs[..|xs| - 1], w);
    }
  }

  lemma {:induction false} SumConcat<T>(xs: seq<T>, ys: seq<T>, w: T -> int)
    ensures Sum(xs + ys, w) == Sum(xs, w) + Sum(ys, w)
    decreases |ys|
  {
    if ys == [] {
      assert xs + ys == xs;
    } else {
      var n := |ys| - 1;
      assert (xs + ys)[..|xs + ys| - 1] == xs + ys[..n];
      SumConcat(xs, ys[..n], w);
    }
  }
}
