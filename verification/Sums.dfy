/** Sums of a weight over a sequence, how they change with one element, and sizes of sets. */
module Sums {
  ghost function Sum<T>(xs: seq<T>, g: T -> nat): nat {
    if xs == [] then 0 else Sum(xs[..|xs| - 1], g) + g(xs[|xs| - 1])
  }

  lemma SumAppend<T>(xs: seq<T>, x: T, g: T -> nat)
    ensures Sum(xs + [x], g) == Sum(xs, g) + g(x)
  {
    assert (xs + [x])[..|xs|] == xs;
  }

  lemma {:induction false} SumUpdate<T>(xs: seq<T>, i: nat, x: T, g: T -> nat)
    requires i < |xs|
    ensures Sum(xs[i := x], g) + g(xs[i]) == Sum(xs, g) + g(x)
  {
    var n := |xs| - 1;
    if i == n {
      assert xs[i := x][..n] == xs[..n];
    } else {
      assert xs[i := x][..n] == xs[..n][i := x];
      SumUpdate(xs[..n], i, x, g);
    }
  }

  lemma {:induction false} SumRemove<T>(xs: seq<T>, i: nat, g: T -> nat)
    requires i < |xs|
    ensures Sum(xs[..i] + xs[i + 1..], g) + g(xs[i]) == Sum(xs, g)
  {
    var n := |xs| - 1;
    if i == n {
      assert xs[..i] + xs[i + 1..] == xs[..n];
    } else {
      var ys := xs[..i] + xs[i + 1..];
      assert ys[..|ys| - 1] == xs[..n][..i] + xs[..n][i + 1..];
      SumRemove(xs[..n], i, g);
    }
  }

  lemma {:induction false} SumZero<T>(xs: seq<T>, g: T -> nat)
    requires forall i | 0 <= i < |xs| :: g(xs[i]) == 0
    ensures Sum(xs, g) == 0
  {
    if xs != [] {
      SumZero(xs[..|xs| - 1], g);
    }
  }

  /** A set of positions whose elements all weigh something is no larger than the sum. */
  lemma {:induction false} SumBoundsCount<T>(xs: seq<T>, g: T -> nat, s: set<nat>)
    requires forall i | i in s :: i < |xs| && g(xs[i]) >= 1
    ensures |s| <= Sum(xs, g)
  {
    if xs == [] {
      assert s == {};
    } else {
      var n := |xs| - 1;
      SumBoundsCount(xs[..n], g, s - {n});
    }
  }

  lemma {:induction false} SubsetSize(a: set<nat>, b: set<nat>)
    requires a <= b
    ensures |a| <= |b|
  {
    if a != {} {
      var x :| x in a;
      SubsetSize(a - {x}, b - {x});
    }
  }
}
