/** Sums over a sequence of threads, and how they change when one thread moves. */
module Counting {

  ghost function Total<T>(xs: seq<T>, f: T -> nat): nat {
    if xs == [] then 0 else Total(xs[..|xs| - 1], f) + f(xs[|xs| - 1])
  }

  lemma {:induction false} TotalUpdate<T>(xs: seq<T>, f: T -> nat, i: nat, x: T)
    requires i < |xs|
    ensures Total(xs[i := x], f) == Total(xs, f) - f(xs[i]) + f(x)
    ensures f(xs[i]) <= Total(xs, f)
  {
    var n := |xs| - 1;
    if i == n {
      assert xs[i := x][..n] == xs[..n];
    } else {
      assert xs[i := x][..n] == xs[..n][i := x];
      TotalUpdate(xs[..n], f, i, x);
    }
  }

  lemma {:induction false} TotalZero<T>(xs: seq<T>, f: T -> nat)
    requires forall i :: 0 <= i < |xs| ==> f(xs[i]) == 0
    ensures Total(xs, f) == 0
  {
    if xs != [] {
      TotalZero(xs[..|xs| - 1], f);
    }
  }

  lemma {:induction false} TotalPositive<T>(xs: seq<T>, f: T -> nat) returns (i: nat)
    requires 0 < Total(xs, f)
    ensures i < |xs| && 0 < f(xs[i])
  {
    i := |xs| - 1;
    if f(xs[i]) == 0 {
      i := TotalPositive(xs[..|xs| - 1], f);
    }
  }

  lemma {:induction false} TotalAtMost<T>(xs: seq<T>, f: T -> nat)
    requires forall i :: 0 <= i < |xs| ==> f(xs[i]) <= 1
    ensures Total(xs, f) <= |xs|
  {
    if xs != [] {
      TotalAtMost(xs[..|xs| - 1], f);
    }
  }
}
