/** Counting over a sequence: the sum of f(x, k) over its elements, for one key k. */
module Counting {

  function Total<T>(f: (T, nat) -> nat, xs: seq<T>, k: nat): nat
  {
    if xs == [] then 0 else Total(f, xs[..|xs| - 1], k) + f(xs[|xs| - 1], k)
  }

  /** Replacing one element exchanges its contribution and touches nothing else. */
  lemma {:induction false} TotalUpdate<T>(f: (T, nat) -> nat, xs: seq<T>, k: nat, i: nat, x: T)
    requires i < |xs|
    ensures Total(f, xs[i := x], k) + f(xs[i], k) == Total(f, xs, k) + f(x, k)
  {
    var n := |xs| - 1;
    if i < n {
      TotalUpdate(f, xs[..n], k, i, x);
      assert xs[i := x][..n] == xs[..n][i := x];
    } else {
      assert xs[i := x][..n] == xs[..n];
    }
  }

  /** Two elements at different places both contribute. */
  lemma {:induction false} TotalHasBoth<T>(f: (T, nat) -> nat, xs: seq<T>, k: nat, i: nat, j: nat)
    requires i < j < |xs|
    ensures f(xs[i], k) + f(xs[j], k) <= Total(f, xs, k)
  {
    var n := |xs| - 1;
    if j < n {
      TotalHasBoth(f, xs[..n], k, i, j);
    } else {
      TotalHas(f, xs[..n], k, i);
    }
  }

  lemma {:induction false} TotalHas<T>(f: (T, nat) -> nat, xs: seq<T>, k: nat, i: nat)
    requires i < |xs|
    ensures f(xs[i], k) <= Total(f, xs, k)
  {
    var n := |xs| - 1;
    if i < n {
      TotalHas(f, xs[..n], k, i);
    }
  }

  /** A positive total has a positive contribution. */
  lemma {:induction false} TotalFrom<T>(f: (T, nat) -> nat, xs: seq<T>, k: nat) returns (i: nat)
    requires Total(f, xs, k) > 0
    ensures i < |xs| && f(xs[i], k) > 0
  {
    var n := |xs| - 1;
    if f(xs[n], k) > 0 {
      i := n;
    } else {
      i := TotalFrom(f, xs[..n], k);
    }
  }

  /** If nothing contributes, the total is zero. */
  lemma {:induction false} TotalZero<T>(f: (T, nat) -> nat, xs: seq<T>, k: nat)
    requires forall i :: 0 <= i < |xs| ==> f(xs[i], k) == 0
    ensures Total(f, xs, k) == 0
  {
    if Total(f, xs, k) > 0 {
      var i := TotalFrom(f, xs, k);
      assert false;
    }
  }

  /** Totals follow their contributions: g is nowhere more than d above f. */
  lemma {:induction false} TotalWithin<T>(f: (T, nat) -> nat, g: (T, nat) -> nat, xs: seq<T>, k: nat, d: nat)
    requires forall i :: 0 <= i < |xs| ==> g(xs[i], k) <= f(xs[i], k) + d
    ensures Total(g, xs, k) <= Total(f, xs, k) + d * |xs|
  {
    if xs != [] {
      var n := |xs| - 1;
      TotalWithin(f, g, xs[..n], k, d);
      assert d * |xs| == d * n + d;
    }
  }
}
