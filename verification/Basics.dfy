/** Optional values, bits, maps without a key, sequences without repetition. */
module Basics {
  datatype Option<+T> = None | Some(value: T)

  /** A map without one of its keys. */
  function Without<V>(m: map<string, V>, k: string): map<string, V> {
    map x | x in m && x != k :: m[x]
  }

  function Bit(b: bool): nat { if b then 1 else 0 }

  ghost function Set<T>(xs: seq<T>): set<T> {
    set x | x in xs
  }

  ghost predicate NoDup<T>(xs: seq<T>) {
    forall i, j :: 0 <= i < j < |xs| ==> xs[i] != xs[j]
  }

  lemma SetConcat<T>(xs: seq<T>, ys: seq<T>)
    ensures Set(xs + ys) == Set(xs) + Set(ys)
    ensures NoDup(xs) && NoDup(ys) && Set(xs) !! Set(ys) ==> NoDup(xs + ys)
  {
    if NoDup(xs) && NoDup(ys) && Set(xs) !! Set(ys) {
      forall i, j | 0 <= i < j < |xs + ys| ensures (xs + ys)[i] != (xs + ys)[j] {
        if i < |xs| <= j { assert xs[i] in Set(xs) && ys[j - |xs|] in Set(ys); }
      }
    }
  }

  lemma SetLast<T>(xs: seq<T>)
    requires xs != [] && NoDup(xs)
    ensures Set(xs[..|xs| - 1]) == Set(xs) - {xs[|xs| - 1]} && NoDup(xs[..|xs| - 1])
  {
    var n := |xs| - 1;
    assert xs == xs[..n] + [xs[n]];
    SetConcat(xs[..n], [xs[n]]);
    assert xs[n] !in xs[..n];
  }

  lemma {:induction false} NoDupSize<T>(xs: seq<T>)
    requires NoDup(xs)
    ensures |Set(xs)| == |xs|
  {
    if xs != [] {
      SetLast(xs);
      NoDupSize(xs[..|xs| - 1]);
    }
  }

  /** Ranging over a map: its keys in some order, each once. */
  method Listing<T(==)>(keys: set<T>) returns (ks: seq<T>)
    ensures NoDup(ks) && Set(ks) == keys
  {
    ks := [];
    var todo := keys;
    while todo != {}
      invariant todo <= keys && NoDup(ks) && Set(ks) == keys - todo
      decreases |todo|
    {
      var k :| k in todo;
      SetConcat(ks, [k]);
      ks := ks + [k];
      todo := todo - {k};
    }
  }
}
