/** Joins as least upper bounds, and values that are read as points of a join semilattice. */
module Lattices {
  type Op<!L> = (L, L) -> L

  ghost predicate Commutes<L>(j: Op<L>, x: L, y: L) { j(x, y) == j(y, x) }

  ghost predicate Associates<L>(j: Op<L>, x: L, y: L, z: L) { j(j(x, y), z) == j(x, j(y, z)) }

  ghost predicate Absorbs<L>(j: Op<L>, bottom: L, x: L) { j(x, x) == x && j(bottom, x) == x }

  /** A join with an identity. */
  ghost predicate Laws<L(!new)>(j: Op<L>, bottom: L) {
    && (forall x, y :: Commutes(j, x, y))
    && (forall x, y, z :: Associates(j, x, y, z))
    && (forall x :: Absorbs(j, bottom, x))
  }

  ghost predicate Under<L>(j: Op<L>, x: L, y: L) { j(x, y) == y }

  ghost predicate Above<L(!new)>(j: Op<L>, u: L, s: iset<L>) {
    forall d :: d in s ==> Under(j, d, u)
  }

  /** The least upper bound of a set: it depends on the set only, not on order or repetition. */
  ghost predicate IsJoinOf<L(!new)>(j: Op<L>, x: L, s: iset<L>) {
    Above(j, x, s) && forall u :: Above(j, u, s) ==> Under(j, x, u)
  }

  lemma JoinIsUnique<L(!new)>(j: Op<L>, bottom: L, x: L, y: L, s: iset<L>)
    requires Laws(j, bottom) && IsJoinOf(j, x, s) && IsJoinOf(j, y, s)
    ensures x == y
  {
    assert Under(j, x, y) && Under(j, y, x) && Commutes(j, x, y);
  }

  lemma JoinOfNone<L(!new)>(j: Op<L>, bottom: L)
    requires Laws(j, bottom)
    ensures IsJoinOf(j, bottom, iset{})
  {
    forall u ensures Under(j, bottom, u) { assert Absorbs(j, bottom, u); }
  }

  lemma JoinOfOne<L(!new)>(j: Op<L>, bottom: L, x: L)
    requires Laws(j, bottom)
    ensures IsJoinOf(j, x, iset{x})
  {
    assert Absorbs(j, bottom, x);
    assert x in iset{x};
  }

  lemma JoinOfBoth<L(!new)>(j: Op<L>, bottom: L, x: L, a: iset<L>, y: L, b: iset<L>)
    requires Laws(j, bottom) && IsJoinOf(j, x, a) && IsJoinOf(j, y, b)
    ensures IsJoinOf(j, j(x, y), a + b)
  {
    forall d | d in a + b ensures Under(j, d, j(x, y)) {
      if d in a { UnderLeft(j, bottom, d, x, y); } else { UnderRight(j, bottom, d, x, y); }
    }
    forall u | Above(j, u, a + b) ensures Under(j, j(x, y), u) {
      assert Above(j, u, a) && Above(j, u, b);
      assert Associates(j, x, y, u);
    }
  }

  lemma UnderLeft<L(!new)>(j: Op<L>, bottom: L, d: L, x: L, y: L)
    requires Laws(j, bottom) && Under(j, d, x)
    ensures Under(j, d, j(x, y))
  {
    assert Associates(j, d, x, y);
  }

  lemma UnderRight<L(!new)>(j: Op<L>, bottom: L, d: L, x: L, y: L)
    requires Laws(j, bottom) && Under(j, d, y)
    ensures Under(j, d, j(x, y))
  {
    assert Commutes(j, x, y);
    UnderLeft(j, bottom, d, y, x);
  }

  /**
   * Replicated values and what they say: equal views are equal contents. Merge need not be a
   * join on the values themselves; it is one on the views of the values that are ok.
   */
  datatype Lattice<!V, !L> = Lattice(merge: Op<V>, ok: V -> bool, view: V -> L, join: Op<L>, bottom: L)

  ghost predicate MergesLikeJoin<V, L>(lat: Lattice<V, L>, x: V, y: V) {
    lat.ok(lat.merge(x, y)) && lat.view(lat.merge(x, y)) == lat.join(lat.view(x), lat.view(y))
  }

  ghost predicate Lawful<V(!new), L(!new)>(lat: Lattice<V, L>) {
    && Laws(lat.join, lat.bottom)
    && forall x, y :: lat.ok(x) && lat.ok(y) ==> MergesLikeJoin(lat, x, y)
  }
}
