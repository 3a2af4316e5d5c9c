/** The grow-only counter as replicated data. */
module CounterReplication {
  import opened Basics
  import opened Lattices
  import GCounters
  import R = Replicator
  import C = Convergence

  type Slots = map<string, nat>

  /** A counter says what its slots say. */
  ghost function CounterLattice(): Lattice<Slots, Slots> {
    Lattice(GCounters.MergeSlots, (c: Slots) => true, (c: Slots) => c, GCounters.MergeSlots, map[])
  }

  /** The counter satisfies what convergence needs. */
  lemma CounterLaws()
    ensures Lawful(CounterLattice())
  {
    forall x, y ensures Commutes(GCounters.MergeSlots, x, y) { GCounters.MergeCommutes(x, y); }
    forall x, y, z ensures Associates(GCounters.MergeSlots, x, y, z) { GCounters.MergeAssociates(x, y, z); }
    forall x ensures Absorbs(GCounters.MergeSlots, map[], x) { GCounters.MergeIdempotent(x); }
  }

  function Incremented(c: Slots, node: string, value: nat): R.Written<Slots> {
    var up := GCounters.Increment(GCounters.GCounter(c, map[]), node, value);
    R.Written(up.state, if GCounters.Delta(up).None? then None else Some(GCounters.Delta(up).value.state))
  }

  /** Updates that increment a counter on behalf of a node. */
  function IncrementUpdate(key: string, ty: nat, node: string, value: nat): R.Update<Slots> {
    R.Update(key, ty, map[], c => Incremented(c, node, value))
  }

  lemma IncrementedIsFaithful(c: Slots, node: string, value: nat)
    requires value < GCounters.UINT64_RANGE && GCounters.Fits(GCounters.GCounter(c, map[]))
    ensures var w := Incremented(c, node, value);
      && w.delta.Some?
      && (w.updated == GCounters.MergeSlots(c, w.delta.value) <==>
            GCounters.Slot(c, node) + value < GCounters.UINT64_RANGE)
  {
    GCounters.IncrementDeltaFaithful(GCounters.GCounter(c, map[]), node, value);
  }

  /** They are faithful exactly where the slot does not wrap around. */
  lemma IncrementsAreFaithful(s: R.Store<Slots>, key: string, ty: nat, node: string, value: nat)
    requires var c := if key in s.values then s.values[key] else map[];
             value < GCounters.UINT64_RANGE && GCounters.Fits(GCounters.GCounter(c, map[]))
    ensures
      var c := if key in s.values then s.values[key] else map[];
      var update := IncrementUpdate(key, ty, node, value);
      C.Faithful(CounterLattice(), s, update) <==>
      GCounters.Slot(c, node) + value < GCounters.UINT64_RANGE
  {
    IncrementedIsFaithful(if key in s.values then s.values[key] else map[], node, value);
  }
}

/** The observed-remove set as replicated data. */
module OrSetReplication {
  import opened Basics
  import opened Lattices
  import opened OrSet
  import R = Replicator
  import C = Convergence

  type Levels<!K> = imap<K, nat>

  /** What a set says: how much it knows of every dot, and its clock. */
  datatype Says<!E(==)> = Says(dots: Levels<(E, Dot)>, clock: Levels<string>)

  ghost function Level<K>(m: Levels<K>, k: K): nat {
    if k in m then m[k] else 0
  }

  ghost function Higher<K(!new)>(a: Levels<K>, b: Levels<K>): Levels<K> {
    imap k | k in a || k in b :: Max(Level(a, k), Level(b, k))
  }

  ghost function DotsOf<E(!new)>(s: ORSet<E>): (m: Levels<(E, Dot)>)
    ensures forall p :: p in m ==> m[p] > 0
  {
    imap p: (E, Dot) | p.1.counter > 0 && Knowledge(s, p.0, p.1) > 0 :: Knowledge(s, p.0, p.1)
  }

  ghost function ClockOf(clock: map<string, nat>): (m: Levels<string>)
    ensures forall n :: n in m ==> m[n] > 0
  {
    imap n: string | At(clock, n) > 0 :: At(clock, n)
  }

  ghost function ViewOf<E(!new)>(s: ORSet<E>): Says<E> {
    Says(DotsOf(s), ClockOf(s.clock))
  }

  ghost function JoinOf<E(!new)>(a: Says<E>, b: Says<E>): Says<E> {
    Says(Higher(a.dots, b.dots), Higher(a.clock, b.clock))
  }

  ghost function Nothing<E(!new)>(): Says<E> {
    Says(imap[], imap[])
  }

  ghost function SetLattice<E(!new)>(): Lattice<ORSet<E>, Says<E>> {
    Lattice((x: ORSet<E>, y: ORSet<E>) => Merge(x, y), (s: ORSet<E>) => WellFormed(s), (s: ORSet<E>) => ViewOf(s),
            (a: Says<E>, b: Says<E>) => JoinOf(a, b), Nothing())
  }

  lemma ViewsAsSame<E(!new)>(a: ORSet<E>, b: ORSet<E>)
    requires WellFormed(a) && WellFormed(b)
    ensures ViewOf(a) == ViewOf(b) <==> Same(a, b)
  {
    if ViewOf(a) == ViewOf(b) {
      forall e, d ensures Knowledge(a, e, d) == Knowledge(b, e, d) {
        assert Level(ViewOf(a).dots, (e, d)) == Level(ViewOf(b).dots, (e, d));
      }
      forall n ensures At(a.clock, n) == At(b.clock, n) {
        assert Level(ViewOf(a).clock, n) == Level(ViewOf(b).clock, n);
      }
      SameByKnowledge(a, b);
    }
    if Same(a, b) {
      forall p: (E, Dot) ensures Knowledge(a, p.0, p.1) == Knowledge(b, p.0, p.1) {
        assert Has(a, p.0, p.1) <==> Has(b, p.0, p.1);
      }
    }
  }

  /** Maps without zeros are equal if their levels are. */
  lemma EqualLevels<K(!new)>(a: Levels<K>, b: Levels<K>)
    requires (forall k :: k in a ==> a[k] > 0) && (forall k :: k in b ==> b[k] > 0)
    requires forall k :: Level(a, k) == Level(b, k)
    ensures a == b
  {
    forall k ensures k in a <==> k in b { assert Level(a, k) == Level(b, k); }
    forall k | k in a ensures a[k] == b[k] { assert Level(a, k) == Level(b, k); }
  }

  lemma DotLevel<E(!new)>(s: ORSet<E>, p: (E, Dot))
    ensures Level(DotsOf(s), p) == if p.1.counter > 0 then Knowledge(s, p.0, p.1) else 0
  {
  }

  lemma HigherLevel<K(!new)>(a: Levels<K>, b: Levels<K>, k: K)
    ensures Level(Higher(a, b), k) == Max(Level(a, k), Level(b, k))
  {
  }

  lemma HigherIsPositive<K(!new)>(a: Levels<K>, b: Levels<K>)
    requires (forall k :: k in a ==> a[k] > 0) && (forall k :: k in b ==> b[k] > 0)
    ensures forall k :: k in Higher(a, b) ==> Higher(a, b)[k] > 0
  {
  }

  lemma MergeSaysDot<E(!new)>(a: ORSet<E>, b: ORSet<E>, p: (E, Dot))
    requires WellFormed(a) && WellFormed(b)
    ensures Level(DotsOf(Merge(a, b)), p) == Level(Higher(DotsOf(a), DotsOf(b)), p)
  {
    MergeIsMaximum(a, b, p.0, p.1);
    DotLevel(a, p);
    DotLevel(b, p);
    DotLevel(Merge(a, b), p);
    HigherLevel(DotsOf(a), DotsOf(b), p);
  }

  lemma MergeSaysDots<E(!new)>(a: ORSet<E>, b: ORSet<E>)
    requires WellFormed(a) && WellFormed(b)
    ensures DotsOf(Merge(a, b)) == Higher(DotsOf(a), DotsOf(b))
  {
    forall p: (E, Dot) ensures Level(DotsOf(Merge(a, b)), p) == Level(Higher(DotsOf(a), DotsOf(b)), p) {
      MergeSaysDot(a, b, p);
    }
    HigherIsPositive(DotsOf(a), DotsOf(b));
    EqualLevels(DotsOf(Merge(a, b)), Higher(DotsOf(a), DotsOf(b)));
  }

  lemma MergeSaysClock(a: map<string, nat>, b: map<string, nat>)
    ensures ClockOf(MergeClocks(a, b)) == Higher(ClockOf(a), ClockOf(b))
  {
    forall n: string ensures Level(ClockOf(MergeClocks(a, b)), n) == Level(Higher(ClockOf(a), ClockOf(b)), n) {
      MergeAt(a, b, n);
      HigherLevel(ClockOf(a), ClockOf(b), n);
    }
    HigherIsPositive(ClockOf(a), ClockOf(b));
    EqualLevels(ClockOf(MergeClocks(a, b)), Higher(ClockOf(a), ClockOf(b)));
  }

  /** A merged set says what both say. */
  lemma MergeSaysBoth<E(!new)>(a: ORSet<E>, b: ORSet<E>)
    requires WellFormed(a) && WellFormed(b)
    ensures WellFormed(Merge(a, b)) && ViewOf(Merge(a, b)) == JoinOf(ViewOf(a), ViewOf(b))
  {
    MergeKeepsWellFormed(a, b);
    MergeSaysDots(a, b);
    MergeSaysClock(a.clock, b.clock);
  }

  lemma HigherAbsorbs<K(!new)>(a: Levels<K>, b: Levels<K>)
    ensures Higher(a, b) == Higher(b, a) && Higher(a, a) == a && Higher(imap[], a) == a
  {
  }

  lemma HigherAssociates<K(!new)>(a: Levels<K>, b: Levels<K>, c: Levels<K>)
    ensures Higher(Higher(a, b), c) == Higher(a, Higher(b, c))
  {
    var l, r := Higher(Higher(a, b), c), Higher(a, Higher(b, c));
    forall k | k in l ensures l[k] == r[k] {
      HigherLevel(Higher(a, b), c, k);
      HigherLevel(a, b, k);
      HigherLevel(a, Higher(b, c), k);
      HigherLevel(b, c, k);
    }
  }

  lemma JoinLaws<E(!new)>(a: Says<E>, b: Says<E>, c: Says<E>)
    ensures JoinOf(a, b) == JoinOf(b, a) && JoinOf(a, a) == a && JoinOf(Nothing(), a) == a
    ensures JoinOf(JoinOf(a, b), c) == JoinOf(a, JoinOf(b, c))
  {
    HigherAbsorbs(a.dots, b.dots);
    HigherAbsorbs(a.clock, b.clock);
    HigherAssociates(a.dots, b.dots, c.dots);
    HigherAssociates(a.clock, b.clock, c.clock);
  }

  /** Observed-remove sets satisfy what convergence needs, up to the order of dots. */
  lemma SetLaws<E(!new)>()
    ensures Lawful(SetLattice<E>())
  {
    var lat := SetLattice<E>();
    forall a, b ensures Commutes(lat.join, a, b) { JoinLaws(a, b, b); }
    forall a, b, c ensures Associates(lat.join, a, b, c) { JoinLaws(a, b, c); }
    forall a ensures Absorbs(lat.join, lat.bottom, a) { JoinLaws(a, a, a); }
    forall x, y | lat.ok(x) && lat.ok(y) ensures MergesLikeJoin(lat, x, y) { MergeSaysBoth(x, y); }
  }

  // ---- updates -------------------------------------------------------------------------

  /** An update is applied and its delta split off. */
  ghost function Written<E>(up: ORSet<E>): R.Written<ORSet<E>> {
    R.Written(ResetDelta(up), Delta(up))
  }

  ghost function AddUpdate<E>(key: string, ty: nat, node: string, x: E): R.Update<ORSet<E>> {
    R.Update(key, ty, New(), (c: ORSet<E>) => Written(Add(ResetDelta(c), node, x)))
  }

  ghost function RemoveUpdate<E>(key: string, ty: nat, x: E): R.Update<ORSet<E>> {
    R.Update(key, ty, New(), (c: ORSet<E>) => Written(Remove(ResetDelta(c), x)))
  }

  /** What an update finds; a stored set carries no pending delta. */
  ghost function Found<E>(s: R.Store<ORSet<E>>, u: R.Update<ORSet<E>>): ORSet<E> {
    ResetDelta(R.Current(s, u))
  }

  lemma ResetSaysTheSame<E(!new)>(s: ORSet<E>)
    ensures ViewOf(ResetDelta(s)) == ViewOf(s) && (WellFormed(s) ==> WellFormed(ResetDelta(s)))
  {
    forall e, d ensures Has(ResetDelta(s), e, d) <==> Has(s, e, d) { }
    forall e, d ensures Knowledge(ResetDelta(s), e, d) == Knowledge(s, e, d) { }
    assert DotsOf(ResetDelta(s)) == DotsOf(s);
  }

  /** Every Add makes the set say more, and its delta is in order. */
  lemma AddInflates<E(!new)>(s: R.Store<ORSet<E>>, key: string, ty: nat, node: string, x: E)
    requires WellFormed(Found(s, AddUpdate(key, ty, node, x)))
    ensures
      var u := AddUpdate(key, ty, node, x);
      C.Inflates(SetLattice<E>(), s, u, Some(ResetDelta(Add(Found(s, u), node, x))))
  {
    var u := AddUpdate(key, ty, node, x);
    AddStateAt(R.Current(s, u), node, x);
  }

  lemma AddStateAt<E(!new)>(c: ORSet<E>, node: string, x: E)
    requires WellFormed(ResetDelta(c))
    ensures
      var up := Add(ResetDelta(c), node, x);
      C.InflatesAt(SetLattice<E>(), New(), c, Written(up), Some(ResetDelta(up)))
  {
    AddedState(ResetDelta(c), node, x);
    EmptySaysNothing<E>();
    ResetSaysTheSame(c);
    AddIsSound(ResetDelta(c), node, x);
    if Delta(Add(ResetDelta(c), node, x)).Some? { DeltaIsSound(Add(ResetDelta(c), node, x)); }
  }

  lemma AddedState<E(!new)>(c: ORSet<E>, node: string, x: E)
    requires WellFormed(c) && c.added == map[]
    ensures var up := ResetDelta(Add(c, node, x)); WellFormed(up) && ViewOf(up) == JoinOf(ViewOf(c), ViewOf(up))
  {
    FullStateIsFaithful(c, node, x);
    AddIsSound(c, node, x);
    StateEffect(c, Add(c, node, x));
  }

  lemma RemovedState<E(!new)>(c: ORSet<E>, x: E)
    requires WellFormed(c) && c.added == map[]
    ensures var up := ResetDelta(Remove(c, x)); WellFormed(up) && ViewOf(up) == JoinOf(ViewOf(c), ViewOf(up))
  {
    FullStateIsFaithful(c, "", x);
    RemoveIsSound(c, x);
    StateEffect(c, Remove(c, x));
  }

  /** And so does every Remove. */
  lemma RemoveInflates<E(!new)>(s: R.Store<ORSet<E>>, key: string, ty: nat, x: E)
    requires WellFormed(Found(s, RemoveUpdate(key, ty, x)))
    ensures
      var u := RemoveUpdate(key, ty, x);
      C.Inflates(SetLattice<E>(), s, u, Some(ResetDelta(Remove(Found(s, u), x))))
  {
    var u := RemoveUpdate(key, ty, x);
    RemoveStateAt(R.Current(s, u), x);
  }

  lemma RemoveStateAt<E(!new)>(c: ORSet<E>, x: E)
    requires WellFormed(ResetDelta(c))
    ensures
      var up := Remove(ResetDelta(c), x);
      C.InflatesAt(SetLattice<E>(), New(), c, Written(up), Some(ResetDelta(up)))
  {
    RemovedState(ResetDelta(c), x);
    EmptySaysNothing<E>();
    ResetSaysTheSame(c);
    RemoveIsSound(ResetDelta(c), x);
    if Delta(Remove(ResetDelta(c), x)).Some? { DeltaIsSound(Remove(ResetDelta(c), x)); }
  }

  lemma EmptySaysNothing<E(!new)>()
    ensures ViewOf(New<E>()) == Nothing<E>() && WellFormed(New<E>())
  {
    assert forall e, d :: !Has(New<E>(), e, d);
    assert DotsOf(New<E>()) == imap[];
  }

  /** The new state, merged into the old one, is the new state. */
  lemma StateEffect<E(!new)>(c: ORSet<E>, up: ORSet<E>)
    requires WellFormed(c) && WellFormed(up) && Same(Merge(c, up), up)
    ensures WellFormed(ResetDelta(up)) && ViewOf(ResetDelta(up)) == JoinOf(ViewOf(c), ViewOf(ResetDelta(up)))
  {
    ResetSaysTheSame(up);
    MergeSaysBoth(c, up);
    ViewsAsSame(Merge(c, up), up);
  }

  /** The set holds no live dot of this node. */
  ghost predicate NoneBy<E(!new)>(s: ORSet<E>, node: string) {
    forall e, d :: Has(s, e, d) ==> d.node != node
  }

  /** Replicated by deltas, an Add is faithful exactly if the set holds no live dot of the adding node. */
  lemma AddDeltaIsFaithful<E(!new)>(s: R.Store<ORSet<E>>, key: string, ty: nat, node: string, x: E)
    requires WellFormed(Found(s, AddUpdate(key, ty, node, x)))
    ensures
      var u := AddUpdate(key, ty, node, x);
      C.Faithful(SetLattice<E>(), s, u) <==> NoneBy(Found(s, u), node)
  {
    var u := AddUpdate(key, ty, node, x);
    AddDeltaAt(R.Current(s, u), node, x);
  }

  lemma AddDeltaAt<E(!new)>(c: ORSet<E>, node: string, x: E)
    requires WellFormed(ResetDelta(c))
    ensures
      C.FaithfulAt(SetLattice<E>(), New(), c, Written(Add(ResetDelta(c), node, x))) <==> NoneBy(ResetDelta(c), node)
  {
    AddedDelta(ResetDelta(c), node, x);
    var up := Add(ResetDelta(c), node, x);
    ResetSaysTheSame(c);
    DeltaAt(c, ResetDelta(up), Delta(up).value);
  }

  lemma DeltaAt<E(!new)>(c: ORSet<E>, updated: ORSet<E>, delta: ORSet<E>)
    requires WellFormed(updated) && WellFormed(delta)
    ensures C.FaithfulAt(SetLattice<E>(), New(), c, R.Written(updated, Some(delta))) <==>
            ViewOf(updated) == JoinOf(ViewOf(c), ViewOf(delta))
  {
    var lat := SetLattice<E>();
    EmptySaysNothing<E>();
    assert lat.view(updated) == ViewOf(updated) && lat.view(c) == ViewOf(c) && lat.view(delta) == ViewOf(delta);
    assert lat.join(ViewOf(c), ViewOf(delta)) == JoinOf(ViewOf(c), ViewOf(delta));
    assert lat.ok(updated) && lat.ok(delta) && lat.ok(New()) && lat.view(New()) == lat.bottom;
    C.FaithfulDelta(lat, New(), c, updated, delta);
  }

  /** Another element has a live dot as old as one of x by the same node. */
  ghost predicate AsOld<E(!new)>(s: ORSet<E>, x: E) {
    exists e, d, r :: e != x && Has(s, e, d) && Has(s, x, r) && d.node == r.node && d.counter <= r.counter
  }

  /** A Remove is so exactly if it removes something and hides no older dot of another element. */
  lemma RemoveDeltaIsFaithful<E(!new)>(s: R.Store<ORSet<E>>, key: string, ty: nat, x: E)
    requires WellFormed(Found(s, RemoveUpdate(key, ty, x)))
    ensures
      var u := RemoveUpdate(key, ty, x);
      C.Faithful(SetLattice<E>(), s, u) <==> x in Found(s, u).entries && !AsOld(Found(s, u), x)
  {
    var u := RemoveUpdate(key, ty, x);
    RemoveDeltaAt(R.Current(s, u), x);
  }

  lemma RemoveDeltaAt<E(!new)>(c: ORSet<E>, x: E)
    requires WellFormed(ResetDelta(c))
    ensures
      C.FaithfulAt(SetLattice<E>(), New(), c, Written(Remove(ResetDelta(c), x))) <==>
      x in ResetDelta(c).entries && !AsOld(ResetDelta(c), x)
  {
    var up := Remove(ResetDelta(c), x);
    if x in c.entries {
      RemovedDelta(ResetDelta(c), x);
      ResetSaysTheSame(c);
      DeltaAt(c, ResetDelta(up), Delta(up).value);
    } else {
      assert up == ResetDelta(c);
    }
  }

  lemma RemovedDelta<E(!new)>(c: ORSet<E>, x: E)
    requires WellFormed(c) && c.added == map[] && c.removed == map[] && x in c.entries
    ensures
      var up := Remove(c, x);
      && Delta(up).Some? && WellFormed(Delta(up).value) && WellFormed(ResetDelta(up))
      && (ViewOf(ResetDelta(up)) == JoinOf(ViewOf(c), ViewOf(Delta(up).value)) <==> !AsOld(c, x))
  {
    RemoveIsSound(c, x);
    RemoveDeltaFaithful(c, x);
    DeltaIsSound(Remove(c, x));
    DeltaEffect(c, Remove(c, x));
  }

  lemma AddedDelta<E(!new)>(c: ORSet<E>, node: string, x: E)
    requires WellFormed(c) && c.added == map[] && c.removed == map[]
    ensures
      var up := Add(c, node, x);
      && Delta(up).Some? && WellFormed(Delta(up).value) && WellFormed(ResetDelta(up))
      && (ViewOf(ResetDelta(up)) == JoinOf(ViewOf(c), ViewOf(Delta(up).value)) <==>
            NoneBy(c, node))
  {
    AddIsSound(c, node, x);
    AddDeltaFaithful(c, node, x);
    DeltaIsSound(Add(c, node, x));
    DeltaEffect(c, Add(c, node, x));
  }

  /** A delta carries the whole change exactly if merging it gives the new state. */
  lemma DeltaEffect<E(!new)>(c: ORSet<E>, up: ORSet<E>)
    requires WellFormed(c) && WellFormed(up) && Delta(up).Some? && WellFormed(Delta(up).value)
    ensures WellFormed(ResetDelta(up))
    ensures ViewOf(ResetDelta(up)) == JoinOf(ViewOf(c), ViewOf(Delta(up).value)) <==>
            Same(Merge(c, Delta(up).value), up)
  {
    ResetSaysTheSame(up);
    MergeSaysBoth(c, Delta(up).value);
    ViewsAsSame(Merge(c, Delta(up).value), up);
  }

  ghost function Held<E>(s: R.Store<ORSet<E>>, key: string): ORSet<E> {
    if key in s.values then s.values[key] else New()
  }

  /** In every run an Add is a step, whatever its delta says. */
  lemma AddIsStep<E(!new)>(sys: C.System<ORSet<E>>, i: nat, key: string, ty: nat, node: string, x: E)
    requires C.Inv(SetLattice<E>(), sys) && i < |sys.stores|
    ensures exists effect :: C.Enabled(SetLattice<E>(), sys, C.Apply(i, AddUpdate(key, ty, node, x), effect))
  {
    var u := AddUpdate(key, ty, node, x);
    var effect := Some(ResetDelta(Add(Found(sys.stores[i], u), node, x)));
    if key !in sys.deleted {
      FoundIsWellFormed(sys, i, u);
      AddInflates(sys.stores[i], key, ty, node, x);
    }
    C.InflatingIsStep(SetLattice<E>(), sys, i, u, effect);
  }

  /** And so is a Remove. */
  lemma RemoveIsStep<E(!new)>(sys: C.System<ORSet<E>>, i: nat, key: string, ty: nat, x: E)
    requires C.Inv(SetLattice<E>(), sys) && i < |sys.stores|
    ensures exists effect :: C.Enabled(SetLattice<E>(), sys, C.Apply(i, RemoveUpdate(key, ty, x), effect))
  {
    var u := RemoveUpdate(key, ty, x);
    var effect := Some(ResetDelta(Remove(Found(sys.stores[i], u), x)));
    if key !in sys.deleted {
      FoundIsWellFormed(sys, i, u);
      RemoveInflates(sys.stores[i], key, ty, x);
    }
    C.InflatingIsStep(SetLattice<E>(), sys, i, u, effect);
  }

  lemma FoundIsWellFormed<E(!new)>(sys: C.System<ORSet<E>>, i: nat, u: R.Update<ORSet<E>>)
    requires C.Inv(SetLattice<E>(), sys) && i < |sys.stores| && u.key !in sys.deleted && u.initial == New()
    ensures WellFormed(Found(sys.stores[i], u))
  {
    HeldIsWellFormed(sys, i, u.key);
    ResetSaysTheSame(Held(sys.stores[i], u.key));
  }

  /** Replicas with the same effects hold the same set, up to the order of dots. */
  lemma SetsConverge<E(!new)>(run: seq<C.System<ORSet<E>>>, steps: seq<C.Step<ORSet<E>>>, k: nat,
                              i: nat, j: nat, key: string)
    requires C.IsRun(SetLattice<E>(), run, steps) && k < |run|
    requires i < |run[k].stores| == |run[k].known| && j < |run[k].stores| && key !in run[k].deleted
    requires C.OfKey(run[k].log, run[k].known[i], key) == C.OfKey(run[k].log, run[k].known[j], key)
    ensures Same(Held(run[k].stores[i], key), Held(run[k].stores[j], key))
  {
    var lat := SetLattice<E>();
    SetLaws<E>();
    C.RunKeeps(lat, run, steps, k);
    HeldIsWellFormed(run[k], i, key);
    HeldIsWellFormed(run[k], j, key);
    C.ReplicasConverge(lat, run, steps, k, i, j, key);
    HeldSays(run[k].stores[i], key);
    HeldSays(run[k].stores[j], key);
    ViewsAsSame(Held(run[k].stores[i], key), Held(run[k].stores[j], key));
  }

  lemma HeldSays<E(!new)>(s: R.Store<ORSet<E>>, key: string)
    ensures ViewOf(Held(s, key)) == C.ViewAt(SetLattice<E>(), s, key)
  {
    EmptySaysNothing<E>();
  }

  lemma HeldIsWellFormed<E(!new)>(sys: C.System<ORSet<E>>, i: nat, key: string)
    requires C.Inv(SetLattice<E>(), sys) && i < |sys.stores| && key !in sys.deleted
    ensures WellFormed(Held(sys.stores[i], key))
  {
    assert C.StoreOk(SetLattice<E>(), sys, i);
    assert C.KeyOk(SetLattice<E>(), sys.log, sys.stores[i], sys.known[i], key);
    EmptySaysNothing<E>();
  }
}
