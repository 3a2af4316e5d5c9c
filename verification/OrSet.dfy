/** The observed-remove set: causal dots, its merge, and its deltas. */
module OrSet {
  import opened Basics

  /** One add: the node that made it and that node's counter. */
  datatype Dot = Dot(node: string, counter: nat)

  datatype ORSet<E> = ORSet(
    entries: map<E, seq<Dot>>,
    clock: map<string, nat>,
    added: map<E, seq<Dot>>,
    removed: map<E, seq<Dot>>)

  function New<E>(): ORSet<E> {
    ORSet(map[], map[], map[], map[])
  }

  function At(clock: map<string, nat>, node: string): nat {
    if node in clock then clock[node] else 0
  }

  function Dots<E>(m: map<E, seq<Dot>>, e: E): seq<Dot> {
    if e in m then m[e] else []
  }

  predicate Dominated(d: Dot, clock: map<string, nat>) {
    d.counter <= At(clock, d.node)
  }

  function Add<E>(s: ORSet<E>, node: string, e: E): ORSet<E> {
    var d := Dot(node, At(s.clock, node) + 1);
    s.(clock := s.clock[node := d.counter],
       entries := s.entries[e := Dots(s.entries, e) + [d]],
       added := s.added[e := Dots(s.added, e) + [d]])
  }

  function Remove<E(==)>(s: ORSet<E>, e: E): ORSet<E> {
    if e !in s.entries then s
    else
      s.(entries := map x | x in s.entries && x != e :: s.entries[x],
         removed := s.removed[e := Dots(s.removed, e) + s.entries[e]])
  }

  function ResetDelta<E>(s: ORSet<E>): ORSet<E> {
    s.(added := map[], removed := map[])
  }

  predicate Contains<E>(s: ORSet<E>, e: E) {
    e in s.entries && s.entries[e] != []
  }

  /** The merge loop over one side's dots of an element: keep what the other side has not seen removed. */
  function Keep(kept: seq<Dot>, mine: seq<Dot>, theirs: seq<Dot>, clock: map<string, nat>): seq<Dot>
    decreases mine
  {
    if mine == [] then kept
    else
      var d := mine[0];
      var stays := (!Dominated(d, clock) || d in theirs) && d !in kept;
      Keep(if stays then kept + [d] else kept, mine[1..], theirs, clock)
  }

  function MergedDots<E>(s: ORSet<E>, o: ORSet<E>, e: E): seq<Dot> {
    Keep(Keep([], Dots(s.entries, e), Dots(o.entries, e), o.clock), Dots(o.entries, e), Dots(s.entries, e), s.clock)
  }

  function MergeClocks(a: map<string, nat>, b: map<string, nat>): map<string, nat> {
    map n | n in a.Keys + b.Keys && (n in a || b[n] > 0) :: if At(b, n) > At(a, n) then At(b, n) else At(a, n)
  }

  function Merge<E>(s: ORSet<E>, o: ORSet<E>): ORSet<E> {
    ORSet(map e | e in s.entries.Keys + o.entries.Keys && MergedDots(s, o, e) != [] :: MergedDots(s, o, e),
          MergeClocks(s.clock, o.clock), map[], map[])
  }

  // ---- what a state means ----------------------------------------------------------

  predicate Has<E>(s: ORSet<E>, e: E, d: Dot) {
    e in s.entries && d in s.entries[e]
  }

  /** Equal up to the order of dots and pending deltas: the same live dots and the same clock. */
  ghost predicate Same<E(!new)>(a: ORSet<E>, b: ORSet<E>) {
    (forall e, d :: Has(a, e, d) <==> Has(b, e, d)) && (forall n :: At(a.clock, n) == At(b.clock, n))
  }

  /** Counters start at one and every live dot is covered by the set's own clock. */
  ghost predicate WellFormed<E(!new)>(s: ORSet<E>) {
    forall e, d :: Has(s, e, d) ==> 0 < d.counter && Dominated(d, s.clock)
  }

  /** How much a state knows of one dot: nothing, that it is live, or that it is gone. */
  function Knowledge<E>(s: ORSet<E>, e: E, d: Dot): nat {
    if Has(s, e, d) then 1 else if Dominated(d, s.clock) then 2 else 0
  }

  function Max(a: nat, b: nat): nat { if a > b then a else b }

  lemma {:induction false} KeepSpec(kept: seq<Dot>, mine: seq<Dot>, theirs: seq<Dot>, clock: map<string, nat>, d: Dot)
    ensures d in Keep(kept, mine, theirs, clock) <==>
            d in kept || (d in mine && (!Dominated(d, clock) || d in theirs))
    decreases mine
  {
    if mine != [] {
      var x := mine[0];
      var stays := (!Dominated(x, clock) || x in theirs) && x !in kept;
      KeepSpec(if stays then kept + [x] else kept, mine[1..], theirs, clock, d);
      assert mine == [x] + mine[1..];
    }
  }

  lemma MergeHas<E>(s: ORSet<E>, o: ORSet<E>, e: E, d: Dot)
    ensures Has(Merge(s, o), e, d) <==>
      || (Has(s, e, d) && (!Dominated(d, o.clock) || Has(o, e, d)))
      || (Has(o, e, d) && (!Dominated(d, s.clock) || Has(s, e, d)))
  {
    var first := Keep([], Dots(s.entries, e), Dots(o.entries, e), o.clock);
    KeepSpec([], Dots(s.entries, e), Dots(o.entries, e), o.clock, d);
    KeepSpec(first, Dots(o.entries, e), Dots(s.entries, e), s.clock, d);
  }

  lemma MergeAt(a: map<string, nat>, b: map<string, nat>, n: string)
    ensures At(MergeClocks(a, b), n) == Max(At(a, n), At(b, n))
  {
  }

  /** On well-formed states merge is, dot by dot, the maximum of unknown < live < gone. */
  lemma MergeIsMaximum<E(!new)>(s: ORSet<E>, o: ORSet<E>, e: E, d: Dot)
    requires WellFormed(s) && WellFormed(o)
    ensures Knowledge(Merge(s, o), e, d) == Max(Knowledge(s, e, d), Knowledge(o, e, d))
  {
    MergeHas(s, o, e, d);
    MergeAt(s.clock, o.clock, d.node);
  }

  lemma SameByKnowledge<E(!new)>(a: ORSet<E>, b: ORSet<E>)
    requires forall e, d :: Knowledge(a, e, d) == Knowledge(b, e, d)
    requires forall n :: At(a.clock, n) == At(b.clock, n)
    ensures Same(a, b)
  {
    forall e, d ensures Has(a, e, d) <==> Has(b, e, d) {
      assert Knowledge(a, e, d) == Knowledge(b, e, d);
    }
  }

  // ---- merge is a join ------------------------------------------------------------------

  lemma MergeKeepsWellFormed<E(!new)>(s: ORSet<E>, o: ORSet<E>)
    requires WellFormed(s) && WellFormed(o)
    ensures WellFormed(Merge(s, o))
  {
    forall e, d | Has(Merge(s, o), e, d) ensures 0 < d.counter && Dominated(d, Merge(s, o).clock) {
      MergeHas(s, o, e, d);
      MergeAt(s.clock, o.clock, d.node);
    }
  }

  lemma MergeCommutative<E(!new)>(a: ORSet<E>, b: ORSet<E>)
    ensures Same(Merge(a, b), Merge(b, a))
  {
    forall e, d ensures Has(Merge(a, b), e, d) <==> Has(Merge(b, a), e, d) {
      MergeHas(a, b, e, d);
      MergeHas(b, a, e, d);
    }
    forall n ensures At(Merge(a, b).clock, n) == At(Merge(b, a).clock, n) {
      MergeAt(a.clock, b.clock, n);
      MergeAt(b.clock, a.clock, n);
    }
  }

  lemma MergeIdempotent<E(!new)>(a: ORSet<E>)
    ensures Same(Merge(a, a), a)
  {
    forall e, d ensures Has(Merge(a, a), e, d) <==> Has(a, e, d) { MergeHas(a, a, e, d); }
    forall n ensures At(Merge(a, a).clock, n) == At(a.clock, n) { MergeAt(a.clock, a.clock, n); }
  }

  lemma KnowledgeAssociative<E(!new)>(a: ORSet<E>, b: ORSet<E>, c: ORSet<E>, e: E, d: Dot)
    requires WellFormed(a) && WellFormed(b) && WellFormed(c)
    ensures Knowledge(Merge(Merge(a, b), c), e, d) == Knowledge(Merge(a, Merge(b, c)), e, d)
  {
    MergeKeepsWellFormed(a, b);
    MergeKeepsWellFormed(b, c);
    MergeIsMaximum(a, b, e, d);
    MergeIsMaximum(Merge(a, b), c, e, d);
    MergeIsMaximum(b, c, e, d);
    MergeIsMaximum(a, Merge(b, c), e, d);
  }

  lemma ClockAssociative(a: map<string, nat>, b: map<string, nat>, c: map<string, nat>, n: string)
    ensures At(MergeClocks(MergeClocks(a, b), c), n) == At(MergeClocks(a, MergeClocks(b, c)), n)
  {
    MergeAt(a, b, n);
    MergeAt(MergeClocks(a, b), c, n);
    MergeAt(b, c, n);
    MergeAt(a, MergeClocks(b, c), n);
  }

  lemma MergeAssociative<E(!new)>(a: ORSet<E>, b: ORSet<E>, c: ORSet<E>)
    requires WellFormed(a) && WellFormed(b) && WellFormed(c)
    ensures Same(Merge(Merge(a, b), c), Merge(a, Merge(b, c)))
  {
    forall e, d ensures Knowledge(Merge(Merge(a, b), c), e, d) == Knowledge(Merge(a, Merge(b, c)), e, d) {
      KnowledgeAssociative(a, b, c, e, d);
    }
    forall n ensures At(Merge(Merge(a, b), c).clock, n) == At(Merge(a, Merge(b, c)).clock, n) {
      ClockAssociative(a.clock, b.clock, c.clock, n);
    }
    SameByKnowledge(Merge(Merge(a, b), c), Merge(a, Merge(b, c)));
  }

  lemma EmptyIsIdentity<E(!new)>(a: ORSet<E>)
    requires WellFormed(a)
    ensures Same(Merge(New(), a), a) && Same(Merge(a, New()), a)
  {
    forall e, d ensures Has(Merge(New(), a), e, d) <==> Has(a, e, d) { MergeHas(New(), a, e, d); }
    forall n ensures At(Merge(New(), a).clock, n) == At(a.clock, n) { MergeAt(New<E>().clock, a.clock, n); }
    MergeCommutative(a, New());
  }

  // ---- membership -----------------------------------------------------------------------

  lemma LiveIffContained<E>(s: ORSet<E>, e: E)
    ensures Contains(s, e) <==> exists d :: Has(s, e, d)
  {
    if Contains(s, e) { assert Has(s, e, s.entries[e][0]); }
  }

  /** An add and a remove change the membership of their element and of no other. */
  lemma Members<E>(s: ORSet<E>, node: string, x: E, e: E)
    ensures Contains(Add(s, node, x), e) <==> e == x || Contains(s, e)
    ensures Contains(Remove(s, x), e) <==> e != x && Contains(s, e)
  {
  }

  /** A replica that has not seen an add does not undo it by removing the element: the add wins. */
  lemma AddWins<E(!new)>(s: ORSet<E>, o: ORSet<E>, node: string, x: E)
    requires At(o.clock, node) <= At(s.clock, node)
    ensures Contains(Merge(Add(s, node, x), Remove(o, x)), x) && Contains(Merge(Remove(o, x), Add(s, node, x)), x)
  {
    var t, u, d := Add(s, node, x), Remove(o, x), Dot(node, At(s.clock, node) + 1);
    assert t.entries[x][|t.entries[x]| - 1] == d && Has(t, x, d);
    MergeHas(t, u, x, d);
    MergeHas(u, t, x, d);
    LiveIffContained(Merge(t, u), x);
    LiveIffContained(Merge(u, t), x);
  }

  /** An element that one replica removed after seeing all its adds is gone from the merge, the others are as before. */
  lemma SeenIsRemoved<E(!new)>(s: ORSet<E>, x: E, e: E)
    requires WellFormed(s)
    ensures Contains(Merge(s, Remove(s, x)), e) <==> e != x && Contains(s, e)
  {
    var t := Remove(s, x);
    LiveIffContained(Merge(s, t), e);
    LiveIffContained(s, e);
    forall d ensures Has(Merge(s, t), e, d) <==> e != x && Has(s, e, d) { MergeHas(s, t, e, d); }
  }

  // ---- deltas ---------------------------------------------------------------------------

  function DotsIn<E>(m: map<E, seq<Dot>>): set<Dot> {
    set e, d | e in m && d in m[e] :: d
  }

  /** The largest counter of a node among some dots, 0 if it has none. */
  ghost function Highest(dots: set<Dot>, node: string): (m: nat)
    ensures forall d :: d in dots && d.node == node ==> d.counter <= m
    ensures m == 0 || Dot(node, m) in dots
  {
    if dots == {} then 0
    else
      var x :| x in dots;
      var rest := Highest(dots - {x}, node);
      if x.node == node && x.counter > rest then x.counter else rest
  }

  /** Delta's clock: own clock for nodes with an added dot, the dots' own counters for removed ones. */
  ghost function DeltaClock<E>(s: ORSet<E>): (clock: map<string, nat>)
    ensures forall n :: At(clock, n) == DeltaClockAt(s, n)
  {
    var nodes := (set d | d in DotsIn(s.added) + DotsIn(s.removed) :: d.node);
    map n | n in nodes :: DeltaClockAt(s, n)
  }

  ghost function DeltaClockAt<E>(s: ORSet<E>, node: string): nat {
    Max(if exists d :: d in DotsIn(s.added) && d.node == node then At(s.clock, node) else 0,
        Highest(DotsIn(s.removed), node))
  }

  /** The changes since the last ResetDelta as a set of their own; None if there are none. */
  ghost function Delta<E>(s: ORSet<E>): Option<ORSet<E>> {
    if s.added == map[] && s.removed == map[] then None
    else Some(ORSet(s.added, DeltaClock(s), map[], map[]))
  }

  /** Well-formed, and so are the adds that wait to be sent. */
  ghost predicate Sound<E(!new)>(s: ORSet<E>) {
    WellFormed(s) && forall e, d :: e in s.added && d in s.added[e] ==> 0 < d.counter && Dominated(d, s.clock)
  }

  lemma AddIsSound<E(!new)>(s: ORSet<E>, node: string, x: E)
    requires Sound(s)
    ensures Sound(Add(s, node, x))
  {
    var t := Add(s, node, x);
    forall e, d | Has(t, e, d) ensures 0 < d.counter && Dominated(d, t.clock) {
      assert Has(s, e, d) || d == Dot(node, At(s.clock, node) + 1);
    }
  }

  lemma DeltaIsSound<E(!new)>(s: ORSet<E>)
    requires Sound(s) && Delta(s).Some?
    ensures Sound(Delta(s).value)
  {
    var delta := Delta(s).value;
    forall e, d | Has(delta, e, d) ensures 0 < d.counter && Dominated(d, delta.clock) {
      ClaimsAdded(s, e, d);
      assert At(delta.clock, d.node) == DeltaClockAt(s, d.node);
    }
  }

  /** The delta's clock covers every added dot. */
  lemma ClaimsAdded<E(!new)>(s: ORSet<E>, e: E, d: Dot)
    requires Sound(s) && e in s.added && d in s.added[e]
    ensures 0 < d.counter <= DeltaClockAt(s, d.node)
  {
    assert d in DotsIn(s.added);
  }

  /** All sets that the code can build are sound, and so well-formed. */
  lemma EverySetIsSound<E(!new)>(s: ORSet<E>, o: ORSet<E>, node: string, x: E)
    requires Sound(s) && Sound(o)
    ensures Sound(New<E>()) && Sound(Add(s, node, x)) && Sound(Remove(s, x)) && Sound(ResetDelta(s))
    ensures Sound(Merge(s, o)) && (Delta(s).Some? ==> Sound(Delta(s).value))
  {
    AddIsSound(s, node, x);
    RemoveIsSound(s, x);
    MergeKeepsWellFormed(s, o);
    if Delta(s).Some? { DeltaIsSound(s); }
  }

  lemma RemoveIsSound<E(!new)>(s: ORSet<E>, x: E)
    requires Sound(s)
    ensures Sound(Remove(s, x)) && Sound(ResetDelta(s))
  {
    forall e, d | Has(Remove(s, x), e, d) ensures Has(s, e, d) { }
    forall e, d | Has(ResetDelta(s), e, d) ensures Has(s, e, d) { }
  }

  /** Sending the whole updated state is faithful: merging it into the old state gives the new one. */
  lemma FullStateIsFaithful<E(!new)>(c: ORSet<E>, node: string, x: E)
    requires WellFormed(c)
    ensures Same(Merge(c, Add(c, node, x)), Add(c, node, x))
    ensures Same(Merge(c, Remove(c, x)), Remove(c, x))
  {
    var t := Add(c, node, x);
    forall e, d ensures Has(Merge(c, t), e, d) <==> Has(t, e, d) {
      MergeHas(c, t, e, d);
      assert Has(t, e, d) ==> Has(c, e, d) || d == Dot(node, At(c.clock, node) + 1);
    }
    forall n ensures At(Merge(c, t).clock, n) == At(t.clock, n) { MergeAt(c.clock, t.clock, n); }
    var u := Remove(c, x);
    forall e, d ensures Has(Merge(c, u), e, d) <==> Has(u, e, d) { MergeHas(c, u, e, d); }
    forall n ensures At(Merge(c, u).clock, n) == At(u.clock, n) { MergeAt(c.clock, u.clock, n); }
  }

  lemma DotsInOne<E>(x: E, dots: seq<Dot>)
    ensures DotsIn(map[x := dots]) == set d | d in dots
  {
    var m := map[x := dots];
    forall d | d in dots ensures d in DotsIn(m) { assert x in m && d in m[x]; }
  }

  /** A set with one dot of `node` whose clock claims that node up to that dot. */
  ghost predicate IsAddDelta<E(!new)>(delta: ORSet<E>, x: E, newDot: Dot) {
    && (forall e, d :: Has(delta, e, d) <==> e == x && d == newDot)
    && (forall n :: At(delta.clock, n) == if n == newDot.node then newDot.counter else 0)
  }

  /** The delta of one Add holds the new dot and claims the adding node's whole clock. */
  lemma AddDelta<E(!new)>(c: ORSet<E>, node: string, x: E)
    requires c.added == map[] && c.removed == map[]
    ensures var k := At(c.clock, node) + 1; var delta := Delta(Add(c, node, x));
      delta.Some? && IsAddDelta(delta.value, x, Dot(node, k))
  {
    var t := Add(c, node, x);
    var newDot := Dot(node, At(c.clock, node) + 1);
    assert Dots(c.added, x) + [newDot] == [newDot];
    DotsInOne(x, [newDot]);
    assert newDot in DotsIn(t.added);
    assert forall d :: d in DotsIn(t.added) <==> d == newDot;
    assert DotsIn(t.removed) == {};
  }

  lemma AddDeltaMerges<E(!new)>(c: ORSet<E>, t: ORSet<E>, delta: ORSet<E>, x: E, newDot: Dot)
    requires WellFormed(c) && IsAddDelta(delta, x, newDot) && newDot.counter == At(c.clock, newDot.node) + 1
    requires forall e, d :: Has(t, e, d) <==> Has(c, e, d) || (e == x && d == newDot)
    requires forall n :: At(t.clock, n) == if n == newDot.node then newDot.counter else At(c.clock, n)
    ensures Same(Merge(c, delta), t) <==> forall e, d :: Has(c, e, d) ==> d.node != newDot.node
  {
    forall e, d
      ensures Has(Merge(c, delta), e, d) <==> (Has(c, e, d) && d.node != newDot.node) || (e == x && d == newDot)
    {
      MergeHas(c, delta, e, d);
    }
    forall n ensures At(Merge(c, delta).clock, n) == At(t.clock, n) { MergeAt(c.clock, delta.clock, n); }
    if e, d :| Has(c, e, d) && d.node == newDot.node {
      assert Has(t, e, d) && !Has(Merge(c, delta), e, d);
    }
  }

  /**
    Sending only the delta of an Add is faithful exactly when the set holds no live dot of
    the adding node: the delta's clock claims all earlier dots of that node as gone.
   */
  lemma AddDeltaFaithful<E(!new)>(c: ORSet<E>, node: string, x: E)
    requires WellFormed(c) && c.added == map[] && c.removed == map[]
    ensures Delta(Add(c, node, x)).Some?
    ensures Same(Merge(c, Delta(Add(c, node, x)).value), Add(c, node, x)) <==>
            forall e, d :: Has(c, e, d) ==> d.node != node
  {
    AddDelta(c, node, x);
    AddDeltaMerges(c, Add(c, node, x), Delta(Add(c, node, x)).value, x, Dot(node, At(c.clock, node) + 1));
  }

  /** The delta of one Remove holds nothing and claims, per node, the highest removed dot. */
  lemma RemoveDelta<E(!new)>(c: ORSet<E>, x: E)
    requires x in c.entries && c.added == map[] && c.removed == map[]
    ensures var delta := Delta(Remove(c, x));
      && delta.Some?
      && delta.value.entries == map[]
      && forall n :: At(delta.value.clock, n) == Highest((set d | d in c.entries[x]), n)
  {
    var t := Remove(c, x);
    assert Dots(c.removed, x) + c.entries[x] == c.entries[x];
    DotsInOne(x, c.entries[x]);
    assert DotsIn(t.added) == {};
  }

  /**
    Sending only the delta of a Remove is faithful exactly when no other element has a live
    dot that is as old as a removed dot of the same node.
   */
  lemma RemoveDeltaFaithful<E(!new)>(c: ORSet<E>, x: E)
    requires WellFormed(c) && x in c.entries && c.added == map[] && c.removed == map[]
    ensures Delta(Remove(c, x)).Some?
    ensures Same(Merge(c, Delta(Remove(c, x)).value), Remove(c, x)) <==>
            forall e, d, r :: e != x && Has(c, e, d) && Has(c, x, r) && d.node == r.node ==> d.counter > r.counter
  {
    RemoveDelta(c, x);
    var gone := set d | d in c.entries[x];
    if e, d, r :| e != x && Has(c, e, d) && Has(c, x, r) && d.node == r.node && d.counter <= r.counter {
      RemoveTakesMore(c, x, Delta(Remove(c, x)).value, gone, e, d, r);
    } else {
      RemoveTakesEnough(c, x, Delta(Remove(c, x)).value, gone);
    }
  }

  /** What the merge with a set that holds nothing keeps. */
  lemma MergedWithClaims<E>(c: ORSet<E>, delta: ORSet<E>, gone: set<Dot>, e: E, d: Dot)
    requires delta.entries == map[] && forall n :: At(delta.clock, n) == Highest(gone, n)
    ensures Has(Merge(c, delta), e, d) <==> Has(c, e, d) && d.counter > Highest(gone, d.node)
  {
    MergeHas(c, delta, e, d);
  }

  /** The delta hides an older dot of another element. */
  lemma RemoveTakesMore<E(!new)>(c: ORSet<E>, x: E, delta: ORSet<E>, gone: set<Dot>, e: E, d: Dot, r: Dot)
    requires delta.entries == map[] && forall n :: At(delta.clock, n) == Highest(gone, n)
    requires e != x && Has(c, e, d) && r in gone && d.node == r.node && d.counter <= r.counter
    ensures !Same(Merge(c, delta), Remove(c, x))
  {
    MergedWithClaims(c, delta, gone, e, d);
    assert Has(Remove(c, x), e, d);
  }

  lemma RemoveTakesEnough<E(!new)>(c: ORSet<E>, x: E, delta: ORSet<E>, gone: set<Dot>)
    requires WellFormed(c) && x in c.entries && gone == set d | d in c.entries[x]
    requires delta.entries == map[] && forall n :: At(delta.clock, n) == Highest(gone, n)
    requires forall e, d, r :: e != x && Has(c, e, d) && Has(c, x, r) && d.node == r.node ==> d.counter > r.counter
    ensures Same(Merge(c, delta), Remove(c, x))
  {
    forall e, d ensures Has(Merge(c, delta), e, d) <==> Has(Remove(c, x), e, d) {
      MergedWithClaims(c, delta, gone, e, d);
      var m := Highest(gone, d.node);
      if Has(c, e, d) && e != x { assert m == 0 || Has(c, x, Dot(d.node, m)); }
      if Has(c, x, d) { assert d in gone; }
    }
    forall n ensures At(Merge(c, delta).clock, n) == At(Remove(c, x).clock, n) {
      MergeAt(c.clock, delta.clock, n);
      var m := Highest(gone, n);
      assert m == 0 || Has(c, x, Dot(n, m));
    }
  }

  /**
    Two adds by one node, replicated one delta at a time: the peer loses the first element,
    and an exchange of full states with that peer then removes it from its origin as well.
   */
  lemma DeltasLoseAnAdd<E(!new)>(node: string, x: E, y: E)
    requires x != y
    ensures var s1 := Add(New(), node, x); var s2 := Add(ResetDelta(s1), node, y);
      && Delta(s1).Some? && Delta(s2).Some?
      && Contains(s2, x) && Contains(s2, y)
      && var peer := Merge(Delta(s1).value, Delta(s2).value);
         && !Contains(peer, x) && !Contains(Merge(s2, peer), x)
  {
    var s1 := Add(New(), node, x);
    var s2 := Add(ResetDelta(s1), node, y);
    AddDelta(New<E>(), node, x);
    AddDelta(ResetDelta(s1), node, y);
    assert Dot(node, 1) in s2.entries[x] && Dot(node, 2) in s2.entries[y];
    LaterDeltaHides(s2, Delta(s1).value, Delta(s2).value, node, x, y);
  }

  lemma LaterDeltaHides<E(!new)>(s: ORSet<E>, d1: ORSet<E>, d2: ORSet<E>, node: string, x: E, y: E)
    requires x != y && IsAddDelta(d1, x, Dot(node, 1)) && IsAddDelta(d2, y, Dot(node, 2))
    requires forall d :: Has(s, x, d) ==> d == Dot(node, 1)
    ensures !Contains(Merge(d1, d2), x) && !Contains(Merge(s, Merge(d1, d2)), x)
  {
    var peer := Merge(d1, d2);
    NoDots(peer, x, d1, d2);
    MergeAt(d1.clock, d2.clock, node);
    forall d ensures !Has(peer, x, d) { MergeHas(d1, d2, x, d); }
    NoDots(Merge(s, peer), x, s, peer);
  }

  /** x disappears when each side's dots of x are gone for the other side or absent. */
  lemma NoDots<E(!new)>(m: ORSet<E>, x: E, a: ORSet<E>, b: ORSet<E>)
    requires m == Merge(a, b)
    requires forall d :: Has(a, x, d) ==> Dominated(d, b.clock) && !Has(b, x, d)
    requires forall d :: !Has(b, x, d)
    ensures !Contains(m, x)
  {
    if Contains(m, x) {
      var d := m.entries[x][0];
      assert Has(m, x, d);
      MergeHas(a, b, x, d);
    }
  }
}
