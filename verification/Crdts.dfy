/** The grow-only counter: per-node slots of 64 bits, merged by maximum. */
module GCounters {
  import opened Basics

  const UINT64_RANGE: nat := 0x1_0000_0000_0000_0000

  datatype GCounter = GCounter(state: map<string, nat>, delta: map<string, nat>)

  function Slot(m: map<string, nat>, node: string): nat {
    if node in m then m[node] else 0
  }

  predicate Fits(c: GCounter) {
    forall n :: n in c.state ==> c.state[n] < UINT64_RANGE
  }

  /** Both the slot and the pending delta wrap around at 64 bits. */
  function Increment(c: GCounter, node: string, value: nat): GCounter {
    GCounter(c.state[node := (Slot(c.state, node) + value) % UINT64_RANGE],
             c.delta[node := (Slot(c.delta, node) + value) % UINT64_RANGE])
  }

  function MergeSlots(c: map<string, nat>, o: map<string, nat>): map<string, nat> {
    map n | n in c.Keys + o.Keys :: if n !in c || (n in o && o[n] > c[n]) then Slot(o, n) else c[n]
  }

  function Merge(c: GCounter, o: GCounter): GCounter {
    c.(state := MergeSlots(c.state, o.state))
  }

  /** The full slots of the nodes that changed; None if nothing did. */
  function Delta(c: GCounter): Option<GCounter> {
    if c.delta == map[] then None
    else Some(GCounter(map n | n in c.delta :: Slot(c.state, n), map[]))
  }

  function ResetDelta(c: GCounter): GCounter {
    c.(delta := map[])
  }

  lemma MergeAt(a: map<string, nat>, b: map<string, nat>, n: string)
    ensures n in MergeSlots(a, b) <==> n in a || n in b
    ensures Slot(MergeSlots(a, b), n) == if Slot(a, n) > Slot(b, n) then Slot(a, n) else Slot(b, n)
  {
  }

  lemma EqualBySlots(a: map<string, nat>, b: map<string, nat>)
    requires forall n :: n in a <==> n in b
    requires forall n :: Slot(a, n) == Slot(b, n)
    ensures a == b
  {
    forall n | n in a ensures n in b && a[n] == b[n] { assert Slot(a, n) == Slot(b, n); }
  }

  lemma MergeCommutes(a: map<string, nat>, b: map<string, nat>)
    ensures MergeSlots(a, b) == MergeSlots(b, a)
  {
    forall n ensures Slot(MergeSlots(a, b), n) == Slot(MergeSlots(b, a), n) { MergeAt(a, b, n); MergeAt(b, a, n); }
    EqualBySlots(MergeSlots(a, b), MergeSlots(b, a));
  }

  lemma MergeAssociates(a: map<string, nat>, b: map<string, nat>, c: map<string, nat>)
    ensures MergeSlots(MergeSlots(a, b), c) == MergeSlots(a, MergeSlots(b, c))
  {
    var l, r := MergeSlots(MergeSlots(a, b), c), MergeSlots(a, MergeSlots(b, c));
    forall n ensures (n in l <==> n in r) && Slot(l, n) == Slot(r, n) {
      MergeAt(a, b, n);
      MergeAt(MergeSlots(a, b), c, n);
      MergeAt(b, c, n);
      MergeAt(a, MergeSlots(b, c), n);
    }
    EqualBySlots(l, r);
  }

  lemma MergeIdempotent(a: map<string, nat>)
    ensures MergeSlots(a, a) == a && MergeSlots(map[], a) == a
  {
  }

  /** An increment adds to its node's slot, up to 64 bits, and leaves the others alone. */
  lemma IncrementSlots(c: GCounter, node: string, value: nat, n: string)
    requires Fits(c)
    ensures Fits(Increment(c, node, value))
    ensures Slot(Increment(c, node, value).state, n) ==
            if n != node then Slot(c.state, n)
            else if Slot(c.state, n) + value < UINT64_RANGE then Slot(c.state, n) + value
            else (Slot(c.state, n) + value) % UINT64_RANGE
  {
  }

  /** The delta of an increment carries the whole change exactly when the slot does not wrap around. */
  lemma IncrementDeltaFaithful(c: GCounter, node: string, value: nat)
    requires Fits(c) && value < UINT64_RANGE && c.delta == map[]
    ensures Delta(Increment(c, node, value)).Some?
    ensures Merge(c, Delta(Increment(c, node, value)).value) == ResetDelta(Increment(c, node, value)) <==>
            Slot(c.state, node) + value < UINT64_RANGE
  {
    var was, sum := Slot(c.state, node), Slot(c.state, node) + value;
    var up := Increment(c, node, value);
    assert node in up.delta;
    var delta := Delta(up).value;
    assert delta.state == map[node := sum % UINT64_RANGE];
    var merged := Merge(c, delta);
    if sum < UINT64_RANGE {
      assert merged.state == up.state;
    } else {
      assert sum % UINT64_RANGE == sum - UINT64_RANGE < was;
      assert merged.state[node] == was != up.state[node];
    }
  }
}

/** The last-writer-wins register. */
module LwwRegisters {

  datatype LWWRegister<V> = LWWRegister(value: V, timestamp: int, nodeID: string, dirty: bool)

  /** Byte-wise string order, as Go compares node IDs. */
  predicate Below(a: string, b: string) {
    b != [] && (a == [] || a[0] < b[0] || (a[0] == b[0] && Below(a[1..], b[1..])))
  }

  lemma {:induction false} BelowIsStrict(a: string, b: string)
    ensures !(Below(a, b) && Below(b, a))
    ensures a == b || Below(a, b) || Below(b, a)
    ensures Below(a, b) ==> a != b
  {
    if a != [] && b != [] {
      BelowIsStrict(a[1..], b[1..]);
      assert a == [a[0]] + a[1..] && b == [b[0]] + b[1..];
    }
  }

  lemma {:induction false} BelowTransitive(a: string, b: string, c: string)
    requires Below(a, b) && Below(b, c)
    ensures Below(a, c)
  {
    if a != [] && a[0] == b[0] && b[0] == c[0] {
      BelowTransitive(a[1..], b[1..], c[1..]);
    }
  }

  /** o's write is the later one: higher timestamp, node ID as the tiebreaker. */
  predicate Later<V>(o: LWWRegister<V>, r: LWWRegister<V>) {
    o.timestamp > r.timestamp || (o.timestamp == r.timestamp && Below(r.nodeID, o.nodeID))
  }

  function Merge<V>(r: LWWRegister<V>, o: LWWRegister<V>): LWWRegister<V> {
    (if Later(o, r) then o else r).(dirty := false)
  }

  function Set<V>(r: LWWRegister<V>, value: V, timestamp: int, nodeID: string): LWWRegister<V> {
    LWWRegister(value, timestamp, nodeID, true)
  }

  predicate SameWrite<V>(a: LWWRegister<V>, b: LWWRegister<V>) {
    a.timestamp == b.timestamp && a.nodeID == b.nodeID
  }

  /** The merge is one of the two writes, and neither is later than it. */
  lemma MergeIsLatest<V>(a: LWWRegister<V>, b: LWWRegister<V>)
    ensures Merge(a, b) in {a.(dirty := false), b.(dirty := false)}
    ensures !Later(a, Merge(a, b)) && !Later(b, Merge(a, b))
  {
    BelowIsStrict(a.nodeID, b.nodeID);
    BelowIsStrict(a.nodeID, a.nodeID);
    BelowIsStrict(b.nodeID, b.nodeID);
  }

  /** Merge commutes exactly when two different values never carry the same timestamp and node. */
  lemma MergeCommutes<V>(a: LWWRegister<V>, b: LWWRegister<V>)
    ensures Merge(a, b) == Merge(b, a) <==> (SameWrite(a, b) ==> a.value == b.value)
  {
    BelowIsStrict(a.nodeID, b.nodeID);
  }

  lemma MergeAssociative<V>(a: LWWRegister<V>, b: LWWRegister<V>, c: LWWRegister<V>)
    ensures Merge(Merge(a, b), c) == Merge(a, Merge(b, c))
  {
    BelowIsStrict(a.nodeID, b.nodeID);
    BelowIsStrict(b.nodeID, c.nodeID);
    BelowIsStrict(a.nodeID, c.nodeID);
    if Below(a.nodeID, b.nodeID) && Below(b.nodeID, c.nodeID) { BelowTransitive(a.nodeID, b.nodeID, c.nodeID); }
    if Below(c.nodeID, b.nodeID) && Below(b.nodeID, a.nodeID) { BelowTransitive(c.nodeID, b.nodeID, a.nodeID); }
  }

  /**
    A write reaches the peers as its writer sees it exactly when it is later than what it
    overwrites: Set replaces the local value unconditionally, Merge does not.
   */
  lemma SetDeltaFaithful<V>(c: LWWRegister<V>, value: V, timestamp: int, nodeID: string)
    ensures var up := Set(c, value, timestamp, nodeID);
      Merge(c, up) == up.(dirty := false) <==> Later(up, c) || (SameWrite(up, c) && value == c.value)
  {
    BelowIsStrict(c.nodeID, nodeID);
  }
}

/** The map whose keys are an observed-remove set and whose values are merged on their own. */
module OrMaps {
  import opened Basics
  import opened OrSet

  datatype ORMap<K, V> = ORMap(keys: ORSet<K>, values: map<K, V>)

  function MergeMaps<K, V>(join: (V, V) -> V, m: ORMap<K, V>, o: ORMap<K, V>): ORMap<K, V> {
    var keys := Merge(m.keys, o.keys);
    ORMap(keys,
          map k | k in m.values.Keys + o.values.Keys && Contains(keys, k) ::
            if k !in m.values then o.values[k]
            else if k !in o.values then m.values[k]
            else join(m.values[k], o.values[k]))
  }

  ghost predicate SameMap<K(!new), V>(a: ORMap<K, V>, b: ORMap<K, V>) {
    Same(a.keys, b.keys) && a.values == b.values
  }

  lemma SameContains<K(!new)>(a: ORSet<K>, b: ORSet<K>, k: K)
    requires Same(a, b)
    ensures Contains(a, k) <==> Contains(b, k)
  {
    if Contains(a, k) { assert Has(a, k, a.entries[k][0]); }
    if Contains(b, k) { assert Has(b, k, b.entries[k][0]); }
  }

  lemma MapMergeCommutes<K(!new), V(!new)>(join: (V, V) -> V, a: ORMap<K, V>, b: ORMap<K, V>)
    requires forall x, y :: join(x, y) == join(y, x)
    ensures SameMap(MergeMaps(join, a, b), MergeMaps(join, b, a))
  {
    MergeCommutative(a.keys, b.keys);
    forall k ensures Contains(Merge(a.keys, b.keys), k) <==> Contains(Merge(b.keys, a.keys), k) {
      SameContains(Merge(a.keys, b.keys), Merge(b.keys, a.keys), k);
    }
  }

  // ---- associativity -------------------------------------------------------------------

  function Val<K, V>(m: ORMap<K, V>, k: K): Option<V> {
    if k in m.values then Some(m.values[k]) else None
  }

  function OJoin<V>(join: (V, V) -> V, x: Option<V>, y: Option<V>): Option<V> {
    if x.None? then y else if y.None? then x else Some(join(x.value, y.value))
  }

  ghost predicate IsJoin<V(!new)>(join: (V, V) -> V) {
    && (forall x, y :: join(x, y) == join(y, x))
    && (forall x, y, z :: join(join(x, y), z) == join(x, join(y, z)))
    && (forall x :: join(x, x) == x)
  }

  lemma MergedValue<K, V>(join: (V, V) -> V, a: ORMap<K, V>, b: ORMap<K, V>, k: K)
    ensures Val(MergeMaps(join, a, b), k) ==
            if Contains(Merge(a.keys, b.keys), k) then OJoin(join, Val(a, k), Val(b, k)) else None
  {
  }

  lemma LiveDot<K(!new)>(s: ORSet<K>, k: K) returns (d: Dot)
    requires Contains(s, k)
    ensures Has(s, k, d)
  {
    d := s.entries[k][0];
  }

  /** A key of the triple merge is a key of at least one of the two pair merges. */
  lemma OnePairKeeps<K(!new)>(a: ORSet<K>, b: ORSet<K>, c: ORSet<K>, k: K)
    requires WellFormed(a) && WellFormed(b) && WellFormed(c)
    requires Contains(Merge(Merge(a, b), c), k)
    ensures Contains(Merge(a, b), k) || Contains(Merge(b, c), k)
  {
    MergeKeepsWellFormed(a, b);
    var d := LiveDot(Merge(Merge(a, b), c), k);
    MergeIsMaximum(Merge(a, b), c, k, d);
    MergeIsMaximum(a, b, k, d);
    MergeIsMaximum(b, c, k, d);
    assert Has(Merge(a, b), k, d) || Has(Merge(b, c), k, d);
  }

  /** The values that a pair merge threw away with a key are already part of the value the key comes back with. */
  ghost predicate NothingLost<K, V>(join: (V, V) -> V, a: ORMap<K, V>, b: ORMap<K, V>, c: ORMap<K, V>, k: K) {
    var all := OJoin(join, OJoin(join, Val(a, k), Val(b, k)), Val(c, k));
    && (!Contains(Merge(a.keys, b.keys), k) ==> all == Val(c, k))
    && (!Contains(Merge(b.keys, c.keys), k) ==> all == Val(a, k))
  }

  lemma ValuesAssociate<K(!new), V(!new)>(join: (V, V) -> V, a: ORMap<K, V>, b: ORMap<K, V>, c: ORMap<K, V>, k: K)
    requires IsJoin(join) && WellFormed(a.keys) && WellFormed(b.keys) && WellFormed(c.keys)
    ensures Val(MergeMaps(join, MergeMaps(join, a, b), c), k) == Val(MergeMaps(join, a, MergeMaps(join, b, c)), k) <==>
            (Contains(Merge(Merge(a.keys, b.keys), c.keys), k) ==> NothingLost(join, a, b, c, k))
  {
    MergeAssociative(a.keys, b.keys, c.keys);
    SameContains(Merge(Merge(a.keys, b.keys), c.keys), Merge(a.keys, Merge(b.keys, c.keys)), k);
    MergedValue(join, a, b, k);
    MergedValue(join, MergeMaps(join, a, b), c, k);
    MergedValue(join, b, c, k);
    MergedValue(join, a, MergeMaps(join, b, c), k);
    if Contains(Merge(Merge(a.keys, b.keys), c.keys), k) { OnePairKeeps(a.keys, b.keys, c.keys, k); }
  }

  /**
    The map's merge is associative exactly when no key comes back after a pair merge dropped
    it together with a value that the surviving side does not already include.
   */
  lemma MapMergeAssociates<K(!new), V(!new)>(join: (V, V) -> V, a: ORMap<K, V>, b: ORMap<K, V>, c: ORMap<K, V>)
    requires IsJoin(join) && WellFormed(a.keys) && WellFormed(b.keys) && WellFormed(c.keys)
    ensures SameMap(MergeMaps(join, MergeMaps(join, a, b), c), MergeMaps(join, a, MergeMaps(join, b, c))) <==>
            forall k :: Contains(Merge(Merge(a.keys, b.keys), c.keys), k) ==> NothingLost(join, a, b, c, k)
  {
    var l, r := MergeMaps(join, MergeMaps(join, a, b), c), MergeMaps(join, a, MergeMaps(join, b, c));
    MergeAssociative(a.keys, b.keys, c.keys);
    forall k
      ensures Val(l, k) == Val(r, k) <==>
              (Contains(Merge(Merge(a.keys, b.keys), c.keys), k) ==> NothingLost(join, a, b, c, k))
    {
      ValuesAssociate(join, a, b, c, k);
    }
    assert l.values == r.values <==> forall k :: Val(l, k) == Val(r, k) by { EqualByVal(l, r); }
  }

  lemma EqualByVal<K(!new), V(!new)>(l: ORMap<K, V>, r: ORMap<K, V>)
    ensures l.values == r.values <==> forall k :: Val(l, k) == Val(r, k)
  {
    if forall k :: Val(l, k) == Val(r, k) {
      forall k ensures k in l.values <==> k in r.values { assert Val(l, k) == Val(r, k); }
      forall k | k in l.values ensures l.values[k] == r.values[k] { assert Val(l, k) == Val(r, k); }
    }
  }

  /** One replica has keys 0 and 1, another removed key 0, a third one set it independently. */
  function Setter(): ORMap<nat, nat> {
    ORMap(Add(Add(New(), "a", 1), "a", 0), map[0 := 5, 1 := 0])
  }

  function Remover(): ORMap<nat, nat> {
    ORMap(Remove(Setter().keys, 0), map[1 := 0])
  }

  function Other(): ORMap<nat, nat> {
    ORMap(Add(New(), "b", 0), map[0 := 1])
  }

  function Larger(x: nat, y: nat): nat {
    Max(x, y)
  }

  lemma NoDotNoElement(s: ORSet<nat>, x: nat)
    requires forall d :: !Has(s, x, d)
    ensures !Contains(s, x)
  {
    if Contains(s, x) { var d := LiveDot(s, x); }
  }

  lemma RemovedFirst()
    ensures Val(MergeMaps(Larger, MergeMaps(Larger, Setter(), Remover()), Other()), 0) == Some(1)
  {
    var a, b, c := Setter(), Remover(), Other();
    var ab := Merge(a.keys, b.keys);
    forall d ensures !Has(ab, 0, d) { MergeHas(a.keys, b.keys, 0, d); }
    NoDotNoElement(ab, 0);
    assert Dot("b", 1) in c.keys.entries[0];
    MergeHas(ab, c.keys, 0, Dot("b", 1));
    MergeAt(a.keys.clock, b.keys.clock, "b");
    MergedValue(Larger, a, b, 0);
    MergedValue(Larger, MergeMaps(Larger, a, b), c, 0);
  }

  lemma RemovedLast()
    ensures Val(MergeMaps(Larger, Setter(), MergeMaps(Larger, Remover(), Other())), 0) == Some(5)
  {
    var a, b, c := Setter(), Remover(), Other();
    assert Dot("b", 1) in c.keys.entries[0];
    MergeHas(b.keys, c.keys, 0, Dot("b", 1));
    MergeHas(a.keys, Merge(b.keys, c.keys), 0, Dot("b", 1));
    MergedValue(Larger, b, c, 0);
    MergedValue(Larger, a, MergeMaps(Larger, b, c), 0);
  }

  /** It does happen: the order of three merges decides what the key holds. */
  lemma MapMergeOrderMatters()
    ensures
      var a, b, c := Setter(), Remover(), Other();
      Val(MergeMaps(Larger, MergeMaps(Larger, a, b), c), 0) != Val(MergeMaps(Larger, a, MergeMaps(Larger, b, c)), 0)
  {
    RemovedFirst();
    RemovedLast();
  }
}
