/**
 * Several replicators and everything they ever send. A packet, once sent, may be delivered any
 * number of times, at any time, to anybody, or never. Every update has an effect, and so has its
 * delta; they are the same effect where the delta says all that changed. History says which
 * effects a replica has, and that its value of a key is their join.
 */
module Convergence {
  import opened Basics
  import opened Lattices
  import opened Replicator

  /** The effect of one update, or of its delta. */
  datatype Item<V> = Item(key: string, effect: V)

  /** One value on the wire, and the effects it stands for; a part that cannot be decoded has none. */
  datatype Part<V> = Part(delta: Option<Delta<V>>, carries: set<nat>)

  datatype Packet<V> =
    | DeltaPacket(part: Part<V>)
    | StatePacket(parts: seq<Part<V>>)
    | BatchPacket(dc: Option<DataCenter>, parts: seq<Part<V>>, graves: seq<Option<Tombstone>>)
    | GravePacket(grave: Option<Tombstone>)

  datatype System<V> = System(
    stores: seq<Store<V>>,
    known: seq<set<nat>>,      // history: the effects that each replica has
    log: seq<Item<V>>,         // history: the effects of all updates and deltas
    sent: seq<Packet<V>>,
    deleted: set<string>)      // history: the keys that somebody deleted

  datatype Step<!V> =
    | Apply(i: nat, update: Update<V>, effect: Option<V>)
    | SendState(i: nat, keys: seq<Option<string>>)
    | SendBatch(i: nat, picks: seq<Option<nat>>, graves: seq<Option<Tombstone>>)
    | Deliver(i: nat, p: nat)
    | Erase(i: nat, key: string)
    | Read(i: nat, key: string, picks: seq<Option<nat>>)
    | Prune(i: nat, expired: set<string>)

  function Deltas<V>(parts: seq<Part<V>>): seq<Option<Delta<V>>> {
    seq(|parts|, i requires 0 <= i < |parts| => parts[i].delta)
  }

  function Carried<V>(parts: seq<Part<V>>): set<nat> {
    if parts == [] then {} else Carried(parts[..|parts| - 1]) + parts[|parts| - 1].carries
  }

  function MessageOf<V>(p: Packet<V>): Message<V> {
    match p
    case DeltaPacket(part) => DeltaMsg(part.delta)
    case StatePacket(parts) => FullStateMsg(Deltas(parts))
    case BatchPacket(dc, parts, graves) => BatchMsg(dc, Deltas(parts), graves)
    case GravePacket(grave) => TombstoneMsg(grave)
  }

  /** The effects a replica gains from a delta: none from its own, which it ignores. */
  function TakenBy<V>(nodeID: string, part: Part<V>): set<nat> {
    if part.delta.Some? && part.delta.value.origin == nodeID then {} else part.carries
  }

  function AllTakenBy<V>(nodeID: string, parts: seq<Part<V>>): set<nat> {
    if parts == [] then {} else AllTakenBy(nodeID, parts[..|parts| - 1]) + TakenBy(nodeID, parts[|parts| - 1])
  }

  /** The effects a replica gains from a packet; a batch from its own data center is ignored. */
  function Gains<V>(p: Packet<V>, nodeID: string, dc: DataCenter): set<nat> {
    match p
    case DeltaPacket(part) => TakenBy(nodeID, part)
    case StatePacket(parts) => Carried(parts)
    case BatchPacket(origin, parts, _) => if origin == Some(dc) then {} else AllTakenBy(nodeID, parts)
    case GravePacket(_) => {}
  }

  // ---- steps ---------------------------------------------------------------------------

  /** The part of a full state for a key: its value now, standing for all its effects known here. */
  function StatePart<V>(sys: System<V>, i: nat, key: Option<string>): Part<V>
    requires i < |sys.stores| == |sys.known|
  {
    var s := sys.stores[i];
    if key.None? || key.value !in s.values then Part(None, {})
    else
      Part(Some(Delta(key.value, if key.value in s.keyTypes then s.keyTypes[key.value] else 0,
                      s.values[key.value], s.nodeID)),
           OfKey(sys.log, sys.known[i], key.value))
  }

  /** The known effects of one key. */
  function OfKey<V>(log: seq<Item<V>>, known: set<nat>, key: string): set<nat> {
    set n | n in known && n < |log| && log[n].key == key
  }

  /** A part of a batch: the delta of an earlier packet. */
  function BatchPart<V>(sys: System<V>, pick: Option<nat>): Part<V> {
    if pick.Some? && pick.value < |sys.sent| && sys.sent[pick.value].DeltaPacket? then sys.sent[pick.value].part
    else Part(None, {})
  }

  /** An answer to a read of a key: the full state of that key which some replica sent. */
  function ReadPart<V>(sys: System<V>, key: string, pick: Option<nat>): Part<V> {
    if pick.None? || pick.value >= |sys.sent| then Part(None, {})
    else
      match sys.sent[pick.value]
      case StatePacket(parts) =>
        if |parts| == 1 && parts[0].delta.Some? && parts[0].delta.value.key == key then parts[0] else Part(None, {})
      case _ => Part(None, {})
  }

  function ReadParts<V>(sys: System<V>, key: string, picks: seq<Option<nat>>): seq<Part<V>> {
    seq(|picks|, k requires 0 <= k < |picks| => ReadPart(sys, key, picks[k]))
  }

  function Answers<V>(parts: seq<Part<V>>): seq<Option<V>> {
    seq(|parts|, k requires 0 <= k < |parts| =>
      if parts[k].delta.Some? then Some(parts[k].delta.value.delta) else None)
  }

  /** The update adds its effect to what the value said, and its delta is a value in order. */
  ghost predicate InflatesAt<V, L>(lat: Lattice<V, L>, initial: V, c: V, w: Written<V>, effect: Option<V>) {
    && lat.ok(initial) && lat.view(initial) == lat.bottom && lat.ok(w.updated)
    && (effect.Some? ==> lat.ok(effect.value)) && (w.delta.Some? ==> lat.ok(w.delta.value))
    && lat.view(w.updated) == (if effect.None? then lat.view(c) else lat.join(lat.view(c), lat.view(effect.value)))
  }

  ghost predicate Inflates<V, L>(lat: Lattice<V, L>, s: Store<V>, u: Update<V>, effect: Option<V>) {
    InflatesAt(lat, u.initial, Current(s, u), u.apply(Current(s, u)), effect)
  }

  /** The delta says all that changed. */
  ghost predicate SaysAll<V, L>(lat: Lattice<V, L>, w: Written<V>, effect: Option<V>) {
    w.delta.Some? && effect.Some? && lat.view(w.delta.value) == lat.view(effect.value)
  }

  ghost predicate FaithfulAt<V, L>(lat: Lattice<V, L>, initial: V, c: V, w: Written<V>) {
    w.delta.Some? && InflatesAt(lat, initial, c, w, w.delta)
  }

  /** The update can be replicated by its delta alone. */
  ghost predicate Faithful<V, L>(lat: Lattice<V, L>, s: Store<V>, u: Update<V>) {
    FaithfulAt(lat, u.initial, Current(s, u), u.apply(Current(s, u)))
  }

  /** Exactly if the new value is the old one joined with the delta. */
  lemma FaithfulDelta<V, L>(lat: Lattice<V, L>, initial: V, c: V, updated: V, delta: V)
    requires lat.ok(initial) && lat.view(initial) == lat.bottom && lat.ok(updated) && lat.ok(delta)
    ensures FaithfulAt(lat, initial, c, Written(updated, Some(delta))) <==>
            lat.view(updated) == lat.join(lat.view(c), lat.view(delta))
  {
  }

  ghost predicate Enabled<V, L>(lat: Lattice<V, L>, sys: System<V>, a: Step<V>) {
    match a
    case Apply(i, u, effect) =>
      && i < |sys.stores|
      && (u.key !in sys.stores[i].tombstones && u.key !in sys.deleted ==> Inflates(lat, sys.stores[i], u, effect))
    case SendState(i, _) => i < |sys.stores|
    case SendBatch(i, _, graves) =>
      && i < |sys.stores|
      && forall k :: 0 <= k < |graves| && graves[k].Some? ==> graves[k].value.key in sys.deleted
    case Deliver(i, p) => i < |sys.stores| && p < |sys.sent|
    case Erase(i, _) => i < |sys.stores|
    case Read(i, _, _) => i < |sys.stores|
    case Prune(i, _) => i < |sys.stores|
  }

  lemma InflatingIsStep<V, L>(lat: Lattice<V, L>, sys: System<V>, i: nat, u: Update<V>, effect: Option<V>)
    requires i < |sys.stores| && (u.key !in sys.deleted ==> Inflates(lat, sys.stores[i], u, effect))
    ensures Enabled(lat, sys, Apply(i, u, effect))
  {
  }

  /** An update, and its delta on the wire; a delta that does not say all has an effect of its own. */
  ghost function Applied<V, L>(lat: Lattice<V, L>, sys: System<V>, i: nat, u: Update<V>, effect: Option<V>): System<V>
    requires i < |sys.stores| == |sys.known|
  {
    var s := sys.stores[i];
    var w := u.apply(Current(s, u));
    var mine := if effect.None? then [] else [Item(u.key, effect.value)];
    var own := if w.delta.None? || SaysAll(lat, w, effect) then [] else [Item(u.key, w.delta.value)];
    var me := if effect.None? then {} else {|sys.log|};
    var carries := if own == [] then me else {|sys.log| + |mine|};
    sys.(stores := sys.stores[i := OnUpdate(s, u)],
         log := sys.log + mine + own,
         known := sys.known[i := sys.known[i] + me],
         sent := if w.delta.Some?
                 then sys.sent + [DeltaPacket(Part(Some(Delta(u.key, u.ty, w.delta.value, s.nodeID)), carries))]
                 else sys.sent)
  }

  ghost function Next<V, L>(lat: Lattice<V, L>, sys: System<V>, a: Step<V>): System<V>
    requires a.i < |sys.stores| == |sys.known| && (a.Deliver? ==> a.p < |sys.sent|)
  {
    var s := sys.stores[a.i];
    match a
    case Apply(i, u, effect) => if u.key in s.tombstones then sys else Applied(lat, sys, i, u, effect)
    case SendState(i, keys) =>
      sys.(sent := sys.sent + [StatePacket(seq(|keys|, k requires 0 <= k < |keys| => StatePart(sys, i, keys[k])))])
    case SendBatch(i, picks, graves) =>
      var parts := seq(|picks|, k requires 0 <= k < |picks| => BatchPart(sys, picks[k]));
      sys.(sent := sys.sent + [BatchPacket(Some(s.dc), parts, graves)])
    case Deliver(i, p) =>
      sys.(stores := sys.stores[i := OnMessage(lat.merge, s, MessageOf(sys.sent[p]))],
           known := sys.known[i := sys.known[i] + Gains(sys.sent[p], s.nodeID, s.dc)])
    case Erase(i, key) =>
      sys.(stores := sys.stores[i := Bury(s, key, s.nodeID)], deleted := sys.deleted + {key},
           sent := sys.sent + [GravePacket(Some(Tombstone(key, s.nodeID)))])
    case Read(i, key, picks) =>
      var parts := ReadParts(sys, key, picks);
      sys.(stores := sys.stores[i := OnGet(lat.merge, s, key, Answers(parts))],
           known := sys.known[i := sys.known[i] + Carried(parts)])
    case Prune(i, expired) => sys.(stores := sys.stores[i := OnPrune(s, expired)])
  }

  ghost predicate Init<V>(sys: System<V>) {
    && |sys.stores| == |sys.known| && sys.log == [] && sys.sent == [] && sys.deleted == {}
    && (forall i :: 0 <= i < |sys.stores| ==>
          sys.stores[i] == Fresh(sys.stores[i].nodeID, sys.stores[i].dc) && sys.known[i] == {})
  }

  ghost predicate IsRun<V, L>(lat: Lattice<V, L>, run: seq<System<V>>, steps: seq<Step<V>>) {
    && |run| == |steps| + 1 && Init(run[0])
    && forall k :: 0 <= k < |steps| ==>
         && |run[k].stores| == |run[k].known| && Enabled(lat, run[k], steps[k])
         && run[k + 1] == Next(lat, run[k], steps[k])
  }

  // ---- the invariant -------------------------------------------------------------------

  /** What the effects say about a key. */
  ghost function Slice<V, L(!new)>(lat: Lattice<V, L>, log: seq<Item<V>>, known: set<nat>, key: string): iset<L> {
    iset n: nat | n in OfKey(log, known, key) :: lat.view(log[n].effect)
  }

  ghost function ViewOf<V, L>(lat: Lattice<V, L>, v: Option<V>): L {
    if v.Some? then lat.view(v.value) else lat.bottom
  }

  ghost function ViewAt<V, L>(lat: Lattice<V, L>, s: Store<V>, key: string): L {
    ViewOf(lat, Found(s.values, key))
  }

  /** A value, or none, is the join of these effects of a key. */
  ghost predicate ValueOk<V, L(!new)>(
    lat: Lattice<V, L>, log: seq<Item<V>>, v: Option<V>, known: set<nat>, key: string)
  {
    (v.Some? ==> lat.ok(v.value)) && IsJoinOf(lat.join, ViewOf(lat, v), Slice(lat, log, known, key))
  }

  /** The replica's value of a key is the join of the effects it has. */
  ghost predicate KeyOk<V, L(!new)>(lat: Lattice<V, L>, log: seq<Item<V>>, s: Store<V>, known: set<nat>, key: string) {
    key !in s.tombstones && ValueOk(lat, log, Found(s.values, key), known, key)
  }

  /** The same for a value on the wire. */
  ghost predicate PartOk<V, L(!new)>(lat: Lattice<V, L>, log: seq<Item<V>>, deleted: set<string>, part: Part<V>) {
    && (forall n :: n in part.carries ==> n < |log|)
    && (part.delta.None? ==> part.carries == {})
    && (part.delta.Some? ==>
          && (forall n :: n in part.carries ==> log[n].key == part.delta.value.key)
          && (part.delta.value.key !in deleted ==>
                && lat.ok(part.delta.value.delta)
                && IsJoinOf(lat.join, lat.view(part.delta.value.delta),
                            Slice(lat, log, part.carries, part.delta.value.key))))
  }

  ghost predicate GraveOk(deleted: set<string>, t: Option<Tombstone>) {
    t.Some? ==> t.value.key in deleted
  }

  ghost predicate PacketOk<V, L(!new)>(lat: Lattice<V, L>, sys: System<V>, p: Packet<V>)
    requires |sys.stores| == |sys.known|
  {
    match p
    case DeltaPacket(part) => PartOk(lat, sys.log, sys.deleted, part)
    case StatePacket(parts) => forall k :: 0 <= k < |parts| ==> PartOk(lat, sys.log, sys.deleted, parts[k])
    case BatchPacket(_, parts, graves) =>
      && (forall k :: 0 <= k < |parts| ==> PartOk(lat, sys.log, sys.deleted, parts[k]))
      && (forall k :: 0 <= k < |graves| ==> GraveOk(sys.deleted, graves[k]))
    case GravePacket(grave) => GraveOk(sys.deleted, grave)
  }

  ghost predicate StoreOk<V, L(!new)>(lat: Lattice<V, L>, sys: System<V>, i: nat)
    requires i < |sys.stores| == |sys.known|
  {
    && (forall n :: n in sys.known[i] ==> n < |sys.log|)
    && (forall key :: key in sys.stores[i].tombstones ==> key in sys.deleted)
    && (forall key :: key !in sys.deleted ==> KeyOk(lat, sys.log, sys.stores[i], sys.known[i], key))
  }

  ghost predicate Inv<V, L(!new)>(lat: Lattice<V, L>, sys: System<V>) {
    && |sys.stores| == |sys.known|
    && (forall i :: 0 <= i < |sys.stores| ==> StoreOk(lat, sys, i))
    && (forall p :: 0 <= p < |sys.sent| ==> PacketOk(lat, sys, sys.sent[p]))
  }

  // ---- slices --------------------------------------------------------------------------

  lemma SliceUnion<V, L(!new)>(lat: Lattice<V, L>, log: seq<Item<V>>, a: set<nat>, b: set<nat>, key: string)
    ensures Slice(lat, log, a + b, key) == Slice(lat, log, a, key) + Slice(lat, log, b, key)
  {
    assert OfKey(log, a + b, key) == OfKey(log, a, key) + OfKey(log, b, key);
  }

  /** New entries of the log do not touch what was known before. */
  lemma SliceStays<V, L(!new)>(lat: Lattice<V, L>, log: seq<Item<V>>, more: seq<Item<V>>, a: set<nat>, key: string)
    requires forall n :: n in a ==> n < |log|
    ensures Slice(lat, log + more, a, key) == Slice(lat, log, a, key)
  {
    assert OfKey(log + more, a, key) == OfKey(log, a, key);
  }

  lemma SliceOfOthers<V, L(!new)>(lat: Lattice<V, L>, log: seq<Item<V>>, a: set<nat>, b: set<nat>, key: string)
    requires forall n :: n in b ==> n < |log| && log[n].key != key
    ensures Slice(lat, log, a + b, key) == Slice(lat, log, a, key)
  {
    assert OfKey(log, a + b, key) == OfKey(log, a, key);
  }

  // ---- what a replica gains by absorbing -----------------------------------------------

  /** One more value of the key, merged in or adopted. */
  function Merged<V>(merge: Merge<V>, v: Option<V>, x: V): Option<V> {
    Some(if v.None? then x else merge(v.value, x))
  }

  lemma MergeKeeps<V(!new), L(!new)>(lat: Lattice<V, L>, log: seq<Item<V>>, deleted: set<string>, v: Option<V>,
                                     known: set<nat>, part: Part<V>)
    requires Lawful(lat) && part.delta.Some? && PartOk(lat, log, deleted, part) && part.delta.value.key !in deleted
    requires ValueOk(lat, log, v, known, part.delta.value.key)
    ensures
      var d := part.delta.value;
      ValueOk(lat, log, Merged(lat.merge, v, d.delta), known + part.carries, d.key)
  {
    var d := part.delta.value;
    var x, y := ViewOf(lat, v), lat.view(d.delta);
    SliceUnion(lat, log, known, part.carries, d.key);
    JoinOfBoth(lat.join, lat.bottom, x, Slice(lat, log, known, d.key), y, Slice(lat, log, part.carries, d.key));
    if v.Some? {
      assert MergesLikeJoin(lat, v.value, d.delta);
    } else {
      assert Absorbs(lat.join, lat.bottom, y);
    }
  }

  lemma AbsorbKeeps<V(!new), L(!new)>(lat: Lattice<V, L>, log: seq<Item<V>>, deleted: set<string>, s: Store<V>,
                                      known: set<nat>, part: Part<V>, key: string)
    requires Lawful(lat) && part.delta.Some? && PartOk(lat, log, deleted, part)
    requires key !in deleted && KeyOk(lat, log, s, known, key)
    ensures KeyOk(lat, log, Absorb(lat.merge, s, part.delta.value), known + part.carries, key)
  {
    if part.delta.value.key != key {
      SliceOfOthers(lat, log, known, part.carries, key);
    } else {
      MergeKeeps(lat, log, deleted, Found(s.values, key), known, part);
    }
  }

  lemma DeltasSplit<V>(parts: seq<Part<V>>)
    requires parts != []
    ensures Deltas(parts)[..|parts| - 1] == Deltas(parts[..|parts| - 1])
  {
  }

  lemma {:induction false} StateKeeps<V(!new), L(!new)>(
    lat: Lattice<V, L>, log: seq<Item<V>>, deleted: set<string>, s: Store<V>, known: set<nat>,
    parts: seq<Part<V>>, key: string)
    requires Lawful(lat) && forall k :: 0 <= k < |parts| ==> PartOk(lat, log, deleted, parts[k])
    requires key !in deleted && KeyOk(lat, log, s, known, key)
    ensures KeyOk(lat, log, OnFullState(lat.merge, s, Deltas(parts)), known + Carried(parts), key)
  {
    if parts == [] {
      assert known + {} == known;
    } else {
      var n := |parts| - 1;
      DeltasSplit(parts);
      StateKeeps(lat, log, deleted, s, known, parts[..n], key);
      StateKeepsNext(lat, log, deleted, s, known, parts, key);
    }
  }

  /** The last entry of a full state. */
  lemma StateKeepsNext<V(!new), L(!new)>(
    lat: Lattice<V, L>, log: seq<Item<V>>, deleted: set<string>, s: Store<V>, known: set<nat>,
    parts: seq<Part<V>>, key: string)
    requires Lawful(lat) && parts != [] && PartOk(lat, log, deleted, parts[|parts| - 1]) && key !in deleted
    requires
      var before := parts[..|parts| - 1];
      && KeyOk(lat, log, OnFullState(lat.merge, s, Deltas(before)), known + Carried(before), key)
      && Deltas(parts)[..|parts| - 1] == Deltas(before)
    ensures KeyOk(lat, log, OnFullState(lat.merge, s, Deltas(parts)), known + Carried(parts), key)
  {
    var n := |parts| - 1;
    var mid, got := OnFullState(lat.merge, s, Deltas(parts[..n])), known + Carried(parts[..n]);
    assert known + Carried(parts) == got + parts[n].carries;
    if parts[n].delta.Some? { AbsorbKeeps(lat, log, deleted, mid, got, parts[n], key); }
  }

  lemma {:induction false} DeltasKeepID<V>(merge: Merge<V>, s: Store<V>, ds: seq<Option<Delta<V>>>)
    ensures OnDeltas(merge, s, ds).nodeID == s.nodeID && OnDeltas(merge, s, ds).dc == s.dc
    ensures OnDeltas(merge, s, ds).tombstones == s.tombstones
  {
    if ds != [] { DeltasKeepID(merge, s, ds[..|ds| - 1]); }
  }

  /** One delta: absorbed, or ignored by its author. */
  lemma DeltaKeeps<V(!new), L(!new)>(lat: Lattice<V, L>, log: seq<Item<V>>, deleted: set<string>, s: Store<V>,
                                     known: set<nat>, part: Part<V>, key: string)
    requires Lawful(lat) && PartOk(lat, log, deleted, part) && key !in deleted && KeyOk(lat, log, s, known, key)
    ensures KeyOk(lat, log, OnDelta(lat.merge, s, part.delta), known + TakenBy(s.nodeID, part), key)
  {
    if part.delta.Some? && part.delta.value.origin != s.nodeID {
      AbsorbKeeps(lat, log, deleted, s, known, part, key);
    } else {
      assert known + TakenBy(s.nodeID, part) == known;
    }
  }

  lemma {:induction false} DeltasKeep<V(!new), L(!new)>(
    lat: Lattice<V, L>, log: seq<Item<V>>, deleted: set<string>, s: Store<V>, known: set<nat>,
    parts: seq<Part<V>>, key: string)
    requires Lawful(lat) && forall k :: 0 <= k < |parts| ==> PartOk(lat, log, deleted, parts[k])
    requires key !in deleted && KeyOk(lat, log, s, known, key)
    ensures KeyOk(lat, log, OnDeltas(lat.merge, s, Deltas(parts)), known + AllTakenBy(s.nodeID, parts), key)
  {
    if parts == [] {
      assert known + {} == known;
    } else {
      DeltasSplit(parts);
      DeltasKeep(lat, log, deleted, s, known, parts[..|parts| - 1], key);
      DeltasKeepNext(lat, log, deleted, s, known, parts, key);
    }
  }

  /** The last delta of a batch. */
  lemma DeltasKeepNext<V(!new), L(!new)>(
    lat: Lattice<V, L>, log: seq<Item<V>>, deleted: set<string>, s: Store<V>, known: set<nat>,
    parts: seq<Part<V>>, key: string)
    requires Lawful(lat) && parts != [] && PartOk(lat, log, deleted, parts[|parts| - 1]) && key !in deleted
    requires
      var before := parts[..|parts| - 1];
      && KeyOk(lat, log, OnDeltas(lat.merge, s, Deltas(before)), known + AllTakenBy(s.nodeID, before), key)
      && Deltas(parts)[..|parts| - 1] == Deltas(before)
    ensures KeyOk(lat, log, OnDeltas(lat.merge, s, Deltas(parts)), known + AllTakenBy(s.nodeID, parts), key)
  {
    var n := |parts| - 1;
    var mid, got := OnDeltas(lat.merge, s, Deltas(parts[..n])), known + AllTakenBy(s.nodeID, parts[..n]);
    DeltasKeepID(lat.merge, s, Deltas(parts[..n]));
    assert known + AllTakenBy(s.nodeID, parts) == got + TakenBy(s.nodeID, parts[n]);
    DeltaKeeps(lat, log, deleted, mid, got, parts[n], key);
  }

  // ---- what a replica gains by reading -------------------------------------------------

  /** The answers to a read of a key are values of that key. */
  ghost predicate AnswersOk<V, L(!new)>(lat: Lattice<V, L>, log: seq<Item<V>>, deleted: set<string>,
                                        parts: seq<Part<V>>, key: string) {
    forall k :: 0 <= k < |parts| ==>
      PartOk(lat, log, deleted, parts[k]) && (parts[k].delta.Some? ==> parts[k].delta.value.key == key)
  }

  lemma {:induction false} GatherKeeps<V(!new), L(!new)>(
    lat: Lattice<V, L>, log: seq<Item<V>>, deleted: set<string>, v: Option<V>, known: set<nat>,
    parts: seq<Part<V>>, key: string)
    requires Lawful(lat) && AnswersOk(lat, log, deleted, parts, key) && key !in deleted
    requires ValueOk(lat, log, v, known, key)
    ensures ValueOk(lat, log, Gathered(lat.merge, v, Answers(parts)), known + Carried(parts), key)
  {
    if parts == [] {
      assert known + {} == known;
    } else {
      var n := |parts| - 1;
      GatherKeeps(lat, log, deleted, v, known, parts[..n], key);
      assert Answers(parts)[..n] == Answers(parts[..n]);
      var mid, got := Gathered(lat.merge, v, Answers(parts[..n])), known + Carried(parts[..n]);
      assert known + Carried(parts) == got + parts[n].carries;
      if parts[n].delta.Some? { MergeKeeps(lat, log, deleted, mid, got, parts[n]); }
    }
  }

  lemma {:induction false} CarriedOfKey<V, L(!new)>(
    lat: Lattice<V, L>, log: seq<Item<V>>, deleted: set<string>, parts: seq<Part<V>>, key: string)
    requires AnswersOk(lat, log, deleted, parts, key)
    ensures forall n :: n in Carried(parts) ==> n < |log| && log[n].key == key
  {
    if parts != [] { CarriedOfKey(lat, log, deleted, parts[..|parts| - 1], key); }
  }

  lemma {:induction false} GravesKeep<V(!new), L(!new)>(
    lat: Lattice<V, L>, log: seq<Item<V>>, deleted: set<string>, s: Store<V>, known: set<nat>,
    graves: seq<Option<Tombstone>>, key: string)
    requires forall k :: 0 <= k < |graves| ==> GraveOk(deleted, graves[k])
    requires key !in deleted && KeyOk(lat, log, s, known, key)
    ensures KeyOk(lat, log, OnTombstones(s, graves), known, key)
  {
    if graves != [] { GravesKeep(lat, log, deleted, s, known, graves[..|graves| - 1], key); }
  }

  // ---- which tombstones a message leaves -----------------------------------------------

  ghost predicate GravesIn<V>(s: Store<V>, deleted: set<string>) {
    forall key :: key in s.tombstones ==> key in deleted
  }

  lemma {:induction false} StateDigsNothing<V>(merge: Merge<V>, s: Store<V>, es: seq<Option<Delta<V>>>)
    ensures OnFullState(merge, s, es).tombstones == s.tombstones
    ensures OnFullState(merge, s, es).nodeID == s.nodeID && OnFullState(merge, s, es).dc == s.dc
  {
    if es != [] { StateDigsNothing(merge, s, es[..|es| - 1]); }
  }

  lemma {:induction false} GravesDig<V>(s: Store<V>, graves: seq<Option<Tombstone>>, deleted: set<string>)
    requires GravesIn(s, deleted) && forall k :: 0 <= k < |graves| ==> GraveOk(deleted, graves[k])
    ensures GravesIn(OnTombstones(s, graves), deleted)
    ensures OnTombstones(s, graves).nodeID == s.nodeID && OnTombstones(s, graves).dc == s.dc
  {
    if graves != [] { GravesDig(s, graves[..|graves| - 1], deleted); }
  }

  lemma PacketDigs<V, L(!new)>(lat: Lattice<V, L>, sys: System<V>, s: Store<V>, p: Packet<V>)
    requires |sys.stores| == |sys.known| && PacketOk(lat, sys, p) && GravesIn(s, sys.deleted)
    ensures
      var s' := OnMessage(lat.merge, s, MessageOf(p));
      GravesIn(s', sys.deleted) && s'.nodeID == s.nodeID && s'.dc == s.dc
  {
    match p
    case DeltaPacket(part) =>
    case StatePacket(parts) => StateDigsNothing(lat.merge, s, Deltas(parts));
    case BatchPacket(dc, parts, graves) =>
      DeltasKeepID(lat.merge, s, Deltas(parts));
      GravesDig(OnDeltas(lat.merge, s, Deltas(parts)), graves, sys.deleted);
    case GravePacket(grave) =>
  }

  /** A delivered packet gives the replica the effects that the packet stands for. */
  lemma PacketKeeps<V(!new), L(!new)>(lat: Lattice<V, L>, sys: System<V>, i: nat, p: Packet<V>, key: string)
    requires Lawful(lat) && i < |sys.stores| == |sys.known| && PacketOk(lat, sys, p) && key !in sys.deleted
    requires KeyOk(lat, sys.log, sys.stores[i], sys.known[i], key)
    ensures
      var s := sys.stores[i];
      KeyOk(lat, sys.log, OnMessage(lat.merge, s, MessageOf(p)), sys.known[i] + Gains(p, s.nodeID, s.dc), key)
  {
    var s, known := sys.stores[i], sys.known[i];
    match p
    case DeltaPacket(part) => DeltaKeeps(lat, sys.log, sys.deleted, s, known, part, key);
    case StatePacket(parts) => StateKeeps(lat, sys.log, sys.deleted, s, known, parts, key);
    case BatchPacket(dc, parts, graves) =>
      if dc == Some(s.dc) {
        assert known + {} == known;
      } else {
        DeltasKeep(lat, sys.log, sys.deleted, s, known, parts, key);
        var s' := OnDeltas(lat.merge, s, Deltas(parts));
        GravesKeep(lat, sys.log, sys.deleted, s', known + AllTakenBy(s.nodeID, parts), graves, key);
      }
    case GravePacket(grave) =>
      assert known + {} == known;
  }

  lemma {:induction false} CarriedBounds<V, L(!new)>(
    lat: Lattice<V, L>, log: seq<Item<V>>, deleted: set<string>, parts: seq<Part<V>>)
    requires forall k :: 0 <= k < |parts| ==> PartOk(lat, log, deleted, parts[k])
    ensures forall n :: n in Carried(parts) ==> n < |log|
  {
    if parts != [] { CarriedBounds(lat, log, deleted, parts[..|parts| - 1]); }
  }

  lemma {:induction false} TakenIsCarried<V>(nodeID: string, parts: seq<Part<V>>)
    ensures AllTakenBy(nodeID, parts) <= Carried(parts)
  {
    if parts != [] { TakenIsCarried(nodeID, parts[..|parts| - 1]); }
  }

  lemma GainBounds<V, L(!new)>(lat: Lattice<V, L>, sys: System<V>, p: Packet<V>, nodeID: string, dc: DataCenter)
    requires |sys.stores| == |sys.known| && PacketOk(lat, sys, p)
    ensures forall n :: n in Gains(p, nodeID, dc) ==> n < |sys.log|
  {
    match p
    case DeltaPacket(part) =>
    case StatePacket(parts) => CarriedBounds(lat, sys.log, sys.deleted, parts);
    case BatchPacket(_, parts, _) =>
      CarriedBounds(lat, sys.log, sys.deleted, parts);
      TakenIsCarried(nodeID, parts);
    case GravePacket(_) =>
  }

  // ---- packets outlive steps -----------------------------------------------------------

  /** Logs, knowledge and deletions only grow, names stay. */
  ghost predicate Grows<V>(sys: System<V>, sys': System<V>) {
    && |sys.stores| == |sys.known| == |sys'.stores| == |sys'.known| && sys.log <= sys'.log
    && sys.deleted <= sys'.deleted
    && forall i :: 0 <= i < |sys.stores| ==>
         sys'.stores[i].nodeID == sys.stores[i].nodeID && sys.known[i] <= sys'.known[i]
  }

  lemma PartOutlives<V, L(!new)>(lat: Lattice<V, L>, sys: System<V>, sys': System<V>, part: Part<V>)
    requires Grows(sys, sys') && PartOk(lat, sys.log, sys.deleted, part)
    ensures PartOk(lat, sys'.log, sys'.deleted, part)
  {
    if part.delta.Some? {
      var more := sys'.log[|sys.log|..];
      assert sys'.log == sys.log + more;
      SliceStays(lat, sys.log, more, part.carries, part.delta.value.key);
    }
  }

  lemma PacketOutlives<V, L(!new)>(lat: Lattice<V, L>, sys: System<V>, sys': System<V>, p: Packet<V>)
    requires Grows(sys, sys') && PacketOk(lat, sys, p)
    ensures PacketOk(lat, sys', p)
  {
    match p
    case DeltaPacket(part) => PartOutlives(lat, sys, sys', part);
    case StatePacket(parts) =>
      forall k | 0 <= k < |parts| ensures PartOk(lat, sys'.log, sys'.deleted, parts[k]) {
        PartOutlives(lat, sys, sys', parts[k]);
      }
    case BatchPacket(_, parts, _) =>
      forall k | 0 <= k < |parts| ensures PartOk(lat, sys'.log, sys'.deleted, parts[k]) {
        PartOutlives(lat, sys, sys', parts[k]);
      }
    case GravePacket(_) =>
  }

  lemma StoreOutlives<V, L(!new)>(lat: Lattice<V, L>, sys: System<V>, sys': System<V>, i: nat)
    requires Grows(sys, sys') && i < |sys.stores| && StoreOk(lat, sys, i)
    requires sys'.stores[i] == sys.stores[i] && sys'.known[i] == sys.known[i]
    ensures StoreOk(lat, sys', i)
  {
    var more := sys'.log[|sys.log|..];
    assert sys'.log == sys.log + more;
    forall key | key !in sys'.deleted ensures KeyOk(lat, sys'.log, sys'.stores[i], sys'.known[i], key) {
      assert KeyOk(lat, sys.log, sys.stores[i], sys.known[i], key);
      SliceStays(lat, sys.log, more, sys.known[i], key);
    }
  }

  /** A step that changes at most one replica and sends at most one packet. */
  lemma StepFrame<V, L(!new)>(lat: Lattice<V, L>, sys: System<V>, sys': System<V>, i: nat)
    requires Inv(lat, sys) && Grows(sys, sys') && i < |sys.stores| && sys.sent <= sys'.sent
    requires forall k :: 0 <= k < |sys.stores| && k != i ==>
               sys'.stores[k] == sys.stores[k] && sys'.known[k] == sys.known[k]
    requires StoreOk(lat, sys', i)
    requires forall p :: |sys.sent| <= p < |sys'.sent| ==> PacketOk(lat, sys', sys'.sent[p])
    ensures Inv(lat, sys')
  {
    forall k | 0 <= k < |sys'.stores| ensures StoreOk(lat, sys', k) {
      if k != i { StoreOutlives(lat, sys, sys', k); }
    }
    forall p | 0 <= p < |sys'.sent| ensures PacketOk(lat, sys', sys'.sent[p]) {
      if p < |sys.sent| {
        assert sys'.sent[p] == sys.sent[p];
        PacketOutlives(lat, sys, sys', sys.sent[p]);
      }
    }
  }

  // ---- every step keeps the invariant --------------------------------------------------

  lemma DeliverKeeps<V(!new), L(!new)>(lat: Lattice<V, L>, sys: System<V>, i: nat, p: nat)
    requires Lawful(lat) && Inv(lat, sys) && i < |sys.stores| && p < |sys.sent|
    ensures Inv(lat, Next(lat, sys, Deliver(i, p)))
  {
    var sys', packet := Next(lat, sys, Deliver(i, p)), sys.sent[p];
    assert StoreOk(lat, sys, i) && PacketOk(lat, sys, packet);
    PacketDigs(lat, sys, sys.stores[i], packet);
    GainBounds(lat, sys, packet, sys.stores[i].nodeID, sys.stores[i].dc);
    forall key | key !in sys.deleted ensures KeyOk(lat, sys'.log, sys'.stores[i], sys'.known[i], key) {
      PacketKeeps(lat, sys, i, packet, key);
    }
    StepFrame(lat, sys, sys', i);
  }

  /** The new effect is the last one of the log. */
  lemma SliceOfNew<V, L(!new)>(lat: Lattice<V, L>, log: seq<Item<V>>, item: Item<V>, key: string)
    ensures Slice(lat, log + [item], {|log|}, key) == if item.key == key then iset{lat.view(item.effect)} else iset{}
  {
    var log' := log + [item];
    assert OfKey(log', {|log|}, key) == if item.key == key then {|log|} else {};
    if item.key == key {
      assert |log| in OfKey(log', {|log|}, key) && log'[|log|] == item;
    }
  }

  /** An update with an effect: the join gains it. */
  lemma EffectKeeps<V(!new), L(!new)>(lat: Lattice<V, L>, log: seq<Item<V>>, s: Store<V>, known: set<nat>,
                                      u: Update<V>, effect: V, key: string)
    requires Lawful(lat) && u.key !in s.tombstones && (u.key == key ==> Inflates(lat, s, u, Some(effect)))
    requires (forall n :: n in known ==> n < |log|) && KeyOk(lat, log, s, known, key)
    ensures KeyOk(lat, log + [Item(u.key, effect)], OnUpdate(s, u), known + {|log|}, key)
  {
    var log' := log + [Item(u.key, effect)];
    SliceStays(lat, log, [Item(u.key, effect)], known, key);
    SliceUnion(lat, log', known, {|log|}, key);
    SliceOfNew(lat, log, Item(u.key, effect), key);
    if u.key == key {
      JoinOfOne(lat.join, lat.bottom, lat.view(effect));
      JoinOfBoth(lat.join, lat.bottom, ViewAt(lat, s, key), Slice(lat, log, known, key), lat.view(effect),
                 iset{lat.view(effect)});
    } else {
      assert Slice(lat, log', known + {|log|}, key) == Slice(lat, log, known, key);
    }
  }

  /** The value after an update is the join of the effects with its own, whatever else is logged. */
  lemma AppliedKeeps<V(!new), L(!new)>(lat: Lattice<V, L>, log: seq<Item<V>>, s: Store<V>, known: set<nat>,
                                       u: Update<V>, effect: Option<V>, more: seq<Item<V>>, key: string)
    requires Lawful(lat) && u.key !in s.tombstones && (u.key == key ==> Inflates(lat, s, u, effect))
    requires (forall n :: n in known ==> n < |log|) && KeyOk(lat, log, s, known, key)
    ensures
      var mine := if effect.None? then [] else [Item(u.key, effect.value)];
      var me := if effect.None? then {} else {|log|};
      KeyOk(lat, log + mine + more, OnUpdate(s, u), known + me, key)
  {
    if effect.Some? {
      EffectKeeps(lat, log, s, known, u, effect.value, key);
      SliceStays(lat, log + [Item(u.key, effect.value)], more, known + {|log|}, key);
    } else {
      assert log + [] + more == log + more && known + {} == known;
      SliceStays(lat, log, more, known, key);
    }
  }

  lemma ApplyKeeps<V(!new), L(!new)>(lat: Lattice<V, L>, sys: System<V>, a: Step<V>)
    requires Lawful(lat) && Inv(lat, sys) && a.Apply? && Enabled(lat, sys, a)
    ensures Inv(lat, Next(lat, sys, a))
  {
    var i, u, s := a.i, a.update, sys.stores[a.i];
    assert StoreOk(lat, sys, i);
    if u.key !in s.tombstones {
      var sys' := Applied(lat, sys, i, u, a.effect);
      var w := u.apply(Current(s, u));
      var own := if w.delta.None? || SaysAll(lat, w, a.effect) then [] else [Item(u.key, w.delta.value)];
      forall key | key !in sys.deleted ensures KeyOk(lat, sys'.log, sys'.stores[i], sys'.known[i], key) {
        assert KeyOk(lat, sys.log, s, sys.known[i], key);
        AppliedKeeps(lat, sys.log, s, sys.known[i], u, a.effect, own, key);
      }
      if w.delta.Some? { PublishedOk(lat, sys, i, u, a.effect); }
      StepFrame(lat, sys, sys', i);
    }
  }

  /** A published delta stands for the effect of its update, or for one of its own. */
  lemma PublishedOk<V(!new), L(!new)>(lat: Lattice<V, L>, sys: System<V>, i: nat, u: Update<V>, effect: Option<V>)
    requires Lawful(lat) && Inv(lat, sys) && i < |sys.stores| && u.apply(Current(sys.stores[i], u)).delta.Some?
    requires u.key !in sys.deleted ==> Inflates(lat, sys.stores[i], u, effect)
    ensures
      var sys' := Applied(lat, sys, i, u, effect);
      |sys'.stores| == |sys'.known| && |sys'.sent| == |sys.sent| + 1 && PacketOk(lat, sys', sys'.sent[|sys.sent|])
  {
    var sys' := Applied(lat, sys, i, u, effect);
    var w := u.apply(Current(sys.stores[i], u));
    var mine := if effect.None? then [] else [Item(u.key, effect.value)];
    if SaysAll(lat, w, effect) {
      assert sys'.log == sys.log + [Item(u.key, effect.value)];
      SliceOfNew(lat, sys.log, Item(u.key, effect.value), u.key);
      JoinOfOne(lat.join, lat.bottom, lat.view(effect.value));
    } else {
      assert sys'.log == (sys.log + mine) + [Item(u.key, w.delta.value)];
      SliceOfNew(lat, sys.log + mine, Item(u.key, w.delta.value), u.key);
      JoinOfOne(lat.join, lat.bottom, lat.view(w.delta.value));
    }
  }

  /** A full state stands for what its sender knows. */
  lemma StatePartOk<V(!new), L(!new)>(lat: Lattice<V, L>, sys: System<V>, i: nat, key: Option<string>)
    requires Inv(lat, sys) && i < |sys.stores|
    ensures PartOk(lat, sys.log, sys.deleted, StatePart(sys, i, key))
  {
    assert StoreOk(lat, sys, i);
    if key.Some? {
      var own := OfKey(sys.log, sys.known[i], key.value);
      assert OfKey(sys.log, own, key.value) == own;
      assert Slice(lat, sys.log, own, key.value) == Slice(lat, sys.log, sys.known[i], key.value);
      if key.value !in sys.deleted { assert KeyOk(lat, sys.log, sys.stores[i], sys.known[i], key.value); }
    }
  }

  lemma SendKeeps<V(!new), L(!new)>(lat: Lattice<V, L>, sys: System<V>, a: Step<V>)
    requires Inv(lat, sys) && (a.SendState? || a.SendBatch?) && Enabled(lat, sys, a)
    ensures Inv(lat, Next(lat, sys, a))
  {
    var sys' := Next(lat, sys, a);
    var packet := sys'.sent[|sys.sent|];
    forall k | 0 <= k < |packet.parts| ensures PartOk(lat, sys.log, sys.deleted, packet.parts[k]) {
      if a.SendState? {
        StatePartOk(lat, sys, a.i, a.keys[k]);
      } else {
        BatchPartOk(lat, sys, a.picks[k]);
      }
    }
    StoreOutlives(lat, sys, sys', a.i);
    StepFrame(lat, sys, sys', a.i);
  }

  lemma BatchPartOk<V, L(!new)>(lat: Lattice<V, L>, sys: System<V>, pick: Option<nat>)
    requires Inv(lat, sys)
    ensures PartOk(lat, sys.log, sys.deleted, BatchPart(sys, pick))
  {
    if pick.Some? && pick.value < |sys.sent| { assert PacketOk(lat, sys, sys.sent[pick.value]); }
  }

  lemma EraseKeeps<V(!new), L(!new)>(lat: Lattice<V, L>, sys: System<V>, i: nat, key: string)
    requires Inv(lat, sys) && i < |sys.stores|
    ensures Inv(lat, Next(lat, sys, Erase(i, key)))
  {
    var sys' := Next(lat, sys, Erase(i, key));
    assert StoreOk(lat, sys, i);
    forall k | k !in sys'.deleted ensures KeyOk(lat, sys'.log, sys'.stores[i], sys'.known[i], k) {
      assert KeyOk(lat, sys.log, sys.stores[i], sys.known[i], k);
    }
    StepFrame(lat, sys, sys', i);
  }

  lemma ReadPartsOk<V, L(!new)>(lat: Lattice<V, L>, sys: System<V>, key: string, picks: seq<Option<nat>>)
    requires Inv(lat, sys)
    ensures AnswersOk(lat, sys.log, sys.deleted, ReadParts(sys, key, picks), key)
  {
    forall k | 0 <= k < |picks| ensures PartOk(lat, sys.log, sys.deleted, ReadPart(sys, key, picks[k])) {
      if picks[k].Some? && picks[k].value < |sys.sent| { assert PacketOk(lat, sys, sys.sent[picks[k].value]); }
    }
  }

  /** A coordinated read joins the effects that the answers carry. */
  lemma ReadKeeps<V(!new), L(!new)>(lat: Lattice<V, L>, sys: System<V>, i: nat, key: string, picks: seq<Option<nat>>)
    requires Lawful(lat) && Inv(lat, sys) && i < |sys.stores|
    ensures Inv(lat, Next(lat, sys, Read(i, key, picks)))
  {
    var sys', parts := Next(lat, sys, Read(i, key, picks)), ReadParts(sys, key, picks);
    assert StoreOk(lat, sys, i);
    ReadPartsOk(lat, sys, key, picks);
    CarriedOfKey(lat, sys.log, sys.deleted, parts, key);
    forall k | k !in sys.deleted ensures KeyOk(lat, sys'.log, sys'.stores[i], sys'.known[i], k) {
      assert KeyOk(lat, sys.log, sys.stores[i], sys.known[i], k);
      if k == key {
        GatherKeeps(lat, sys.log, sys.deleted, Found(sys.stores[i].values, key), sys.known[i], parts, key);
        GathersAnswers(lat.merge, Found(sys.stores[i].values, key), Answers(parts));
      } else {
        SliceOfOthers(lat, sys.log, sys.known[i], Carried(parts), k);
      }
    }
    StepFrame(lat, sys, sys', i);
  }

  lemma PruneKeeps<V(!new), L(!new)>(lat: Lattice<V, L>, sys: System<V>, i: nat, expired: set<string>)
    requires Inv(lat, sys) && i < |sys.stores|
    ensures Inv(lat, Next(lat, sys, Prune(i, expired)))
  {
    var sys' := Next(lat, sys, Prune(i, expired));
    assert StoreOk(lat, sys, i);
    forall k | k !in sys.deleted ensures KeyOk(lat, sys'.log, sys'.stores[i], sys'.known[i], k) {
      assert KeyOk(lat, sys.log, sys.stores[i], sys.known[i], k);
    }
    StepFrame(lat, sys, sys', i);
  }

  lemma StepKeeps<V(!new), L(!new)>(lat: Lattice<V, L>, sys: System<V>, a: Step<V>)
    requires Lawful(lat) && Inv(lat, sys) && Enabled(lat, sys, a)
    ensures Inv(lat, Next(lat, sys, a))
  {
    match a
    case Apply(_, _, _) => ApplyKeeps(lat, sys, a);
    case SendState(_, _) => SendKeeps(lat, sys, a);
    case SendBatch(_, _, _) => SendKeeps(lat, sys, a);
    case Deliver(i, p) => DeliverKeeps(lat, sys, i, p);
    case Erase(i, key) => EraseKeeps(lat, sys, i, key);
    case Read(i, key, picks) => ReadKeeps(lat, sys, i, key, picks);
    case Prune(i, expired) => PruneKeeps(lat, sys, i, expired);
  }

  lemma InitHolds<V(!new), L(!new)>(lat: Lattice<V, L>, sys: System<V>)
    requires Lawful(lat) && Init(sys)
    ensures Inv(lat, sys)
  {
    forall i | 0 <= i < |sys.stores| ensures StoreOk(lat, sys, i) {
      forall key ensures KeyOk(lat, sys.log, sys.stores[i], sys.known[i], key) {
        assert sys.stores[i] == Fresh(sys.stores[i].nodeID, sys.stores[i].dc);
        JoinOfNone(lat.join, lat.bottom);
        assert Slice(lat, sys.log, sys.known[i], key) == iset{};
      }
    }
  }

  // ---- the theorems --------------------------------------------------------------------

  lemma {:induction false} RunKeeps<V(!new), L(!new)>(
    lat: Lattice<V, L>, run: seq<System<V>>, steps: seq<Step<V>>, k: nat)
    requires Lawful(lat) && IsRun(lat, run, steps) && k < |run|
    ensures Inv(lat, run[k])
  {
    if k == 0 {
      InitHolds(lat, run[0]);
    } else {
      RunKeeps(lat, run, steps, k - 1);
      StepKeeps(lat, run[k - 1], steps[k - 1]);
    }
  }

  /**
   * In every run, a replica's value of a key that nobody deleted says exactly the join of the
   * effects of the updates it has: its own, and those that came to it as deltas, in batches or
   * inside the full states of others.
   */
  lemma ValueIsJoin<V(!new), L(!new)>(
    lat: Lattice<V, L>, run: seq<System<V>>, steps: seq<Step<V>>, k: nat, i: nat, key: string)
    requires Lawful(lat) && IsRun(lat, run, steps) && k < |run| && i < |run[k].stores|
    requires key !in run[k].deleted
    ensures i < |run[k].known| && key !in run[k].stores[i].tombstones
    ensures IsJoinOf(lat.join, ViewAt(lat, run[k].stores[i], key), Slice(lat, run[k].log, run[k].known[i], key))
  {
    RunKeeps(lat, run, steps, k);
    assert StoreOk(lat, run[k], i);
    assert KeyOk(lat, run[k].log, run[k].stores[i], run[k].known[i], key);
  }

  /** Two replicas that have the same effects of a key hold equal contents, however they got them. */
  lemma ReplicasConverge<V(!new), L(!new)>(lat: Lattice<V, L>, run: seq<System<V>>, steps: seq<Step<V>>, k: nat,
                                           i: nat, j: nat, key: string)
    requires Lawful(lat) && IsRun(lat, run, steps) && k < |run|
    requires i < |run[k].stores| == |run[k].known| && j < |run[k].stores| && key !in run[k].deleted
    requires OfKey(run[k].log, run[k].known[i], key) == OfKey(run[k].log, run[k].known[j], key)
    ensures ViewAt(lat, run[k].stores[i], key) == ViewAt(lat, run[k].stores[j], key)
  {
    ValueIsJoin(lat, run, steps, k, i, key);
    ValueIsJoin(lat, run, steps, k, j, key);
    var sys := run[k];
    assert Slice(lat, sys.log, sys.known[i], key) == Slice(lat, sys.log, sys.known[j], key);
    JoinIsUnique(lat.join, lat.bottom, ViewAt(lat, sys.stores[i], key), ViewAt(lat, sys.stores[j], key),
                 Slice(lat, sys.log, sys.known[i], key));
  }

  /** One full state brings all effects of a key that its sender has. */
  lemma StateCatchesUp<V(!new), L(!new)>(lat: Lattice<V, L>, sys: System<V>, j: nat, i: nat, key: string)
    requires Inv(lat, sys) && i < |sys.stores| && j < |sys.stores| && key in sys.stores[j].values
    ensures
      var mid := Next(lat, sys, SendState(j, [Some(key)]));
      var end := Next(lat, mid, Deliver(i, |sys.sent|));
      OfKey(end.log, end.known[i], key) == OfKey(sys.log, sys.known[i], key) + OfKey(sys.log, sys.known[j], key)
  {
    var mid := Next(lat, sys, SendState(j, [Some(key)]));
    var part := StatePart(sys, j, Some(key));
    var parts := mid.sent[|sys.sent|].parts;
    assert parts == [part];
    assert Carried(parts[..0]) == {};
    assert Carried(parts) == part.carries;
  }
}
