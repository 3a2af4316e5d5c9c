/**
 * What a run of messages leaves of a key beside its value: the version, the type and the author of
 * the tombstone, each told from the messages alone.
 */
module ReplicatorHistory {
  import opened Basics
  import opened Replicator

  // ---- the messages of a key -----------------------------------------------------------

  /** How many values for the key a message offers. */
  function Arrivals<V>(nodeID: string, dc: DataCenter, m: Message<V>, key: string): nat {
    match m
    case UpdateMsg(u) => Bit(u.key == key)
    case DeltaMsg(d) => Bit(Foreign(nodeID, d, key))
    case FullStateMsg(es) => Entries(es, key)
    case BatchMsg(origin, ds, _) => if origin == Some(dc) then 0 else Foreigners(nodeID, ds, key)
    case _ => 0
  }

  function Entries<V>(es: seq<Option<Delta<V>>>, key: string): nat {
    if es == [] then 0
    else Entries(es[..|es| - 1], key) + Bit(es[|es| - 1].Some? && es[|es| - 1].value.key == key)
  }

  function Foreigners<V>(nodeID: string, ds: seq<Option<Delta<V>>>, key: string): nat {
    if ds == [] then 0
    else Foreigners(nodeID, ds[..|ds| - 1], key) + Bit(Foreign(nodeID, ds[|ds| - 1], key))
  }

  /** The type that the first value for the key in a message comes with. */
  function TypeBrought<V>(nodeID: string, dc: DataCenter, m: Message<V>, key: string): Option<nat> {
    match m
    case UpdateMsg(u) => if u.key == key then Some(u.ty) else None
    case DeltaMsg(d) => if Foreign(nodeID, d, key) then Some(d.value.ty) else None
    case FullStateMsg(es) => FirstEntryType(es, key)
    case BatchMsg(origin, ds, _) => if origin == Some(dc) then None else FirstForeignType(nodeID, ds, key)
    case _ => None
  }

  function FirstEntryType<V>(es: seq<Option<Delta<V>>>, key: string): Option<nat> {
    if es == [] then None
    else if es[0].Some? && es[0].value.key == key then Some(es[0].value.ty)
    else FirstEntryType(es[1..], key)
  }

  function FirstForeignType<V>(nodeID: string, ds: seq<Option<Delta<V>>>, key: string): Option<nat> {
    if ds == [] then None
    else if Foreign(nodeID, ds[0], key) then Some(ds[0].value.ty)
    else FirstForeignType(nodeID, ds[1..], key)
  }

  /** Who the tombstone that a message leaves for the key names. */
  function GraveBrought<V>(nodeID: string, dc: DataCenter, m: Message<V>, key: string): Option<string> {
    match m
    case DeleteMsg(k) => if k == key then Some(nodeID) else None
    case TombstoneMsg(t) => if Digs(nodeID, t, key) then Some(t.value.deletedBy) else None
    case BatchMsg(origin, _, ts) => if origin == Some(dc) then None else LastDigger(nodeID, ts, key)
    case _ => None
  }

  function LastDigger(nodeID: string, ts: seq<Option<Tombstone>>, key: string): Option<string> {
    if ts == [] then None
    else if Digs(nodeID, ts[|ts| - 1], key) then Some(ts[|ts| - 1].value.deletedBy)
    else LastDigger(nodeID, ts[..|ts| - 1], key)
  }

  // ---- the history of a key ------------------------------------------------------------

  /** Whether the key has a value. */
  predicate Holds<V>(nodeID: string, dc: DataCenter, ms: seq<Message<V>>, key: string) {
    if ms == [] then false
    else
      var before, m := ms[..|ms| - 1], ms[|ms| - 1];
      || (Holds(nodeID, dc, before, key) && !Entombs(nodeID, dc, m, key))
      || (if Entombed(nodeID, dc, false, before, key) then ReadsBack(m, key) else Brings(nodeID, dc, m, key))
  }

  /** The values for the key that arrived since it was last entombed, while it had no tombstone. */
  function VersionOf<V>(nodeID: string, dc: DataCenter, ms: seq<Message<V>>, key: string): nat {
    if ms == [] then 0
    else
      var before, m := ms[..|ms| - 1], ms[|ms| - 1];
      if Entombs(nodeID, dc, m, key) then 0
      else
        VersionOf(nodeID, dc, before, key) +
        if Entombed(nodeID, dc, false, before, key) then 0 else Arrivals(nodeID, dc, m, key)
  }

  /** The type brought by the message that last gave the key a value when it had neither value nor tombstone. */
  function TypeOf<V>(nodeID: string, dc: DataCenter, ms: seq<Message<V>>, key: string): Option<nat> {
    if ms == [] then None
    else
      var before, m := ms[..|ms| - 1], ms[|ms| - 1];
      var kept, brought := TypeOf(nodeID, dc, before, key), TypeBrought(nodeID, dc, m, key);
      if Holds(nodeID, dc, before, key) || Entombed(nodeID, dc, false, before, key) || brought.None? then kept
      else brought
  }

  /** Who the last tombstone names that was not pruned. */
  function GraveOf<V>(nodeID: string, dc: DataCenter, ms: seq<Message<V>>, key: string): Option<string> {
    if ms == [] then None
    else
      var before, m := ms[..|ms| - 1], ms[|ms| - 1];
      var brought := GraveBrought(nodeID, dc, m, key);
      if brought.Some? then brought else if Prunes(m, key) then None else GraveOf(nodeID, dc, before, key)
  }

  // ---- one message ---------------------------------------------------------------------

  /** The version, if any, is positive. */
  predicate Counted<V>(s: Store<V>, key: string) {
    key in s.versions <==> Version(s.versions, key) > 0
  }

  lemma {:induction false} EntryTypeLast<V>(es: seq<Option<Delta<V>>>, key: string)
    requires es != []
    ensures
      var n := |es| - 1;
      FirstEntryType(es, key) ==
        if FirstEntryType(es[..n], key).Some? then FirstEntryType(es[..n], key)
        else if es[n].Some? && es[n].value.key == key then Some(es[n].value.ty) else None
  {
    var n := |es| - 1;
    if n > 0 {
      EntryTypeLast(es[1..], key);
      assert es[1..][..n - 1] == es[..n][1..];
    }
  }

  lemma {:induction false} ForeignTypeLast<V>(nodeID: string, ds: seq<Option<Delta<V>>>, key: string)
    requires ds != []
    ensures
      var n := |ds| - 1;
      FirstForeignType(nodeID, ds, key) ==
        if FirstForeignType(nodeID, ds[..n], key).Some? then FirstForeignType(nodeID, ds[..n], key)
        else if Foreign(nodeID, ds[n], key) then Some(ds[n].value.ty) else None
  {
    var n := |ds| - 1;
    if n > 0 {
      ForeignTypeLast(nodeID, ds[1..], key);
      assert ds[1..][..n - 1] == ds[..n][1..];
    }
  }

  /** What is kept of a key after values were offered to it. */
  predicate Offered<V>(s: Store<V>, s': Store<V>, key: string, count: nat, brought: Option<nat>) {
    && s'.nodeID == s.nodeID && s'.dc == s.dc && s'.tombstones == s.tombstones
    && Version(s'.versions, key) == Version(s.versions, key) + (if key in s.tombstones then 0 else count)
    && (Counted(s, key) ==> Counted(s', key))
    && (brought.Some? <==> count > 0)
    && (key in s'.values <==> key in s.values || (key !in s.tombstones && brought.Some?))
    && Found(s'.keyTypes, key) ==
       if key in s.values || key in s.tombstones || brought.None? then Found(s.keyTypes, key) else brought
  }

  lemma {:induction false} FullStateOffers<V>(merge: Merge<V>, s: Store<V>, es: seq<Option<Delta<V>>>, key: string)
    ensures Offered(s, OnFullState(merge, s, es), key, Entries(es, key), FirstEntryType(es, key))
  {
    if es != [] {
      FullStateOffers(merge, s, es[..|es| - 1], key);
      EntryTypeLast(es, key);
    }
  }

  lemma {:induction false} DeltasOffer<V>(merge: Merge<V>, s: Store<V>, ds: seq<Option<Delta<V>>>, key: string)
    ensures Offered(s, OnDeltas(merge, s, ds), key, Foreigners(s.nodeID, ds, key), FirstForeignType(s.nodeID, ds, key))
  {
    if ds != [] {
      DeltasOffer(merge, s, ds[..|ds| - 1], key);
      ForeignTypeLast(s.nodeID, ds, key);
    }
  }

  lemma {:induction false} TombstonesTell<V>(s: Store<V>, ts: seq<Option<Tombstone>>, key: string)
    ensures
      var s', digger := OnTombstones(s, ts), LastDigger(s.nodeID, ts, key);
      && s'.nodeID == s.nodeID && s'.keyTypes == s.keyTypes
      && Found(s'.tombstones, key) == (if digger.Some? then digger else Found(s.tombstones, key))
      && Version(s'.versions, key) == (if digger.Some? then 0 else Version(s.versions, key))
      && (Counted(s, key) ==> Counted(s', key))
      && (digger.Some? <==> SomeDigs(s.nodeID, ts, key))
  {
    if ts != [] {
      var n := |ts| - 1;
      TombstonesTell(s, ts[..n], key);
      if Digs(s.nodeID, ts[n], key) {
        assert SomeDigs(s.nodeID, ts, key);
      } else if SomeDigs(s.nodeID, ts, key) {
        var i :| 0 <= i < |ts| && Digs(s.nodeID, ts[i], key);
        assert Digs(s.nodeID, ts[..n][i], key);
      }
    }
  }

  /** What is kept of a key after one message. */
  predicate Told<V>(s: Store<V>, s': Store<V>, m: Message<V>, key: string) {
    var grave, brought := GraveBrought(s.nodeID, s.dc, m, key), TypeBrought(s.nodeID, s.dc, m, key);
    && Found(s'.tombstones, key) ==
       (if grave.Some? then grave else if Prunes(m, key) then None else Found(s.tombstones, key))
    && Version(s'.versions, key) ==
       (if Entombs(s.nodeID, s.dc, m, key) then 0
        else Version(s.versions, key) + if key in s.tombstones then 0 else Arrivals(s.nodeID, s.dc, m, key))
    && (Counted(s, key) ==> Counted(s', key))
    && Found(s'.keyTypes, key) ==
       if key in s.values || key in s.tombstones || brought.None? then Found(s.keyTypes, key) else brought
  }

  lemma BatchTells<V>(merge: Merge<V>, s: Store<V>, m: Message<V>, key: string)
    requires m.BatchMsg?
    ensures Told(s, OnMessage(merge, s, m), m, key)
  {
    DeltasOffer(merge, s, m.deltas, key);
    TombstonesTell(OnDeltas(merge, s, m.deltas), m.tombstones, key);
  }

  lemma UpdateTells<V>(merge: Merge<V>, s: Store<V>, m: Message<V>, key: string)
    requires m.UpdateMsg?
    ensures Told(s, OnMessage(merge, s, m), m, key)
  {
    var u := m.update;
    assert key != u.key || key in s.tombstones ==> Found(OnUpdate(s, u).keyTypes, key) == Found(s.keyTypes, key);
  }

  lemma MessageTells<V>(merge: Merge<V>, s: Store<V>, m: Message<V>, key: string)
    ensures Told(s, OnMessage(merge, s, m), m, key)
  {
    match m
    case UpdateMsg(_) => UpdateTells(merge, s, m, key);
    case FullStateMsg(es) => FullStateOffers(merge, s, es, key);
    case BatchMsg(_, _, _) => BatchTells(merge, s, m, key);
    case _ =>
  }

  // ---- whole runs ----------------------------------------------------------------------

  /**
   * After every run from an empty store, what a key has is what its messages say: a value or none,
   * the version counts the values that arrived, the type is that of the last first value, and the
   * tombstone names who dug it last.
   */
  lemma {:induction false} RunTells<V>(
    merge: Merge<V>, nodeID: string, dc: DataCenter, ms: seq<Message<V>>, key: string)
    ensures
      var s := RunAll(merge, Fresh(nodeID, dc), ms);
      && s.nodeID == nodeID && s.dc == dc
      && (key in s.tombstones <==> Entombed(nodeID, dc, false, ms, key))
      && (key in s.values <==> Holds(nodeID, dc, ms, key))
      && Version(s.versions, key) == VersionOf(nodeID, dc, ms, key)
      && (key in s.versions <==> VersionOf(nodeID, dc, ms, key) > 0)
      && Found(s.keyTypes, key) == TypeOf(nodeID, dc, ms, key)
      && Found(s.tombstones, key) == GraveOf(nodeID, dc, ms, key)
  {
    if ms != [] {
      var before, m := ms[..|ms| - 1], ms[|ms| - 1];
      RunTells(merge, nodeID, dc, before, key);
      MessageEffect(merge, RunAll(merge, Fresh(nodeID, dc), before), m, key);
      MessageTells(merge, RunAll(merge, Fresh(nodeID, dc), before), m, key);
    }
  }
}
