/** The CRDT replicator: what its handlers do to the store, and what becomes of deleted keys. */
module Replicator {
  import opened Basics

  datatype DataCenter = DataCenter(name: string, region: string, zone: string)

  /** The result of applying an update: the new value and its delta, if it changed anything. */
  datatype Written<V> = Written(updated: V, delta: Option<V>)

  datatype Update<!V> = Update(key: string, ty: nat, initial: V, apply: V -> Written<V>)

  datatype Delta<V> = Delta(key: string, ty: nat, delta: V, origin: string)

  datatype Tombstone = Tombstone(key: string, deletedBy: string)

  /** Received messages; None stands for a part that cannot be decoded. */
  datatype Message<!V> =
    | UpdateMsg(update: Update<V>)
    | DeltaMsg(delta: Option<Delta<V>>)
    | FullStateMsg(entries: seq<Option<Delta<V>>>)
    | BatchMsg(originDC: Option<DataCenter>, deltas: seq<Option<Delta<V>>>, tombstones: seq<Option<Tombstone>>)
    | DeleteMsg(key: string)
    | TombstoneMsg(tombstone: Option<Tombstone>)
    | GetMsg(key: string, answers: seq<Option<V>>)   // a read, and what the peers it asks answer
    | PruneMsg(expired: set<string>)                 // the prune tick, and the keys past their time to live

  /** What the replicator keeps per key. */
  datatype Store<V> = Store(
    nodeID: string,
    dc: DataCenter,
    values: map<string, V>,
    keyTypes: map<string, nat>,
    versions: map<string, nat>,
    tombstones: map<string, string>)

  /** A key that a digest lists, and its version at the sender. */
  datatype DigestEntry = DigestEntry(key: string, version: nat)

  type Merge<!V> = (V, V) -> V

  function Version(versions: map<string, nat>, key: string): nat {
    if key in versions then versions[key] else 0
  }

  /** The value and the tombstone of a key. */
  function ValueAt<V>(s: Store<V>, key: string): (Option<V>, Option<string>) {
    (if key in s.values then Some(s.values[key]) else None,
     if key in s.tombstones then Some(s.tombstones[key]) else None)
  }

  // ---- what each handler does to the store ------------------------------------------

  function Current<V>(s: Store<V>, u: Update<V>): V {
    if u.key in s.values then s.values[u.key] else u.initial
  }

  function OnUpdate<V>(s: Store<V>, u: Update<V>): Store<V> {
    if u.key in s.tombstones then s
    else
      s.(values := s.values[u.key := u.apply(Current(s, u)).updated],
         keyTypes := if u.key in s.values then s.keyTypes else s.keyTypes[u.key := u.ty],
         versions := s.versions[u.key := Version(s.versions, u.key) + 1])
  }

  /** Merges a received value into a key, or adopts it for a new key; tombstoned keys are rejected. */
  function Absorb<V>(merge: Merge<V>, s: Store<V>, d: Delta<V>): Store<V> {
    if d.key in s.tombstones then s
    else
      s.(values := s.values[d.key := if d.key in s.values then merge(s.values[d.key], d.delta) else d.delta],
         keyTypes := if d.key in s.values then s.keyTypes else s.keyTypes[d.key := d.ty],
         versions := s.versions[d.key := Version(s.versions, d.key) + 1])
  }

  function OnDelta<V>(merge: Merge<V>, s: Store<V>, d: Option<Delta<V>>): Store<V> {
    if d.None? || d.value.origin == s.nodeID then s else Absorb(merge, s, d.value)
  }

  function OnFullState<V>(merge: Merge<V>, s: Store<V>, es: seq<Option<Delta<V>>>): Store<V> {
    if es == [] then s
    else
      var before := OnFullState(merge, s, es[..|es| - 1]);
      var e := es[|es| - 1];
      if e.None? then before else Absorb(merge, before, e.value)
  }

  function OnDeltas<V>(merge: Merge<V>, s: Store<V>, ds: seq<Option<Delta<V>>>): Store<V> {
    if ds == [] then s else OnDelta(merge, OnDeltas(merge, s, ds[..|ds| - 1]), ds[|ds| - 1])
  }

  function Bury<V>(s: Store<V>, key: string, deletedBy: string): Store<V> {
    s.(values := Without(s.values, key), versions := Without(s.versions, key),
       tombstones := s.tombstones[key := deletedBy])
  }

  function OnTombstone<V>(s: Store<V>, t: Option<Tombstone>): Store<V> {
    if t.None? || t.value.deletedBy == s.nodeID then s else Bury(s, t.value.key, t.value.deletedBy)
  }

  function OnTombstones<V>(s: Store<V>, ts: seq<Option<Tombstone>>): Store<V> {
    if ts == [] then s else OnTombstone(OnTombstones(s, ts[..|ts| - 1]), ts[|ts| - 1])
  }

  function OnBatch<V>(merge: Merge<V>, s: Store<V>, origin: Option<DataCenter>,
                      ds: seq<Option<Delta<V>>>, ts: seq<Option<Tombstone>>): Store<V> {
    if origin == Some(s.dc) then s else OnTombstones(OnDeltas(merge, s, ds), ts)
  }

  /** A coordinated read: the answers merged into the local value, in the order they come. */
  function Gathered<V>(merge: Merge<V>, local: Option<V>, answers: seq<Option<V>>): Option<V> {
    if answers == [] then local
    else
      var before := Gathered(merge, local, answers[..|answers| - 1]);
      var answer := answers[|answers| - 1];
      if answer.None? then before
      else if before.None? then answer
      else Some(merge(before.value, answer.value))
  }

  function Found<V>(values: map<string, V>, key: string): Option<V> {
    if key in values then Some(values[key]) else None
  }

  /** What a read has gathered is stored, whether or not the key has a tombstone. */
  function OnGet<V>(merge: Merge<V>, s: Store<V>, key: string, answers: seq<Option<V>>): Store<V> {
    var merged := Gathered(merge, Found(s.values, key), answers);
    if merged.None? then s else s.(values := s.values[key := merged.value])
  }

  function Spared(tombstones: map<string, string>, expired: set<string>): map<string, string> {
    map k | k in tombstones && k !in expired :: tombstones[k]
  }

  function OnPrune<V>(s: Store<V>, expired: set<string>): Store<V> {
    s.(tombstones := Spared(s.tombstones, expired))
  }

  /** What a digest says, entry by entry; one that cannot be decoded says nothing. */
  function Listed(digest: seq<Option<DigestEntry>>): map<string, nat> {
    if digest == [] then map[]
    else
      var before, e := Listed(digest[..|digest| - 1]), digest[|digest| - 1];
      if e.None? then before else before[e.value.key := e.value.version]
  }

  lemma ListedMore(digest: seq<Option<DigestEntry>>, key: string, version: nat)
    ensures Listed(digest + [Some(DigestEntry(key, version))]) == Listed(digest)[key := version]
  {
    assert (digest + [Some(DigestEntry(key, version))])[..|digest|] == digest;
  }

  /** The keys that have a value, with their versions. */
  function DigestOf<V>(s: Store<V>): map<string, nat> {
    map k | k in s.values :: Version(s.versions, k)
  }

  /** A digest that lists these versions is answered with this key: it is missing there, or behind. */
  predicate Sends<V>(s: Store<V>, listed: map<string, nat>, key: string) {
    key in s.values && (key in listed ==> Version(s.versions, key) > listed[key])
  }

  /** The full state of a key. */
  function FullEntry<V>(s: Store<V>, key: string): Option<Delta<V>>
    requires key in s.values
  {
    Some(Delta(key, if key in s.keyTypes then s.keyTypes[key] else 0, s.values[key], s.nodeID))
  }

  /** The full state that answers a digest: the keys that are due, each once. */
  ghost predicate IsReply<V>(s: Store<V>, listed: map<string, nat>, reply: seq<Option<Delta<V>>>) {
    && (forall i :: 0 <= i < |reply| ==>
          reply[i].Some? && Sends(s, listed, reply[i].value.key) && reply[i] == FullEntry(s, reply[i].value.key))
    && (forall i, j :: 0 <= i < j < |reply| ==> reply[i].value.key != reply[j].value.key)
    && (forall key :: Sends(s, listed, key) ==> FullEntry(s, key) in reply)
  }

  function OnMessage<V>(merge: Merge<V>, s: Store<V>, m: Message<V>): Store<V> {
    match m
    case UpdateMsg(u) => OnUpdate(s, u)
    case DeltaMsg(d) => OnDelta(merge, s, d)
    case FullStateMsg(es) => OnFullState(merge, s, es)
    case BatchMsg(origin, ds, ts) => OnBatch(merge, s, origin, ds, ts)
    case DeleteMsg(key) => Bury(s, key, s.nodeID)
    case TombstoneMsg(t) => OnTombstone(s, t)
    case GetMsg(key, answers) => OnGet(merge, s, key, answers)
    case PruneMsg(expired) => OnPrune(s, expired)
  }

  /** The replicator actor: one message at a time over its maps. */
  class ReplicatorActor<V> {
    const nodeID: string
    const dc: DataCenter
    const merge: Merge<V>
    var store: map<string, V>
    var keyTypes: map<string, nat>
    var versions: map<string, nat>
    var tombstones: map<string, string>

    ghost function View(): Store<V>
      reads this
    {
      Store(nodeID, dc, store, keyTypes, versions, tombstones)
    }

    constructor (nodeID: string, dc: DataCenter, merge: Merge<V>)
      ensures View() == Store(nodeID, dc, map[], map[], map[], map[])
      ensures this.merge == merge
    {
      this.nodeID, this.dc, this.merge := nodeID, dc, merge;
      store, keyTypes, versions, tombstones := map[], map[], map[], map[];
    }

    /** Applies a local mutation; `publish` is the delta to send to the peers. */
    method HandleUpdate(u: Update<V>) returns (publish: Option<Delta<V>>)
      modifies this
      ensures View() == OnUpdate(old(View()), u)
      ensures publish == if u.key in old(tombstones) || u.apply(Current(old(View()), u)).delta.None? then None
                         else Some(Delta(u.key, u.ty, u.apply(Current(old(View()), u)).delta.value, nodeID))
    {
      if u.key in tombstones { return None; }
      var current := u.initial;
      if u.key in store {
        current := store[u.key];
      } else {
        keyTypes := keyTypes[u.key := u.ty];
      }
      var written := u.apply(current);
      store := store[u.key := written.updated];
      versions := versions[u.key := Version(versions, u.key) + 1];
      publish := if written.delta.None? then None else Some(Delta(u.key, u.ty, written.delta.value, nodeID));
    }

    method AbsorbValue(d: Delta<V>)
      modifies this
      ensures View() == Absorb(merge, old(View()), d)
    {
      if d.key in tombstones { return; }
      if d.key !in store {
        store := store[d.key := d.delta];
        keyTypes := keyTypes[d.key := d.ty];
      } else {
        store := store[d.key := merge(store[d.key], d.delta)];
      }
      versions := versions[d.key := Version(versions, d.key) + 1];
    }

    method HandleDelta(d: Option<Delta<V>>)
      modifies this
      ensures View() == OnDelta(merge, old(View()), d)
    {
      if d.None? || d.value.origin == nodeID { return; }
      AbsorbValue(d.value);
    }

    method HandleFullState(es: seq<Option<Delta<V>>>)
      modifies this
      ensures View() == OnFullState(merge, old(View()), es)
    {
      for i := 0 to |es|
        invariant View() == OnFullState(merge, old(View()), es[..i])
      {
        assert es[..i + 1][..i] == es[..i];
        if es[i].Some? { AbsorbValue(es[i].value); }
      }
      assert es[..|es|] == es;
    }

    method HandleTombstone(t: Option<Tombstone>)
      modifies this
      ensures View() == OnTombstone(old(View()), t)
      ensures t.Some? && t.value.deletedBy != nodeID ==> Buried(View(), t.value.key)
      ensures forall k :: t.None? || k != t.value.key ==> ValueAt(View(), k) == ValueAt(old(View()), k)
    {
      if t.None? || t.value.deletedBy == nodeID { return; }
      store := Without(store, t.value.key);
      versions := Without(versions, t.value.key);
      tombstones := tombstones[t.value.key := t.value.deletedBy];
    }

    method HandleIncomingBatch(origin: Option<DataCenter>, ds: seq<Option<Delta<V>>>, ts: seq<Option<Tombstone>>)
      modifies this
      ensures View() == OnBatch(merge, old(View()), origin, ds, ts)
    {
      if origin == Some(dc) { return; }
      for i := 0 to |ds|
        invariant View() == OnDeltas(merge, old(View()), ds[..i])
      {
        assert ds[..i + 1][..i] == ds[..i];
        HandleDelta(ds[i]);
      }
      assert ds[..|ds|] == ds;
      for i := 0 to |ts|
        invariant View() == OnTombstones(OnDeltas(merge, old(View()), ds), ts[..i])
      {
        assert ts[..i + 1][..i] == ts[..i];
        HandleTombstone(ts[i]);
      }
      assert ts[..|ts|] == ts;
    }

    method HandleDelete(key: string)
      modifies this
      ensures View() == Bury(old(View()), key, nodeID) && Buried(View(), key)
      ensures forall k :: k != key ==> ValueAt(View(), k) == ValueAt(old(View()), k)
    {
      store := Without(store, key);
      versions := Without(versions, key);
      tombstones := tombstones[key := nodeID];
    }

    /** Answers a read; a coordinated one asks peers and keeps what they say. */
    method HandleGet(key: string, answers: seq<Option<V>>) returns (data: Option<V>)
      modifies this
      ensures View() == OnGet(merge, old(View()), key, answers) && data == Found(store, key)
      ensures data == Gathered(merge, Found(old(store), key), answers)
    {
      data := Found(store, key);
      for i := 0 to |answers|
        invariant data == Gathered(merge, Found(store, key), answers[..i])
      {
        assert answers[..i + 1][..i] == answers[..i];
        if answers[i].Some? {
          data := if data.None? then answers[i] else Some(merge(data.value, answers[i].value));
        }
      }
      assert answers[..|answers|] == answers;
      GathersAnswers(merge, Found(store, key), answers);
      if data.Some? { store := store[key := data.value]; }
    }

    /** Drops the expired tombstones. */
    method HandlePrune(expired: set<string>)
      modifies this
      ensures View() == OnPrune(old(View()), expired)
    {
      var keys := Listing(tombstones.Keys);
      for i := 0 to |keys|
        invariant View() == OnPrune(old(View()), expired * Set(keys[..i]))
      {
        assert Set(keys[..i + 1]) == Set(keys[..i]) + {keys[i]};
        if keys[i] in expired { tombstones := Without(tombstones, keys[i]); }
      }
      assert keys[..|keys|] == keys;
    }

    /** The digest that a replicator sends to a peer in an anti-entropy round. */
    method BuildDigest() returns (digest: seq<Option<DigestEntry>>)
      ensures Listed(digest) == DigestOf(View())
    {
      var keys := Listing(store.Keys);
      digest := [];
      for i := 0 to |keys|
        invariant forall k :: k in Listed(digest) <==> k in keys[..i]
        invariant forall k :: k in Listed(digest) ==> Listed(digest)[k] == Version(versions, k)
      {
        ListedMore(digest, keys[i], Version(versions, keys[i]));
        digest := digest + [Some(DigestEntry(keys[i], Version(versions, keys[i])))];
        assert keys[..i + 1] == keys[..i] + [keys[i]];
      }
      assert keys[..|keys|] == keys && forall k :: k in keys <==> k in Set(keys);
    }

    /** Answers a peer's digest with the full state of every key that the peer lacks or is behind on. */
    method HandleDigest(digest: seq<Option<DigestEntry>>) returns (reply: seq<Option<Delta<V>>>)
      ensures IsReply(View(), Listed(digest), reply)
    {
      var peerVersions: map<string, nat> := map[];
      for i := 0 to |digest|
        invariant peerVersions == Listed(digest[..i])
      {
        assert digest[..i + 1][..i] == digest[..i];
        if digest[i].Some? { peerVersions := peerVersions[digest[i].value.key := digest[i].value.version]; }
      }
      assert digest[..|digest|] == digest;
      var keys := Listing(store.Keys);
      reply := [];
      for i := 0 to |keys|
        invariant forall j :: 0 <= j < |reply| ==>
                                && reply[j].Some? && reply[j].value.key in keys[..i]
                                && Sends(View(), peerVersions, reply[j].value.key)
                                && reply[j] == FullEntry(View(), reply[j].value.key)
        invariant forall j, k :: 0 <= j < k < |reply| ==> reply[j].value.key != reply[k].value.key
        invariant forall j :: 0 <= j < i && Sends(View(), peerVersions, keys[j]) ==> FullEntry(View(), keys[j]) in reply
      {
        assert keys[i] in Set(keys) && keys[i] !in keys[..i];
        if keys[i] !in peerVersions || Version(versions, keys[i]) > peerVersions[keys[i]] {
          var ty := if keys[i] in keyTypes then keyTypes[keys[i]] else 0;
          reply := reply + [Some(Delta(keys[i], ty, store[keys[i]], nodeID))];
        }
      }
      assert forall k :: k in store ==> k in Set(keys);
    }
  }

  // ---- deletion ------------------------------------------------------------------------

  function RunAll<V>(merge: Merge<V>, s: Store<V>, ms: seq<Message<V>>): Store<V> {
    if ms == [] then s else OnMessage(merge, RunAll(merge, s, ms[..|ms| - 1]), ms[|ms| - 1])
  }

  function Fresh<V>(nodeID: string, dc: DataCenter): Store<V> {
    Store(nodeID, dc, map[], map[], map[], map[])
  }

  /** The key has been deleted here: it has no value and no version. */
  predicate Buried<V>(s: Store<V>, key: string) {
    key in s.tombstones && key !in s.values && key !in s.versions
  }

  /** Some peer answered a read. */
  predicate Answered<V>(answers: seq<Option<V>>) {
    exists i :: 0 <= i < |answers| && answers[i].Some?
  }

  lemma {:induction false} GathersAnswers<V>(merge: Merge<V>, local: Option<V>, answers: seq<Option<V>>)
    ensures Gathered(merge, local, answers).Some? <==> local.Some? || Answered(answers)
  {
    if answers != [] {
      var n := |answers| - 1;
      GathersAnswers(merge, local, answers[..n]);
      assert Answered(answers) <==> Answered(answers[..n]) || answers[n].Some? by {
        if Answered(answers) {
          var i :| 0 <= i < |answers| && answers[i].Some?;
          if i < n { assert answers[..n][i].Some?; }
        }
        if Answered(answers[..n]) {
          var i :| 0 <= i < n && answers[..n][i].Some?;
          assert answers[i].Some?;
        }
      }
    }
  }

  /** A tombstone of another node for this key. */
  predicate Digs(nodeID: string, t: Option<Tombstone>, key: string) {
    t.Some? && t.value.key == key && t.value.deletedBy != nodeID
  }

  predicate SomeDigs(nodeID: string, ts: seq<Option<Tombstone>>, key: string) {
    exists i :: 0 <= i < |ts| && Digs(nodeID, ts[i], key)
  }

  /** A delta of another node for this key. */
  predicate Foreign<V>(nodeID: string, d: Option<Delta<V>>, key: string) {
    d.Some? && d.value.key == key && d.value.origin != nodeID
  }

  predicate SomeForeign<V>(nodeID: string, ds: seq<Option<Delta<V>>>, key: string) {
    exists i :: 0 <= i < |ds| && Foreign(nodeID, ds[i], key)
  }

  predicate SomeEntry<V>(es: seq<Option<Delta<V>>>, key: string) {
    exists i :: 0 <= i < |es| && es[i].Some? && es[i].value.key == key
  }

  /** The message leaves a tombstone for the key. */
  predicate Entombs<V>(nodeID: string, dc: DataCenter, m: Message<V>, key: string) {
    match m
    case DeleteMsg(k) => k == key
    case TombstoneMsg(t) => Digs(nodeID, t, key)
    case BatchMsg(origin, _, ts) => origin != Some(dc) && SomeDigs(nodeID, ts, key)
    case _ => false
  }

  /** The message gives a value to a key that has neither value nor tombstone. */
  predicate Brings<V>(nodeID: string, dc: DataCenter, m: Message<V>, key: string) {
    match m
    case UpdateMsg(u) => u.key == key
    case DeltaMsg(d) => Foreign(nodeID, d, key)
    case FullStateMsg(es) => SomeEntry(es, key)
    case BatchMsg(origin, ds, ts) => origin != Some(dc) && SomeForeign(nodeID, ds, key) && !SomeDigs(nodeID, ts, key)
    case GetMsg(k, answers) => k == key && Answered(answers)
    case _ => false
  }

  /** An answered read of this key. */
  predicate ReadsBack<V>(m: Message<V>, key: string) {
    m.GetMsg? && m.key == key && Answered(m.answers)
  }

  predicate Prunes<V>(m: Message<V>, key: string) {
    m.PruneMsg? && key in m.expired
  }

  lemma {:induction false} FullStateEffect<V>(merge: Merge<V>, s: Store<V>, es: seq<Option<Delta<V>>>, key: string)
    ensures
      var s' := OnFullState(merge, s, es);
      && s'.nodeID == s.nodeID && s'.dc == s.dc && s'.tombstones == s.tombstones
      && (key in s'.values <==> key in s.values || (key !in s.tombstones && SomeEntry(es, key)))
      && (key in s.tombstones && key !in s.versions ==> key !in s'.versions)
  {
    if es != [] {
      var n := |es| - 1;
      FullStateEffect(merge, s, es[..n], key);
      assert SomeEntry(es, key) <==> SomeEntry(es[..n], key) || (es[n].Some? && es[n].value.key == key) by {
        if SomeEntry(es[..n], key) {
          var i :| 0 <= i < n && es[..n][i].Some? && es[..n][i].value.key == key;
          assert es[i].Some?;
        }
        if SomeEntry(es, key) {
          var i :| 0 <= i < |es| && es[i].Some? && es[i].value.key == key;
          if i < n { assert es[..n][i].Some?; }
        }
      }
    }
  }

  lemma {:induction false} DeltasEffect<V>(merge: Merge<V>, s: Store<V>, ds: seq<Option<Delta<V>>>, key: string)
    ensures
      var s' := OnDeltas(merge, s, ds);
      && s'.nodeID == s.nodeID && s'.dc == s.dc && s'.tombstones == s.tombstones
      && (key in s'.values <==> key in s.values || (key !in s.tombstones && SomeForeign(s.nodeID, ds, key)))
      && (key in s.tombstones && key !in s.versions ==> key !in s'.versions)
  {
    if ds != [] {
      var n := |ds| - 1;
      DeltasEffect(merge, s, ds[..n], key);
      assert SomeForeign(s.nodeID, ds, key) <==>
             SomeForeign(s.nodeID, ds[..n], key) || Foreign(s.nodeID, ds[n], key) by {
        if SomeForeign(s.nodeID, ds[..n], key) {
          var i :| 0 <= i < n && Foreign(s.nodeID, ds[..n][i], key);
          assert Foreign(s.nodeID, ds[i], key);
        }
        if SomeForeign(s.nodeID, ds, key) {
          var i :| 0 <= i < |ds| && Foreign(s.nodeID, ds[i], key);
          if i < n { assert Foreign(s.nodeID, ds[..n][i], key); }
        }
      }
    }
  }

  lemma {:induction false} TombstonesEffect<V>(s: Store<V>, ts: seq<Option<Tombstone>>, key: string)
    ensures
      var s' := OnTombstones(s, ts);
      && s'.nodeID == s.nodeID && s'.dc == s.dc
      && (key in s'.tombstones <==> key in s.tombstones || SomeDigs(s.nodeID, ts, key))
      && (key in s'.values <==> key in s.values && !SomeDigs(s.nodeID, ts, key))
      && (key in s'.versions <==> key in s.versions && !SomeDigs(s.nodeID, ts, key))
  {
    if ts != [] {
      var n := |ts| - 1;
      TombstonesEffect(s, ts[..n], key);
      assert SomeDigs(s.nodeID, ts, key) <==> SomeDigs(s.nodeID, ts[..n], key) || Digs(s.nodeID, ts[n], key) by {
        if SomeDigs(s.nodeID, ts[..n], key) {
          var i :| 0 <= i < n && Digs(s.nodeID, ts[..n][i], key);
          assert Digs(s.nodeID, ts[i], key);
        }
        if SomeDigs(s.nodeID, ts, key) {
          var i :| 0 <= i < |ts| && Digs(s.nodeID, ts[i], key);
          if i < n { assert Digs(s.nodeID, ts[..n][i], key); }
        }
      }
    }
  }

  /** What one message does to a key's tombstone, value and version. */
  lemma MessageEffect<V>(merge: Merge<V>, s: Store<V>, m: Message<V>, key: string)
    ensures
      var s' := OnMessage(merge, s, m);
      && s'.nodeID == s.nodeID && s'.dc == s.dc
      && (key in s'.tombstones <==> Entombs(s.nodeID, s.dc, m, key) || (key in s.tombstones && !Prunes(m, key)))
      && (key in s'.values <==>
            || (key in s.values && !Entombs(s.nodeID, s.dc, m, key))
            || (if key in s.tombstones then ReadsBack(m, key) else Brings(s.nodeID, s.dc, m, key)))
      && ((key in s.tombstones ==> key !in s.versions) ==> (key in s'.tombstones ==> key !in s'.versions))
  {
    match m
    case FullStateMsg(es) => FullStateEffect(merge, s, es, key);
    case BatchMsg(origin, ds, ts) =>
      DeltasEffect(merge, s, ds, key);
      TombstonesEffect(OnDeltas(merge, s, ds), ts, key);
    case GetMsg(k, answers) => GathersAnswers(merge, Found(s.values, k), answers);
    case _ =>
  }

  /** Whether the key has a tombstone after these messages, from the messages alone. */
  predicate Entombed<V>(nodeID: string, dc: DataCenter, start: bool, ms: seq<Message<V>>, key: string) {
    if ms == [] then start
    else
      var m := ms[|ms| - 1];
      Entombs(nodeID, dc, m, key) || (Entombed(nodeID, dc, start, ms[..|ms| - 1], key) && !Prunes(m, key))
  }

  lemma {:induction false} RunEntombs<V>(merge: Merge<V>, s: Store<V>, ms: seq<Message<V>>, key: string)
    ensures
      var s' := RunAll(merge, s, ms);
      && s'.nodeID == s.nodeID && s'.dc == s.dc
      && (key in s'.tombstones <==> Entombed(s.nodeID, s.dc, key in s.tombstones, ms, key))
  {
    if ms != [] {
      RunEntombs(merge, s, ms[..|ms| - 1], key);
      MessageEffect(merge, RunAll(merge, s, ms[..|ms| - 1]), ms[|ms| - 1], key);
    }
  }

  /** The state after the first k messages. */
  function After<V>(merge: Merge<V>, s: Store<V>, ms: seq<Message<V>>, k: nat): Store<V>
    requires k <= |ms|
  {
    RunAll(merge, s, ms[..k])
  }

  lemma AfterNext<V>(merge: Merge<V>, s: Store<V>, ms: seq<Message<V>>, k: nat)
    requires k < |ms|
    ensures After(merge, s, ms, k + 1) == OnMessage(merge, After(merge, s, ms, k), ms[k])
  {
    assert ms[..k + 1][..k] == ms[..k];
  }

  // ---- when a deleted key stays deleted ------------------------------------------------

  ghost predicate AlwaysBuried<V>(merge: Merge<V>, s: Store<V>, ms: seq<Message<V>>, key: string) {
    forall k :: 0 <= k <= |ms| ==> Buried(After(merge, s, ms, k), key)
  }

  lemma {:induction false} BuriedSoFar<V>(merge: Merge<V>, s: Store<V>, ms: seq<Message<V>>, key: string, k: nat)
    requires Buried(s, key) && k <= |ms|
    requires forall i :: 0 <= i < |ms| ==> !ReadsBack(ms[i], key) && !Prunes(ms[i], key)
    ensures Buried(After(merge, s, ms, k), key)
  {
    if k > 0 {
      BuriedSoFar(merge, s, ms, key, k - 1);
      AfterNext(merge, s, ms, k - 1);
      MessageEffect(merge, After(merge, s, ms, k - 1), ms[k - 1], key);
    }
  }

  /**
   * A deleted key keeps its tombstone and gets no value, at every point of the run, exactly if no
   * read of it is answered and its tombstone is not pruned.
   */
  lemma BuriedForGood<V>(merge: Merge<V>, s: Store<V>, ms: seq<Message<V>>, key: string)
    requires Buried(s, key)
    ensures AlwaysBuried(merge, s, ms, key) <==>
            forall i :: 0 <= i < |ms| ==> !ReadsBack(ms[i], key) && !Prunes(ms[i], key)
  {
    if AlwaysBuried(merge, s, ms, key) {
      forall i | 0 <= i < |ms| ensures !ReadsBack(ms[i], key) && !Prunes(ms[i], key) {
        AfterNext(merge, s, ms, i);
        MessageEffect(merge, After(merge, s, ms, i), ms[i], key);
        assert Buried(After(merge, s, ms, i), key) && Buried(After(merge, s, ms, i + 1), key);
      }
    } else {
      var k :| 0 <= k <= |ms| && !Buried(After(merge, s, ms, k), key);
      if forall i :: 0 <= i < |ms| ==> !ReadsBack(ms[i], key) && !Prunes(ms[i], key) {
        BuriedSoFar(merge, s, ms, key, k);
      }
    }
  }

  /** The i-th message gives the key a value: an answered read in any case, others where no tombstone is. */
  predicate Revives<V>(s: Store<V>, ms: seq<Message<V>>, key: string, i: nat)
    requires i < |ms|
  {
    if Entombed(s.nodeID, s.dc, key in s.tombstones, ms[..i], key) then ReadsBack(ms[i], key)
    else Brings(s.nodeID, s.dc, ms[i], key)
  }

  ghost predicate NeverBack<V>(merge: Merge<V>, s: Store<V>, ms: seq<Message<V>>, key: string) {
    forall k :: 0 <= k <= |ms| ==> key !in After(merge, s, ms, k).values
  }

  lemma GoneNext<V>(merge: Merge<V>, s: Store<V>, ms: seq<Message<V>>, key: string, k: nat)
    requires k < |ms| && key !in After(merge, s, ms, k).values
    ensures key in After(merge, s, ms, k + 1).values <==> Revives(s, ms, key, k)
  {
    AfterNext(merge, s, ms, k);
    RunEntombs(merge, s, ms[..k], key);
    MessageEffect(merge, After(merge, s, ms, k), ms[k], key);
  }

  lemma {:induction false} GoneSoFar<V>(merge: Merge<V>, s: Store<V>, ms: seq<Message<V>>, key: string, k: nat)
    requires key !in s.values && k <= |ms| && forall i :: 0 <= i < |ms| ==> !Revives(s, ms, key, i)
    ensures key !in After(merge, s, ms, k).values
  {
    if k > 0 {
      GoneSoFar(merge, s, ms, key, k - 1);
      GoneNext(merge, s, ms, key, k - 1);
    }
  }

  /**
   * A deleted key does not come back exactly if no read of it is answered, and no update, foreign
   * delta, full state or foreign batch of it arrives while its tombstone is pruned.
   */
  lemma StaysGone<V>(merge: Merge<V>, s: Store<V>, ms: seq<Message<V>>, key: string)
    requires key !in s.values
    ensures NeverBack(merge, s, ms, key) <==> forall i :: 0 <= i < |ms| ==> !Revives(s, ms, key, i)
  {
    if NeverBack(merge, s, ms, key) {
      forall i | 0 <= i < |ms| ensures !Revives(s, ms, key, i) {
        assert key !in After(merge, s, ms, i).values && key !in After(merge, s, ms, i + 1).values;
        GoneNext(merge, s, ms, key, i);
      }
    } else {
      var k :| 0 <= k <= |ms| && key in After(merge, s, ms, k).values;
      if forall i :: 0 <= i < |ms| ==> !Revives(s, ms, key, i) { GoneSoFar(merge, s, ms, key, k); }
    }
  }

  // ---- a value beside a tombstone ------------------------------------------------------

  predicate Both<V>(s: Store<V>, key: string) {
    key in s.tombstones && key in s.values
  }

  /** The i-th message is an answered read of the key while it has a tombstone. */
  predicate ReadsTheDead<V>(s: Store<V>, ms: seq<Message<V>>, key: string, i: nat)
    requires i < |ms|
  {
    ReadsBack(ms[i], key) && Entombed(s.nodeID, s.dc, key in s.tombstones, ms[..i], key)
  }

  lemma BothNext<V>(merge: Merge<V>, s: Store<V>, ms: seq<Message<V>>, key: string, k: nat)
    requires k < |ms| && !Both(After(merge, s, ms, k), key)
    ensures Both(After(merge, s, ms, k + 1), key) <==> ReadsTheDead(s, ms, key, k)
  {
    AfterNext(merge, s, ms, k);
    RunEntombs(merge, s, ms[..k], key);
    MessageEffect(merge, After(merge, s, ms, k), ms[k], key);
  }

  lemma {:induction false} NotBothSoFar<V>(merge: Merge<V>, s: Store<V>, ms: seq<Message<V>>, key: string, k: nat)
    requires !Both(s, key) && k <= |ms| && forall i :: 0 <= i < |ms| ==> !ReadsTheDead(s, ms, key, i)
    ensures !Both(After(merge, s, ms, k), key)
  {
    if k > 0 {
      NotBothSoFar(merge, s, ms, key, k - 1);
      BothNext(merge, s, ms, key, k - 1);
    }
  }

  /** No key has a value beside its tombstone exactly if no read of it is answered while the tombstone is there. */
  lemma NeverBoth<V>(merge: Merge<V>, s: Store<V>, ms: seq<Message<V>>, key: string)
    requires !Both(s, key)
    ensures (forall k :: 0 <= k <= |ms| ==> !Both(After(merge, s, ms, k), key)) <==>
            forall i :: 0 <= i < |ms| ==> !ReadsTheDead(s, ms, key, i)
  {
    if forall k :: 0 <= k <= |ms| ==> !Both(After(merge, s, ms, k), key) {
      forall i | 0 <= i < |ms| ensures !ReadsTheDead(s, ms, key, i) {
        assert !Both(After(merge, s, ms, i), key) && !Both(After(merge, s, ms, i + 1), key);
        BothNext(merge, s, ms, key, i);
      }
    } else {
      var k :| 0 <= k <= |ms| && Both(After(merge, s, ms, k), key);
      if forall i :: 0 <= i < |ms| ==> !ReadsTheDead(s, ms, key, i) { NotBothSoFar(merge, s, ms, key, k); }
    }
  }

  /** In every run a key with a tombstone has no version. */
  lemma {:induction false} NoVersionBesideIt<V>(
    merge: Merge<V>, nodeID: string, dc: DataCenter, ms: seq<Message<V>>, key: string)
    ensures
      var s := RunAll(merge, Fresh(nodeID, dc), ms);
      key in s.tombstones ==> key !in s.versions
  {
    if ms != [] {
      NoVersionBesideIt(merge, nodeID, dc, ms[..|ms| - 1], key);
      MessageEffect(merge, RunAll(merge, Fresh(nodeID, dc), ms[..|ms| - 1]), ms[|ms| - 1], key);
    }
  }

  /** Whatever the store: a delete and then a read that a peer answers, and the value is back beside the tombstone. */
  lemma ReadBringsBack<V>(merge: Merge<V>, s: Store<V>, key: string, answer: V)
    ensures
      var s' := RunAll(merge, s, [DeleteMsg(key), GetMsg(key, [Some(answer)])]);
      Both(s', key) && s'.values[key] == answer
  {
    var ms := [DeleteMsg(key), GetMsg(key, [Some(answer)])];
    assert ms[..0] == [] && ms[..2] == ms;
    AfterNext(merge, s, ms, 0);
    AfterNext(merge, s, ms, 1);
    assert ms[1].answers[..0] == [];
    assert Gathered(merge, None, ms[1].answers) == Some(answer);
  }

  /** Whatever the store: a delete, the expiry of its tombstone and then a late delta, and the key is back. */
  lemma PruneBringsBack<V>(merge: Merge<V>, s: Store<V>, d: Delta<V>)
    requires d.origin != s.nodeID
    ensures
      var s' := RunAll(merge, s, [DeleteMsg(d.key), PruneMsg({d.key}), DeltaMsg(Some(d))]);
      d.key in s'.values && s'.values[d.key] == d.delta && d.key !in s'.tombstones
  {
    var ms := [DeleteMsg(d.key), PruneMsg({d.key}), DeltaMsg(Some(d))];
    assert ms[..0] == [] && ms[..3] == ms;
    AfterNext(merge, s, ms, 0);
    assert After(merge, s, ms, 1) == Bury(s, d.key, s.nodeID);
    AfterNext(merge, s, ms, 1);
    assert After(merge, s, ms, 2) == OnPrune(Bury(s, d.key, s.nodeID), {d.key});
    AfterNext(merge, s, ms, 2);
  }
}

/** How many peers a coordinated operation contacts, and which. */
module Quorum {
  import opened Basics

  datatype Coordination = Local | Majority | All | DCMajority | DCAll

  function TargetCount(peerCount: nat, level: Coordination): nat {
    match level
    case Majority => if peerCount / 2 + 1 > peerCount then peerCount else peerCount / 2 + 1
    case All => peerCount
    case _ => 0
  }

  /** A majority is the least number of peers that is more than half of them, as far as there are so many. */
  lemma MajorityIsLeast(peerCount: nat)
    ensures TargetCount(peerCount, Majority) <= peerCount
    ensures peerCount > 0 ==> 2 * TargetCount(peerCount, Majority) > peerCount
    ensures forall n :: 0 <= n < TargetCount(peerCount, Majority) ==> 2 * n <= peerCount
  {
  }

  /** Random numbers for the first k places of a shuffle of n: the i-th is below n - i. */
  predicate Draws(draws: seq<nat>, n: nat, k: int) {
    k <= |draws| && k <= n && forall i :: 0 <= i < k ==> draws[i] < n - i
  }

  function Exchanged<P>(s: seq<P>, i: nat, j: nat): seq<P>
    requires i < |s| && j < |s|
  {
    seq(|s|, k requires 0 <= k < |s| => if k == i then s[j] else if k == j then s[i] else s[k])
  }

  /** The peers after k exchanges, the i-th with the place that lies draws[i] further. */
  function Shuffled<P>(peers: seq<P>, draws: seq<nat>, k: nat): (s: seq<P>)
    requires Draws(draws, |peers|, k)
    ensures |s| == |peers|
  {
    if k == 0 then peers else Exchanged(Shuffled(peers, draws, k - 1), k - 1, k - 1 + draws[k - 1])
  }

  /**
    The partial Fisher-Yates shuffle: the result is `count` of the peers (all of them if there are
    no more), none twice, and which ones the draws decide.
   */
  method SelectPeers<P(==)>(peers: seq<P>, count: int, draws: seq<nat>) returns (selected: seq<P>)
    requires count < |peers| ==> Draws(draws, |peers|, count)
    ensures count >= |peers| ==> selected == peers
    ensures count <= 0 && count < |peers| ==> selected == []
    ensures 0 < count < |peers| ==> |selected| == count && selected == Shuffled(peers, draws, count)[..count]
    ensures multiset(selected) <= multiset(peers)
  {
    if count >= |peers| { return peers; }
    if count <= 0 { return []; }
    var shuffled := new P[|peers|](i requires 0 <= i < |peers| => peers[i]);
    assert shuffled[..] == peers;
    for i := 0 to count
      invariant Draws(draws, |peers|, i) && shuffled[..] == Shuffled(peers, draws, i)
    {
      var j := i + draws[i];
      shuffled[i], shuffled[j] := shuffled[j], shuffled[i];
    }
    selected := shuffled[..count];
    ShufflingKeeps(peers, draws, count);
    assert shuffled[..] == shuffled[..count] + shuffled[count..];
  }

  lemma ExchangeKeeps<P>(s: seq<P>, i: nat, j: nat)
    requires i <= j < |s|
    ensures multiset(Exchanged(s, i, j)) == multiset(s)
  {
    var t := Exchanged(s, i, j);
    if i == j {
      assert t == s;
    } else {
      var a, b, c := s[..i], s[i + 1..j], s[j + 1..];
      assert s == a + [s[i]] + b + [s[j]] + c;
      assert t == a + [s[j]] + b + [s[i]] + c;
    }
  }

  lemma {:induction false} ShufflingKeeps<P>(peers: seq<P>, draws: seq<nat>, k: nat)
    requires Draws(draws, |peers|, k)
    ensures multiset(Shuffled(peers, draws, k)) == multiset(peers)
  {
    if k > 0 {
      ShufflingKeeps(peers, draws, k - 1);
      ExchangeKeeps(Shuffled(peers, draws, k - 1), k - 1, k - 1 + draws[k - 1]);
    }
  }

  /** Later exchanges leave the places before them alone. */
  lemma {:induction false} ShuffledPrefix<P>(peers: seq<P>, draws: seq<nat>, j: nat, k: nat)
    requires j <= k && Draws(draws, |peers|, k)
    ensures Shuffled(peers, draws, k)[..j] == Shuffled(peers, draws, j)[..j]
  {
    if j < k { ShuffledPrefix(peers, draws, j, k - 1); }
  }

  lemma {:induction false} SameDraws<P>(peers: seq<P>, draws: seq<nat>, more: seq<nat>, k: nat)
    requires Draws(draws, |peers|, k) && draws <= more
    ensures Draws(more, |peers|, k) && Shuffled(peers, more, k) == Shuffled(peers, draws, k)
  {
    if k > 0 { SameDraws(peers, draws, more, k - 1); }
  }

  lemma {:induction false} ShufflingKeepsApart<P>(peers: seq<P>, draws: seq<nat>, k: nat)
    requires Draws(draws, |peers|, k) && NoDup(peers)
    ensures NoDup(Shuffled(peers, draws, k)) && Set(Shuffled(peers, draws, k)) == Set(peers)
  {
    if k > 0 {
      ShufflingKeepsApart(peers, draws, k - 1);
      var s := Shuffled(peers, draws, k - 1);
      var i, j := k - 1, k - 1 + draws[k - 1];
      assert Exchanged(s, i, j)[i] == s[j] && Exchanged(s, i, j)[j] == s[i];
      forall x | x in s ensures x in Exchanged(s, i, j) {
        var m :| 0 <= m < |s| && s[m] == x;
        assert Exchanged(s, i, j)[if m == i then j else if m == j then i else m] == x;
      }
    }
  }

  /** One more draw: an exchange with the place that is asked for. */
  lemma DrawMore<P>(peers: seq<P>, draws: seq<nat>, n: nat, j: nat)
    requires n == |draws| && Draws(draws, |peers|, n) && n <= j < |peers|
    ensures
      var more := draws + [j - n];
      Draws(more, |peers|, n + 1) && Shuffled(peers, more, n + 1) == Exchanged(Shuffled(peers, draws, n), n, j)
  {
    SameDraws(peers, draws, draws + [j - n], n);
  }

  lemma Locate<P>(s: seq<P>, wanted: seq<P>, n: nat) returns (j: nat)
    requires NoDup(wanted) && n < |wanted| && n <= |s| && s[..n] == wanted[..n] && wanted[n] in s
    ensures n <= j < |s| && s[j] == wanted[n]
  {
    j :| 0 <= j < |s| && s[j] == wanted[n];
    assert forall m :: 0 <= m < n ==> s[m] == s[..n][m] == wanted[..n][m] == wanted[m];
  }

  /** Every choice of different peers, in every order, comes from some draws. */
  lemma {:induction false} EveryChoiceIsDrawn<P>(peers: seq<P>, wanted: seq<P>) returns (draws: seq<nat>)
    requires NoDup(peers) && NoDup(wanted) && |wanted| <= |peers| && Set(wanted) <= Set(peers)
    ensures |draws| == |wanted| && Draws(draws, |peers|, |wanted|)
    ensures Shuffled(peers, draws, |wanted|)[..|wanted|] == wanted
  {
    if wanted == [] {
      draws := [];
    } else {
      var n := |wanted| - 1;
      SetLast(wanted);
      var before := EveryChoiceIsDrawn(peers, wanted[..n]);
      ShufflingKeepsApart(peers, before, n);
      assert wanted[n] in Set(wanted) && wanted[n] in Set(Shuffled(peers, before, n));
      var j := Locate(Shuffled(peers, before, n), wanted, n);
      DrawMore(peers, before, n, j);
      draws := before + [j - n];
      assert wanted == wanted[..n] + [wanted[n]];
    }
  }

  /** What stands at a place after an exchange tells where it came from. */
  lemma LastDraw<P>(s: seq<P>, n: nat, i: nat, j: nat)
    requires NoDup(s) && n <= i < |s| && n <= j < |s| && Exchanged(s, n, i)[n] == Exchanged(s, n, j)[n]
    ensures i == j
  {
    assert Exchanged(s, n, i)[n] == s[i] && Exchanged(s, n, j)[n] == s[j];
  }

  /** And from no others: as random as the draws are, as random is the choice. */
  lemma {:induction false} ChoiceTellsDraws<P>(peers: seq<P>, a: seq<nat>, b: seq<nat>, k: nat)
    requires NoDup(peers) && Draws(a, |peers|, k) && Draws(b, |peers|, k)
    requires Shuffled(peers, a, k)[..k] == Shuffled(peers, b, k)[..k]
    ensures a[..k] == b[..k] && Shuffled(peers, a, k) == Shuffled(peers, b, k)
  {
    if k > 0 {
      var n := k - 1;
      ShuffledPrefix(peers, a, n, k);
      ShuffledPrefix(peers, b, n, k);
      assert Shuffled(peers, a, k)[..k][..n] == Shuffled(peers, b, k)[..k][..n];
      ChoiceTellsDraws(peers, a, b, n);
      ShufflingKeepsApart(peers, a, n);
      assert Shuffled(peers, a, k)[..k][n] == Shuffled(peers, b, k)[..k][n];
      LastDraw(Shuffled(peers, a, n), n, n + a[n], n + b[n]);
      assert a[..k] == a[..n] + [a[n]] && b[..k] == b[..n] + [b[n]];
    }
  }

  lemma SubsetIsSmaller<P>(a: set<P>, b: set<P>)
    requires a <= b
    ensures |a| <= |b|
  {
    assert b == a + (b - a) && a !! (b - a);
  }

  lemma PickedAreDistinct<P>(picked: seq<P>, peers: seq<P>)
    requires NoDup(peers) && multiset(picked) <= multiset(peers)
    ensures NoDup(picked) && Set(picked) <= Set(peers)
  {
    forall x | x in picked ensures x in peers { assert multiset(picked)[x] > 0; }
    forall i, j | 0 <= i < j < |picked| ensures picked[i] != picked[j] {
      if picked[i] == picked[j] {
        TwiceMeansTwo(picked, i, j);
        OnceMeansOne(peers, picked[i]);
      }
    }
  }

  lemma TwiceMeansTwo<P>(xs: seq<P>, i: nat, j: nat)
    requires i < j < |xs| && xs[i] == xs[j]
    ensures multiset(xs)[xs[i]] >= 2
  {
    assert xs == xs[..j] + xs[j..];
    assert xs[i] == xs[..j][i] && xs[j] == xs[j..][0];
    assert xs[i] in xs[..j] && xs[i] in xs[j..];
    assert multiset(xs[..j])[xs[i]] >= 1 && multiset(xs[j..])[xs[i]] >= 1;
  }

  lemma {:induction false} OnceMeansOne<P>(xs: seq<P>, x: P)
    requires NoDup(xs)
    ensures multiset(xs)[x] <= 1
  {
    if xs != [] {
      var n := |xs| - 1;
      OnceMeansOne(xs[..n], x);
      assert xs == xs[..n] + [xs[n]];
      assert x == xs[n] ==> x !in xs[..n];
    }
  }

  /** A node's contact set for a Majority operation: itself and the peers it picked. */
  ghost predicate MajorityContacts<P>(members: set<P>, self: P, peers: seq<P>, picked: seq<P>) {
    && self in members && NoDup(peers) && Set(peers) == members - {self}
    && multiset(picked) <= multiset(peers)
    && |picked| == TargetCount(|peers|, Majority)
  }

  /** For any two nodes of one membership, their Majority contact sets share a member. */
  lemma MajoritiesIntersect<P>(
    members: set<P>, a: P, peersA: seq<P>, pickedA: seq<P>, b: P, peersB: seq<P>, pickedB: seq<P>)
    requires |members| >= 2
    requires MajorityContacts(members, a, peersA, pickedA) && MajorityContacts(members, b, peersB, pickedB)
    ensures ({a} + Set(pickedA)) * ({b} + Set(pickedB)) != {}
  {
    ContactSize(members, a, peersA, pickedA);
    ContactSize(members, b, peersB, pickedB);
    var x, y := {a} + Set(pickedA), {b} + Set(pickedB);
    if x * y == {} {
      assert |x + y| == |x| + |y|;
      SubsetIsSmaller(x + y, members);
    }
  }

  lemma ContactSize<P>(members: set<P>, a: P, peers: seq<P>, picked: seq<P>)
    requires |members| >= 2 && MajorityContacts(members, a, peers, picked)
    ensures {a} + Set(picked) <= members
    ensures 2 * |{a} + Set(picked)| > |members|
  {
    PickedAreDistinct(picked, peers);
    NoDupSize(picked);
    NoDupSize(peers);
    assert |members - {a}| == |members| - 1;
    assert a !in Set(picked);
    assert |{a} + Set(picked)| == 1 + |picked|;
  }
}
