/**
 * Anti-entropy between two replicas. In a round one of them sends the versions of its keys, and the
 * other answers with the full state of the keys where its own version is higher. A version counts
 * what one replica has stored, so versions of two replicas say little about their values.
 */
module AntiEntropy {
  import opened Basics
  import opened Lattices
  import opened Replicator

  /** What a replica has of one key. */
  datatype Cell<V> = Cell(value: Option<V>, version: nat)

  function CellOf<V>(s: Store<V>, key: string): Cell<V> {
    Cell(Found(s.values, key), Version(s.versions, key))
  }

  /** The asking replica after a round: the other's value comes in if it is missing or its version is higher. */
  function Asked<V>(merge: Merge<V>, a: Cell<V>, b: Cell<V>): Cell<V> {
    if b.value.None? then a
    else if a.value.None? then Cell(b.value, a.version + 1)
    else if b.version > a.version then Cell(Some(merge(a.value.value, b.value.value)), a.version + 1)
    else a
  }

  // ---- one round -----------------------------------------------------------------------

  /** a asks b and becomes a'. */
  ghost predicate Round<V(!new)>(merge: Merge<V>, a: Store<V>, b: Store<V>, a': Store<V>) {
    exists reply :: IsReply(b, DigestOf(a), reply) && a' == OnFullState(merge, a, reply)
  }

  lemma {:induction false} NotOffered<V>(merge: Merge<V>, s: Store<V>, es: seq<Option<Delta<V>>>, key: string)
    requires forall i :: 0 <= i < |es| ==> es[i].Some? && es[i].value.key != key
    ensures
      var s' := OnFullState(merge, s, es);
      CellOf(s', key) == CellOf(s, key) && s'.tombstones == s.tombstones
  {
    if es != [] { NotOffered(merge, s, es[..|es| - 1], key); }
  }

  lemma {:induction false} OfferedOnce<V>(merge: Merge<V>, s: Store<V>, es: seq<Option<Delta<V>>>, i: nat)
    requires i < |es| && forall j :: 0 <= j < |es| ==> es[j].Some?
    requires forall j :: 0 <= j < |es| && j != i ==> es[j].value.key != es[i].value.key
    ensures
      var s', d := OnFullState(merge, s, es), es[i].value;
      && s'.tombstones == s.tombstones
      && CellOf(s', d.key) == CellOf(Absorb(merge, s, d), d.key)
  {
    var n := |es| - 1;
    if i < n {
      OfferedOnce(merge, s, es[..n], i);
    } else {
      NotOffered(merge, s, es[..n], es[i].value.key);
    }
  }

  /** What a round does to a key that the asking replica has not deleted. */
  lemma RoundOnKey<V(!new)>(merge: Merge<V>, a: Store<V>, b: Store<V>, a': Store<V>, key: string)
    requires Round(merge, a, b, a') && key !in a.tombstones
    ensures a'.tombstones == a.tombstones
    ensures CellOf(a', key) == Asked(merge, CellOf(a, key), CellOf(b, key))
  {
    var reply :| IsReply(b, DigestOf(a), reply) && a' == OnFullState(merge, a, reply);
    if Sends(b, DigestOf(a), key) {
      var i :| 0 <= i < |reply| && reply[i] == FullEntry(b, key);
      OfferedOnce(merge, a, reply, i);
    } else {
      NotOffered(merge, a, reply, key);
    }
  }

  // ---- runs of rounds ------------------------------------------------------------------

  /** Rounds between two replicas: asks[k] says that the first one asks in round k. */
  ghost predicate AreRounds<V(!new)>(merge: Merge<V>, run: seq<(Store<V>, Store<V>)>, asks: seq<bool>) {
    && |run| == |asks| + 1
    && forall k :: 0 <= k < |asks| ==>
      if asks[k] then Round(merge, run[k].0, run[k].1, run[k + 1].0) && run[k + 1].1 == run[k].1
      else Round(merge, run[k].1, run[k].0, run[k + 1].1) && run[k + 1].0 == run[k].0
  }

  ghost predicate OkCell<V, L>(lat: Lattice<V, L>, c: Cell<V>) {
    c.value.Some? ==> lat.ok(c.value.value)
  }

  ghost predicate Agree<V, L>(lat: Lattice<V, L>, a: Cell<V>, b: Cell<V>) {
    if a.value.None? || b.value.None? then a.value.None? && b.value.None?
    else lat.view(a.value.value) == lat.view(b.value.value)
  }

  /** a is the one that learns: it lacks the value or has the lower version. */
  predicate Behind<V>(a: Cell<V>, b: Cell<V>) {
    b.value.Some? && (a.value.None? || a.version < b.version)
  }

  /** What two replicas have after some rounds, where the first was behind; whether it has asked since. */
  ghost predicate Learns<V, L>(lat: Lattice<V, L>, a0: Cell<V>, b0: Cell<V>, a: Cell<V>, b: Cell<V>, asked: bool) {
    && Behind(a0, b0) && OkCell(lat, a) && OkCell(lat, b) && b.value.Some?
    && lat.view(b.value.value) == lat.view(b0.value.value)
    && (!asked ==> a == a0 && b == b0)
    && (asked ==> a.value.Some? && lat.view(a.value.value) == Met(lat, a0, b0))
    && (a0.value.Some? ==> b == b0 && a.version <= b.version)
  }

  /** The value of the learner once it has asked. */
  ghost function Met<V, L>(lat: Lattice<V, L>, a: Cell<V>, b: Cell<V>): L
    requires b.value.Some?
  {
    if a.value.None? then lat.view(b.value.value) else lat.join(lat.view(a.value.value), lat.view(b.value.value))
  }

  /** The learner asks. */
  lemma LearnerAsks<V(!new), L(!new)>(
    lat: Lattice<V, L>, a0: Cell<V>, b0: Cell<V>, a: Cell<V>, b: Cell<V>, asked: bool)
    requires Lawful(lat) && Learns(lat, a0, b0, a, b, asked)
    ensures Learns(lat, a0, b0, Asked(lat.merge, a, b), b, true)
  {
    if a.value.Some? {
      var j, x, y := lat.join, lat.view(a.value.value), lat.view(b.value.value);
      assert MergesLikeJoin(lat, a.value.value, b.value.value);
      assert Absorbs(j, lat.bottom, y);
      if a0.value.Some? { assert Associates(j, lat.view(a0.value.value), y, y); }
    }
  }

  /** The other one asks. */
  lemma TeacherAsks<V(!new), L(!new)>(
    lat: Lattice<V, L>, a0: Cell<V>, b0: Cell<V>, a: Cell<V>, b: Cell<V>, asked: bool)
    requires Lawful(lat) && Learns(lat, a0, b0, a, b, asked)
    ensures Learns(lat, a0, b0, a, Asked(lat.merge, b, a), asked)
  {
    if a.value.Some? {
      assert MergesLikeJoin(lat, b.value.value, a.value.value);
      assert Absorbs(lat.join, lat.bottom, lat.view(b.value.value));
    }
  }

  /** Some of the first k rounds was asked by this side. */
  predicate HasAsked(asks: seq<bool>, side: bool, k: nat)
    requires k <= |asks|
  {
    exists i :: 0 <= i < k && asks[i] == side
  }

  function Side<V>(pair: (Store<V>, Store<V>), side: bool): Store<V> {
    if side then pair.0 else pair.1
  }

  /** The side that is behind learns in every run. */
  lemma {:induction false} LearnsInRun<V(!new), L(!new)>(
    lat: Lattice<V, L>, run: seq<(Store<V>, Store<V>)>, asks: seq<bool>, key: string, side: bool, k: nat)
    requires Lawful(lat) && AreRounds(lat.merge, run, asks) && k < |run|
    requires key !in run[0].0.tombstones && key !in run[0].1.tombstones
    requires OkCell(lat, CellOf(run[0].0, key)) && OkCell(lat, CellOf(run[0].1, key))
    requires Behind(CellOf(Side(run[0], side), key), CellOf(Side(run[0], !side), key))
    ensures key !in run[k].0.tombstones && key !in run[k].1.tombstones
    ensures Learns(lat, CellOf(Side(run[0], side), key), CellOf(Side(run[0], !side), key),
                   CellOf(Side(run[k], side), key), CellOf(Side(run[k], !side), key), HasAsked(asks, side, k))
  {
    if k > 0 {
      LearnsInRun(lat, run, asks, key, side, k - 1);
      var a0, b0 := CellOf(Side(run[0], side), key), CellOf(Side(run[0], !side), key);
      var a, b := CellOf(Side(run[k - 1], side), key), CellOf(Side(run[k - 1], !side), key);
      var asker := asks[k - 1];
      RoundOnKey(lat.merge, Side(run[k - 1], asker), Side(run[k - 1], !asker), Side(run[k], asker), key);
      if asker == side {
        LearnerAsks(lat, a0, b0, a, b, HasAsked(asks, side, k - 1));
        assert HasAsked(asks, side, k);
      } else {
        TeacherAsks(lat, a0, b0, a, b, HasAsked(asks, side, k - 1));
        assert HasAsked(asks, side, k) == HasAsked(asks, side, k - 1);
      }
    }
  }

  /** Where neither is behind, no round changes the key on either side. */
  lemma {:induction false} NobodyLearns<V(!new)>(
    merge: Merge<V>, run: seq<(Store<V>, Store<V>)>, asks: seq<bool>, key: string, k: nat)
    requires AreRounds(merge, run, asks) && k < |run|
    requires key !in run[0].0.tombstones && key !in run[0].1.tombstones
    requires !Behind(CellOf(run[0].0, key), CellOf(run[0].1, key))
    requires !Behind(CellOf(run[0].1, key), CellOf(run[0].0, key))
    ensures key !in run[k].0.tombstones && key !in run[k].1.tombstones
    ensures CellOf(run[k].0, key) == CellOf(run[0].0, key) && CellOf(run[k].1, key) == CellOf(run[0].1, key)
  {
    if k > 0 {
      NobodyLearns(merge, run, asks, key, k - 1);
      var asker := asks[k - 1];
      RoundOnKey(merge, Side(run[k - 1], asker), Side(run[k - 1], !asker), Side(run[k], asker), key);
    }
  }

  /** One side lacks the value, or the side with the higher version has all that the other says. */
  ghost predicate Repairable<V, L>(lat: Lattice<V, L>, a: Cell<V>, b: Cell<V>) {
    || a.value.None? || b.value.None?
    || (var x, y := lat.view(a.value.value), lat.view(b.value.value);
        if a.version < b.version then Under(lat.join, x, y)
        else if b.version < a.version then Under(lat.join, y, x)
        else x == y)
  }

  /**
   * Once both sides have asked, they agree on a key that neither has deleted exactly if one lacked
   * it, or the side with the higher version already had all that the other says.
   */
  lemma RoundsRepair<V(!new), L(!new)>(
    lat: Lattice<V, L>, run: seq<(Store<V>, Store<V>)>, asks: seq<bool>, key: string, k: nat)
    requires Lawful(lat) && AreRounds(lat.merge, run, asks) && k < |run|
    requires key !in run[0].0.tombstones && key !in run[0].1.tombstones
    requires OkCell(lat, CellOf(run[0].0, key)) && OkCell(lat, CellOf(run[0].1, key))
    requires HasAsked(asks, true, k) && HasAsked(asks, false, k)
    ensures Agree(lat, CellOf(run[k].0, key), CellOf(run[k].1, key)) <==>
            Repairable(lat, CellOf(run[0].0, key), CellOf(run[0].1, key))
  {
    var a, b := CellOf(run[0].0, key), CellOf(run[0].1, key);
    if Behind(a, b) {
      LearnsInRun(lat, run, asks, key, true, k);
    } else if Behind(b, a) {
      LearnsInRun(lat, run, asks, key, false, k);
    } else {
      NobodyLearns(lat.merge, run, asks, key, k);
    }
  }

  /**
   * Two replicas that each made one update of their own for a key, and lost each other's delta: no
   * number of rounds changes either value, whatever the updates are.
   */
  lemma OneUpdateEach<V(!new)>(
    merge: Merge<V>, u: Update<V>, w: Update<V>, n: string, m: string, dc: DataCenter,
    run: seq<(Store<V>, Store<V>)>, asks: seq<bool>, k: nat)
    requires u.key == w.key && AreRounds(merge, run, asks) && k < |run|
    requires run[0] == (RunAll(merge, Fresh(n, dc), [UpdateMsg(u)]), RunAll(merge, Fresh(m, dc), [UpdateMsg(w)]))
    ensures CellOf(run[k].0, u.key) == Cell(Some(u.apply(u.initial).updated), 1)
    ensures CellOf(run[k].1, u.key) == Cell(Some(w.apply(w.initial).updated), 1)
  {
    assert [UpdateMsg(u)][..0] == [] && [UpdateMsg(w)][..0] == [];
    NobodyLearns(merge, run, asks, u.key, k);
  }
}
