/**
 * What replication brings about, told from the values themselves: an update, a delta, a full state,
 * a batch or an answer that a replica takes in is part of its value from then on, and a deletion that
 * reaches a replica removes the key there.
 */
module Reaching {
  import opened Basics
  import opened Lattices
  import opened Replicator
  import opened Convergence

  // ---- nothing is forgotten ------------------------------------------------------------

  ghost predicate Remembers<V>(sys: System<V>, sys': System<V>) {
    && |sys.stores| == |sys.known| == |sys'.stores| == |sys'.known|
    && sys.log <= sys'.log && sys.deleted <= sys'.deleted && sys.sent <= sys'.sent
    && forall i :: 0 <= i < |sys.known| ==> sys.known[i] <= sys'.known[i]
  }

  lemma StepRemembers<V, L>(lat: Lattice<V, L>, sys: System<V>, a: Step<V>)
    requires |sys.stores| == |sys.known| && Enabled(lat, sys, a)
    ensures Remembers(sys, Next(lat, sys, a))
  {
  }

  lemma {:induction false} RunRemembers<V, L>(
    lat: Lattice<V, L>, run: seq<System<V>>, steps: seq<Step<V>>, j: nat, k: nat)
    requires IsRun(lat, run, steps) && j <= k < |run|
    ensures Remembers(run[j], run[k])
    decreases k
  {
    if k == 0 {
    } else if j == k {
      StepRemembers(lat, run[k - 1], steps[k - 1]);
    } else {
      RunRemembers(lat, run, steps, j, k - 1);
      StepRemembers(lat, run[k - 1], steps[k - 1]);
    }
  }

  // ---- known effects are in the value ----------------------------------------------------

  /** The replica's value of the key says all that x says. */
  ghost predicate Says<V, L>(lat: Lattice<V, L>, s: Store<V>, key: string, x: V) {
    Under(lat.join, lat.view(x), ViewAt(lat, s, key))
  }

  lemma EffectIsSaid<V(!new), L(!new)>(lat: Lattice<V, L>, sys: System<V>, i: nat, n: nat)
    requires Inv(lat, sys) && i < |sys.stores| && n in sys.known[i] && n < |sys.log|
    requires sys.log[n].key !in sys.deleted
    ensures Says(lat, sys.stores[i], sys.log[n].key, sys.log[n].effect)
  {
    var key := sys.log[n].key;
    assert StoreOk(lat, sys, i);
    assert KeyOk(lat, sys.log, sys.stores[i], sys.known[i], key);
    assert lat.view(sys.log[n].effect) in Slice(lat, sys.log, sys.known[i], key);
  }

  lemma PartIsSaid<V(!new), L(!new)>(lat: Lattice<V, L>, sys: System<V>, i: nat, part: Part<V>)
    requires Inv(lat, sys) && i < |sys.stores| && part.delta.Some? && part.delta.value.key !in sys.deleted
    requires PartOk(lat, sys.log, sys.deleted, part) && part.carries <= sys.known[i]
    ensures Says(lat, sys.stores[i], part.delta.value.key, part.delta.value.delta)
  {
    var key := part.delta.value.key;
    assert StoreOk(lat, sys, i);
    assert KeyOk(lat, sys.log, sys.stores[i], sys.known[i], key);
    var small, large := Slice(lat, sys.log, part.carries, key), Slice(lat, sys.log, sys.known[i], key);
    forall d | d in small ensures d in large {
      var n :| n in OfKey(sys.log, part.carries, key) && d == lat.view(sys.log[n].effect);
      assert n in OfKey(sys.log, sys.known[i], key);
    }
    assert Above(lat.join, ViewAt(lat, sys.stores[i], key), small);
  }

  // ---- updates -----------------------------------------------------------------------------

  /** An update is in its replica's value from then on, and its delta is on the wire. */
  lemma UpdateStays<V(!new), L(!new)>(
    lat: Lattice<V, L>, run: seq<System<V>>, steps: seq<Step<V>>, j: nat, k: nat)
    requires Lawful(lat) && IsRun(lat, run, steps) && j < k < |run| && steps[j].Apply? && steps[j].effect.Some?
    requires steps[j].update.key !in run[k].deleted
    ensures steps[j].i < |run[k].stores|
    ensures Says(lat, run[k].stores[steps[j].i], steps[j].update.key, steps[j].effect.value)
  {
    var i, u := steps[j].i, steps[j].update;
    RunKeeps(lat, run, steps, j);
    RunRemembers(lat, run, steps, j, j + 1);
    RunRemembers(lat, run, steps, j + 1, k);
    RunKeeps(lat, run, steps, k);
    assert StoreOk(lat, run[j], i);
    var n := |run[j].log|;
    assert run[j + 1].log[n] == Item(u.key, steps[j].effect.value) && n in run[j + 1].known[i];
    EffectIsSaid(lat, run[k], i, n);
  }

  lemma UpdatePublishes<V, L>(lat: Lattice<V, L>, run: seq<System<V>>, steps: seq<Step<V>>, j: nat)
    requires IsRun(lat, run, steps) && j < |steps| && steps[j].Apply?
    requires steps[j].update.key !in run[j].stores[steps[j].i].tombstones
    ensures
      var s, u := run[j].stores[steps[j].i], steps[j].update;
      var delta := u.apply(Current(s, u)).delta;
      if delta.None? then run[j + 1].sent == run[j].sent
      else
        && |run[j + 1].sent| == |run[j].sent| + 1
        && MessageOf(run[j + 1].sent[|run[j].sent|]) == DeltaMsg(Some(Delta(u.key, u.ty, delta.value, s.nodeID)))
  {
  }

  // ---- packets -----------------------------------------------------------------------------

  /** A part of a packet that a replica of this name and data center takes in. */
  ghost predicate Takes<V>(p: Packet<V>, nodeID: string, dc: DataCenter, part: Part<V>) {
    && part.delta.Some?
    && match p
       case DeltaPacket(x) => x == part && part.delta.value.origin != nodeID
       case StatePacket(parts) => part in parts
       case BatchPacket(origin, parts, _) =>
         origin != Some(dc) && part in parts && part.delta.value.origin != nodeID
       case GravePacket(_) => false
  }

  lemma {:induction false} CarriedHas<V>(parts: seq<Part<V>>, part: Part<V>)
    requires part in parts
    ensures part.carries <= Carried(parts)
  {
    if part != parts[|parts| - 1] { CarriedHas(parts[..|parts| - 1], part); }
  }

  lemma {:induction false} TakenHas<V>(nodeID: string, parts: seq<Part<V>>, part: Part<V>)
    requires part in parts && part.delta.Some? && part.delta.value.origin != nodeID
    ensures part.carries <= AllTakenBy(nodeID, parts)
  {
    if part != parts[|parts| - 1] { TakenHas(nodeID, parts[..|parts| - 1], part); }
  }

  lemma TakesGains<V>(p: Packet<V>, nodeID: string, dc: DataCenter, part: Part<V>)
    requires Takes(p, nodeID, dc, part)
    ensures part.carries <= Gains(p, nodeID, dc)
  {
    match p
    case StatePacket(parts) => CarriedHas(parts, part);
    case BatchPacket(_, parts, _) => TakenHas(nodeID, parts, part);
    case _ =>
  }

  lemma TakenIsOk<V(!new), L(!new)>(
    lat: Lattice<V, L>, sys: System<V>, p: Packet<V>, nodeID: string, dc: DataCenter, part: Part<V>)
    requires |sys.stores| == |sys.known| && PacketOk(lat, sys, p) && Takes(p, nodeID, dc, part)
    ensures PartOk(lat, sys.log, sys.deleted, part)
  {
  }

  /**
   * What a replica takes in from a delivered delta, full state or batch is in its value of that key
   * from then on, unless somebody deletes the key.
   */
  lemma DeliveredStays<V(!new), L(!new)>(
    lat: Lattice<V, L>, run: seq<System<V>>, steps: seq<Step<V>>, j: nat, k: nat, part: Part<V>)
    requires Lawful(lat) && IsRun(lat, run, steps) && j < k < |run| && steps[j].Deliver?
    requires
      var s := run[j].stores[steps[j].i];
      Takes(run[j].sent[steps[j].p], s.nodeID, s.dc, part) && part.delta.value.key !in run[k].deleted
    ensures steps[j].i < |run[k].stores|
    ensures Says(lat, run[k].stores[steps[j].i], part.delta.value.key, part.delta.value.delta)
  {
    var i, p, s := steps[j].i, steps[j].p, run[j].stores[steps[j].i];
    RunRemembers(lat, run, steps, j, j + 1);
    RunRemembers(lat, run, steps, j + 1, k);
    RunKeeps(lat, run, steps, k);
    TakesGains(run[j].sent[p], s.nodeID, s.dc, part);
    assert run[k].sent[p] == run[j].sent[p];
    TakenIsOk(lat, run[k], run[k].sent[p], s.nodeID, s.dc, part);
    PartIsSaid(lat, run[k], i, part);
  }

  /** What a peer answers to a read is in the reader's value from then on. */
  lemma AnswerStays<V(!new), L(!new)>(
    lat: Lattice<V, L>, run: seq<System<V>>, steps: seq<Step<V>>, j: nat, k: nat, a: nat)
    requires Lawful(lat) && IsRun(lat, run, steps) && j < k < |run| && steps[j].Read? && a < |steps[j].picks|
    requires ReadPart(run[j], steps[j].key, steps[j].picks[a]).delta.Some? && steps[j].key !in run[k].deleted
    ensures steps[j].i < |run[k].stores|
    ensures Says(lat, run[k].stores[steps[j].i], steps[j].key,
                 ReadPart(run[j], steps[j].key, steps[j].picks[a]).delta.value.delta)
  {
    var i, parts := steps[j].i, ReadParts(run[j], steps[j].key, steps[j].picks);
    var part := ReadPart(run[j], steps[j].key, steps[j].picks[a]);
    assert parts[a] == part && part in parts;
    RunRemembers(lat, run, steps, j, j + 1);
    RunRemembers(lat, run, steps, j + 1, k);
    RunKeeps(lat, run, steps, k);
    CarriedHas(parts, part);
    var p := steps[j].picks[a].value;
    assert run[k].sent[p] == run[j].sent[p] && PacketOk(lat, run[k], run[k].sent[p]);
    PartIsSaid(lat, run[k], i, part);
  }

  // ---- deletions ---------------------------------------------------------------------------

  /** A deletion removes the key at its replica and sends a tombstone that names it. */
  lemma ErasePublishes<V, L>(lat: Lattice<V, L>, run: seq<System<V>>, steps: seq<Step<V>>, j: nat)
    requires IsRun(lat, run, steps) && j < |steps| && steps[j].Erase?
    ensures
      var s, key := run[j].stores[steps[j].i], steps[j].key;
      && Buried(run[j + 1].stores[steps[j].i], key) && key in run[j + 1].deleted
      && |run[j + 1].sent| == |run[j].sent| + 1
      && MessageOf<V>(run[j + 1].sent[|run[j].sent|]) == TombstoneMsg(Some(Tombstone(key, s.nodeID)))
  {
  }

  /** A tombstone removes the key at every other replica that it reaches, also as part of a foreign batch. */
  lemma GraveReaches<V, L>(
    lat: Lattice<V, L>, run: seq<System<V>>, steps: seq<Step<V>>, j: nat, key: string)
    requires IsRun(lat, run, steps) && j < |steps| && steps[j].Deliver?
    requires
      var s := run[j].stores[steps[j].i];
      Entombs(s.nodeID, s.dc, MessageOf(run[j].sent[steps[j].p]), key)
    ensures steps[j].i < |run[j + 1].stores|
    ensures key in run[j + 1].stores[steps[j].i].tombstones && key !in run[j + 1].stores[steps[j].i].values
  {
    var s, m := run[j].stores[steps[j].i], MessageOf(run[j].sent[steps[j].p]);
    MessageEffect(lat.merge, s, m, key);
  }
}
