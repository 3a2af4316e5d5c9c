/**
 * What the tree says to its callers: which ids are registered, who is listed under whom and who
 * watches whom, as plain sets of pairs. Every change of the tree is an exact change of these sets.
 */
module TreeFacts {
  import opened Basics
  import opened Forest
  import opened TreeViews
  import opened TreePrune

  /** Registered ids, pairs of parent and child, pairs of watcher and watchee. */
  datatype Facts = Facts(ids: set<string>, under: set<(string, string)>, watches: set<(string, string)>)

  ghost function Told(v: Nodes): Facts {
    Facts(v.Keys,
          set k, c | k in v && c in v[k].descendants :: (k, c),
          set k, w | k in v && w in v[k].watchers :: (w, k))
  }

  ghost function Says(s: Registry): Facts
    requires IndexOk(s.nodes, s.pids)
  {
    Told(Seen(s))
  }

  /** The same watches, seen from the watchers. */
  lemma WatchesFromBothEnds(v: Nodes)
    requires WatchEdges(v)
    ensures Told(v).watches == set k, e | k in v && e in v[k].watchees :: (k, e)
  {
    forall k, w | k in v && w in v[k].watchers ensures w in v && k in v[w].watchees {}
    forall k, e | k in v && e in v[k].watchees ensures e in v && k in v[e].watchers {}
  }

  /** A new node brings its id and nothing else. */
  lemma AdmitTells(v: Nodes, pid: Pid)
    requires pid.id !in v
    ensures Told(v[pid.id := NewNode(pid)]) == Told(v).(ids := v.Keys + {pid.id})
  {
    var v' := v[pid.id := NewNode(pid)];
    forall k, c | k in v && c in v[k].descendants ensures k in v' && c in v'[k].descendants {}
    forall k, w | k in v && w in v[k].watchers ensures k in v' && w in v'[k].watchers {}
  }

  /** A watch brings one pair. */
  lemma WatchTells(v: Nodes, watchee: Pid, watcher: Pid)
    requires watchee.id in v && watcher.id in v
    ensures Told(Watched(v, watchee, watcher)) == Told(v).(watches := Told(v).watches + {(watcher.id, watchee.id)})
  {
    var v' := Watched(v, watchee, watcher);
    forall k | k in v ensures v'[k].descendants == v[k].descendants {}
    SameUnder(v, v');
    forall k, w | k in v' && w in v'[k].watchers && (w, k) != (watcher.id, watchee.id) ensures w in v[k].watchers {}
    assert watcher.id in v'[watchee.id].watchers;
    forall k, w | k in v && w in v[k].watchers ensures w in v'[k].watchers {}
  }

  lemma SameUnder(v: Nodes, v': Nodes)
    requires v.Keys == v'.Keys && forall k :: k in v ==> v'[k].descendants == v[k].descendants
    ensures Told(v').under == Told(v).under
  {
    forall k, c | k in v && c in v[k].descendants ensures c in v'[k].descendants {}
    forall k, c | k in v' && c in v'[k].descendants ensures c in v[k].descendants {}
  }

  lemma SameWatched(v: Nodes, v': Nodes)
    requires v.Keys == v'.Keys && forall k :: k in v ==> v'[k].watchers == v[k].watchers
    ensures Told(v').watches == Told(v).watches
  {
    forall k, w | k in v && w in v[k].watchers ensures w in v'[k].watchers {}
    forall k, w | k in v' && w in v'[k].watchers ensures w in v[k].watchers {}
  }

  /** A child edge brings one pair, and the child records its parent. */
  lemma ParentTells(v: Nodes, ix: Index, parent: string, child: string)
    requires v.Keys == ix.Keys && parent in v && child in v
    ensures
      var v' := Parented(v, ix, parent, child);
      && Told(v') == Told(v).(under := Told(v).under + {(parent, child)})
      && v'[child].parent == Some(ix[parent])
      && forall k :: k in v && k != child ==> v'[k].parent == v[k].parent
  {
    var v' := Parented(v, ix, parent, child);
    SameWatched(v, v');
    forall k, c | k in v' && c in v'[k].descendants && (k, c) != (parent, child) ensures c in v[k].descendants {}
    assert child in v'[parent].descendants;
    forall k, c | k in v && c in v[k].descendants ensures c in v'[k].descendants {}
  }

  /** A link is a child edge and the parent's watch. */
  lemma LinkTells(s: Registry, parent: Pid, child: Pid)
    requires IndexOk(s.nodes, s.pids) && parent.id in s.pids && child.id in s.pids
    ensures
      var v, v' := Seen(s), LinkedView(s, parent, child);
      && Told(v') == Told(v).(under := Told(v).under + {(parent.id, child.id)},
                              watches := Told(v).watches + {(parent.id, child.id)})
      && v'[child.id].parent == Some(s.pids[parent.id])
      && forall k :: k in v && k != child.id ==> v'[k].parent == v[k].parent
  {
    ParentTells(Seen(s), s.pids, parent.id, child.id);
    WatchTells(Parented(Seen(s), s.pids, parent.id, child.id), child, parent);
  }

  /** A new node under a parent: its id, a child edge and the parent's watch. */
  lemma AddTells(v: Nodes, ix: Index, parent: Pid, child: Pid)
    requires child.id !in v && parent.id in v && ix.Keys == v.Keys + {child.id}
    ensures
      var v' := Watched(Parented(v[child.id := NewNode(child)], ix, parent.id, child.id), child, parent);
      && Told(v') == Facts(v.Keys + {child.id}, Told(v).under + {(parent.id, child.id)},
                           Told(v).watches + {(parent.id, child.id)})
      && v'[child.id].pid == Some(child) && v'[child.id].parent == Some(ix[parent.id])
  {
    var u := v[child.id := NewNode(child)];
    AdmitTells(v, child);
    ParentTells(u, ix, parent.id, child.id);
    WatchTells(Parented(u, ix, parent.id, child.id), child, parent);
  }

  /** The end of a watch takes one pair away. */
  lemma UnwatchTells(v: Nodes, watchee: string, watcher: string)
    ensures Told(Unwatched(v, watchee, watcher)) == Told(v).(watches := Told(v).watches - {(watcher, watchee)})
  {
    var v' := Unwatched(v, watchee, watcher);
    SameUnder(v, v');
    forall k, w | k in v' && w in v'[k].watchers ensures w in v[k].watchers && (w, k) != (watcher, watchee) {}
    forall k, w | k in v && w in v[k].watchers && (w, k) != (watcher, watchee) ensures w in v'[k].watchers {}
  }

  /** An unlisted child takes one pair away. */
  lemma UnlistTells(v: Nodes, parent: string, child: string)
    ensures Told(Unlisting(v, parent, child)) == Told(v).(under := Told(v).under - {(parent, child)})
  {
    var v' := Unlisting(v, parent, child);
    SameWatched(v, v');
    forall k, c | k in v' && c in v'[k].descendants ensures c in v[k].descendants && (k, c) != (parent, child) {}
    forall k, c | k in v && c in v[k].descendants && (k, c) != (parent, child) ensures c in v'[k].descendants {}
  }

  /** The pairs with neither end among the nodes gone. */
  ghost function Clear(pairs: set<(string, string)>, gone: set<string>): set<(string, string)> {
    set p | p in pairs && p.0 !in gone && p.1 !in gone
  }

  /** Nodes that go take their ids, and the pairs they are in, with them; the others keep PID and parent. */
  lemma PruneTells(v: Nodes, gone: set<string>)
    ensures
      var v' := Pruned(v, gone);
      && Told(v') == Facts(v.Keys - gone, Clear(Told(v).under, gone), Clear(Told(v).watches, gone))
      && forall k :: k in v' ==> v'[k].pid == v[k].pid && v'[k].parent == v[k].parent
  {
    PruneUnder(v, gone);
    PruneWatches(v, gone);
  }

  lemma PruneUnder(v: Nodes, gone: set<string>)
    ensures Told(Pruned(v, gone)).under == Clear(Told(v).under, gone)
  {
    var v' := Pruned(v, gone);
    forall k, c | k in v && c in v[k].descendants && k !in gone && c !in gone ensures c in v'[k].descendants {}
    forall k, c | k in v' && c in v'[k].descendants ensures c in v[k].descendants && k !in gone && c !in gone {}
  }

  lemma PruneWatches(v: Nodes, gone: set<string>)
    ensures Told(Pruned(v, gone)).watches == Clear(Told(v).watches, gone)
  {
    var v' := Pruned(v, gone);
    forall k, w | k in v && w in v[k].watchers && k !in gone && w !in gone ensures w in v'[k].watchers {}
    forall k, w | k in v' && w in v'[k].watchers ensures w in v[k].watchers && k !in gone && w !in gone {}
  }
}
