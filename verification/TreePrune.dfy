/** Taking nodes out of the tree, with every edge that leads to them. */
module TreePrune {
  import opened Basics
  import opened Forest
  import opened TreeViews

  /** A map without the given keys. */
  function Keep<V>(m: map<string, V>, gone: set<string>): map<string, V> {
    map x | x in m && x !in gone :: m[x]
  }

  /** A node without its edges to the nodes gone. */
  function Trim(n: PidNode, gone: set<string>): PidNode {
    n.(watchers := Keep(n.watchers, gone), watchees := Keep(n.watchees, gone),
       descendants := Keep(n.descendants, gone))
  }

  function Pruned(v: Nodes, gone: set<string>): Nodes {
    map k | k in v && k !in gone :: Trim(v[k], gone)
  }

  lemma PrunedChildren(v: Nodes, ix: Index, gone: set<string>)
    requires v.Keys == ix.Keys && ChildEdges(v, ix)
    ensures Pruned(v, gone).Keys == Keep(ix, gone).Keys && ChildEdges(Pruned(v, gone), Keep(ix, gone))
    ensures Acyclic(GraphOf(v)) ==> Acyclic(GraphOf(Pruned(v, gone)))
  {
    var v' := Pruned(v, gone);
    assert forall k, c :: k in v' && c in v'[k].descendants ==> c in v[k].descendants;
    if Acyclic(GraphOf(v)) { SubgraphAcyclic(GraphOf(v), GraphOf(v')); }
  }

  lemma PrunedWatches(v: Nodes, gone: set<string>)
    requires WatchEdges(v)
    ensures WatchEdges(Pruned(v, gone))
  {
    var v' := Pruned(v, gone);
    forall k, w | k in v' && w in v'[k].watchers
      ensures w in v' && k in v'[w].watchees && v'[k].watchers[w].id == w
    {
      assert w in v[k].watchers;
    }
    forall k, w | k in v' && w in v'[k].watchees
      ensures w in v' && k in v'[w].watchers && v'[k].watchees[w].id == w
    {
      assert w in v[k].watchees;
    }
  }

  /** One node after the others. */
  lemma PrunedMore(v: Nodes, gone: set<string>, k: string)
    ensures Pruned(Pruned(v, gone), {k}) == Pruned(v, gone + {k})
  {
    forall j | j in v ensures Trim(Trim(v[j], gone), {k}) == Trim(v[j], gone + {k}) {
      KeepMore(v[j].watchers, gone, k);
      KeepMore(v[j].watchees, gone, k);
      KeepMore(v[j].descendants, gone, k);
    }
  }

  lemma PrunedNone(v: Nodes)
    ensures Pruned(v, {}) == v
  {
    forall j | j in v ensures Trim(v[j], {}) == v[j] { }
  }

  lemma KeepMore<V>(m: map<string, V>, gone: set<string>, k: string)
    ensures Keep(Keep(m, gone), {k}) == Keep(m, gone + {k})
  {
  }

  // ---- the stages of taking one node out -----------------------------------------------

  /** All of the given nodes changed. */
  function EditedAll(v: Nodes, keys: set<string>, f: PidNode -> PidNode): Nodes {
    map k | k in v :: if k in keys then f(v[k]) else v[k]
  }

  lemma EditNone(v: Nodes, f: PidNode -> PidNode)
    ensures EditedAll(v, {}, f) == v
  {
  }

  lemma EditOneMore(v: Nodes, keys: set<string>, f: PidNode -> PidNode, k: string)
    requires k !in keys
    ensures Edited(EditedAll(v, keys, f), k, f) == EditedAll(v, keys + {k}, f)
  {
  }

  /** The node's watchers forget it, it forgets them; the same for those it watches. */
  function Released(v: Nodes, k: string): (v': Nodes)
    requires k in v
    ensures v'.Keys == v.Keys
  {
    var v1 := EditedAll(v, v[k].watchers.Keys, n => DropWatchee(n, k));
    var v2 := v1[k := v1[k].(watchers := map[])];
    var v3 := EditedAll(v2, v2[k].watchees.Keys, n => DropWatcher(n, k));
    v3[k := v3[k].(watchees := map[])]
  }

  lemma ReleasedParent(v: Nodes, k: string)
    requires k in v
    ensures Released(v, k)[k].parent == v[k].parent
  {
  }

  /** The node itself ends up without watches, and dropping it from its parent changes nothing about that. */
  lemma ReleasedSelf(v: Nodes, k: string)
    requires k in v
    ensures
      var n := Released(v, k)[k];
      && n.watchers.Keys == {} && n.watchees.Keys == {}
      && DropWatchee(DropChild(n, k), k).watchers.Keys == {} && DropWatchee(DropChild(n, k), k).watchees.Keys == {}
  {
  }

  lemma WithoutAbsent<V>(m: map<string, V>, k: string)
    ensures k !in m ==> Without(m, k) == m
    ensures Keep(m, {k}) == Without(m, k) == Without(Without(m, k), k)
  {
  }

  /** What happens to another node on the way. */
  lemma ReleasedStages(v: Nodes, k: string, j: string)
    requires k in v && j in v && j != k
    ensures
      var n := if j in v[k].watchers then DropWatchee(v[j], k) else v[j];
      Released(v, k)[j] == if j in v[k].watchees then DropWatcher(n, k) else n
  {
    var v1 := EditedAll(v, v[k].watchers.Keys, n => DropWatchee(n, k));
    assert j in v1[k].watchees <==> j in v[k].watchees;
  }

  /** After that nobody's watches mention the node. */
  lemma ReleasedNode(v: Nodes, k: string, j: string)
    requires WatchEdges(v) && k in v && j in v && j != k
    ensures Released(v, k)[j] == v[j].(watchers := Without(v[j].watchers, k), watchees := Without(v[j].watchees, k))
  {
    ReleasedStages(v, k, j);
    WithoutAbsent(v[j].watchees, k);
    WithoutAbsent(v[j].watchers, k);
    assert k in v[j].watchees <==> j in v[k].watchers;
    assert k in v[j].watchers <==> j in v[k].watchees;
  }

  /** Dropped from its parent's children, the node is gone from every edge. */
  lemma DroppedNode(v: Nodes, ix: Index, k: string, j: string)
    requires v.Keys == ix.Keys && ChildEdges(v, ix) && WatchEdges(v) && k in v && j in v && j != k
    ensures
      var n := Released(v, k)[j];
      (if v[k].parent == Some(ix[j]) then DropWatchee(DropChild(n, k), k) else n) == Trim(v[j], {k})
  {
    ReleasedNode(v, k, j);
    WithoutAbsent(v[j].watchers, k);
    WithoutAbsent(v[j].watchees, k);
    WithoutAbsent(v[j].descendants, k);
    assert k in v[j].descendants ==> v[k].parent == Some(ix[j]);
  }

  /** Everything but the node itself, once its parent has dropped it. */
  lemma DroppedAll(v: Nodes, ix: Index, k: string, u: Nodes, v': Nodes)
    requires v.Keys == ix.Keys == v'.Keys && ChildEdges(v, ix) && WatchEdges(v) && k in v && u == Released(v, k)
    requires forall j :: j in v ==>
               v'[j] == if u[k].parent == Some(ix[j]) then DropWatchee(DropChild(u[j], k), k) else u[j]
    ensures Without(v', k) == Pruned(v, {k}) && v'[k].watchers.Keys == {} && v'[k].watchees.Keys == {}
  {
    ReleasedSelf(v, k);
    forall j | j in v && j != k ensures v'[j] == Trim(v[j], {k}) {
      ReleasedParent(v, k);
      DroppedNode(v, ix, k, j);
    }
    PrunedAs(v, k, v');
  }

  lemma PrunedAs(v: Nodes, k: string, v': Nodes)
    requires v'.Keys == v.Keys && forall j :: j in v && j != k ==> v'[j] == Trim(v[j], {k})
    ensures Without(v', k) == Pruned(v, {k})
  {
  }

  /** One node less keeps the view consistent. */
  lemma PrunedOk(v: Nodes, ix: Index, k: string)
    requires v.Keys == ix.Keys && ChildEdges(v, ix) && WatchEdges(v)
    ensures Keep(ix, {k}) == Without(ix, k) && Pruned(v, {k}).Keys == Without(ix, k).Keys
    ensures ChildEdges(Pruned(v, {k}), Without(ix, k)) && WatchEdges(Pruned(v, {k}))
    ensures Acyclic(GraphOf(v)) ==> Acyclic(GraphOf(Pruned(v, {k})))
  {
    WithoutAbsent(ix, k);
    PrunedChildren(v, ix, {k});
    PrunedWatches(v, {k});
  }

  // ---- leaving the indexes -------------------------------------------------------------

  /** The names that lead to other nodes. */
  function NamesWithout(names: Index, r: Ref): Index {
    map x | x in names && names[x] != r :: names[x]
  }

  /** Only its own name can lead to a node. */
  lemma OneName(names: Index, h: Store, ix: Index, r: Ref)
    requires NamesOk(names, h, ix) && r in h
    ensures NamesWithout(names, r) ==
            if h[r].name in names && names[h[r].name] == r then Without(names, h[r].name) else names
  {
    forall x | x in names && names[x] == r ensures x == h[r].name { assert NameOk(names, h, ix, x); }
  }

  /** A node that is neither registered nor live any more. */
  function Dead(n: PidNode): PidNode {
    n.(pid := None, parent := None)
  }

  lemma LeaveBase(h: Store, ix: Index, names: Index, free: Ref, k: string)
    requires Base(h, ix, names, free) && k in ix
    ensures
      var r := ix[k];
      Base(h[r := Dead(h[r])], Without(ix, k), NamesWithout(names, r), free)
  {
    var r := ix[k];
    var h', ix', names' := h[r := Dead(h[r])], Without(ix, k), NamesWithout(names, r);
    forall q | q in h' ensures NodeOk(h', ix', q) && RefOk(h', free, q) {
      assert NodeOk(h, ix, q) && RefOk(h, free, q);
    }
    forall x | x in names' ensures NameOk(names', h', ix', x) { assert NameOk(names, h, ix, x); }
  }

  lemma LeaveView(h: Store, ix: Index, k: string)
    requires IndexOk(h, ix) && k in ix
    ensures
      var r := ix[k];
      View(h[r := Dead(h[r])], Without(ix, k)) == Without(View(h, ix), k) && |Without(ix, k)| == |ix| - 1
  {
    assert Without(ix, k).Keys == ix.Keys - {k};
  }

  /** The names that lead to nodes other than these. */
  function NamesKeep(names: Index, gone: set<Ref>): Index {
    map x | x in names && names[x] !in gone :: names[x]
  }

  lemma NamesMore(names: Index, gone: set<Ref>, r: Ref)
    ensures NamesWithout(NamesKeep(names, gone), r) == NamesKeep(names, gone + {r})
  {
  }

  lemma KeepSize<V>(m: map<string, V>, gone: set<string>)
    requires gone <= m.Keys
    ensures |Keep(m, gone)| == |m| - |gone|
  {
    assert Keep(m, gone).Keys == m.Keys - gone;
  }
}
