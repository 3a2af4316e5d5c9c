/**
 * The actor tree: an index by id, an index by name, child edges and a symmetric watch relation.
 * Nodes live in a store under their references, so that two names for one node, and a parent
 * that is remembered after it died, are visible.
 */
module TreeViews {
  import opened Basics
  import opened Forest

  datatype Pid = Pid(id: string, name: string)

  datatype Fault = NilPid | NilParent | NoSenderPid | Exists | NoParent | Missing

  datatype Status = Done | Failed(fault: Fault)

  type Ref = nat

  datatype PidNode = PidNode(
    pid: Option<Pid>,
    parent: Option<Ref>,
    id: string,
    name: string,
    watchers: map<string, Pid>,
    watchees: map<string, Pid>,
    descendants: Index)

  function FoldChar(c: char): char {
    if 'A' <= c <= 'Z' then c - 'A' + 'a' else c
  }

  /** PIDs are compared by id, ignoring case. */
  predicate Same(a: Pid, b: Pid) {
    |a.id| == |b.id| && forall i :: 0 <= i < |a.id| ==> FoldChar(a.id[i]) == FoldChar(b.id[i])
  }

  // ---- what every operation keeps ------------------------------------------------------

  /** The registered nodes by id. */
  type Nodes = map<string, PidNode>

  /** A child is registered and knows the node it is listed under. */
  ghost predicate ChildEdges(v: Nodes, ix: Index)
    requires v.Keys == ix.Keys
  {
    forall k, c {:trigger c in v[k].descendants} :: k in v && c in v[k].descendants ==>
      c in v && v[k].descendants[c] == ix[c] && v[c].parent == Some(ix[k])
  }

  /** Watchers and watchees are inverse to each other, both ends registered. */
  ghost predicate WatchEdges(v: Nodes) {
    WatchersOk(v) && WatcheesOk(v)
  }

  ghost predicate WatchersOk(v: Nodes) {
    forall k, w {:trigger w in v[k].watchers} :: k in v && w in v[k].watchers ==>
      w in v && k in v[w].watchees && v[k].watchers[w].id == w
  }

  ghost predicate WatcheesOk(v: Nodes) {
    forall k, w {:trigger w in v[k].watchees} :: k in v && w in v[k].watchees ==>
      w in v && k in v[w].watchers && v[k].watchees[w].id == w
  }

  /** The child edges by id. */
  ghost function GraphOf(v: Nodes): (g: Graph)
    ensures g.Keys == v.Keys
  {
    map k | k in v :: v[k].descendants.Keys
  }

  lemma GraphShape(v: Nodes, ix: Index)
    requires v.Keys == ix.Keys && ChildEdges(v, ix)
    requires forall j, k {:trigger ix[j], ix[k]} :: j in ix && k in ix && ix[j] == ix[k] ==> j == k
    ensures Closed(GraphOf(v)) && SingleParent(GraphOf(v))
  {
    var g := GraphOf(v);
    forall a, b, c | a in g && b in g && c in g[a] && c in g[b] ensures a == b {
      assert c in v[a].descendants && c in v[b].descendants;
    }
  }

  // ---- the store and its indexes -------------------------------------------------------

  type Store = map<Ref, PidNode>

  type Index = map<string, Ref>

  /** The node of a reference is the one registered under its id. */
  predicate Registered(h: Store, ix: Index, r: Ref)
    requires r in h
  {
    h[r].id in ix && ix[h[r].id] == r
  }

  /** A node is live exactly while it is registered. */
  ghost predicate NodeOk(h: Store, ix: Index, r: Ref)
    requires r in h
  {
    h[r].pid == if Registered(h, ix, r) then Some(Pid(h[r].id, h[r].name)) else None
  }

  /** The index leads to nodes of that id, and every node is as live as it is registered. */
  ghost predicate IndexOk(h: Store, ix: Index) {
    && (forall k :: k in ix ==> ix[k] in h && h[ix[k]].id == k)
    && (forall r {:trigger NodeOk(h, ix, r)} :: r in h ==> NodeOk(h, ix, r))
  }

  /** A name leads to a registered node of that name. */
  ghost predicate NameOk(names: Index, h: Store, ix: Index, x: string)
    requires x in names
  {
    names[x] in h && Registered(h, ix, names[x]) && h[names[x]].name == x
  }

  ghost predicate NamesOk(names: Index, h: Store, ix: Index) {
    forall x {:trigger NameOk(names, h, ix, x)} :: x in names ==> NameOk(names, h, ix, x)
  }

  /** A reference is below the free ones, and its recorded parent exists. */
  ghost predicate RefOk(h: Store, free: Ref, r: Ref)
    requires r in h
  {
    r < free && (h[r].parent.Some? ==> h[r].parent.value in h)
  }

  ghost predicate RefsOk(h: Store, free: Ref) {
    forall r {:trigger RefOk(h, free, r)} :: r in h ==> RefOk(h, free, r)
  }

  ghost predicate Base(h: Store, ix: Index, names: Index, free: Ref) {
    IndexOk(h, ix) && NamesOk(names, h, ix) && RefsOk(h, free)
  }

  ghost function View(h: Store, ix: Index): (v: Nodes)
    requires forall k :: k in ix ==> ix[k] in h
    ensures v.Keys == ix.Keys
  {
    map k | k in ix :: h[ix[k]]
  }

  ghost predicate IdKept(h: Store, h': Store, r: Ref)
    requires r in h
  {
    r in h' && h'[r].id == h[r].id && (h[r].pid.None? ==> StaysDead(h[r], h'[r]))
  }

  /** A dead node stays dead, and gets neither a parent nor watches. */
  predicate StaysDead(n: PidNode, n': PidNode) {
    && n'.pid.None? && n'.parent == n.parent
    && n'.watchers.Keys <= n.watchers.Keys && n'.watchees.Keys <= n.watchees.Keys
  }

  /** Every node keeps its reference and its id, and a dead one stays dead. */
  ghost predicate KeepsIds(h: Store, h': Store) {
    forall r {:trigger IdKept(h, h', r)} :: r in h ==> IdKept(h, h', r)
  }

  lemma KeepsIdsSame(h: Store)
    ensures KeepsIds(h, h)
  {
  }

  lemma KeepsIdsOn(h: Store, h': Store, h'': Store)
    requires KeepsIds(h, h') && KeepsIds(h', h'')
    ensures KeepsIds(h, h'')
  {
    forall r | r in h ensures IdKept(h, h'', r) { assert IdKept(h, h', r) && IdKept(h', h'', r); }
  }

  lemma PutIds(h: Store, r: Ref, n: PidNode)
    requires r in h ==> n.id == h[r].id && (h[r].pid.None? ==> StaysDead(h[r], n))
    ensures KeepsIds(h, h[r := n])
  {
  }

  /** New edges for a node. */
  lemma PutBase(h: Store, ix: Index, names: Index, free: Ref, r: Ref, n: PidNode)
    requires Base(h, ix, names, free) && r in h && (n.parent.Some? && n.parent != h[r].parent ==> n.parent.value in h)
    requires n.pid == h[r].pid && n.id == h[r].id && n.name == h[r].name
    ensures Base(h[r := n], ix, names, free)
  {
    var h' := h[r := n];
    forall q | q in h' ensures NodeOk(h', ix, q) && RefOk(h', free, q) { assert NodeOk(h, ix, q) && RefOk(h, free, q); }
    forall x | x in names ensures NameOk(names, h', ix, x) { assert NameOk(names, h, ix, x); }
  }

  lemma PutView(h: Store, ix: Index, k: string, n: PidNode)
    requires IndexOk(h, ix) && k in ix
    ensures View(h[ix[k] := n], ix) == View(h, ix)[k := n]
  {
  }

  // ---- a new node ----------------------------------------------------------------------

  function NewNode(pid: Pid): PidNode {
    PidNode(Some(pid), None, pid.id, pid.name, map[], map[], map[])
  }

  /** A node without a PID and without edges. */
  function Cleared(): PidNode {
    PidNode(None, None, "", "", map[], map[], map[])
  }

  lemma AdmitBase(h: Store, ix: Index, names: Index, free: Ref, r: Ref, pid: Pid)
    requires Base(h, ix, names, free) && pid.id !in ix && r <= free && (r in h ==> h[r].pid.None?)
    ensures Base(h[r := NewNode(pid)], ix[pid.id := r], names[pid.name := r], if r == free then free + 1 else free)
  {
    var h', ix', names' := h[r := NewNode(pid)], ix[pid.id := r], names[pid.name := r];
    var free' := if r == free then free + 1 else free;
    forall q | q in h' ensures NodeOk(h', ix', q) && RefOk(h', free', q) {
      if q != r { assert NodeOk(h, ix, q) && RefOk(h, free, q); }
    }
    forall k | k in ix ensures ix[k] != r { assert NodeOk(h, ix, ix[k]); }
    forall x | x in names' ensures NameOk(names', h', ix', x) {
      if x != pid.name {
        assert NameOk(names, h, ix, x);
        assert NodeOk(h, ix, names[x]);
      }
    }
  }

  lemma AdmitView(h: Store, ix: Index, r: Ref, pid: Pid)
    requires IndexOk(h, ix) && pid.id !in ix && (r in h ==> h[r].pid.None?)
    ensures View(h[r := NewNode(pid)], ix[pid.id := r]) == View(h, ix)[pid.id := NewNode(pid)]
  {
    forall k | k in ix ensures ix[k] != r { assert NodeOk(h, ix, ix[k]); }
  }

  lemma AdmitSize(ix: Index, k: string, r: Ref)
    requires k !in ix
    ensures |ix[k := r]| == |ix| + 1
  {
    assert ix[k := r].Keys == ix.Keys + {k};
  }

  lemma AdmitEdges(v: Nodes, ix: Index, pid: Pid, r: Ref)
    requires v.Keys == ix.Keys && ChildEdges(v, ix) && WatchEdges(v) && pid.id !in v
    ensures ChildEdges(v[pid.id := NewNode(pid)], ix[pid.id := r]) && WatchEdges(v[pid.id := NewNode(pid)])
  {
  }

  /** One more unconnected node closes no cycle. */
  lemma AdmitGraph(v: Nodes, ix: Index, pid: Pid)
    requires v.Keys == ix.Keys && ChildEdges(v, ix) && pid.id !in v
    ensures GraphOf(v[pid.id := NewNode(pid)]) == GraphOf(v)[pid.id := {}]
    ensures Acyclic(GraphOf(v)) ==> Acyclic(GraphOf(v)[pid.id := {}])
  {
    assert NewNode(pid).descendants.Keys == {};
    if Acyclic(GraphOf(v)) {
      assert Closed(GraphOf(v));
      IsolatedAcyclic(GraphOf(v), pid.id);
    }
  }

  // ---- adding a watch ------------------------------------------------------------------

  /** The watcher entered at the watchee, then the watchee at the watcher. */
  function Watched(v: Nodes, watchee: Pid, watcher: Pid): (v': Nodes)
    requires watchee.id in v && watcher.id in v
    ensures v'.Keys == v.Keys && forall k :: k in v ==> v'[k] == WatchedNode(v[k], k, watchee, watcher)
  {
    var n := v[watchee.id];
    var u := v[watchee.id := n.(watchers := n.watchers[watcher.id := watcher])];
    var m := u[watcher.id];
    u[watcher.id := m.(watchees := m.watchees[watchee.id := watchee])]
  }

  function WatchedNode(n: PidNode, k: string, watchee: Pid, watcher: Pid): PidNode {
    n.(watchers := if k == watchee.id then n.watchers[watcher.id := watcher] else n.watchers,
       watchees := if k == watcher.id then n.watchees[watchee.id := watchee] else n.watchees)
  }

  lemma WatchKeeps(v: Nodes, watchee: Pid, watcher: Pid)
    requires WatchEdges(v) && watchee.id in v && watcher.id in v
    ensures WatchEdges(Watched(v, watchee, watcher))
  {
    var v' := Watched(v, watchee, watcher);
    forall k, w | k in v' && w in v'[k].watchers
      ensures w in v' && k in v'[w].watchees && v'[k].watchers[w].id == w
    {
      if k != watchee.id || w != watcher.id { assert w in v[k].watchers; }
    }
    forall k, w | k in v' && w in v'[k].watchees
      ensures w in v' && k in v'[w].watchers && v'[k].watchees[w].id == w
    {
      if k != watcher.id || w != watchee.id { assert w in v[k].watchees; }
    }
  }

  // ---- adding a child edge -------------------------------------------------------------

  /** The parent recorded at the child, then the child listed at the parent. */
  function Parented(v: Nodes, ix: Index, parent: string, child: string): (v': Nodes)
    requires v.Keys == ix.Keys && parent in v && child in v
    ensures v'.Keys == v.Keys && forall k :: k in v ==> v'[k] == ParentedNode(v[k], k, ix, parent, child)
  {
    var u := v[child := v[child].(parent := Some(ix[parent]))];
    var m := u[parent];
    u[parent := m.(descendants := m.descendants[child := ix[child]])]
  }

  function ParentedNode(n: PidNode, k: string, ix: Index, parent: string, child: string): PidNode
    requires parent in ix && child in ix
  {
    n.(parent := if k == child then Some(ix[parent]) else n.parent,
       descendants := if k == parent then n.descendants[child := ix[child]] else n.descendants)
  }

  /** No node other than this parent lists the child. */
  ghost predicate OnlyUnder(v: Nodes, parent: string, child: string) {
    forall k :: k in v && child in v[k].descendants ==> k == parent
  }

  lemma ParentedKeeps(v: Nodes, ix: Index, parent: string, child: string)
    requires v.Keys == ix.Keys && ChildEdges(v, ix) && parent in v && child in v && OnlyUnder(v, parent, child)
    ensures ChildEdges(Parented(v, ix, parent, child), ix)
  {
    var v' := Parented(v, ix, parent, child);
    forall k, c | k in v' && c in v'[k].descendants
      ensures c in v' && v'[k].descendants[c] == ix[c] && v'[c].parent == Some(ix[k])
    {
      if k != parent || c != child { assert c in v[k].descendants; }
    }
  }

  /** A child still listed by another node ends up with two parents that disagree. */
  lemma ParentedBreaks(v: Nodes, ix: Index, parent: string, child: string, k: string)
    requires v.Keys == ix.Keys && parent in v && child in v && k in v && child in v[k].descendants
    requires ix[k] != ix[parent]
    ensures !ChildEdges(Parented(v, ix, parent, child), ix)
  {
    assert child in Parented(v, ix, parent, child)[k].descendants;
  }

  lemma ParentedGraph(v: Nodes, ix: Index, parent: string, child: string)
    requires v.Keys == ix.Keys && parent in v && child in v
    ensures GraphOf(Parented(v, ix, parent, child)) == GraphOf(v)[parent := GraphOf(v)[parent] + {child}]
  {
    forall k | k in v
      ensures ParentedNode(v[k], k, ix, parent, child).descendants.Keys ==
              if k == parent then v[k].descendants.Keys + {child} else v[k].descendants.Keys
    {
    }
  }

  /** Child edges and watches do not touch each other. */
  lemma SameWatches(v: Nodes, v': Nodes)
    requires v.Keys == v'.Keys && WatchEdges(v)
    requires forall k :: k in v ==> v'[k].watchers == v[k].watchers && v'[k].watchees == v[k].watchees
    ensures WatchEdges(v')
  {
  }

  lemma SameChildren(v: Nodes, v': Nodes, ix: Index)
    requires v.Keys == v'.Keys == ix.Keys
    requires forall k :: k in v ==> v'[k].descendants == v[k].descendants && v'[k].parent == v[k].parent
    ensures ChildEdges(v, ix) ==> ChildEdges(v', ix)
    ensures GraphOf(v') == GraphOf(v)
  {
  }

  /** The four writes of a link are a child edge and a watch. */
  lemma LinkView(v: Nodes, ix: Index, parent: Pid, child: Pid)
    requires v.Keys == ix.Keys && parent.id in v && child.id in v
    ensures
      var n := v[child.id].(parent := Some(ix[parent.id]), watchers := v[child.id].watchers[parent.id := parent]);
      var u := v[child.id := n];
      var m := u[parent.id].(descendants := u[parent.id].descendants[child.id := ix[child.id]],
                             watchees := u[parent.id].watchees[child.id := child]);
      u[parent.id := m] == Watched(Parented(v, ix, parent.id, child.id), child, parent)
  {
  }

  /** A child edge and a watch keep the view consistent exactly if no other node lists the child. */
  lemma LinkEdges(v: Nodes, ix: Index, parent: Pid, child: Pid)
    requires v.Keys == ix.Keys && ChildEdges(v, ix) && WatchEdges(v) && parent.id in v && child.id in v
    requires forall k :: k in ix && k != parent.id ==> ix[k] != ix[parent.id]
    ensures
      var v' := Watched(Parented(v, ix, parent.id, child.id), child, parent);
      WatchEdges(v') && (ChildEdges(v', ix) <==> OnlyUnder(v, parent.id, child.id))
  {
    var u := Parented(v, ix, parent.id, child.id);
    var v' := Watched(u, child, parent);
    SameWatches(v, u);
    WatchKeeps(u, child, parent);
    SameChildren(u, v', ix);
    if OnlyUnder(v, parent.id, child.id) {
      ParentedKeeps(v, ix, parent.id, child.id);
    } else {
      var k :| k in v && child.id in v[k].descendants && k != parent.id;
      ParentedBreaks(v, ix, parent.id, child.id, k);
      if ChildEdges(v', ix) { SameChildren(v', u, ix); }
    }
  }

  /** A link adds one child edge, which closes a cycle exactly if the parent is below the child. */
  lemma LinkGraph(v: Nodes, ix: Index, parent: Pid, child: Pid)
    requires v.Keys == ix.Keys && ChildEdges(v, ix) && parent.id in v && child.id in v
    ensures
      var g' := GraphOf(Watched(Parented(v, ix, parent.id, child.id), child, parent));
      && g' == GraphOf(v)[parent.id := GraphOf(v)[parent.id] + {child.id}]
      && (Acyclic(GraphOf(v)) ==> (Acyclic(g') <==> !Reach(GraphOf(v), child.id, parent.id)))
  {
    var u := Parented(v, ix, parent.id, child.id);
    SameChildren(u, Watched(u, child, parent), ix);
    ParentedGraph(v, ix, parent.id, child.id);
    assert Closed(GraphOf(v));
    if Acyclic(GraphOf(v)) { EdgeAcyclic(GraphOf(v), parent.id, child.id); }
  }

  // ---- removing edges ------------------------------------------------------------------

  function DropWatcher(n: PidNode, w: string): PidNode {
    n.(watchers := Without(n.watchers, w))
  }

  function DropWatchee(n: PidNode, e: string): PidNode {
    n.(watchees := Without(n.watchees, e))
  }

  function DropChild(n: PidNode, c: string): PidNode {
    n.(descendants := Without(n.descendants, c))
  }

  /** The change leaves everything but the edges alone. */
  ghost predicate EdgesOnly(f: PidNode -> PidNode) {
    forall n {:trigger f(n)} :: f(n).pid == n.pid && f(n).id == n.id && f(n).name == n.name && f(n).parent == n.parent
  }

  /** Node k after the given change if it is registered. */
  function Edited(v: Nodes, k: string, f: PidNode -> PidNode): (v': Nodes)
    ensures v'.Keys == v.Keys && forall j :: j in v ==> v'[j] == if j == k then f(v[j]) else v[j]
  {
    if k in v then v[k := f(v[k])] else v
  }

  /** Neither end of a watch mentions the other any more. */
  function Unwatched(v: Nodes, watchee: string, watcher: string): (v': Nodes)
    ensures v'.Keys == v.Keys && forall k :: k in v ==> v'[k] == UnwatchedNode(v[k], k, watchee, watcher)
  {
    Edited(Edited(v, watcher, n => DropWatchee(n, watchee)), watchee, n => DropWatcher(n, watcher))
  }

  function UnwatchedNode(n: PidNode, k: string, watchee: string, watcher: string): PidNode {
    n.(watchers := if k == watchee then Without(n.watchers, watcher) else n.watchers,
       watchees := if k == watcher then Without(n.watchees, watchee) else n.watchees)
  }

  lemma UnwatchKeeps(v: Nodes, v': Nodes, watchee: string, watcher: string)
    requires WatchEdges(v) && v'.Keys == v.Keys
    requires forall k :: k in v ==> v'[k] == UnwatchedNode(v[k], k, watchee, watcher)
    ensures WatchEdges(v')
  {
    UnwatchBack(v, v', watchee, watcher);
    UnwatchForth(v, v', watchee, watcher);
  }

  lemma UnwatchBack(v: Nodes, v': Nodes, watchee: string, watcher: string)
    requires WatchersOk(v) && v'.Keys == v.Keys
    requires forall k :: k in v ==> v'[k] == UnwatchedNode(v[k], k, watchee, watcher)
    ensures WatchersOk(v')
  {
    forall k, w | k in v' && w in v'[k].watchers
      ensures w in v' && k in v'[w].watchees && v'[k].watchers[w].id == w
    {
      assert w in v[k].watchers;
    }
  }

  lemma UnwatchForth(v: Nodes, v': Nodes, watchee: string, watcher: string)
    requires WatcheesOk(v) && v'.Keys == v.Keys
    requires forall k :: k in v ==> v'[k] == UnwatchedNode(v[k], k, watchee, watcher)
    ensures WatcheesOk(v')
  {
    forall k, w | k in v' && w in v'[k].watchees
      ensures w in v' && k in v'[w].watchers && v'[k].watchees[w].id == w
    {
      assert w in v[k].watchees;
    }
  }

  /** Ending a watch changes nothing else. */
  lemma UnwatchAll(v: Nodes, ix: Index, watchee: string, watcher: string)
    requires v.Keys == ix.Keys && WatchEdges(v) && ChildEdges(v, ix)
    ensures
      var v' := Unwatched(v, watchee, watcher);
      WatchEdges(v') && ChildEdges(v', ix) && GraphOf(v') == GraphOf(v)
  {
    var v' := Unwatched(v, watchee, watcher);
    UnwatchKeeps(v, v', watchee, watcher);
    SameChildren(v, v', ix);
  }

  /** The parent no longer lists the child; the child still remembers the parent. */
  function Unlisting(v: Nodes, parent: string, child: string): (v': Nodes) {
    Edited(v, parent, n => DropChild(n, child))
  }

  lemma UnlistKeeps(v: Nodes, ix: Index, parent: string, child: string)
    requires v.Keys == ix.Keys && ChildEdges(v, ix)
    ensures ChildEdges(Unlisting(v, parent, child), ix)
    ensures Acyclic(GraphOf(v)) ==> Acyclic(GraphOf(Unlisting(v, parent, child)))
  {
    var v' := Unlisting(v, parent, child);
    assert forall k, c :: k in v' && c in v'[k].descendants ==> c in v[k].descendants;
    if Acyclic(GraphOf(v)) { SubgraphAcyclic(GraphOf(v), GraphOf(v')); }
  }

  // ---- the tree ------------------------------------------------------------------------

  /** All that the tree's lock protects; free is the next unused reference. */
  datatype Registry = Registry(
    nodes: Store,
    free: Ref,
    rootNode: Ref,
    pids: Index,
    names: Index,
    counter: int)

  ghost predicate Based(s: Registry) {
    Base(s.nodes, s.pids, s.names, s.free) && s.rootNode in s.nodes && s.counter == |s.pids|
  }

  /** Only edges differ. */
  ghost predicate SameIndexes(s: Registry, s': Registry) {
    s'.pids == s.pids && s'.names == s.names && s'.rootNode == s.rootNode && KeepsIds(s.nodes, s'.nodes)
  }

  /** The node registered under k remembers a parent of this id, dead or alive. */
  ghost predicate Remembers(s: Registry, k: string, id: string) {
    && k in s.pids && s.pids[k] in s.nodes && s.nodes[s.pids[k]].parent.Some?
    && var p := s.nodes[s.pids[k]].parent.value; p in s.nodes && s.nodes[p].id == id
  }

  /** A recorded parent stays if the node's record and the ids stay. */
  lemma StillRemembers(s: Registry, s': Registry, k: string, id: string)
    requires Remembers(s, k, id) && KeepsIds(s.nodes, s'.nodes) && k in s'.pids && s'.pids[k] in s'.nodes
    requires s'.nodes[s'.pids[k]].parent == s.nodes[s.pids[k]].parent
    ensures Remembers(s', k, id)
  {
    assert IdKept(s.nodes, s'.nodes, s.nodes[s.pids[k]].parent.value);
  }

  ghost function Seen(s: Registry): (v: Nodes)
    requires IndexOk(s.nodes, s.pids)
    ensures v.Keys == s.pids.Keys
  {
    View(s.nodes, s.pids)
  }

  ghost predicate Ok(s: Registry) {
    Based(s) && ChildEdges(Seen(s), s.pids) && WatchEdges(Seen(s))
  }

  ghost function Children(s: Registry): (g: Graph)
    requires IndexOk(s.nodes, s.pids)
  {
    GraphOf(Seen(s))
  }

  ghost predicate NoCycle(s: Registry) {
    IndexOk(s.nodes, s.pids) && Acyclic(Children(s))
  }

  /** Node b is in the subtree of node a. */
  ghost predicate Below(s: Registry, a: string, b: string) {
    IndexOk(s.nodes, s.pids) && Reach(Children(s), a, b)
  }

  /** No node but the parent lists the child. */
  ghost predicate OnlyChildOf(s: Registry, parent: string, child: string) {
    IndexOk(s.nodes, s.pids) && OnlyUnder(Seen(s), parent, child)
  }

  /** Children are registered and have one parent. */
  lemma Shape(s: Registry)
    requires Ok(s)
    ensures Closed(Children(s)) && SingleParent(Children(s))
  {
    assert forall k :: k in s.pids ==> s.nodes[s.pids[k]].id == k;
    GraphShape(Seen(s), s.pids);
  }

  /** The registered nodes after a link. */
  ghost function LinkedView(s: Registry, parent: Pid, child: Pid): (v: Nodes)
    requires IndexOk(s.nodes, s.pids) && parent.id in s.pids && child.id in s.pids
    ensures v.Keys == s.pids.Keys
  {
    Watched(Parented(Seen(s), s.pids, parent.id, child.id), child, parent)
  }

  /** Nobody lists an id that is not registered. */
  lemma NotListed(s: Registry, id: string)
    requires Ok(s) && id !in s.pids
    ensures forall k :: k in Seen(s) ==> id !in Seen(s)[k].descendants
  {
  }

  /** What a link does to a consistent tree. */
  lemma LinkReady(s: Registry, parent: Pid, child: Pid)
    requires Ok(s) && parent.id in s.pids && child.id in s.pids
    ensures
      var v, v' := Seen(s), LinkedView(s, parent, child);
      && WatchEdges(v') && (ChildEdges(v', s.pids) <==> OnlyUnder(v, parent.id, child.id))
      && GraphOf(v') == GraphOf(v)[parent.id := GraphOf(v)[parent.id] + {child.id}]
      && (Acyclic(GraphOf(v)) ==> (Acyclic(GraphOf(v')) <==> !Reach(GraphOf(v), child.id, parent.id)))
  {
    assert forall k :: k in s.pids ==> s.nodes[s.pids[k]].id == k;
    LinkEdges(Seen(s), s.pids, parent, child);
    LinkGraph(Seen(s), s.pids, parent, child);
  }

  lemma NothingBelow(g: Graph, leaf: string, x: string)
    requires leaf in g && g[leaf] == {} && leaf != x
    ensures !Reach(g, leaf, x)
  {
    if Reach(g, leaf, x) { var _ := ReachFirst(g, leaf, x); }
  }
}
