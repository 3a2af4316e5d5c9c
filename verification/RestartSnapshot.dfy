/** The snapshot of an actor's descendants taken before a restart. */
module RestartSnapshot {
  import opened Basics
  import opened Forest
  import opened TreeViews
  import opened TreeWalk
  import opened ActorTree

  /** The restart nodes: the root's children, and the children of every live descendant. */
  datatype Snapshot = Snapshot(rootKids: seq<string>, kids: map<string, seq<string>>)

  predicate SameId(a: string, b: string) {
    Same(Pid(a, ""), Pid(b, ""))
  }

  /** The descendants that are still running or suspended. */
  ghost function Living(t: Tree, root: Pid, alive: set<string>): set<string>
    requires Ok(t.s)
    reads t
  {
    if Same(root, t.noSender) || root.id !in t.s.pids then {}
    else set x | x in Subtree(Children(t.s), root.id) && x != root.id && x in alive
  }

  /** The node that lists c has an id equal to the root's up to case. */
  ghost predicate UnderRoot(g: Graph, root: string, c: string) {
    exists q :: q in g && c in g[q] && SameId(q, root)
  }

  ghost predicate HasParent(g: Graph, c: string) {
    exists q :: q in g && c in g[q]
  }

  /** Where buildRestartSubtree puts the nodes it has looked at. */
  ghost predicate Placed(g: Graph, root: string, living: set<string>, looked: set<string>, s: Snapshot) {
    && s.kids.Keys == living
    && NoDup(s.rootKids) && (forall c :: c in s.rootKids <==> c in looked && UnderRoot(g, root, c))
    && (forall p :: p in living ==> NoDup(s.kids[p]))
    && (forall p, c :: p in living ==>
          (c in s.kids[p] <==> c in looked && p in g && c in g[p] && !SameId(p, root)))
  }

  /** The nodes whose parent can be asked for. */
  ghost function Askable(t: Tree, living: set<string>): set<string> {
    set c | c in living && !SameId(c, t.noSender.id)
  }

  /** Appends c to its parent's list, if the parent has one. */
  function Filed(s: Snapshot, root: string, parent: string, c: string): Snapshot {
    if SameId(parent, root) then s.(rootKids := s.rootKids + [c])
    else if parent in s.kids then s.(kids := s.kids[parent := s.kids[parent] + [c]])
    else s
  }

  lemma FiledKeeps(g: Graph, root: string, living: set<string>, looked: set<string>, s: Snapshot, q: string, c: string)
    requires SingleParent(g) && q in g && c in g[q] && c !in looked && Placed(g, root, living, looked, s)
    ensures Placed(g, root, living, looked + {c}, Filed(s, root, q, c))
  {
    assert UnderRoot(g, root, c) <==> SameId(q, root);
    assert c !in s.rootKids;
    forall p | p in living ensures c !in s.kids[p] { }
  }

  /** A child's parent in the tree is the node that lists it; for the NoSender nobody answers. */
  method AskParent(t: Tree, ghost g: Graph, c: string) returns (p: Option<string>)
    requires Ok(t.s) && g == Children(t.s) && HasParent(g, c)
    ensures ParentIs(t.noSender.id, g, c, p)
  {
    ghost var q :| q in g && c in g[q];
    assert c in Seen(t.s)[q].descendants;
    var parent := t.ParentOf(Some(Pid(c, "")));
    if parent.None? { return None; }
    assert t.s.pids[parent.value.id] == t.s.pids[q];
    return Some(parent.value.id);
  }

  /** A restart node for every descendant that is alive. */
  method LiveNodes(ps: seq<Pid>, alive: set<string>) returns (kids: map<string, seq<string>>)
    ensures forall x :: x in kids <==> x in alive && Named(ps, x)
    ensures forall x :: x in kids ==> kids[x] == []
  {
    kids := map[];
    var i := 0;
    while i < |ps|
      invariant 0 <= i <= |ps| && forall x :: x in kids ==> kids[x] == []
      invariant forall x :: x in kids <==> x in alive && Named(ps[..i], x)
    {
      assert ps[..i + 1] == ps[..i] + [ps[i]];
      forall x ensures Named(ps[..i + 1], x) <==> Named(ps[..i], x) || ps[i].id == x {
        assert ps[..i + 1][i] == ps[i];
        assert forall j :: 0 <= j < i ==> ps[..i + 1][j] == ps[..i][j];
      }
      if ps[i].id in alive { kids := kids[ps[i].id := []]; }
      i := i + 1;
    }
    assert ps[..|ps|] == ps;
  }

  /** The answer about one node. */
  ghost predicate ParentIs(noSender: string, g: Graph, c: string, p: Option<string>) {
    (p.None? <==> SameId(c, noSender)) && (p.Some? ==> p.value in g && c in g[p.value])
  }

  /** The parents of a sequence of nodes. */
  ghost predicate Parents(noSender: string, g: Graph, order: seq<string>, ps: seq<Option<string>>) {
    |ps| == |order| && forall i :: 0 <= i < |ps| ==> ParentIs(noSender, g, order[i], ps[i])
  }

  method AskAll(t: Tree, ghost g: Graph, order: seq<string>) returns (ps: seq<Option<string>>)
    requires Ok(t.s) && g == Children(t.s) && forall i :: 0 <= i < |order| ==> HasParent(g, order[i])
    ensures Parents(t.noSender.id, g, order, ps)
  {
    ps := [];
    while |ps| < |order|
      invariant |ps| <= |order| && forall i :: 0 <= i < |ps| ==> ParentIs(t.noSender.id, g, order[i], ps[i])
    {
      var p := AskParent(t, g, order[|ps|]);
      ps := ps + [p];
    }
  }

  /** The nodes of a prefix whose parent is known. */
  ghost function Looked(order: seq<string>, ps: seq<Option<string>>, n: nat): set<string>
    requires |ps| == |order| && n <= |order|
  {
    set i | 0 <= i < n && ps[i].Some? :: order[i]
  }

  lemma LookedMore(order: seq<string>, ps: seq<Option<string>>, n: nat)
    requires NoDup(order) && |ps| == |order| && n < |order|
    ensures order[n] !in Looked(order, ps, n)
    ensures Looked(order, ps, n + 1) == Looked(order, ps, n) + (if ps[n].None? then {} else {order[n]})
  {
  }

  /** Files every node under its parent. */
  method FileAll(ghost g: Graph, root: Pid, ghost living: set<string>, order: seq<string>, ps: seq<Option<string>>,
                 s: Snapshot) returns (s': Snapshot)
    requires SingleParent(g) && NoDup(order) && Placed(g, root.id, living, {}, s) && |ps| == |order|
    requires forall i :: 0 <= i < |ps| && ps[i].Some? ==> ps[i].value in g && order[i] in g[ps[i].value]
    ensures Placed(g, root.id, living, Looked(order, ps, |order|), s')
  {
    s' := s;
    var i := 0;
    assert Looked(order, ps, 0) == {};
    while i < |order|
      invariant 0 <= i <= |order| && Placed(g, root.id, living, Looked(order, ps, i), s')
    {
      LookedMore(order, ps, i);
      s' := FileNext(g, root, living, Looked(order, ps, i), order[i], ps[i], s');
      i := i + 1;
    }
  }

  method FileNext(ghost g: Graph, root: Pid, ghost living: set<string>, ghost looked: set<string>, c: string,
                  p: Option<string>, s: Snapshot) returns (s': Snapshot)
    requires SingleParent(g) && Placed(g, root.id, living, looked, s) && c !in looked
    requires p.Some? ==> p.value in g && c in g[p.value]
    ensures Placed(g, root.id, living, looked + (if p.None? then {} else {c}), s')
  {
    if p.None? {
      assert looked + {} == looked;
      return s;
    }
    FiledKeeps(g, root.id, living, looked, s, p.value, c);
    return Filed(s, root.id, p.value, c);
  }

  method BuildRestartSubtree(t: Tree, root: Pid, alive: set<string>) returns (s: Snapshot)
    requires Ok(t.s) && NoCycle(t.s)
    ensures
      var living := Living(t, root, alive);
      Placed(Children(t.s), root.id, living, Askable(t, living), s)
  {
    ghost var g, living := Children(t.s), Living(t, root, alive);
    var ds := t.Descendants(Some(root));
    if ds.None? { return Snapshot([], map[]); }
    var kids := LiveNodes(ds.value, alive);
    assert kids.Keys == living;
    LivingHaveParents(t, root, alive);
    s := PlaceAll(t, root, kids);
  }

  lemma LivingHaveParents(t: Tree, root: Pid, alive: set<string>)
    requires Ok(t.s)
    ensures forall c :: c in Living(t, root, alive) ==> HasParent(Children(t.s), c)
  {
    forall c | c in Living(t, root, alive) ensures HasParent(Children(t.s), c) {
      var q := ReachLast(Children(t.s), root.id, c);
    }
  }

  /** Asks for the parents of the restart nodes and files each under its own. */
  method PlaceAll(t: Tree, root: Pid, kids: map<string, seq<string>>) returns (s: Snapshot)
    requires Ok(t.s) && (forall c :: c in kids ==> HasParent(Children(t.s), c) && kids[c] == [])
    ensures Placed(Children(t.s), root.id, kids.Keys, Askable(t, kids.Keys), s)
  {
    ghost var g := Children(t.s);
    var order := Listing(kids.Keys);
    forall i | 0 <= i < |order| ensures HasParent(g, order[i]) { assert order[i] in Set(order); }
    Shape(t.s);
    var ps := AskAll(t, g, order);
    assert forall i :: 0 <= i < |ps| ==> ParentIs(t.noSender.id, g, order[i], ps[i]);
    s := FileAll(g, root, kids.Keys, order, ps, Snapshot([], kids));
    AllLooked(t, g, order, ps);
  }

  lemma AllLooked(t: Tree, g: Graph, order: seq<string>, ps: seq<Option<string>>)
    requires Parents(t.noSender.id, g, order, ps)
    ensures Looked(order, ps, |order|) == Askable(t, Set(order))
  {
    forall c | c in Askable(t, Set(order)) ensures c in Looked(order, ps, |order|) {
      var i :| 0 <= i < |order| && order[i] == c;
      assert ParentIs(t.noSender.id, g, order[i], ps[i]);
    }
    forall i | 0 <= i < |order| && ps[i].Some? ensures order[i] in Askable(t, Set(order)) {
      assert ParentIs(t.noSender.id, g, order[i], ps[i]);
    }
  }

  // ---- what the snapshot is for --------------------------------------------------------

  /** Every list holds exactly the living children of its node. */
  ghost predicate Exact(g: Graph, root: string, living: set<string>, s: Snapshot)
    requires root in g
  {
    && s.kids.Keys == living
    && (forall c :: c in s.rootKids <==> c in living && c in g[root])
    && (forall p, c {:trigger c in s.kids[p]} {:trigger c in g[p]} :: p in living ==>
          (c in s.kids[p] <==> c in living && p in g && c in g[p]))
  }

  /**
   * A living node gets lost or misplaced: it carries the NoSender's id up to case and its
   * parent is in the snapshot, or its parent is another node with the root's id up to case.
   */
  ghost predicate Strays(g: Graph, root: string, noSender: string, living: set<string>, q: string, c: string) {
    && c in living && q in g && c in g[q]
    && if SameId(c, noSender) then q == root || q in living else q != root && SameId(q, root)
  }

  /** The snapshot has the tree's edges exactly if no node strays. */
  lemma SnapshotExact(t: Tree, root: Pid, alive: set<string>, s: Snapshot)
    requires Ok(t.s) && NoCycle(t.s) && root.id in t.s.pids && !Same(root, t.noSender)
    requires var living := Living(t, root, alive); Placed(Children(t.s), root.id, living, Askable(t, living), s)
    ensures
      var g, living := Children(t.s), Living(t, root, alive);
      Exact(g, root.id, living, s) <==> !exists q, c :: Strays(g, root.id, t.noSender.id, living, q, c)
  {
    Shape(t.s);
    ExactIff(Children(t.s), root.id, t.noSender.id, Living(t, root, alive), Askable(t, Living(t, root, alive)), s);
  }

  lemma ExactIff(g: Graph, root: string, noSender: string, living: set<string>, askable: set<string>, s: Snapshot)
    requires SingleParent(g) && root in g && root !in living && Placed(g, root, living, askable, s)
    requires forall c :: c in askable <==> c in living && !SameId(c, noSender)
    ensures Exact(g, root, living, s) <==> !exists q, c :: Strays(g, root, noSender, living, q, c)
  {
    forall q, c | Strays(g, root, noSender, living, q, c) ensures !Exact(g, root, living, s) {
      StrayBreaks(g, root, noSender, living, askable, s, q, c);
    }
    if !exists q, c :: Strays(g, root, noSender, living, q, c) {
      NoStrays(g, root, noSender, living, askable, s);
    }
  }

  lemma StrayBreaks(g: Graph, root: string, noSender: string, living: set<string>, askable: set<string>,
                    s: Snapshot, q: string, c: string)
    requires SingleParent(g) && root in g && root !in living && Placed(g, root, living, askable, s)
    requires forall c :: c in askable <==> c in living && !SameId(c, noSender)
    requires Strays(g, root, noSender, living, q, c)
    ensures !Exact(g, root, living, s)
  {
    if SameId(c, noSender) {
      assert c !in askable && c !in s.rootKids;
      if q in living { assert c !in s.kids[q]; }
    } else {
      assert UnderRoot(g, root, c) && c in s.rootKids && c !in g[root];
    }
  }

  lemma NoStrays(g: Graph, root: string, noSender: string, living: set<string>, askable: set<string>, s: Snapshot)
    requires SingleParent(g) && root in g && root !in living && Placed(g, root, living, askable, s)
    requires forall c :: c in askable <==> c in living && !SameId(c, noSender)
    requires forall q, c :: !Strays(g, root, noSender, living, q, c)
    ensures Exact(g, root, living, s)
  {
    forall c ensures c in s.rootKids <==> c in living && c in g[root] {
      if c in living && c in g[root] {
        assert !Strays(g, root, noSender, living, root, c);
        assert SameId(root, root) && UnderRoot(g, root, c);
      }
      if c in s.rootKids {
        var q :| q in g && c in g[q] && SameId(q, root);
        assert !Strays(g, root, noSender, living, q, c);
      }
    }
    forall p, c | p in living ensures c in s.kids[p] <==> c in living && p in g && c in g[p] {
      assert !Strays(g, root, noSender, living, p, c);
    }
  }

  /** The snapshot as a graph. */
  ghost function Edges(root: string, s: Snapshot): Graph {
    (map p | p in s.kids :: Set(s.kids[p]))[root := Set(s.rootKids)]
  }

  /** A path from the root whose other nodes are all alive. */
  ghost predicate LivePath(g: Graph, root: string, alive: set<string>, p: seq<string>, x: string) {
    PathBetween(g, p, root, x) && forall i :: 0 < i < |p| ==> p[i] in alive
  }

  /**
   * What hangs together in an exact snapshot: a node is reached from the root just if it and
   * all its ancestors below the root are alive.
   */
  lemma SnapshotReach(g: Graph, root: string, living: set<string>, s: Snapshot, x: string)
    requires root in g && root !in living && living <= g.Keys && Exact(g, root, living, s)
    ensures Reach(Edges(root, s), root, x) <==> exists p :: LivePath(g, root, living, p, x)
  {
    var e := Edges(root, s);
    if Reach(e, root, x) {
      var p :| PathBetween(e, p, root, x);
      PathDown(g, root, living, s, p);
      assert LivePath(g, root, living, p, x);
    }
    if p :| LivePath(g, root, living, p, x) {
      PathUp(g, root, living, s, p);
      assert PathBetween(e, p, root, x);
    }
  }

  lemma {:induction false} PathDown(g: Graph, root: string, living: set<string>, s: Snapshot, p: seq<string>)
    requires root in g && living <= g.Keys && Exact(g, root, living, s) && Path(Edges(root, s), p) && p[0] == root
    ensures Path(g, p) && forall i :: 0 < i < |p| ==> p[i] in living
  {
    if |p| > 1 {
      var n := |p| - 1;
      PathDown(g, root, living, s, p[..n]);
      assert p[n] in Edges(root, s)[p[n - 1]];
      assert forall i :: 0 <= i < n ==> p[..n][i] == p[i];
    }
  }

  lemma {:induction false} PathUp(g: Graph, root: string, living: set<string>, s: Snapshot, p: seq<string>)
    requires root in g && living <= g.Keys && Exact(g, root, living, s) && Path(g, p) && p[0] == root
    requires forall i :: 0 < i < |p| ==> p[i] in living
    ensures Path(Edges(root, s), p)
  {
    if |p| > 1 {
      var n := |p| - 1;
      PathUp(g, root, living, s, p[..n]);
      assert p[n] in g[p[n - 1]];
      assert forall i :: 0 <= i < n ==> p[..n][i] == p[i];
    }
  }

  /** No node is listed twice, under one parent or under two. */
  lemma ListedOnce(g: Graph, root: string, living: set<string>, s: Snapshot, p: string, q: string, c: string)
    requires SingleParent(g) && root in g && root !in living && living <= g.Keys && Exact(g, root, living, s)
    ensures p in living && c in s.rootKids ==> c !in s.kids[p]
    ensures p in living && q in living && c in s.kids[p] && c in s.kids[q] ==> p == q
  {
    if p in living && c in s.kids[p] {
      assert c in g[p];
      if q in living && c in s.kids[q] { assert c in g[q]; }
    }
  }

  // ---- a clash of case -----------------------------------------------------------------

  /** A consistent tree with these child edges. */
  ghost predicate Shows(t: Tree, noSender: Pid, g: Graph)
    reads t
  {
    Ok(t.s) && NoCycle(t.s) && t.noSender == noSender && Children(t.s) == g
  }

  /** A tree of one actor. */
  method Plant(noSender: Pid, top: Pid) returns (t: Tree)
    requires !Same(top, noSender)
    ensures fresh(t) && Shows(t, noSender, map[top.id := {}])
  {
    t := new Tree(noSender);
    assert Children(t.s) == map[];
    var _ := t.AddRootNode(Some(top));
    assert NewNode(top).descendants.Keys == {};
    assert Children(t.s) == map[top.id := {}];
  }

  /** One actor more. */
  method Hang(t: Tree, ghost g: Graph, parent: Pid, pid: Pid)
    requires Shows(t, t.noSender, g) && parent.id in g && pid.id !in g && !Same(parent, t.noSender)
    modifies t
    ensures Shows(t, t.noSender, Grown(g, parent.id, pid.id))
  {
    var _ := t.AddNode(Some(parent), Some(pid));
  }

  /** Four actors, each the child of the one before. */
  ghost function Line(top: string, root: string, child: string, leaf: string): Graph {
    map[top := {root}, root := {child}, child := {leaf}, leaf := {}]
  }

  lemma LineGrows(top: string, root: string, child: string, leaf: string)
    requires NoDup([top, root, child, leaf])
    ensures
      var g := Grown(map[top := {}], top, root);
      && root != top && root in g && child !in g
      && var h := Grown(g, root, child);
         child in h && leaf !in h && Grown(h, child, leaf) == Line(top, root, child, leaf)
  {
    var ids := [top, root, child, leaf];
    var none: set<string> := {};
    assert ids[0] != ids[1] && ids[0] != ids[2] && ids[0] != ids[3];
    assert ids[1] != ids[2] && ids[1] != ids[3] && ids[2] != ids[3];
    assert none + {root} == {root} && none + {child} == {child} && none + {leaf} == {leaf};
  }

  method Chain(noSender: Pid, top: Pid, root: Pid, child: Pid, leaf: Pid) returns (t: Tree)
    requires !Same(top, noSender) && !Same(root, noSender) && !Same(child, noSender)
    requires NoDup([top.id, root.id, child.id, leaf.id])
    ensures fresh(t) && Shows(t, noSender, Line(top.id, root.id, child.id, leaf.id))
  {
    LineGrows(top.id, root.id, child.id, leaf.id);
    t := Plant(noSender, top);
    ghost var g := Grown(map[top.id := {}], top.id, root.id);
    ghost var h := Grown(g, root.id, child.id);
    Hang(t, map[top.id := {}], top, root);
    Hang(t, g, root, child);
    Hang(t, h, child, leaf);
  }

  lemma LineBelow(top: string, root: string, child: string, leaf: string)
    requires NoDup([top, root, child, leaf])
    ensures root in Line(top, root, child, leaf) && Line(top, root, child, leaf)[root] == {child}
    ensures child in Line(top, root, child, leaf) && Line(top, root, child, leaf)[child] == {leaf}
    ensures {child, leaf} <= Subtree(Line(top, root, child, leaf), root)
    ensures root != child && root != leaf
  {
    var ids, g := [top, root, child, leaf], Line(top, root, child, leaf);
    assert ids[1] != ids[2] && ids[1] != ids[3] && ids[2] != ids[3];
    ReachSelf(g, root);
    ReachChild(g, root, root, child);
    ReachChild(g, root, child, leaf);
  }

  /** A grandchild whose parent has the root's id up to case is filed under the root. */
  lemma LeafStrays(t: Tree, root: Pid, child: Pid, leaf: Pid, alive: set<string>, s: Snapshot)
    requires Ok(t.s) && NoCycle(t.s) && root.id in t.s.pids && !Same(root, t.noSender) && !Same(leaf, t.noSender)
    requires child.id in Children(t.s) && leaf.id in Children(t.s)[child.id] && Same(child, root) && child.id != root.id
    requires leaf.id in Subtree(Children(t.s), root.id) && leaf.id != root.id && leaf.id in alive
    requires var living := Living(t, root, alive); Placed(Children(t.s), root.id, living, Askable(t, living), s)
    ensures leaf.id in s.rootKids && !Exact(Children(t.s), root.id, Living(t, root, alive), s)
  {
    assert Strays(Children(t.s), root.id, t.noSender.id, Living(t, root, alive), child.id, leaf.id);
    assert UnderRoot(Children(t.s), root.id, leaf.id);
    SnapshotExact(t, root, alive, s);
  }

  /**
   * A restart of the second of four actors in a line, where the third has the second's id up to
   * case: the fourth, if alive, is filed under the root, and the snapshot lacks the tree's edges.
   */
  method Misfiled(noSender: Pid, top: Pid, root: Pid, child: Pid, leaf: Pid, alive: set<string>)
    returns (t: Tree, s: Snapshot)
    requires !Same(top, noSender) && !Same(root, noSender) && !Same(child, noSender) && !Same(leaf, noSender)
    requires NoDup([top.id, root.id, child.id, leaf.id]) && Same(child, root) && leaf.id in alive
    ensures Shows(t, noSender, Line(top.id, root.id, child.id, leaf.id))
    ensures root.id in t.s.pids && leaf.id in s.rootKids
    ensures !Exact(Children(t.s), root.id, Living(t, root, alive), s)
  {
    t := Chain(noSender, top, root, child, leaf);
    LineBelow(top.id, root.id, child.id, leaf.id);
    assert root.id in Children(t.s);
    s := BuildRestartSubtree(t, root, alive);
    LeafStrays(t, root, child, leaf, alive, s);
  }

  /** An actor's id carries its parent's name and its own. */
  function ChildPid(at: string, parent: string, name: string): Pid {
    Pid(at + ("/" + parent + "/" + name), name)
  }

  lemma SameUpToCase(at: string)
    ensures Same(ChildPid(at, "Ab", "AB"), ChildPid(at, "ab", "Ab"))
  {
    var p, q := "/Ab/AB", "/ab/Ab";
    assert "/" + "Ab" + "/" + "AB" == p && "/" + "ab" + "/" + "Ab" == q;
    forall i | 0 <= i < |at + p| ensures FoldChar((at + p)[i]) == FoldChar((at + q)[i]) {
      if i >= |at| { assert (at + p)[i] == p[i - |at|] && (at + q)[i] == q[i - |at|]; }
    }
  }

  /** The actors ab, Ab, AB and x, each the child of the one before: four names, four ids. */
  method CaseClash(at: string, alive: set<string>) returns (t: Tree, s: Snapshot)
    requires ChildPid(at, "AB", "x").id in alive
    ensures
      var top, root := at + "/ab", ChildPid(at, "ab", "Ab");
      var child, leaf := ChildPid(at, "Ab", "AB"), ChildPid(at, "AB", "x");
      && Ok(t.s) && NoCycle(t.s) && Children(t.s) == Line(top, root.id, child.id, leaf.id)
      && root.id in t.s.pids && !Exact(Children(t.s), root.id, Living(t, root, alive), s)
  {
    var noSender, top := Pid(at + "/GoAktNoSender", "GoAktNoSender"), Pid(at + "/ab", "ab");
    var root, child, leaf := ChildPid(at, "ab", "Ab"), ChildPid(at, "Ab", "AB"), ChildPid(at, "AB", "x");
    SameUpToCase(at);
    assert root.id[|at| + 1] == 'a' && child.id[|at| + 1] == 'A';
    t, s := Misfiled(noSender, top, root, child, leaf, alive);
  }
}
