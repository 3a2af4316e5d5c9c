/** The explicit-stack walk that deleteNode and descendants share. */
module TreeWalk {
  import opened Basics
  import opened Forest
  import opened TreeViews

  /** Reachable from one of the roots. */
  ghost predicate Met(g: Graph, roots: set<string>, x: string) {
    exists r :: r in roots && Reach(g, r, x)
  }

  /** No root hangs under a node that the walk will meet. */
  ghost predicate Roots(g: Graph, roots: set<string>) {
    roots <= g.Keys && forall p, r :: p in g && r in roots && r in g[p] ==> !Met(g, roots, p)
  }

  /** What has been seen so far: on the stack, or done. */
  ghost predicate Visited(todo: set<string>, done: set<string>, x: string) {
    x in todo || x in done
  }

  /** Nodes still on the stack and nodes done, each met from the roots or from a node done. */
  ghost predicate Walking(g: Graph, roots: set<string>, todo: set<string>, done: set<string>) {
    && (forall x :: x in todo ==> x !in done)
    && (forall x :: x in roots ==> Visited(todo, done, x))
    && todo <= g.Keys && done <= g.Keys
    && (forall x {:trigger Origin(g, roots, done, x)} :: Visited(todo, done, x) ==> Origin(g, roots, done, x))
    && (forall x, c :: x in done && x in g && c in g[x] ==> Visited(todo, done, c))
  }

  /** How the walk came to a node: it is a root, or the child of a node done. */
  ghost predicate Origin(g: Graph, roots: set<string>, done: set<string>, x: string) {
    Met(g, roots, x) && (x in roots || exists q :: q in done && q in g && x in g[q])
  }

  lemma WalkStart(g: Graph, roots: set<string>)
    requires roots <= g.Keys
    ensures Walking(g, roots, roots, {})
  {
    forall r | r in roots ensures Origin(g, roots, {}, r) { ReachSelf(g, r); }
  }

  lemma MetChild(g: Graph, roots: set<string>, n: string, c: string)
    requires Met(g, roots, n) && n in g && c in g[n] && c in g
    ensures Met(g, roots, c)
  {
    var r :| r in roots && Reach(g, r, n);
    ReachChild(g, r, n, c);
  }

  /** The children of the node taken from the stack have not been met before. */
  lemma ChildIsNew(g: Graph, roots: set<string>, todo: set<string>, done: set<string>, n: string, c: string)
    requires SingleParent(g) && Roots(g, roots) && Walking(g, roots, todo, done) && n in todo && c in g[n]
    ensures !Visited(todo, done, c)
  {
    assert Origin(g, roots, done, n);
    if Visited(todo, done, c) && Origin(g, roots, done, c) { assert false; }
  }

  lemma WalkStep(g: Graph, roots: set<string>, todo: set<string>, done: set<string>, n: string, todo': set<string>)
    requires Closed(g) && SingleParent(g) && Roots(g, roots) && Walking(g, roots, todo, done) && n in todo
    requires todo' == todo - {n} + g[n]
    ensures g[n] !! todo && Walking(g, roots, todo', done + {n})
  {
    var done' := done + {n};
    forall c | c in g[n] ensures !Visited(todo, done, c) { ChildIsNew(g, roots, todo, done, n, c); }
    forall x | Visited(todo', done', x) ensures Origin(g, roots, done', x) {
      if x in g[n] {
        ChildOrigin(g, roots, todo, done, n, x);
      } else {
        assert Visited(todo, done, x);
        OriginGrows(g, roots, done, n, x);
      }
    }
    forall x, c | x in done' && x in g && c in g[x] ensures Visited(todo', done', c) {
      if x != n { assert Visited(todo, done, c); }
    }
    forall x | x in roots ensures Visited(todo', done', x) { assert Visited(todo, done, x); }
  }

  lemma ChildOrigin(g: Graph, roots: set<string>, todo: set<string>, done: set<string>, n: string, c: string)
    requires Closed(g) && Walking(g, roots, todo, done) && n in todo && c in g[n]
    ensures Origin(g, roots, done + {n}, c)
  {
    assert Visited(todo, done, n);
    assert Origin(g, roots, done, n);
    MetChild(g, roots, n, c);
    assert n in done + {n};
  }

  lemma OriginGrows(g: Graph, roots: set<string>, done: set<string>, n: string, x: string)
    ensures Origin(g, roots, done, x) ==> Origin(g, roots, done + {n}, x)
  {
  }

  lemma WalkEnd(g: Graph, roots: set<string>, done: set<string>, x: string)
    requires Walking(g, roots, {}, done)
    ensures x in done <==> Met(g, roots, x)
  {
    assert Visited({}, done, x) ==> Origin(g, roots, done, x);
    if Met(g, roots, x) {
      var r :| r in roots && Reach(g, r, x);
      var p :| PathBetween(g, p, r, x);
      forall y, c | y in done && y in g && c in g[y] ensures c in done { assert Visited({}, done, c); }
      ClosedUnderPath(g, done, p);
    }
  }

  /** The references of registered nodes, with their ids. */
  ghost predicate Refs(ix: Index, refs: seq<Ref>, ids: seq<string>) {
    |refs| == |ids| && forall i :: 0 <= i < |ids| ==> ids[i] in ix && refs[i] == ix[ids[i]]
  }

  /** The node of id k lists exactly the nodes of its children. */
  ghost predicate ListsAt(h: Store, ix: Index, g: Graph, k: string)
    requires k in g
  {
    && k in ix && ix[k] in h && h[ix[k]].descendants.Keys == g[k]
    && forall c :: c in g[k] ==> c in ix && h[ix[k]].descendants[c] == ix[c]
  }

  ghost predicate Lists(h: Store, ix: Index, g: Graph) {
    forall k {:trigger ListsAt(h, ix, g, k)} :: k in g ==> ListsAt(h, ix, g, k)
  }

  /** Takes a node from the stack and puts its children there, in some order. */
  method Expand(h: Store, ghost ix: Index, ghost g: Graph, stack: seq<Ref>, ghost left: seq<string>)
    returns (stack': seq<Ref>, ghost ks: seq<string>)
    requires Lists(h, ix, g) && Refs(ix, stack, left) && stack != [] && left[|left| - 1] in g
    ensures NoDup(ks) && Set(ks) == g[left[|left| - 1]] && Refs(ix, stack', left[..|left| - 1] + ks)
  {
    var n := |stack| - 1;
    assert ListsAt(h, ix, g, left[n]);
    var kids := h[stack[n]].descendants;
    var order := Listing(kids.Keys);
    ks := order;
    assert forall i :: 0 <= i < |order| ==> order[i] in Set(order);
    stack' := stack[..n] + seq(|order|, i requires 0 <= i < |order| => kids[order[i]]);
  }

  /** The bookkeeping of one turn of the walk. */
  lemma ExpandKeeps(g: Graph, roots: set<string>, left: seq<string>, ids: seq<string>, ks: seq<string>)
    requires Closed(g) && SingleParent(g) && Roots(g, roots) && left != []
    requires NoDup(left) && NoDup(ids) && NoDup(ks) && Walking(g, roots, Set(left), Set(ids))
    requires Set(ks) == g[left[|left| - 1]]
    ensures
      var top, rest := left[|left| - 1], left[..|left| - 1];
      && NoDup(rest + ks) && NoDup(ids + [top]) && Walking(g, roots, Set(rest + ks), Set(ids + [top]))
      && Set(ids + [top]) == Set(ids) + {top} && top in g && top !in Set(ids)
  {
    var top, rest := left[|left| - 1], left[..|left| - 1];
    assert top in Set(left);
    SetLast(left);
    SetConcat(rest, ks);
    SetConcat(ids, [top]);
    assert Set([top]) == {top};
    WalkStep(g, roots, Set(left), Set(ids), top, Set(rest + ks));
  }

  /** Visits everything below the given nodes, each node once. */
  method Walk(h: Store, ghost ix: Index, ghost g: Graph, start: seq<Ref>, ghost roots: seq<string>)
    returns (post: seq<Ref>, ghost ids: seq<string>)
    requires Lists(h, ix, g) && Closed(g) && SingleParent(g)
    requires Refs(ix, start, roots) && NoDup(roots) && Roots(g, Set(roots))
    ensures Refs(ix, post, ids) && NoDup(ids) && forall x :: x in ids <==> Met(g, Set(roots), x)
    ensures forall x :: x in ix && Met(g, Set(roots), x) ==> ix[x] in post
  {
    ghost var r := Set(roots);
    WalkStart(g, r);
    var stack := start;
    ghost var left := roots;
    post, ids := [], [];
    assert Set(ids) == {};
    while stack != []
      invariant Refs(ix, stack, left) && Refs(ix, post, ids) && NoDup(left) && NoDup(ids)
      invariant Walking(g, r, Set(left), Set(ids))
      decreases g.Keys - Set(ids)
    {
      ghost var n, ks := |left| - 1, [];
      assert left[n] in Set(left);
      post := post + [stack[|stack| - 1]];
      stack, ks := Expand(h, ix, g, stack, left);
      ExpandKeeps(g, r, left, ids, ks);
      left, ids := left[..n] + ks, ids + [left[n]];
    }
    assert Set(left) == {};
    forall x ensures x in ids <==> Met(g, r, x) {
      WalkEnd(g, r, Set(ids), x);
    }
    forall x | x in ix && Met(g, r, x) ensures ix[x] in post {
      var i :| 0 <= i < |ids| && ids[i] == x;
      assert post[i] in post;
    }
  }

  // ---- what the walk finds -------------------------------------------------------------

  lemma OkLists(s: Registry)
    requires Ok(s)
    ensures Lists(s.nodes, s.pids, Children(s)) && Closed(Children(s)) && SingleParent(Children(s))
  {
    Shape(s);
    forall k | k in Children(s) ensures ListsAt(s.nodes, s.pids, Children(s), k) {
      assert forall c :: c in Children(s)[k] ==> c in Seen(s)[k].descendants;
    }
  }

  /** From one node the walk finds its subtree. */
  lemma FromOne(g: Graph, a: string)
    requires Acyclic(g) && Closed(g) && a in g
    ensures Roots(g, {a}) && forall x :: Met(g, {a}, x) <==> x in Subtree(g, a)
  {
    forall p | p in g && a in g[p] ensures !Met(g, {a}, p) { NoReturn(g, p, a); }
    forall x | Reach(g, a, x) ensures x in g { }
  }

  /** From the children of a node it finds the subtree without the node. */
  lemma FromChildren(g: Graph, a: string)
    requires Acyclic(g) && Closed(g) && SingleParent(g) && a in g
    ensures Roots(g, g[a]) && forall x :: Met(g, g[a], x) <==> x in Subtree(g, a) - {a}
  {
    forall c | c in g[a] ensures !Reach(g, c, a) { NoReturn(g, a, c); }
    forall x ensures Met(g, g[a], x) <==> x in Subtree(g, a) - {a} {
      if Met(g, g[a], x) {
        var c :| c in g[a] && Reach(g, c, x);
        ReachFromChild(g, a, c, x);
      }
      if x in Subtree(g, a) - {a} {
        var c := ReachFirst(g, a, x);
      }
    }
  }
}
