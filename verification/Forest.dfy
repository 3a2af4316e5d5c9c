/** Child graphs by value: reachability, acyclicity, and what adding an edge does to them. */
module Forest {
  /** The children of every node. */
  type Graph = map<string, set<string>>

  ghost predicate Closed(g: Graph) {
    forall a, b :: a in g && b in g[a] ==> b in g
  }

  /** No node is the child of two. */
  ghost predicate SingleParent(g: Graph) {
    forall a, b, c :: a in g && b in g && c in g[a] && c in g[b] ==> a == b
  }

  ghost predicate Path(g: Graph, p: seq<string>) {
    && |p| > 0 && (forall i :: 0 <= i < |p| ==> p[i] in g)
    && forall i :: 0 <= i < |p| - 1 ==> p[i + 1] in g[p[i]]
  }

  ghost predicate PathBetween(g: Graph, p: seq<string>, a: string, b: string) {
    Path(g, p) && p[0] == a && p[|p| - 1] == b
  }

  ghost predicate Reach(g: Graph, a: string, b: string) {
    exists p :: PathBetween(g, p, a, b)
  }

  ghost function Subtree(g: Graph, a: string): set<string> {
    set x | x in g && Reach(g, a, x)
  }

  /** Every edge goes from a lower to a higher rank. */
  ghost predicate Ranked(g: Graph, r: map<string, nat>) {
    g.Keys <= r.Keys && forall a, b :: a in g && b in g[a] && b in g ==> r[a] < r[b]
  }

  ghost predicate Acyclic(g: Graph) {
    exists r :: Ranked(g, r)
  }

  lemma ReachSelf(g: Graph, a: string)
    requires a in g
    ensures Reach(g, a, a)
  {
    assert PathBetween(g, [a], a, a);
  }

  lemma ReachChild(g: Graph, a: string, b: string, c: string)
    requires Reach(g, a, b) && c in g && c in g[b]
    ensures Reach(g, a, c)
  {
    var p :| PathBetween(g, p, a, b);
    assert PathBetween(g, p + [c], a, c);
  }

  /** The last edge of a path. */
  lemma ReachLast(g: Graph, a: string, c: string) returns (b: string)
    requires Reach(g, a, c) && a != c
    ensures b in g && c in g && c in g[b] && Reach(g, a, b)
  {
    var p :| PathBetween(g, p, a, c);
    b := p[|p| - 2];
    assert PathBetween(g, p[..|p| - 1], a, b);
  }

  /** The first edge of a path. */
  lemma ReachFirst(g: Graph, a: string, c: string) returns (b: string)
    requires Reach(g, a, c) && a != c
    ensures a in g && b in g && b in g[a] && Reach(g, b, c)
  {
    var p :| PathBetween(g, p, a, c);
    b := p[1];
    assert PathBetween(g, p[1..], b, c);
  }

  lemma ReachFromChild(g: Graph, a: string, b: string, c: string)
    requires a in g && b in g[a] && Reach(g, b, c)
    ensures Reach(g, a, c)
  {
    var p :| PathBetween(g, p, b, c);
    assert PathBetween(g, [a] + p, a, c);
  }

  /** A path climbs the ranks. */
  lemma {:induction false} PathClimbs(g: Graph, r: map<string, nat>, p: seq<string>)
    requires Ranked(g, r) && Path(g, p)
    ensures r[p[|p| - 1]] >= r[p[0]] + |p| - 1
  {
    if |p| > 1 { PathClimbs(g, r, p[..|p| - 1]); }
  }

  /** No node of an acyclic graph is below one of its own children. */
  lemma NoReturn(g: Graph, a: string, b: string)
    requires Acyclic(g) && a in g && b in g && b in g[a]
    ensures !Reach(g, b, a)
  {
    var r :| Ranked(g, r);
    if Reach(g, b, a) {
      var p :| PathBetween(g, p, b, a);
      PathClimbs(g, r, p);
    }
  }

  /** A set closed under children holds all that is reachable from its members. */
  lemma {:induction false} ClosedUnderPath(g: Graph, s: set<string>, p: seq<string>)
    requires Path(g, p) && p[0] in s
    requires forall x, c :: x in s && x in g && c in g[x] ==> c in s
    ensures p[|p| - 1] in s
  {
    if |p| > 1 { ClosedUnderPath(g, s, p[..|p| - 1]); }
  }

  /** Fewer nodes and fewer edges stay acyclic. */
  lemma SubgraphAcyclic(g: Graph, g': Graph)
    requires Acyclic(g) && forall k :: k in g' ==> k in g && g'[k] <= g[k]
    ensures Acyclic(g')
  {
    var r :| Ranked(g, r);
    assert Ranked(g', r);
  }

  lemma IsolatedAcyclic(g: Graph, x: string)
    requires Acyclic(g) && Closed(g) && x !in g
    ensures Acyclic(g[x := {}])
  {
    var r :| Ranked(g, r);
    assert Ranked(g[x := {}], r[x := 0]);
  }

  /** An edge from parent to child closes a cycle exactly if the parent is below the child. */
  lemma EdgeAcyclic(g: Graph, parent: string, child: string)
    requires Acyclic(g) && Closed(g) && parent in g && child in g
    ensures Acyclic(g[parent := g[parent] + {child}]) <==> !Reach(g, child, parent)
  {
    var g' := g[parent := g[parent] + {child}];
    if Reach(g, child, parent) {
      var p :| PathBetween(g, p, child, parent);
      assert PathBetween(g', p, child, parent);
      if Acyclic(g') { NoReturn(g', parent, child); }
    } else {
      var r :| Ranked(g, r);
      Lifted(g, r, parent, child);
    }
  }

  /** Lifts everything below the child past the parent. */
  lemma Lifted(g: Graph, r: map<string, nat>, parent: string, child: string)
    requires Ranked(g, r) && Closed(g) && parent in g && child in g && !Reach(g, child, parent)
    ensures Acyclic(g[parent := g[parent] + {child}])
  {
    var g' := g[parent := g[parent] + {child}];
    var below := Subtree(g, child);
    var r' := map x | x in g :: r[x] + (if x in below then r[parent] + 1 else 0);
    ReachSelf(g, child);
    forall a, b | a in g' && b in g'[a] ensures r'[a] < r'[b] {
      if b in g[a] && a in below { ReachChild(g, child, a, b); }
    }
    assert Ranked(g', r');
  }
}
