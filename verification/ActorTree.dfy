/** The tree object and its operations, each under the tree's lock. */
module ActorTree {
  import opened Basics
  import opened Forest
  import opened TreeViews
  import opened TreeWalk
  import opened TreePrune
  import opened TreeFacts

  /** The nodes of a subtree, from one walk. */
  method CollectSubtree(s: Registry, id: string) returns (post: seq<Ref>, ghost ids: seq<string>)
    requires Ok(s) && NoCycle(s) && id in s.pids
    ensures Refs(s.pids, post, ids) && NoDup(ids) && Set(ids) == Subtree(Children(s), id)
    ensures RefSet(post) == (set k | k in Set(ids) :: s.pids[k]) && |post| == |Subtree(Children(s), id)|
  {
    post, ids := WalkSubtree(s, id);
    RefsAre(s.pids, post, ids);
    NoDupSize(ids);
  }

  method WalkSubtree(s: Registry, id: string) returns (post: seq<Ref>, ghost ids: seq<string>)
    requires Ok(s) && NoCycle(s) && id in s.pids
    ensures Refs(s.pids, post, ids) && NoDup(ids) && Set(ids) == Subtree(Children(s), id)
  {
    ghost var g := Children(s);
    OkLists(s);
    FromOne(g, id);
    assert Set([id]) == {id};
    post, ids := Walk(s.nodes, s.pids, g, [s.pids[id]], [id]);
  }

  /** The nodes below a node, from a walk that starts with its children. */
  method CollectBelow(s: Registry, id: string) returns (post: seq<Ref>, ghost ids: seq<string>)
    requires Ok(s) && NoCycle(s) && id in s.pids
    ensures Refs(s.pids, post, ids) && NoDup(ids) && Set(ids) == Subtree(Children(s), id) - {id}
  {
    ghost var g := Children(s);
    OkLists(s);
    FromChildren(g, id);
    var start, ks := Expand(s.nodes, s.pids, g, [s.pids[id]], [id]);
    assert [id][..0] + ks == ks;
    post, ids := Walk(s.nodes, s.pids, g, start, ks);
  }

  /** One of the PIDs has this id. */
  ghost predicate Named(ps: seq<Pid>, x: string) {
    exists i :: 0 <= i < |ps| && ps[i].id == x
  }

  /** The live PIDs of a sequence of nodes. */
  method Values(h: Store, ghost ix: Index, post: seq<Ref>, ghost ids: seq<string>) returns (ps: seq<Pid>)
    requires IndexOk(h, ix) && Refs(ix, post, ids)
    ensures |ps| == |ids| && forall j :: 0 <= j < |ids| ==> ps[j].id == ids[j] && h[post[j]].pid == Some(ps[j])
  {
    ps := [];
    var i := 0;
    while i < |post|
      invariant 0 <= i <= |post| && |ps| == i
      invariant forall j :: 0 <= j < i ==> ps[j].id == ids[j] && h[post[j]].pid == Some(ps[j])
    {
      assert NodeOk(h, ix, post[i]);
      var p := h[post[i]].pid;
      if p.Some? { ps := ps + [p.value]; }
      i := i + 1;
    }
  }

  /**
   * One node more, under a parent that watches it: its id and its name lead to it, it has its PID and
   * its parent, and one child edge and one watch are new.
   */
  ghost predicate AddedUnder(s0: Registry, s: Registry, p: Pid, c: Pid) {
    && IndexOk(s0.nodes, s0.pids) && IndexOk(s.nodes, s.pids) && c.id !in s0.pids && p.id in s0.pids
    && s.pids == s0.pids[c.id := s0.free] && s.names == s0.names[c.name := s0.free] && s.rootNode == s0.rootNode
    && Seen(s) == Watched(Parented(Seen(s0)[c.id := NewNode(c)], s.pids, p.id, c.id), c, p)
    && KeepsIds(s0.nodes, s.nodes) && Children(s) == Grown(Children(s0), p.id, c.id)
    && Says(s) == Facts(s0.pids.Keys + {c.id}, Says(s0).under + {(p.id, c.id)}, Says(s0).watches + {(p.id, c.id)})
    && Seen(s)[c.id].pid == Some(c) && Seen(s)[c.id].parent == Some(s.pids[p.id])
  }

  /**
   * One child edge and one watch more between registered nodes. The tree stays consistent exactly
   * if no other node lists the child, and free of cycles exactly if the parent is not below it.
   */
  ghost predicate AttachedUnder(s0: Registry, s: Registry, p: Pid, c: Pid) {
    && Ok(s0) && Based(s) && c.id in s0.pids && p.id in s0.pids
    && s.pids == s0.pids && s.names == s0.names && s.rootNode == s0.rootNode
    && Seen(s) == LinkedView(s0, p, c) && Seen(s)[c.id].parent == Some(s.pids[p.id])
    && Says(s) == Says(s0).(under := Says(s0).under + {(p.id, c.id)}, watches := Says(s0).watches + {(p.id, c.id)})
    && (Ok(s) <==> OnlyChildOf(s0, p.id, c.id))
    && (NoCycle(s0) ==> (NoCycle(s) <==> !Below(s0, c.id, p.id)))
  }

  /** A node that has left the tree: without PID, parent and watches. */
  ghost predicate Bare(h: Store, r: Ref) {
    r in h && h[r].pid.None? && h[r].parent.None? && h[r].watchers.Keys == {} && h[r].watchees.Keys == {}
  }

  lemma StaysBare(h: Store, h': Store, r: Ref)
    requires Bare(h, r) && KeepsIds(h, h')
    ensures Bare(h', r)
  {
    assert IdKept(h, h', r);
  }

  class Tree {
    var s: Registry
    const noSender: Pid

    constructor (noSender: Pid)
      ensures Ok(s) && NoCycle(s) && FreshRoot() && s.pids == map[] && s.names == map[] && s.counter == 0
      ensures this.noSender == noSender
    {
      this.noSender := noSender;
      s := Registry(map[0 := Cleared()], 1, 0, map[], map[], 0);
      new;
      assert Ranked(Children(s), map[]);
    }

    /** The root of a new or reset tree has never been used. */
    ghost predicate FreshRoot()
      reads this
    {
      s.rootNode in s.nodes && s.nodes[s.rootNode] == Cleared()
    }

    /** Forgets all nodes. */
    method Reset()
      modifies this
      ensures Ok(s) && NoCycle(s) && FreshRoot() && s.pids == map[] && s.names == map[] && s.counter == 0
    {
      s := Registry(map[0 := Cleared()], 1, 0, map[], map[], 0);
      assert Ranked(Children(s), map[]);
    }

    /** Enters an unconnected node into both indexes. */
    method Enter(r: Ref, pid: Pid)
      requires Based(s) && pid.id !in s.pids && r <= s.free && (r in s.nodes ==> s.nodes[r].pid.None?)
      modifies this
      ensures Based(s) && s.pids == old(s.pids)[pid.id := r] && s.names == old(s.names)[pid.name := r]
      ensures s.rootNode == old(s.rootNode) && Seen(s) == old(Seen(s))[pid.id := NewNode(pid)]
      ensures r !in old(s.nodes) ==> KeepsIds(old(s.nodes), s.nodes)
    {
      AdmitBase(s.nodes, s.pids, s.names, s.free, r, pid);
      AdmitView(s.nodes, s.pids, r, pid);
      AdmitSize(s.pids, pid.id, r);
      if r !in s.nodes { PutIds(s.nodes, r, NewNode(pid)); }
      s := s.(nodes := s.nodes[r := NewNode(pid)], free := if r == s.free then s.free + 1 else s.free,
              pids := s.pids[pid.id := r], names := s.names[pid.name := r], counter := s.counter + 1);
    }

    /** The tree with an unconnected node more. */
    method Admit(r: Ref, pid: Pid)
      requires Ok(s) && pid.id !in s.pids && r <= s.free && (r in s.nodes ==> s.nodes[r].pid.None?)
      modifies this
      ensures Ok(s) && s.pids == old(s.pids)[pid.id := r] && s.names == old(s.names)[pid.name := r]
      ensures s.rootNode == old(s.rootNode) && Seen(s) == old(Seen(s))[pid.id := NewNode(pid)]
      ensures old(NoCycle(s)) ==> NoCycle(s)
      ensures r !in old(s.nodes) ==> KeepsIds(old(s.nodes), s.nodes)
    {
      AdmitEdges(Seen(s), s.pids, pid, r);
      AdmitGraph(Seen(s), s.pids, pid);
      Enter(r, pid);
    }

    method AddRootNode(pid: Option<Pid>) returns (r: Status)
      requires Ok(s) && FreshRoot()
      modifies this
      ensures Ok(s) && (old(NoCycle(s)) ==> NoCycle(s))
      ensures r == if pid.None? then Failed(NilPid)
                   else if Same(pid.value, noSender) then Failed(NoSenderPid)
                   else if pid.value.id in old(s.pids) then Failed(Exists)
                   else Done
      ensures r.Failed? ==> s == old(s)
      ensures r.Done? ==>
                && s.pids == old(s.pids)[pid.value.id := s.rootNode]
                && s.names == old(s.names)[pid.value.name := s.rootNode]
                && Seen(s) == old(Seen(s))[pid.value.id := NewNode(pid.value)] && s.rootNode == old(s.rootNode)
                && Says(s) == old(Says(s)).(ids := old(s.pids).Keys + {pid.value.id})
    {
      if pid.None? { return Failed(NilPid); }
      if Same(pid.value, noSender) { return Failed(NoSenderPid); }
      if pid.value.id in s.pids { return Failed(Exists); }
      AdmitTells(Seen(s), pid.value);
      assert RefOk(s.nodes, s.free, s.rootNode);
      Admit(s.rootNode, pid.value);
      return Done;
    }

    /** Rewrites the edges of a registered node. */
    method Put(k: string, n: PidNode)
      requires Based(s) && k in s.pids
      requires n.pid == s.nodes[s.pids[k]].pid && n.id == k && n.name == s.nodes[s.pids[k]].name
      requires n.parent.Some? && n.parent != s.nodes[s.pids[k]].parent ==> n.parent.value in s.nodes
      modifies this
      ensures Based(s) && s == old(s.(nodes := s.nodes[s.pids[k] := n])) && Seen(s) == old(Seen(s))[k := n]
      ensures SameIndexes(old(s), s)
    {
      assert NodeOk(s.nodes, s.pids, s.pids[k]);
      PutIds(s.nodes, s.pids[k], n);
      PutBase(s.nodes, s.pids, s.names, s.free, s.pids[k], n);
      PutView(s.nodes, s.pids, k, n);
      s := s.(nodes := s.nodes[s.pids[k] := n]);
    }

    /** Changes the edges of a node if it is registered. */
    method Edit(k: string, f: PidNode -> PidNode)
      requires Based(s) && EdgesOnly(f)
      modifies this
      ensures Based(s) && SameIndexes(old(s), s) && Seen(s) == Edited(old(Seen(s)), k, f)
    {
      KeepsIdsSame(s.nodes);
      if k in s.pids { Put(k, f(s.nodes[s.pids[k]])); }
    }

    /** Writes both ends of a child edge and of the watch that goes with it. */
    method Link(parent: Pid, child: Pid)
      requires Ok(s) && parent.id in s.pids && child.id in s.pids
      modifies this
      ensures Based(s) && SameIndexes(old(s), s)
      ensures Seen(s) == old(LinkedView(s, parent, child))
    {
      LinkView(Seen(s), s.pids, parent, child);
      var n := s.nodes[s.pids[child.id]];
      Put(child.id, n.(parent := Some(s.pids[parent.id]), watchers := n.watchers[parent.id := parent]));
      ghost var mid := s.nodes;
      var m := s.nodes[s.pids[parent.id]];
      Put(parent.id, m.(descendants := m.descendants[child.id := s.pids[child.id]],
                        watchees := m.watchees[child.id := child]));
      KeepsIdsOn(old(s.nodes), mid, s.nodes);
    }

    /** A new node that nobody lists. */
    method AdmitNew(p: Pid, c: Pid)
      requires Ok(s) && c.id !in s.pids && p.id in s.pids
      modifies this
      ensures Ok(s) && (old(NoCycle(s)) ==> NoCycle(s)) && s.rootNode == old(s.rootNode)
      ensures s.pids == old(s.pids)[c.id := old(s.free)] && s.names == old(s.names)[c.name := old(s.free)]
      ensures Seen(s) == old(Seen(s))[c.id := NewNode(c)] && Children(s) == old(Children(s))[c.id := {}]
      ensures KeepsIds(old(s.nodes), s.nodes) && OnlyUnder(Seen(s), p.id, c.id)
    {
      NotListed(s, c.id);
      AdmitGraph(Seen(s), s.pids, c);
      assert s.free in s.nodes ==> RefOk(s.nodes, s.free, s.free);
      Admit(s.free, c);
    }

    /** A new node under a registered parent. */
    method AddUnder(p: Pid, c: Pid)
      requires Ok(s) && c.id !in s.pids && p.id in s.pids
      modifies this
      ensures Ok(s) && (old(NoCycle(s)) ==> NoCycle(s)) && AddedUnder(old(s), s, p, c)
    {
      AdmitNew(p, c);
      ghost var mid := s;
      LinkNew(s, p, c);
      Link(p, c);
      AddedAsLinked(old(s), mid, s, p, c);
    }

    /** A new node under a registered parent, which watches it. */
    method AddNode(parent: Option<Pid>, pid: Option<Pid>) returns (r: Status)
      requires Ok(s)
      modifies this
      ensures Ok(s) && (old(NoCycle(s)) ==> NoCycle(s))
      ensures r == if pid.None? then Failed(NilPid)
                   else if parent.None? then Failed(NilParent)
                   else if Same(parent.value, noSender) then Failed(NoSenderPid)
                   else if pid.value.id in old(s.pids) then Failed(Exists)
                   else if parent.value.id !in old(s.pids) then Failed(NoParent)
                   else Done
      ensures r.Failed? ==> s == old(s)
      ensures r.Done? ==> AddedUnder(old(s), s, parent.value, pid.value)
    {
      if pid.None? { return Failed(NilPid); }
      if parent.None? { return Failed(NilParent); }
      if Same(parent.value, noSender) { return Failed(NoSenderPid); }
      if pid.value.id in s.pids { return Failed(Exists); }
      if parent.value.id !in s.pids { return Failed(NoParent); }
      AddUnder(parent.value, pid.value);
      return Done;
    }

    /**
     * Links two registered nodes. The tree stays consistent exactly if no other node lists the
     * child, and free of cycles exactly if the parent is not below the child.
     */
    method AttachNode(parent: Option<Pid>, pid: Option<Pid>) returns (r: Status)
      requires Ok(s)
      modifies this
      ensures r == if pid.None? then Failed(NilPid)
                   else if parent.None? then Failed(NilParent)
                   else if Same(parent.value, noSender) then Failed(NoSenderPid)
                   else if parent.value.id !in s.pids then Failed(NoParent)
                   else if pid.value.id !in s.pids then Failed(Missing)
                   else Done
      ensures Based(s) && s.pids == old(s.pids) && s.names == old(s.names) && s.rootNode == old(s.rootNode)
      ensures r.Failed? ==> s == old(s)
      ensures r.Done? ==> AttachedUnder(old(s), s, parent.value, pid.value)
    {
      if pid.None? { return Failed(NilPid); }
      if parent.None? { return Failed(NilParent); }
      if Same(parent.value, noSender) { return Failed(NoSenderPid); }
      if parent.value.id !in s.pids { return Failed(NoParent); }
      if pid.value.id !in s.pids { return Failed(Missing); }
      LinkReady(s, parent.value, pid.value);
      LinkTells(s, parent.value, pid.value);
      Link(parent.value, pid.value);
      return Done;
    }

    /** Links pid under parent, entering it first if it is unknown. */
    method AddOrAttachNode(parent: Option<Pid>, pid: Option<Pid>) returns (r: Status)
      requires Ok(s)
      modifies this
      ensures r.Failed? <==>
                pid.Some? && parent.Some? && !Same(parent.value, noSender) && parent.value.id !in old(s.pids)
      ensures r.Failed? || pid.None? || parent.None? || Same(parent.value, noSender) ==> s == old(s)
      ensures r.Done? && pid.Some? && parent.Some? && !Same(parent.value, noSender) ==>
                if pid.value.id in old(s.pids) then AttachedUnder(old(s), s, parent.value, pid.value)
                else Ok(s) && (old(NoCycle(s)) ==> NoCycle(s)) && AddedUnder(old(s), s, parent.value, pid.value)
    {
      if pid.None? || parent.None? || Same(parent.value, noSender) { return Done; }
      if pid.value.id in s.pids {
        r := AttachNode(parent, pid);
      } else {
        r := AddNode(parent, pid);
      }
    }

    /** Registers a watch, unless either side is unknown, nil or the NoSender. */
    method AddWatcher(pid: Option<Pid>, watcher: Option<Pid>)
      requires Ok(s)
      modifies this
      ensures Ok(s) && Children(s) == old(Children(s)) && SameIndexes(old(s), s)
      ensures Says(s) == if pid.None? || watcher.None? || Same(pid.value, noSender) || Same(watcher.value, noSender)
                            || pid.value.id !in s.pids || watcher.value.id !in s.pids then old(Says(s))
                         else
                           var more := {(watcher.value.id, pid.value.id)};
                           old(Says(s)).(watches := old(Says(s)).watches + more)
      ensures Seen(s) == if pid.None? || watcher.None? || Same(pid.value, noSender) || Same(watcher.value, noSender)
                            || pid.value.id !in s.pids || watcher.value.id !in s.pids then old(Seen(s))
                         else Watched(old(Seen(s)), pid.value, watcher.value)
    {
      KeepsIdsSame(s.nodes);
      if pid.None? || watcher.None? { return; }
      if Same(pid.value, noSender) || Same(watcher.value, noSender) { return; }
      if pid.value.id !in s.pids || watcher.value.id !in s.pids { return; }
      ghost var v := Seen(s);
      WatchTells(v, pid.value, watcher.value);
      var n := s.nodes[s.pids[pid.value.id]];
      Put(pid.value.id, n.(watchers := n.watchers[watcher.value.id := watcher.value]));
      ghost var mid := s.nodes;
      var m := s.nodes[s.pids[watcher.value.id]];
      Put(watcher.value.id, m.(watchees := m.watchees[pid.value.id := pid.value]));
      KeepsIdsOn(old(s.nodes), mid, s.nodes);
      WatchKeeps(v, pid.value, watcher.value);
      SameChildren(v, Seen(s), s.pids);
    }

    /** Ends a watch; each side is cleaned if it is still registered. */
    method RemoveWatcher(watchee: Option<Pid>, watcher: Option<Pid>)
      requires Ok(s)
      modifies this
      ensures Ok(s) && Children(s) == old(Children(s)) && SameIndexes(old(s), s)
      ensures Says(s) == if watchee.None? || watcher.None? then old(Says(s))
                         else
                           var less := {(watcher.value.id, watchee.value.id)};
                           old(Says(s)).(watches := old(Says(s)).watches - less)
      ensures Seen(s) == if watchee.None? || watcher.None? then old(Seen(s))
                         else Unwatched(old(Seen(s)), watchee.value.id, watcher.value.id)
    {
      KeepsIdsSame(s.nodes);
      if watchee.None? || watcher.None? { return; }
      var e, w := watchee.value.id, watcher.value.id;
      ghost var v := Seen(s);
      UnwatchTells(v, e, w);
      Edit(w, n => DropWatchee(n, e));
      ghost var mid := s.nodes;
      Edit(e, n => DropWatcher(n, w));
      KeepsIdsOn(old(s.nodes), mid, s.nodes);
      UnwatchAll(v, s.pids, e, w);
    }

    method RemoveDescendant(parent: string, child: string)
      requires Ok(s)
      modifies this
      ensures Ok(s) && (old(NoCycle(s)) ==> NoCycle(s))
      ensures SameIndexes(old(s), s) && Seen(s) == Unlisting(old(Seen(s)), parent, child)
      ensures Says(s) == old(Says(s)).(under := old(Says(s)).under - {(parent, child)})
    {
      ghost var v := Seen(s);
      UnlistTells(v, parent, child);
      Edit(parent, n => DropChild(n, child));
      UnlistKeeps(v, s.pids, parent, child);
      SameWatches(v, Seen(s));
    }

    /** The given nodes have been changed, and nothing else. */
    ghost predicate Changed(s0: Registry, done: set<string>, f: PidNode -> PidNode)
      reads this
    {
      Based(s0) && Based(s) && SameIndexes(s0, s) && Seen(s) == EditedAll(Seen(s0), done, f)
    }

    /** One more of a set of nodes. */
    method EditNext(ghost s0: Registry, ghost done: set<string>, k: string, f: PidNode -> PidNode)
      requires Changed(s0, done, f) && EdgesOnly(f) && k !in done
      modifies this
      ensures Changed(s0, done + {k}, f)
    {
      EditOneMore(Seen(s0), done, f, k);
      Edit(k, f);
      KeepsIdsOn(s0.nodes, old(s.nodes), s.nodes);
    }

    lemma ChangedAtFirst(f: PidNode -> PidNode)
      requires Based(s)
      ensures Changed(s, {}, f)
    {
      EditNone(Seen(s), f);
      KeepsIdsSame(s.nodes);
    }

    /** Changes the edges of every node of the given ids that is registered. */
    method EditAll(keys: set<string>, f: PidNode -> PidNode)
      requires Based(s) && EdgesOnly(f)
      modifies this
      ensures Changed(old(s), keys, f)
    {
      var ks := Listing(keys);
      EditEach(ks, f);
    }

    method EditEach(ks: seq<string>, f: PidNode -> PidNode)
      requires Based(s) && EdgesOnly(f) && NoDup(ks)
      modifies this
      ensures Changed(old(s), Set(ks), f)
    {
      ChangedAtFirst(f);
      var i := 0;
      ghost var done: set<string> := {};
      while i < |ks|
        invariant 0 <= i <= |ks| && done == Set(ks[..i])
        invariant Changed(old(s), done, f)
      {
        Prefix(ks, i);
        EditNext(old(s), done, ks[i], f);
        done := done + {ks[i]};
        i := i + 1;
      }
      assert ks[..|ks|] == ks;
    }

    /** The node's watchers forget it, and it forgets them. */
    method ReleaseWatchers(k: string)
      requires Based(s) && k in s.pids
      modifies this
      ensures Based(s) && SameIndexes(old(s), s)
      ensures
        var v := EditedAll(old(Seen(s)), old(Seen(s))[k].watchers.Keys, n => DropWatchee(n, k));
        Seen(s) == v[k := v[k].(watchers := map[])]
    {
      var r := s.pids[k];
      assert s.nodes[r] == Seen(s)[k];
      EditAll(s.nodes[r].watchers.Keys, n => DropWatchee(n, k));
      assert s.nodes[r] == Seen(s)[k];
      ghost var mid := s.nodes;
      Put(k, s.nodes[r].(watchers := map[]));
      KeepsIdsOn(old(s.nodes), mid, s.nodes);
    }

    /** Those it watches forget it, and it forgets them. */
    method ReleaseWatchees(k: string)
      requires Based(s) && k in s.pids
      modifies this
      ensures Based(s) && SameIndexes(old(s), s)
      ensures
        var v := EditedAll(old(Seen(s)), old(Seen(s))[k].watchees.Keys, n => DropWatcher(n, k));
        Seen(s) == v[k := v[k].(watchees := map[])]
    {
      var r := s.pids[k];
      assert s.nodes[r] == Seen(s)[k];
      EditAll(s.nodes[r].watchees.Keys, n => DropWatcher(n, k));
      assert s.nodes[r] == Seen(s)[k];
      ghost var mid := s.nodes;
      Put(k, s.nodes[r].(watchees := map[]));
      KeepsIdsOn(old(s.nodes), mid, s.nodes);
    }

    /** Ends every watch of a node, in both directions. */
    method Release(k: string)
      requires Based(s) && k in s.pids
      modifies this
      ensures Based(s) && SameIndexes(old(s), s) && Seen(s) == Released(old(Seen(s)), k)
    {
      ReleaseWatchers(k);
      ghost var mid := s.nodes;
      ReleaseWatchees(k);
      KeepsIdsOn(old(s.nodes), mid, s.nodes);
    }

    /** Takes a node out of both indexes; it is dead from then on. */
    method Leave(k: string)
      requires Based(s) && k in s.pids
      modifies this
      ensures Based(s) && s.pids == Without(old(s.pids), k) && s.names == NamesWithout(old(s.names), old(s.pids[k]))
      ensures Seen(s) == Without(old(Seen(s)), k) && KeepsIds(old(s.nodes), s.nodes)
      ensures s.rootNode == old(s.rootNode) && s.nodes == old(s.nodes[s.pids[k] := Dead(s.nodes[s.pids[k]])])
    {
      var r := s.pids[k];
      var n := s.nodes[r];
      LeaveBase(s.nodes, s.pids, s.names, s.free, k);
      LeaveView(s.nodes, s.pids, k);
      OneName(s.names, s.nodes, s.pids, r);
      assert NodeOk(s.nodes, s.pids, r);
      PutIds(s.nodes, r, Dead(n));
      var names := if n.name in s.names && s.names[n.name] == r then Without(s.names, n.name) else s.names;
      s := s.(nodes := s.nodes[r := Dead(n)], pids := Without(s.pids, k), names := names, counter := s.counter - 1);
    }

    /** Drops a node from its recorded parent, dead or alive. */
    method DropFromParent(k: string)
      requires Based(s) && k in s.pids
      modifies this
      ensures Based(s) && SameIndexes(old(s), s)
      ensures
        var p := old(Seen(s)[k].parent);
        s.nodes == if p.None? || p.value !in old(s.nodes) then old(s.nodes)
                   else old(s.nodes)[p.value := DropWatchee(DropChild(old(s.nodes)[p.value], k), k)]
      ensures forall j :: j in s.pids ==>
                Seen(s)[j] == if old(Seen(s)[k].parent) == Some(s.pids[j])
                              then DropWatchee(DropChild(old(Seen(s))[j], k), k) else old(Seen(s))[j]
    {
      var r := s.pids[k];
      var p := s.nodes[r].parent;
      assert RefOk(s.nodes, s.free, r);
      KeepsIdsSame(s.nodes);
      if p.None? { return; }
      var n := DropWatchee(DropChild(s.nodes[p.value], k), k);
      PutBase(s.nodes, s.pids, s.names, s.free, p.value, n);
      PutIds(s.nodes, p.value, n);
      s := s.(nodes := s.nodes[p.value := n]);
    }

    /** Removes one node with every edge that leads to it. */
    method RemoveNode(k: string)
      requires Ok(s) && k in s.pids
      modifies this
      ensures Ok(s) && (old(NoCycle(s)) ==> NoCycle(s))
      ensures s.pids == Keep(old(s.pids), {k}) && s.names == NamesWithout(old(s.names), old(s.pids[k]))
      ensures Seen(s) == Pruned(old(Seen(s)), {k}) && KeepsIds(old(s.nodes), s.nodes)
      ensures s.rootNode == old(s.rootNode) && Bare(s.nodes, old(s.pids[k]))
    {
      ghost var v := Seen(s);
      PrunedOk(v, s.pids, k);
      Unhook(k);
      ghost var mid := s.nodes;
      Leave(k);
      KeepsIdsOn(old(s.nodes), mid, s.nodes);
    }

    /** Takes a node out of every edge that leads to it. */
    method Unhook(k: string)
      requires Ok(s) && k in s.pids
      modifies this
      ensures Based(s) && SameIndexes(old(s), s) && Without(Seen(s), k) == Pruned(old(Seen(s)), {k})
      ensures Seen(s)[k].watchers.Keys == {} && Seen(s)[k].watchees.Keys == {}
    {
      ghost var v := Seen(s);
      Release(k);
      ghost var u, mid := Seen(s), s.nodes;
      DropFromParent(k);
      DroppedAll(v, s.pids, k, u, Seen(s));
      KeepsIdsOn(old(s.nodes), mid, s.nodes);
    }

    /** What is left of a tree when the given nodes are gone. */
    ghost predicate Left(s0: Registry, gone: set<string>, refs: set<Ref>)
      reads this
    {
      && Ok(s0) && Ok(s) && (NoCycle(s0) ==> NoCycle(s))
      && s.pids == Keep(s0.pids, gone) && Seen(s) == Pruned(Seen(s0), gone) && s.names == NamesKeep(s0.names, refs)
      && s.rootNode == s0.rootNode && KeepsIds(s0.nodes, s.nodes)
      && forall r :: r in refs ==> Bare(s.nodes, r)
    }

    /** Removes the nodes of a walk, the last one met first. */
    method RemoveAll(post: seq<Ref>, ghost ids: seq<string>)
      requires Ok(s) && NoDup(ids) && Refs(s.pids, post, ids)
      modifies this
      ensures Left(old(s), Set(ids), RefSet(post))
    {
      LeftAtFirst();
      var i := |post|;
      assert Set(ids[i..]) == {} && RefSet(post[i..]) == {};
      while i > 0
        invariant 0 <= i <= |post| && Left(old(s), Set(ids[i..]), RefSet(post[i..]))
      {
        i := i - 1;
        Suffix(ids, post, i);
        RemoveNext(old(s), post[i], ids[i], Set(ids[i + 1..]), RefSet(post[i + 1..]));
      }
      assert ids[0..] == ids && post[0..] == post;
    }

    lemma LeftAtFirst()
      requires Ok(s)
      ensures Left(s, {}, {})
    {
      PrunedNone(Seen(s));
      KeepsIdsSame(s.nodes);
      assert Keep(s.pids, {}) == s.pids && NamesKeep(s.names, {}) == s.names;
    }

    method RemoveNext(ghost s0: Registry, r: Ref, ghost id: string, ghost gone: set<string>, ghost refs: set<Ref>)
      requires Left(s0, gone, refs) && id in s0.pids && r == s0.pids[id] && id !in gone
      modifies this
      ensures Left(s0, gone + {id}, refs + {r})
    {
      PrunedMore(Seen(s0), gone, id);
      KeepMore(s0.pids, gone, id);
      NamesMore(s0.names, refs, r);
      assert s.pids[id] == r && NodeOk(s.nodes, s.pids, r);
      var n := s.nodes[r];
      if n.pid.Some? { RemoveNode(n.id); }
      KeepsIdsOn(s0.nodes, old(s.nodes), s.nodes);
      forall q | q in refs ensures Bare(s.nodes, q) { StaysBare(old(s.nodes), s.nodes, q); }
    }

    /** The nodes of pid's subtree, none if pid is nil, the NoSender or unknown. */
    ghost function Doomed(pid: Option<Pid>): set<string>
      requires Ok(s)
      reads this
    {
      if pid.None? || Same(pid.value, noSender) || pid.value.id !in s.pids then {}
      else Subtree(Children(s), pid.value.id)
    }

    /**
     * Removes exactly the subtree: every other node stays as it is but for its edges into the
     * subtree, names of removed nodes go unless another node has taken them.
     */
    method DeleteNode(pid: Option<Pid>)
      requires Ok(s) && NoCycle(s)
      modifies this
      ensures Ok(s) && NoCycle(s)
      ensures
        var gone := old(Doomed(pid));
        && s.pids == Keep(old(s.pids), gone) && Seen(s) == Pruned(old(Seen(s)), gone)
        && s.counter == old(s.counter) - |gone| && KeepsIds(old(s.nodes), s.nodes)
        && s.names == NamesKeep(old(s.names), set k | k in gone :: old(s.pids)[k])
        && Says(s) == Facts(old(s.pids).Keys - gone, Clear(old(Says(s)).under, gone), Clear(old(Says(s)).watches, gone))
        && s.rootNode == old(s.rootNode) && forall k :: k in gone ==> Bare(s.nodes, old(s.pids)[k])
    {
      LeftAtFirst();
      PruneTells(Seen(s), Doomed(pid));
      if pid.None? || Same(pid.value, noSender) || pid.value.id !in s.pids { return; }
      var post, ids := CollectSubtree(s, pid.value.id);
      KeepSize(s.pids, Set(ids));
      RemoveAll(post, ids);
    }

    /** Everything below pid, each node once; nil if pid is nil, the NoSender or unknown. */
    method Descendants(pid: Option<Pid>) returns (r: Option<seq<Pid>>)
      requires Ok(s) && NoCycle(s)
      ensures r.None? <==> pid.None? || Same(pid.value, noSender) || pid.value.id !in s.pids
      ensures r.Some? ==>
                var ps := r.value;
                && (forall i, j :: 0 <= i < j < |ps| ==> ps[i].id != ps[j].id)
                && (forall p :: p in ps ==> p.id in s.pids && s.nodes[s.pids[p.id]].pid == Some(p))
                && (forall x :: Named(ps, x) <==> x in Subtree(Children(s), pid.value.id) - {pid.value.id})
    {
      if pid.None? || Same(pid.value, noSender) || pid.value.id !in s.pids { return None; }
      var post, ids := CollectBelow(s, pid.value.id);
      var ps := Values(s.nodes, s.pids, post, ids);
      forall x ensures Named(ps, x) <==> x in ids {
        if x in ids {
          var j :| 0 <= j < |ids| && ids[j] == x;
          assert ps[j] in ps;
        }
      }
      return Some(ps);
    }

    /** The registered parent, if there is one. */
    method ParentOf(pid: Option<Pid>) returns (r: Option<Pid>)
      requires Ok(s)
      ensures r.Some? ==>
                && pid.Some? && pid.value.id in s.pids && r.value.id in s.pids
                && Seen(s)[pid.value.id].parent == Some(s.pids[r.value.id]) && Seen(s)[r.value.id].pid == r
      ensures pid.Some? && Same(pid.value, noSender) ==> r.None?
      ensures pid.Some? && !Same(pid.value, noSender) && pid.value.id in s.pids && r.None? ==>
                forall k :: k in s.pids ==> Seen(s)[pid.value.id].parent != Some(s.pids[k])
    {
      if pid.None? || Same(pid.value, noSender) || pid.value.id !in s.pids { return None; }
      var n := s.nodes[s.pids[pid.value.id]];
      if n.parent.None? { return None; }
      assert RefOk(s.nodes, s.free, s.pids[pid.value.id]);
      assert NodeOk(s.nodes, s.pids, n.parent.value);
      return s.nodes[n.parent.value].pid;
    }
  }

  /** The child edges with one more leaf. */
  ghost function Grown(g: Graph, parent: string, leaf: string): Graph
    requires parent in g
  {
    g[leaf := {}][parent := g[parent] + {leaf}]
  }

  /** An unconnected node more, and then a link to it. */
  lemma AddedAsLinked(s0: Registry, s1: Registry, s: Registry, p: Pid, c: Pid)
    requires IndexOk(s0.nodes, s0.pids) && IndexOk(s1.nodes, s1.pids) && IndexOk(s.nodes, s.pids)
    requires c.id !in s0.pids && p.id in s0.pids
    requires s1.pids == s0.pids[c.id := s0.free] && s1.names == s0.names[c.name := s0.free]
    requires s1.rootNode == s0.rootNode && KeepsIds(s0.nodes, s1.nodes)
    requires Seen(s1) == Seen(s0)[c.id := NewNode(c)] && Children(s1) == Children(s0)[c.id := {}]
    requires SameIndexes(s1, s) && Seen(s) == LinkedView(s1, p, c)
    requires Children(s) == Children(s1)[p.id := Children(s1)[p.id] + {c.id}]
    ensures AddedUnder(s0, s, p, c)
  {
    AddTells(Seen(s0), s.pids, p, c);
    KeepsIdsOn(s0.nodes, s1.nodes, s.nodes);
  }

  /** A new node can be linked: nobody lists it, and nothing is below it. */
  lemma LinkNew(s: Registry, p: Pid, c: Pid)
    requires Ok(s) && p.id in s.pids && c.id in s.pids && p.id != c.id && Seen(s)[c.id].descendants == map[]
    requires OnlyUnder(Seen(s), p.id, c.id)
    ensures ChildEdges(LinkedView(s, p, c), s.pids) && WatchEdges(LinkedView(s, p, c))
    ensures NoCycle(s) ==> Acyclic(GraphOf(LinkedView(s, p, c)))
    ensures GraphOf(LinkedView(s, p, c)) == Children(s)[p.id := Children(s)[p.id] + {c.id}]
  {
    LinkReady(s, p, c);
    assert Children(s)[c.id] == {};
    NothingBelow(Children(s), c.id, p.id);
  }

  lemma RefsAre(ix: Index, refs: seq<Ref>, ids: seq<string>)
    requires Refs(ix, refs, ids)
    ensures RefSet(refs) == set k | k in Set(ids) :: ix[k]
  {
    forall r | r in RefSet(refs) ensures exists k :: k in Set(ids) && ix[k] == r {
      var i :| 0 <= i < |refs| && refs[i] == r;
      assert ids[i] in Set(ids);
    }
    forall k | k in Set(ids) ensures ix[k] in RefSet(refs) {
      var i :| 0 <= i < |ids| && ids[i] == k;
      assert refs[i] in refs;
    }
  }

  ghost function RefSet(refs: seq<Ref>): set<Ref> {
    set r | r in refs
  }

  lemma Prefix(ids: seq<string>, i: nat)
    requires NoDup(ids) && i < |ids|
    ensures Set(ids[..i + 1]) == Set(ids[..i]) + {ids[i]} && ids[i] !in Set(ids[..i])
  {
    assert ids[..i + 1] == ids[..i] + [ids[i]];
  }

  lemma Suffix(ids: seq<string>, refs: seq<Ref>, i: nat)
    requires NoDup(ids) && |refs| == |ids| && i < |ids|
    ensures Set(ids[i..]) == Set(ids[i + 1..]) + {ids[i]} && ids[i] !in Set(ids[i + 1..])
    ensures RefSet(refs[i..]) == RefSet(refs[i + 1..]) + {refs[i]}
  {
    assert ids[i..] == [ids[i]] + ids[i + 1..] && refs[i..] == [refs[i]] + refs[i + 1..];
  }

  /**
   * A parent that lets go of its only child, is removed, comes back under that child and is
   * then given the child again: the child is attached under the id of the parent it remembers,
   * and the child edges end up in a circle.
   */
  method ReattachInCircle(t: Tree, a: Pid, b: Pid) returns (remembered: string)
    requires Ok(t.s) && NoCycle(t.s) && a.id in t.s.pids && b.id in t.s.pids && a.id != b.id
    requires Children(t.s)[a.id] == {b.id} && !Same(a, t.noSender) && !Same(b, t.noSender)
    modifies t
    ensures Ok(t.s) && !NoCycle(t.s) && remembered == a.id
    ensures remembered in t.s.pids && b.id in Children(t.s)[remembered]
  {
    LetGo(t, a, b);
    Remove(t, a, b);
    ComeBack(t, a, b);
    remembered := t.s.nodes[t.s.nodes[t.s.pids[b.id]].parent.value].id;
    Attach(t, a, b);
  }

  method LetGo(t: Tree, a: Pid, b: Pid)
    requires Ok(t.s) && NoCycle(t.s) && a.id in t.s.pids && b.id in t.s.pids && Children(t.s)[a.id] == {b.id}
    modifies t
    ensures Ok(t.s) && NoCycle(t.s) && t.s.pids == old(t.s.pids) && Remembers(t.s, b.id, a.id)
    ensures Seen(t.s)[a.id].descendants.Keys == {} && Unlisted(Seen(t.s), b.id)
  {
    Shape(t.s);
    ghost var v := Seen(t.s);
    assert v[a.id].descendants.Keys == {b.id} && forall k :: k in v && b.id in Children(t.s)[k] ==> k == a.id;
    assert b.id in v[a.id].descendants && Remembers(t.s, b.id, a.id);
    t.RemoveDescendant(a.id, b.id);
    assert Seen(t.s)[b.id].parent == v[b.id].parent;
    StillRemembers(old(t.s), t.s, b.id, a.id);
  }

  method Remove(t: Tree, a: Pid, b: Pid)
    requires Ok(t.s) && NoCycle(t.s) && a.id in t.s.pids && b.id in t.s.pids && a.id != b.id && !Same(a, t.noSender)
    requires Seen(t.s)[a.id].descendants.Keys == {} && Unlisted(Seen(t.s), b.id) && Remembers(t.s, b.id, a.id)
    modifies t
    ensures Ok(t.s) && NoCycle(t.s) && a.id !in t.s.pids && b.id in t.s.pids && Unlisted(Seen(t.s), b.id)
    ensures Remembers(t.s, b.id, a.id)
  {
    ghost var v := Seen(t.s);
    LeafAlone(Children(t.s), a.id);
    t.DeleteNode(Some(a));
    assert Seen(t.s)[b.id] == Trim(v[b.id], {a.id});
    StillRemembers(old(t.s), t.s, b.id, a.id);
  }

  method ComeBack(t: Tree, a: Pid, b: Pid)
    requires Ok(t.s) && NoCycle(t.s) && a.id !in t.s.pids && b.id in t.s.pids && !Same(b, t.noSender)
    requires Unlisted(Seen(t.s), b.id) && Remembers(t.s, b.id, a.id)
    modifies t
    ensures Ok(t.s) && NoCycle(t.s) && a.id in t.s.pids && b.id in t.s.pids
    ensures Below(t.s, b.id, a.id) && OnlyChildOf(t.s, a.id, b.id) && Remembers(t.s, b.id, a.id)
  {
    ghost var v := Seen(t.s);
    var _ := t.AddNode(Some(b), Some(a));
    NewChild(v, t.s.pids, b, a, Seen(t.s));
    Circle(t.s, a.id, b.id);
    assert Seen(t.s)[b.id].parent == v[b.id].parent;
    StillRemembers(old(t.s), t.s, b.id, a.id);
  }

  method Attach(t: Tree, a: Pid, b: Pid)
    requires Ok(t.s) && NoCycle(t.s) && a.id in t.s.pids && b.id in t.s.pids && !Same(a, t.noSender)
    requires Below(t.s, b.id, a.id) && OnlyChildOf(t.s, a.id, b.id)
    modifies t
    ensures Ok(t.s) && !NoCycle(t.s) && a.id in t.s.pids && b.id in Children(t.s)[a.id]
  {
    var _ := t.AttachNode(Some(a), Some(b));
    assert b.id in Seen(t.s)[a.id].descendants;
  }

  /** A new node under a node that nobody lists. */
  lemma NewChild(v: Nodes, ix: Index, p: Pid, c: Pid, v': Nodes)
    requires p.id in v && c.id !in v && v[c.id := NewNode(c)].Keys == ix.Keys && Unlisted(v, p.id)
    requires v' == Watched(Parented(v[c.id := NewNode(c)], ix, p.id, c.id), c, p)
    ensures c.id in v'[p.id].descendants && Unlisted(v', p.id)
  {
  }

  ghost predicate Unlisted(v: Nodes, x: string) {
    forall k :: k in v ==> x !in v[k].descendants
  }

  lemma Circle(s: Registry, a: string, b: string)
    requires Ok(s) && a in s.pids && b in s.pids && a in Seen(s)[b].descendants && Unlisted(Seen(s), b)
    ensures Below(s, b, a) && OnlyChildOf(s, a, b)
  {
    ReachSelf(Children(s), b);
    ReachChild(Children(s), b, b, a);
  }

  lemma LeafAlone(g: Graph, leaf: string)
    requires leaf in g && g[leaf] == {}
    ensures Subtree(g, leaf) == {leaf}
  {
    ReachSelf(g, leaf);
    forall x | x in g && x != leaf ensures !Reach(g, leaf, x) { NothingBelow(g, leaf, x); }
  }
}
