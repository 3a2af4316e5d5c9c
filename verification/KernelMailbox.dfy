/**
  The mailbox list: what its pointers, the threads that use it and its history agree on
  in every interleaving.
 */
module KernelMailbox {
  import opened Basics
  import opened Kernel
  import opened KernelTokens

  function Messages(nodes: seq<Node>, ids: seq<nat>): seq<Message>
    requires forall i :: 0 <= i < |ids| ==> ids[i] < |nodes|
  {
    seq(|ids|, i requires 0 <= i < |ids| => nodes[ids[i]].msg)
  }

  /** The list from head to tail is `live`: distinct nodes of this mailbox in tail-swap order. */
  predicate ChainOk(nodes: seq<Node>, box: Box, g: nat) {
    var live := box.live;
    && |live| > 0 && live[0] == box.head && live[|live| - 1] == box.tail
    && (forall i :: 0 <= i < |live| ==> live[i] < |nodes| && nodes[live[i]].home == Boxed(g))
    && (forall i, j :: 0 <= i < j < |live| ==> live[i] != live[j])
    && (forall i :: 0 <= i < |live| - 1 ==> nodes[live[i]].after == Some(live[i + 1]))
    && nodes[box.tail].after == None
  }

  /**
    In a mailbox, a link is either already written to the right node or still to be
    written by the one producer that swapped the tail.
   */
  predicate NodeOk(s: State, n: nat)
    requires n < |s.nodes|
  {
    var node := s.nodes[n];
    node.home.Boxed? ==>
      && node.next in {None, node.after}
      && (node.next != node.after ==>
            node.linker < |s.producers| && s.producers[node.linker] == Link(node.home.grain, node.after.value, n))
  }

  predicate ProducerOk(nodes: seq<Node>, p: nat, pc: Producer) {
    match pc
    case Check(_, n) => n < |nodes| && nodes[n].home == Held(p) && nodes[n].after == None
    case ReserveLoad(_, n) => n < |nodes| && nodes[n].home == Held(p) && nodes[n].after == None
    case ReserveCas(_, n, _) => n < |nodes| && nodes[n].home == Held(p) && nodes[n].after == None
    case ClearNext(_, n) => n < |nodes| && nodes[n].home == Held(p) && nodes[n].after == None
    case Swap(_, n) => n < |nodes| && nodes[n].home == Held(p) && nodes[n].after == None && nodes[n].next == None
    case Link(g, n, prev) =>
      && n < |nodes| && prev < |nodes| && nodes[prev].home == Boxed(g)
      && nodes[prev].next == None && nodes[prev].after == Some(n) && nodes[prev].linker == p
    case _ => true
  }

  predicate SpotOk(nodes: seq<Node>, box: Box, w: nat, at: Spot) {
    match at
    case LoadHead => box.inHand == []
    case LoadNext(h) => h == box.head && box.inHand == []
    case LoadTail(h) => h == box.head && box.inHand == []
    case Spin(h) => h == box.head != box.tail && box.inHand == []
    case StoreHead(h, nx) => h == box.head < |nodes| && nodes[h].next == Some(nx) && box.inHand == []
    case Decrement(h, nx) => OldSentinel(nodes, box, w, h, nx)
    case Unlink(h, nx) => OldSentinel(nodes, box, w, h, nx)
    case Recycle(h, nx) => OldSentinel(nodes, box, w, h, nx)
    case Handle(nx) => nx == box.head < |nodes| && box.inHand == [nodes[nx].msg]
    case GoIdle => box.inHand == []
  }

  /** h has left the mailbox and belongs to worker w; nx is the new sentinel and carries the message. */
  predicate OldSentinel(nodes: seq<Node>, box: Box, w: nat, h: nat, nx: nat) {
    && h < |nodes| && nodes[h].home == Retired(w)
    && nx == box.head < |nodes| && box.inHand == [nodes[nx].msg]
  }

  predicate WorkerOk(nodes: seq<Node>, grains: seq<Grain>, w: nat, pc: Worker) {
    pc.Turn? ==> pc.g < |grains| && SpotOk(nodes, grains[pc.g].box, w, pc.at)
  }

  /** Accepted messages are the handled ones, the one in hand, and the held ones, in that order. */
  predicate HistoryOk(nodes: seq<Node>, gr: Grain)
    requires |gr.box.live| > 0 && forall i :: 0 <= i < |gr.box.live| ==> gr.box.live[i] < |nodes|
  {
    && gr.box.accepted == gr.box.handled + gr.box.inHand + Messages(nodes, gr.box.live[1..])
    && (!gr.sched.Processing? ==> gr.box.inHand == [])
  }

  predicate GrainOk(nodes: seq<Node>, gr: Grain, g: nat) {
    ChainOk(nodes, gr.box, g) && HistoryOk(nodes, gr)
  }

  predicate MailInv(s: State) {
    && (forall g :: 0 <= g < |s.grains| ==> GrainOk(s.nodes, s.grains[g], g))
    && (forall n :: 0 <= n < |s.nodes| ==> NodeOk(s, n))
    && (forall p :: 0 <= p < |s.producers| ==> ProducerOk(s.nodes, p, s.producers[p]))
    && (forall w :: 0 <= w < |s.workers| ==> WorkerOk(s.nodes, s.grains, w, s.workers[w]))
    && (forall n :: n in s.pool ==> n < |s.nodes| && s.nodes[n].home == Loose)
  }

  // ---- steps that do not touch the list ------------------------------------------

  predicate SameLists(s: State, s': State) {
    && s'.nodes == s.nodes && s'.pool == s.pool
    && |s'.grains| == |s.grains| && |s'.producers| == |s.producers| && |s'.workers| == |s.workers|
    && (forall g :: 0 <= g < |s.grains| ==> s'.grains[g].box == s.grains[g].box)
  }

  lemma QuietKeepsMail(s: State, s': State)
    requires MailInv(s) && SameLists(s, s')
    requires forall p :: 0 <= p < |s.producers| ==>
      s'.producers[p] == s.producers[p] || (!s.producers[p].Link? && ProducerOk(s.nodes, p, s'.producers[p]))
    requires forall w :: 0 <= w < |s.workers| ==>
      s'.workers[w] == s.workers[w] || WorkerOk(s.nodes, s.grains, w, s'.workers[w])
    requires forall g :: 0 <= g < |s.grains| ==> !s'.grains[g].sched.Processing? ==> s.grains[g].box.inHand == []
    ensures MailInv(s')
  {
    forall n | 0 <= n < |s'.nodes| ensures NodeOk(s', n) { assert NodeOk(s, n); }
    forall g | 0 <= g < |s'.grains| ensures GrainOk(s'.nodes, s'.grains[g], g) {
      assert GrainOk(s.nodes, s.grains[g], g);
    }
  }

  // ---- steps that touch one node outside the lists, or one link --------------------

  /** A node's place in a list and its message do not change. */
  predicate SamePlace(a: Node, b: Node) {
    a.home == b.home && a.after == b.after && a.msg == b.msg
  }

  lemma GrainFrame(nodes: seq<Node>, nodes': seq<Node>, gr: Grain, g: nat)
    requires GrainOk(nodes, gr, g) && |nodes| <= |nodes'|
    requires forall n :: 0 <= n < |nodes| && nodes[n].home == Boxed(g) ==> SamePlace(nodes[n], nodes'[n])
    ensures GrainOk(nodes', gr, g)
  {
    forall i | 0 <= i < |gr.box.live| ensures SamePlace(nodes[gr.box.live[i]], nodes'[gr.box.live[i]]) {}
    assert Messages(nodes', gr.box.live[1..]) == Messages(nodes, gr.box.live[1..]);
  }

  /** The nodes in a list are as before; at most links change there. */
  lemma GrainsFrame(s: State, s': State)
    requires MailInv(s) && s'.grains == s.grains && |s.nodes| <= |s'.nodes|
    requires forall n :: 0 <= n < |s.nodes| && s.nodes[n].home.Boxed? ==> SamePlace(s.nodes[n], s'.nodes[n])
    ensures forall g :: 0 <= g < |s'.grains| ==> GrainOk(s'.nodes, s'.grains[g], g)
  {
    forall g | 0 <= g < |s'.grains| ensures GrainOk(s'.nodes, s'.grains[g], g) {
      assert GrainOk(s.nodes, s.grains[g], g);
      GrainFrame(s.nodes, s'.nodes, s.grains[g], g);
    }
  }

  /** Changing one node that is in no list, on behalf of the thread that holds it. */
  lemma PrivateNodeKeepsMail(s: State, s': State, n: nat)
    requires MailInv(s) && n < |s.nodes| == |s'.nodes| && !s.nodes[n].home.Boxed? && !s'.nodes[n].home.Boxed?
    requires s'.grains == s.grains && |s'.producers| == |s.producers| && |s'.workers| == |s.workers|
    requires forall k :: 0 <= k < |s.nodes| && k != n ==> s'.nodes[k] == s.nodes[k]
    requires forall p :: 0 <= p < |s.producers| && s'.producers[p] == s.producers[p] ==> s.nodes[n].home != Held(p)
    requires forall p :: 0 <= p < |s.producers| ==>
      s'.producers[p] == s.producers[p] || (!s.producers[p].Link? && ProducerOk(s'.nodes, p, s'.producers[p]))
    requires forall w :: 0 <= w < |s.workers| && s'.workers[w] == s.workers[w] ==> s.nodes[n].home != Retired(w)
    requires forall w :: 0 <= w < |s.workers| ==>
      s'.workers[w] == s.workers[w] || WorkerOk(s'.nodes, s'.grains, w, s'.workers[w])
    requires forall k :: k in s'.pool ==> k < |s.nodes| && s'.nodes[k].home == Loose
    ensures MailInv(s')
  {
    GrainsFrame(s, s');
    forall k | 0 <= k < |s'.nodes| ensures NodeOk(s', k) { assert NodeOk(s, k); }
    forall p | 0 <= p < |s'.producers| ensures ProducerOk(s'.nodes, p, s'.producers[p]) {
      assert ProducerOk(s.nodes, p, s.producers[p]);
    }
    forall w | 0 <= w < |s'.workers| ensures WorkerOk(s'.nodes, s'.grains, w, s'.workers[w]) {
      assert WorkerOk(s.nodes, s.grains, w, s.workers[w]);
      if s'.workers[w].Turn? { assert GrainOk(s.nodes, s.grains[s'.workers[w].g], s'.workers[w].g); }
    }
  }

  /** prev.next.Store(value): the link that its producer owes. */
  lemma LinkKeepsMail(s: State, s': State, p: nat, pc: Producer)
    requires MailInv(s) && p < |s.producers| && s.producers[p].Link?
    requires pc.Count? || pc.TryLoad?
    requires TypedProducer(s, s.producers[p])
    requires s' == Apply(s, SetNext(s.producers[p].prev, Some(s.producers[p].n))).(producers := s.producers[p := pc])
    ensures MailInv(s')
  {
    var prev := s.producers[p].prev;
    assert ProducerOk(s.nodes, p, s.producers[p]);
    GrainsFrame(s, s');
    forall k | 0 <= k < |s'.nodes| ensures NodeOk(s', k) { assert NodeOk(s, k); }
    forall q | 0 <= q < |s'.producers| ensures ProducerOk(s'.nodes, q, s'.producers[q]) {
      assert ProducerOk(s.nodes, q, s.producers[q]);
    }
    forall w | 0 <= w < |s'.workers| ensures WorkerOk(s'.nodes, s'.grains, w, s'.workers[w]) {
      assert WorkerOk(s.nodes, s.grains, w, s.workers[w]);
    }
  }

  // ---- steps that change a list -------------------------------------------------------

  /** tail.Swap(value) appends the node; its link is still owed. */
  lemma SwapKeepsMail(s: State, s': State, p: nat)
    requires MailInv(s) && p < |s.producers| && s.producers[p].Swap? && TypedProducer(s, s.producers[p])
    requires var pc := s.producers[p];
      && TypedEffect(s, SwapTail(pc.g, pc.n, p))
      && s' == Apply(s, SwapTail(pc.g, pc.n, p))
               .(producers := s.producers[p := Link(pc.g, pc.n, s.grains[pc.g].box.tail)])
    ensures MailInv(s')
  {
    var pc := s.producers[p];
    assert ProducerOk(s.nodes, p, pc);
    var gr, gr' := s.grains[pc.g], s'.grains[pc.g];
    assert GrainOk(s.nodes, gr, pc.g) && NodeOk(s, gr.box.tail);
    AppendKeepsGrain(s.nodes, s'.nodes, gr, gr', pc.g, pc.n);
    forall g | 0 <= g < |s'.grains| ensures GrainOk(s'.nodes, s'.grains[g], g) {
      if g != pc.g {
        assert GrainOk(s.nodes, s.grains[g], g);
        GrainFrame(s.nodes, s'.nodes, s.grains[g], g);
      }
    }
    forall k | 0 <= k < |s'.nodes| ensures NodeOk(s', k) { assert NodeOk(s, k); }
    SwapKeepsThreads(s, s', p);
  }

  lemma SwapKeepsThreads(s: State, s': State, p: nat)
    requires MailInv(s) && p < |s.producers| && s.producers[p].Swap? && TypedProducer(s, s.producers[p])
    requires var pc := s.producers[p];
      && TypedEffect(s, SwapTail(pc.g, pc.n, p))
      && s' == Apply(s, SwapTail(pc.g, pc.n, p))
               .(producers := s.producers[p := Link(pc.g, pc.n, s.grains[pc.g].box.tail)])
    ensures forall q :: 0 <= q < |s'.producers| ==> ProducerOk(s'.nodes, q, s'.producers[q])
    ensures forall w :: 0 <= w < |s'.workers| ==> WorkerOk(s'.nodes, s'.grains, w, s'.workers[w])
  {
    var pc := s.producers[p];
    var gr := s.grains[pc.g];
    assert ProducerOk(s.nodes, p, pc);
    assert GrainOk(s.nodes, gr, pc.g) && NodeOk(s, gr.box.tail);
    forall q | 0 <= q < |s'.producers| ensures ProducerOk(s'.nodes, q, s'.producers[q]) {
      assert ProducerOk(s.nodes, q, s.producers[q]);
    }
    forall w | 0 <= w < |s'.workers| ensures WorkerOk(s'.nodes, s'.grains, w, s'.workers[w]) {
      assert WorkerOk(s.nodes, s.grains, w, s.workers[w]);
    }
  }

  lemma AppendKeepsGrain(nodes: seq<Node>, nodes': seq<Node>, gr: Grain, gr': Grain, g: nat, n: nat)
    requires GrainOk(nodes, gr, g) && |nodes'| == |nodes| && n < |nodes| && !nodes[n].home.Boxed?
    requires gr' == gr.(box := gr.box.(tail := n, live := gr.box.live + [n],
                                       accepted := gr.box.accepted + [nodes[n].msg]))
    requires nodes'[n].home == Boxed(g) && nodes'[n].after == None && nodes'[n].msg == nodes[n].msg
    requires nodes'[gr.box.tail] == nodes[gr.box.tail].(after := Some(n), linker := nodes'[gr.box.tail].linker)
    requires forall k :: 0 <= k < |nodes| && k != n && k != gr.box.tail ==> nodes'[k] == nodes[k]
    ensures GrainOk(nodes', gr', g)
  {
    var live, live' := gr.box.live, gr'.box.live;
    assert live'[1..] == live[1..] + [n];
    MoreMessages(nodes, nodes', live[1..], n);
    AppendKeepsChain(nodes, nodes', gr.box, gr'.box, g, n);
  }

  lemma MoreMessages(nodes: seq<Node>, nodes': seq<Node>, ids: seq<nat>, n: nat)
    requires n < |nodes| == |nodes'| && nodes'[n].msg == nodes[n].msg
    requires forall i :: 0 <= i < |ids| ==> ids[i] < |nodes| && nodes'[ids[i]].msg == nodes[ids[i]].msg
    ensures Messages(nodes', ids + [n]) == Messages(nodes, ids) + [nodes[n].msg]
  {
  }

  lemma AppendKeepsChain(nodes: seq<Node>, nodes': seq<Node>, box: Box, box': Box, g: nat, n: nat)
    requires ChainOk(nodes, box, g) && |nodes'| == |nodes| && n < |nodes| && !nodes[n].home.Boxed?
    requires box'.tail == n && box'.head == box.head && box'.live == box.live + [n]
    requires nodes'[n].home == Boxed(g) && nodes'[n].after == None
    requires nodes'[box.tail] == nodes[box.tail].(after := Some(n), linker := nodes'[box.tail].linker)
    requires forall k :: 0 <= k < |nodes| && k != n && k != box.tail ==> nodes'[k] == nodes[k]
    ensures ChainOk(nodes', box', g)
  {
  }

  /** head.Store(next) drops the old sentinel; next is the node that was swapped in after it. */
  lemma AdvanceKeepsMail(s: State, s': State, w: nat)
    requires MailInv(s) && w < |s.workers| && s.workers[w].Turn? && s.workers[w].at.StoreHead?
    requires TypedWorker(s, s.workers[w]) && HandFits(s, s.workers[w])
    requires forall v :: 0 <= v < |s.workers| && v != w ==> !(s.workers[v].Turn? && s.workers[v].g == s.workers[w].g)
    requires var pc := s.workers[w];
      && TypedEffect(s, AdvanceHead(pc.g, pc.at.h, pc.at.nx, w))
      && s' == Apply(s, AdvanceHead(pc.g, pc.at.h, pc.at.nx, w))
               .(workers := s.workers[w := Turn(pc.g, pc.left, Decrement(pc.at.h, pc.at.nx))])
    ensures MailInv(s')
  {
    var pc := s.workers[w];
    var h := pc.at.h;
    assert WorkerOk(s.nodes, s.grains, w, pc);
    var gr, gr' := s.grains[pc.g], s'.grains[pc.g];
    assert GrainOk(s.nodes, gr, pc.g) && NodeOk(s, h);
    DropKeepsGrain(s.nodes, s'.nodes, gr, gr', pc.g, h, pc.at.nx);
    forall g | 0 <= g < |s'.grains| ensures GrainOk(s'.nodes, s'.grains[g], g) {
      if g != pc.g {
        assert GrainOk(s.nodes, s.grains[g], g);
        GrainFrame(s.nodes, s'.nodes, s.grains[g], g);
      }
    }
    forall k | 0 <= k < |s'.nodes| ensures NodeOk(s', k) { assert NodeOk(s, k); }
    AdvanceKeepsThreads(s, s', w);
  }

  lemma AdvanceKeepsThreads(s: State, s': State, w: nat)
    requires MailInv(s) && w < |s.workers| && s.workers[w].Turn? && s.workers[w].at.StoreHead?
    requires TypedWorker(s, s.workers[w]) && HandFits(s, s.workers[w])
    requires forall v :: 0 <= v < |s.workers| && v != w ==> !(s.workers[v].Turn? && s.workers[v].g == s.workers[w].g)
    requires var pc := s.workers[w];
      && TypedEffect(s, AdvanceHead(pc.g, pc.at.h, pc.at.nx, w))
      && s' == Apply(s, AdvanceHead(pc.g, pc.at.h, pc.at.nx, w))
               .(workers := s.workers[w := Turn(pc.g, pc.left, Decrement(pc.at.h, pc.at.nx))])
    ensures forall q :: 0 <= q < |s'.producers| ==> ProducerOk(s'.nodes, q, s'.producers[q])
    ensures forall v :: 0 <= v < |s'.workers| ==> WorkerOk(s'.nodes, s'.grains, v, s'.workers[v])
  {
    var pc := s.workers[w];
    assert WorkerOk(s.nodes, s.grains, w, pc);
    assert GrainOk(s.nodes, s.grains[pc.g], pc.g) && NodeOk(s, pc.at.h);
    forall q | 0 <= q < |s'.producers| ensures ProducerOk(s'.nodes, q, s'.producers[q]) {
      assert ProducerOk(s.nodes, q, s.producers[q]);
    }
    forall v | 0 <= v < |s'.workers| ensures WorkerOk(s'.nodes, s'.grains, v, s'.workers[v]) {
      assert WorkerOk(s.nodes, s.grains, v, s.workers[v]);
      if s.workers[v].Turn? { assert GrainOk(s.nodes, s.grains[s.workers[v].g], s.workers[v].g); }
    }
  }

  lemma DropKeepsGrain(nodes: seq<Node>, nodes': seq<Node>, gr: Grain, gr': Grain, g: nat, h: nat, nx: nat)
    requires GrainOk(nodes, gr, g) && gr.sched.Processing? && h == gr.box.head && gr.box.inHand == []
    requires |nodes'| == |nodes| && nodes[h].after == Some(nx) && nx < |nodes|
    requires gr' == gr.(box := gr.box.(head := nx, live := gr.box.live[1..], inHand := [nodes[nx].msg]))
    requires forall k :: 0 <= k < |nodes| && k != h ==> nodes'[k] == nodes[k]
    ensures GrainOk(nodes', gr', g)
  {
    var live := gr.box.live;
    assert live[0] == h && |live| > 1 && live[1] == nx;
    assert live[1..] == [nx] + live[2..] && live[1..][1..] == live[2..];
    assert Messages(nodes, live[1..]) == [nodes[nx].msg] + Messages(nodes', live[2..]);
  }

  /** dispatchOne reads the message that was dequeued and moves it to the handled ones. */
  lemma FinishKeepsMail(s: State, s': State, w: nat)
    requires MailInv(s) && w < |s.workers| && s.workers[w].Turn? && s.workers[w].at.Handle?
    requires TypedWorker(s, s.workers[w])
    requires forall v :: 0 <= v < |s.workers| && v != w ==> !(s.workers[v].Turn? && s.workers[v].g == s.workers[w].g)
    requires var pc := s.workers[w];
      s' == Apply(s, Finish(pc.g, pc.at.nx)).(workers := s.workers[w := Turn(pc.g, pc.left, LoadHead)])
    ensures MailInv(s')
  {
    var pc := s.workers[w];
    assert WorkerOk(s.nodes, s.grains, w, pc);
    forall g | 0 <= g < |s'.grains| ensures GrainOk(s'.nodes, s'.grains[g], g) {
      assert GrainOk(s.nodes, s.grains[g], g);
      if g == pc.g { FinishKeepsGrain(s.nodes, s.grains[g], s'.grains[g], g, s.nodes[pc.at.nx].msg); }
    }
    forall k | 0 <= k < |s'.nodes| ensures NodeOk(s', k) { assert NodeOk(s, k); }
    FinishKeepsWorkers(s, s', w);
  }

  lemma FinishKeepsGrain(nodes: seq<Node>, gr: Grain, gr': Grain, g: nat, m: Message)
    requires GrainOk(nodes, gr, g) && gr.box.inHand == [m]
    requires gr' == gr.(box := gr.box.(handled := gr.box.handled + [m], inHand := []))
    ensures GrainOk(nodes, gr', g)
  {
    assert gr'.box.handled + gr'.box.inHand == gr.box.handled + gr.box.inHand;
  }

  lemma FinishKeepsWorkers(s: State, s': State, w: nat)
    requires MailInv(s) && w < |s.workers| && s.workers[w].Turn? && s.workers[w].at.Handle?
    requires TypedWorker(s, s.workers[w])
    requires forall v :: 0 <= v < |s.workers| && v != w ==> !(s.workers[v].Turn? && s.workers[v].g == s.workers[w].g)
    requires var pc := s.workers[w];
      s' == Apply(s, Finish(pc.g, pc.at.nx)).(workers := s.workers[w := Turn(pc.g, pc.left, LoadHead)])
    ensures forall v :: 0 <= v < |s'.workers| ==> WorkerOk(s'.nodes, s'.grains, v, s'.workers[v])
  {
    forall v | 0 <= v < |s'.workers| ensures WorkerOk(s'.nodes, s'.grains, v, s'.workers[v]) {
      assert WorkerOk(s.nodes, s.grains, v, s.workers[v]);
    }
  }
}
