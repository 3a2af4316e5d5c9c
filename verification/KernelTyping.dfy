/** Indices stay in range along every run. */
module KernelTyping {
  import opened Basics
  import opened Kernel
  import opened KernelMailbox

  predicate ProducerBound(pc: Producer, grains: nat) {
    pc.Ready? || pc.g < grains
  }

  predicate HasGrain(pc: Worker) {
    pc.Begin? || pc.Turn? || pc.CheckEmpty? || pc.ReLoad? || pc.ReCas? || pc.ReTake? || pc.Requeue? || pc.Spill?
  }

  predicate WorkerBound(pc: Worker, grains: nat, workers: nat) {
    && (HasGrain(pc) ==> pc.g < grains)
    && (pc.ProbeSibling? ==> 1 <= pc.i)
    && (pc.Steal? ==> 1 <= pc.i < workers)
  }

  predicate RingBound(ring: seq<nat>, grains: nat) {
    forall i :: 0 <= i < |ring| ==> ring[i] < grains
  }

  predicate Bounds(s: State) {
    && |s.locals| == |s.workers| > 0
    && (forall p :: 0 <= p < |s.producers| ==> ProducerBound(s.producers[p], |s.grains|))
    && (forall w :: 0 <= w < |s.workers| ==> WorkerBound(s.workers[w], |s.grains|, |s.workers|))
    && RingBound(s.global, |s.grains|)
    && (forall w :: 0 <= w < |s.locals| ==> RingBound(s.locals[w], |s.grains|))
  }

  lemma BoundsOfTyped(s: State)
    requires Typed(s)
    ensures Bounds(s)
  {
  }

  lemma TypedOfBounds(s: State)
    requires Bounds(s) && MailInv(s)
    ensures Typed(s)
  {
    forall p | 0 <= p < |s.producers| ensures TypedProducer(s, s.producers[p]) {
      assert ProducerBound(s.producers[p], |s.grains|) && ProducerOk(s.nodes, p, s.producers[p]);
    }
    forall w | 0 <= w < |s.workers| ensures TypedWorker(s, s.workers[w]) {
      assert WorkerBound(s.workers[w], |s.grains|, |s.workers|);
      assert WorkerOk(s.nodes, s.grains, w, s.workers[w]);
      if s.workers[w].Turn? { SpotTyped(s, w); }
    }
    forall g | 0 <= g < |s.grains| ensures s.grains[g].box.head < |s.nodes| && s.grains[g].box.tail < |s.nodes| {
      assert GrainOk(s.nodes, s.grains[g], g);
    }
    forall w, i | 0 <= w < |s.locals| && 0 <= i < |s.locals[w]| ensures s.locals[w][i] < |s.grains| {
      assert RingBound(s.locals[w], |s.grains|);
    }
  }

  lemma SpotTyped(s: State, w: nat)
    requires MailInv(s) && w < |s.workers| && s.workers[w].Turn? && s.workers[w].g < |s.grains|
    ensures TypedSpot(s, s.grains[s.workers[w].g], s.workers[w].at)
  {
    var pc := s.workers[w];
    assert WorkerOk(s.nodes, s.grains, w, pc) && GrainOk(s.nodes, s.grains[pc.g], pc.g);
    assert NodeOk(s, s.grains[pc.g].box.head);
    var live := s.grains[pc.g].box.live;
    assert |live| > 1 ==> s.nodes[live[0]].after == Some(live[1]);
  }

  lemma EffectKeepsRings(s: State, e: Effect)
    requires TypedEffect(s, e) && Bounds(s)
    ensures RingBound(Apply(s, e).global, |s.grains|)
    ensures forall w :: 0 <= w < |Apply(s, e).locals| ==> RingBound(Apply(s, e).locals[w], |s.grains|)
  {
  }

  lemma EffectKeepsWorkers(s: State, e: Effect)
    requires TypedEffect(s, e) && Bounds(s)
    ensures |Apply(s, e).workers| == |s.workers|
    ensures forall w :: 0 <= w < |s.workers| ==> WorkerBound(Apply(s, e).workers[w], |s.grains|, |s.workers|)
  {
  }

  lemma ProduceBound(s: State, p: nat, flag: bool, wake: nat)
    requires p < |s.producers| && !s.producers[p].Ready? && TypedProducer(s, s.producers[p])
    ensures ProducerBound(ProduceMove(s, p, flag, wake).pc, |s.grains|)
  {
  }

  lemma WorkBound(s: State, w: nat, flag: bool, wake: nat)
    requires w < |s.workers| && !s.workers[w].Waiting? && TypedWorker(s, s.workers[w]) && Bounds(s)
    ensures WorkerBound(WorkMove(s, w, flag, wake).pc, |s.grains|, |s.workers|)
  {
    assert forall v :: 0 <= v < |s.locals| ==> RingBound(s.locals[v], |s.grains|);
  }

  lemma StepKeepsBounds(s: State, a: Action)
    requires Typed(s) && Enabled(s, a)
    ensures Bounds(Next(s, a))
  {
    BoundsOfTyped(s);
    match a
    case Receive(_, _, _, _) =>
    case Produce(p, flag, wake) =>
      var move := ProduceMove(s, p, flag, wake);
      ProduceTyped(s, a);
      ApplyKeepsSizes(s, move.effect);
      EffectKeepsRings(s, move.effect);
      EffectKeepsWorkers(s, move.effect);
      ProduceBound(s, p, flag, wake);
    case Work(w, flag, wake) =>
      var move := WorkMove(s, w, flag, wake);
      WorkTyped(s, a);
      ApplyKeepsSizes(s, move.effect);
      EffectKeepsRings(s, move.effect);
      EffectKeepsWorkers(s, move.effect);
      WorkBound(s, w, flag, wake);
  }
}
