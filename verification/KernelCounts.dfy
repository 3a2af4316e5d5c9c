/**
  What the length counter says of the held messages, and the reclaim rule that keeps a
  message from being stranded.
 */
module KernelCounts {
  import opened Basics
  import opened Kernel
  import opened KernelTokens
  import opened Counting

  /** Bounded mode: a slot is reserved in len and the node is not yet in the list. */
  function Reserved(pc: Producer, g: nat): nat {
    Bit((pc.ClearNext? || pc.Swap?) && pc.g == g)
  }

  /** Unbounded mode: the node is in the list and not yet in len. */
  function Uncounted(pc: Producer, g: nat): nat {
    Bit((pc.Link? || pc.Count?) && pc.g == g)
  }

  /** The node has left the list and is still in len. */
  function Popped(pc: Worker, g: nat): nat {
    Bit(pc.Turn? && pc.g == g && pc.at.Decrement?)
  }

  function HeldCount(s: State, g: nat): int
    requires g < |s.grains|
  {
    |s.grains[g].box.live| - 1
  }

  /** What the length counter is worth in terms of held messages and threads part-way through. */
  predicate LenOk(s: State, g: nat)
    requires g < |s.grains|
  {
    var gr := s.grains[g];
    if gr.capacity > 0 then
      && gr.len == HeldCount(s, g) + Total(Reserved, s.producers, g) + Total(Popped, s.workers, g)
      && gr.len <= gr.capacity
    else
      gr.len == HeldCount(s, g) - Total(Uncounted, s.producers, g) + Total(Popped, s.workers, g)
  }

  /** The reservation loop runs in bounded mode only, the late count in unbounded mode only. */
  predicate ModeOk(grains: seq<Grain>, pc: Producer) {
    && (pc.ReserveLoad? || pc.ReserveCas? ==> pc.g < |grains| && grains[pc.g].capacity > 0)
    && (pc.ReserveCas? ==> pc.g < |grains| && pc.seen < grains[pc.g].capacity)
    && (pc.Count? ==> pc.g < |grains| && grains[pc.g].capacity <= 0)
  }

  predicate LenInv(s: State) {
    && (forall p :: 0 <= p < |s.producers| ==> ModeOk(s.grains, s.producers[p]))
    && (forall g :: 0 <= g < |s.grains| ==> LenOk(s, g))
  }

  function LenDelta(e: Effect, g: nat): int {
    if e.AddLen? && e.g == g then e.d else 0
  }

  function HeldDelta(e: Effect, g: nat): int {
    Bit(e.SwapTail? && e.g == g) - Bit(e.AdvanceHead? && e.g == g)
  }

  lemma ApplyCounts(s: State, e: Effect, g: nat)
    requires TypedEffect(s, e) && g < |s.grains|
    ensures |Apply(s, e).grains| == |s.grains|
    ensures Apply(s, e).grains[g].capacity == s.grains[g].capacity
    ensures Apply(s, e).grains[g].len == s.grains[g].len + LenDelta(e, g)
    ensures HeldCount(Apply(s, e), g) == HeldCount(s, g) + HeldDelta(e, g)
  {
  }

  lemma ApplyPopped(s: State, e: Effect, g: nat)
    requires TypedEffect(s, e)
    ensures |Apply(s, e).workers| == |s.workers|
    ensures Total(Popped, Apply(s, e).workers, g) == Total(Popped, s.workers, g)
  {
    if Apply(s, e).workers != s.workers { TotalUpdate(Popped, s.workers, g, e.wake, Signalled); }
  }

  lemma ProduceLenBalance(s: State, p: nat, flag: bool, wake: nat, g: nat)
    requires p < |s.producers| && !s.producers[p].Ready? && TypedProducer(s, s.producers[p]) && g < |s.grains|
    requires ModeOk(s.grains, s.producers[p])
    ensures
      var pc, gr, move := s.producers[p], s.grains[g], ProduceMove(s, p, flag, wake);
      var e := move.effect;
      && ModeOk(s.grains, move.pc)
      && (gr.capacity > 0 ==>
            && LenDelta(e, g) == HeldDelta(e, g) + Reserved(move.pc, g) - Reserved(pc, g)
            && (LenDelta(e, g) > 0 ==> gr.len < gr.capacity && LenDelta(e, g) == 1))
      && (gr.capacity <= 0 ==> LenDelta(e, g) == HeldDelta(e, g) - Uncounted(move.pc, g) + Uncounted(pc, g))
  {
  }

  lemma WorkLenBalance(s: State, w: nat, flag: bool, wake: nat, g: nat)
    requires w < |s.workers| == |s.locals| && !s.workers[w].Waiting? && TypedWorker(s, s.workers[w])
    ensures var move := WorkMove(s, w, flag, wake);
      && LenDelta(move.effect, g) == HeldDelta(move.effect, g) + Popped(move.pc, g) - Popped(s.workers[w], g)
      && LenDelta(move.effect, g) <= 0
  {
  }

  lemma ProducerMoveKeepsLen(s: State, p: nat, pc: Producer, e: Effect, g: nat)
    requires p < |s.producers| && TypedEffect(s, e) && g < |s.grains| && LenOk(s, g)
    requires s.grains[g].capacity > 0 ==>
      && LenDelta(e, g) == HeldDelta(e, g) + Reserved(pc, g) - Reserved(s.producers[p], g)
      && (LenDelta(e, g) > 0 ==> s.grains[g].len < s.grains[g].capacity && LenDelta(e, g) == 1)
    requires s.grains[g].capacity <= 0 ==>
      LenDelta(e, g) == HeldDelta(e, g) - Uncounted(pc, g) + Uncounted(s.producers[p], g)
    ensures g < |Apply(s, e).grains| && LenOk(Apply(s, e).(producers := s.producers[p := pc]), g)
  {
    ApplyCounts(s, e, g);
    ApplyPopped(s, e, g);
    TotalUpdate(Reserved, s.producers, g, p, pc);
    TotalUpdate(Uncounted, s.producers, g, p, pc);
  }

  lemma WorkerMoveKeepsLen(s: State, w: nat, pc: Worker, e: Effect, g: nat)
    requires w < |s.workers| && TypedEffect(s, e) && g < |s.grains| && LenOk(s, g) && !s.workers[w].Waiting?
    requires LenDelta(e, g) == HeldDelta(e, g) + Popped(pc, g) - Popped(s.workers[w], g)
    requires LenDelta(e, g) <= 0
    ensures |Apply(s, e).workers| == |s.workers| && g < |Apply(s, e).grains|
    ensures LenOk(Apply(s, e).(workers := Apply(s, e).workers[w := pc]), g)
  {
    ApplyCounts(s, e, g);
    ApplyPopped(s, e, g);
    ApplyKeepsSizes(s, e);
    TotalUpdate(Popped, Apply(s, e).workers, g, w, pc);
  }

  lemma StepKeepsLen(s: State, a: Action)
    requires Typed(s) && Enabled(s, a) && LenInv(s)
    ensures LenInv(Next(s, a))
  {
    match a
    case Receive(p, _, _, _) => ReceiveKeepsLen(s, a);
    case Produce(p, flag, wake) => ProduceKeepsLen(s, a);
    case Work(w, flag, wake) => WorkKeepsLen(s, a);
  }

  lemma ReceiveKeepsLen(s: State, a: Action)
    requires Typed(s) && Enabled(s, a) && LenInv(s) && a.Receive?
    ensures LenInv(Next(s, a))
  {
    forall g | 0 <= g < |s.grains| ensures LenOk(Next(s, a), g) {
      assert LenOk(s, g);
      TotalUpdate(Reserved, s.producers, g, a.p, Next(s, a).producers[a.p]);
      TotalUpdate(Uncounted, s.producers, g, a.p, Next(s, a).producers[a.p]);
    }
  }

  lemma ProduceKeepsLen(s: State, a: Action)
    requires Typed(s) && Enabled(s, a) && LenInv(s) && a.Produce?
    ensures LenInv(Next(s, a))
  {
    var move := ProduceMove(s, a.p, a.flag, a.wake);
    ProduceTyped(s, a);
    ApplyKeepsSizes(s, move.effect);
    forall g | 0 <= g < |s.grains| ensures LenOk(Next(s, a), g) {
      ProduceLenBalance(s, a.p, a.flag, a.wake, g);
      ProducerMoveKeepsLen(s, a.p, move.pc, move.effect, g);
    }
    KeepsModes(s, move.effect);
    ProduceLenBalance(s, a.p, a.flag, a.wake, s.producers[a.p].g);
  }

  lemma WorkKeepsLen(s: State, a: Action)
    requires Typed(s) && Enabled(s, a) && LenInv(s) && a.Work?
    ensures LenInv(Next(s, a))
  {
    var move := WorkMove(s, a.w, a.flag, a.wake);
    WorkTyped(s, a);
    ApplyKeepsSizes(s, move.effect);
    forall g | 0 <= g < |s.grains| ensures LenOk(Next(s, a), g) {
      WorkLenBalance(s, a.w, a.flag, a.wake, g);
      WorkerMoveKeepsLen(s, a.w, move.pc, move.effect, g);
    }
    KeepsModes(s, move.effect);
  }

  lemma KeepsModes(s: State, e: Effect)
    requires TypedEffect(s, e)
    ensures forall pc :: ModeOk(s.grains, pc) ==> ModeOk(Apply(s, e).grains, pc)
  {
    forall pc | ModeOk(s.grains, pc) ensures ModeOk(Apply(s, e).grains, pc) {
      if !pc.Ready? && pc.g < |s.grains| { ApplyCounts(s, e, pc.g); }
    }
  }

  // ---- the reclaim rule ------------------------------------------------------------

  /** The producer has put a message in the list and has not yet decided about scheduling. */
  function Announcing(pc: Producer, g: nat): nat {
    Bit((pc.Link? || pc.Count? || pc.TryLoad? || pc.TryCas?) && pc.g == g)
  }

  /** The worker went Idle and is still inside finishOrReclaim. */
  function Rechecking(pc: Worker, g: nat): nat {
    Bit((pc.CheckEmpty? || pc.ReLoad? || pc.ReCas?) && pc.g == g)
  }

  /** An Idle grain that holds a message is about to be looked at by some thread. */
  predicate Covered(s: State, g: nat)
    requires g < |s.grains|
  {
    s.grains[g].sched.Idle? && HeldCount(s, g) > 0 ==>
      Total(Announcing, s.producers, g) + Total(Rechecking, s.workers, g) > 0
  }

  predicate ReclaimInv(s: State) {
    forall g :: 0 <= g < |s.grains| ==> Covered(s, g)
  }

  lemma UncountedAnnounce(ps: seq<Producer>, g: nat)
    ensures Total(Uncounted, ps, g) <= Total(Announcing, ps, g)
  {
    if ps != [] { UncountedAnnounce(ps[..|ps| - 1], g); }
  }

  lemma ApplyRecheck(s: State, e: Effect, g: nat)
    requires TypedEffect(s, e)
    ensures |Apply(s, e).workers| == |s.workers|
    ensures Total(Rechecking, Apply(s, e).workers, g) == Total(Rechecking, s.workers, g)
  {
    if Apply(s, e).workers != s.workers { TotalUpdate(Rechecking, s.workers, g, e.wake, Signalled); }
  }

  /** A producer stops announcing only when the grain is not Idle. */
  lemma ProduceCover(s: State, p: nat, flag: bool, wake: nat, g: nat)
    requires p < |s.producers| && !s.producers[p].Ready? && TypedProducer(s, s.producers[p]) && g < |s.grains|
    ensures var move := ProduceMove(s, p, flag, wake);
      SchedAfter(s, move.effect, g).Idle? ==>
        && s.grains[g].sched.Idle?
        && Announcing(s.producers[p], g) <= Announcing(move.pc, g)
        && (HeldDelta(move.effect, g) > 0 ==> Announcing(move.pc, g) > 0)
  {
  }

  /** A worker stops rechecking only when the grain is not Idle or len is zero. */
  lemma WorkCover(s: State, w: nat, flag: bool, wake: nat, g: nat)
    requires w < |s.workers| == |s.locals| && !s.workers[w].Waiting? && TypedWorker(s, s.workers[w])
    requires g < |s.grains| && HandFits(s, s.workers[w])
    ensures var move := WorkMove(s, w, flag, wake);
      && HeldDelta(move.effect, g) <= 0
      && (SchedAfter(s, move.effect, g).Idle? ==>
            || (s.grains[g].sched.Idle? && Rechecking(s.workers[w], g) <= Rechecking(move.pc, g))
            || Rechecking(move.pc, g) > 0
            || (s.grains[g].len == 0 && s.grains[g].sched.Idle? && move.effect.Nothing?))
  {
  }

  lemma ProducerMoveKeepsCover(s: State, p: nat, pc: Producer, e: Effect, g: nat)
    requires p < |s.producers| && TypedEffect(s, e) && g < |s.grains| && Covered(s, g)
    requires SchedAfter(s, e, g).Idle? ==>
      && s.grains[g].sched.Idle?
      && Announcing(s.producers[p], g) <= Announcing(pc, g)
      && (HeldDelta(e, g) > 0 ==> Announcing(pc, g) > 0)
    ensures g < |Apply(s, e).grains| && Covered(Apply(s, e).(producers := s.producers[p := pc]), g)
  {
    ApplyCounts(s, e, g);
    ApplySched(s, e, g);
    ApplyRecheck(s, e, g);
    TotalHas(Announcing, s.producers, g, p);
    TotalUpdate(Announcing, s.producers, g, p, pc);
  }

  lemma WorkerMoveKeepsCover(s: State, w: nat, pc: Worker, e: Effect, g: nat)
    requires w < |s.workers| && TypedEffect(s, e) && g < |s.grains| && Covered(s, g) && LenOk(s, g)
    requires !s.workers[w].Waiting? && HeldDelta(e, g) <= 0
    requires SchedAfter(s, e, g).Idle? ==>
      || (s.grains[g].sched.Idle? && Rechecking(s.workers[w], g) <= Rechecking(pc, g))
      || Rechecking(pc, g) > 0
      || (s.grains[g].len == 0 && s.grains[g].sched.Idle? && e.Nothing?)
    ensures |Apply(s, e).workers| == |s.workers| && g < |Apply(s, e).grains|
    ensures Covered(Apply(s, e).(workers := Apply(s, e).workers[w := pc]), g)
  {
    ApplyCounts(s, e, g);
    ApplySched(s, e, g);
    ApplyRecheck(s, e, g);
    ApplyKeepsSizes(s, e);
    UncountedAnnounce(s.producers, g);
    TotalHas(Rechecking, Apply(s, e).workers, g, w);
    TotalUpdate(Rechecking, Apply(s, e).workers, g, w, pc);
  }

  lemma StepKeepsReclaim(s: State, a: Action)
    requires Typed(s) && Enabled(s, a) && TokenInv(s) && LenInv(s) && ReclaimInv(s)
    ensures ReclaimInv(Next(s, a))
  {
    match a
    case Receive(p, _, _, _) =>
      forall g | 0 <= g < |s.grains| ensures Covered(Next(s, a), g) {
        assert Covered(s, g);
        TotalUpdate(Announcing, s.producers, g, p, Next(s, a).producers[p]);
      }
    case Produce(p, flag, wake) => ProduceKeepsReclaim(s, a);
    case Work(w, flag, wake) => WorkKeepsReclaim(s, a);
  }

  lemma ProduceKeepsReclaim(s: State, a: Action)
    requires Typed(s) && Enabled(s, a) && ReclaimInv(s) && a.Produce?
    ensures ReclaimInv(Next(s, a))
  {
    var move := ProduceMove(s, a.p, a.flag, a.wake);
    ProduceTyped(s, a);
    ApplyKeepsSizes(s, move.effect);
    forall g | 0 <= g < |s.grains| ensures Covered(Next(s, a), g) {
      ProduceCover(s, a.p, a.flag, a.wake, g);
      ProducerMoveKeepsCover(s, a.p, move.pc, move.effect, g);
    }
  }

  lemma WorkKeepsReclaim(s: State, a: Action)
    requires Typed(s) && Enabled(s, a) && TokenInv(s) && LenInv(s) && ReclaimInv(s) && a.Work?
    ensures ReclaimInv(Next(s, a))
  {
    var move := WorkMove(s, a.w, a.flag, a.wake);
    WorkTyped(s, a);
    TokensFitHands(s, a.w);
    ApplyKeepsSizes(s, move.effect);
    forall g | 0 <= g < |s.grains| ensures Covered(Next(s, a), g) {
      WorkCover(s, a.w, a.flag, a.wake, g);
      WorkerMoveKeepsCover(s, a.w, move.pc, move.effect, g);
    }
  }
}
