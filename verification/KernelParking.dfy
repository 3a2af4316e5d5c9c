/** Parking: a worker sleeps only on empty rings, and a push never leaves everyone asleep. */
module KernelParking {
  import opened Basics
  import opened Kernel
  import opened KernelTokens
  import opened Counting

  function Asleep(pc: Worker, k: nat): nat { Bit(pc.Waiting?) }

  function ParkedOne(pc: Worker, k: nat): nat { Bit(pc.Waiting? || pc.Signalled?) }

  /** The worker has found its own ring empty and has not yet got an item elsewhere. */
  predicate Searching(pc: Worker) {
    pc.ProbeGlobal? || pc.LockGlobal? || pc.ProbeSibling? || pc.Steal? || pc.Park? || pc.Waiting? || pc.Signalled?
  }

  predicate ParkInv(s: State) {
    && |s.locals| == |s.workers|
    && s.parked == Total(ParkedOne, s.workers, 0)
    && (s.global != [] ==> Total(Asleep, s.workers, 0) < |s.workers|)
    && (forall w :: 0 <= w < |s.workers| ==> OwnRingOk(s, w))
  }

  predicate OwnRingOk(s: State, w: nat)
    requires w < |s.workers| == |s.locals|
  {
    Searching(s.workers[w]) ==> s.locals[w] == []
  }

  lemma AsleepIsParked(ws: seq<Worker>)
    ensures Total(Asleep, ws, 0) <= Total(ParkedOne, ws, 0) && Total(Asleep, ws, 0) <= |ws|
  {
    if ws != [] { AsleepIsParked(ws[..|ws| - 1]); }
  }

  /** After a push some worker is awake or signalled. */
  lemma PushWakes(s: State, wake: nat)
    requires CanSignal(s.workers, s.parked, wake) && |s.workers| > 0
    requires s.parked == Total(ParkedOne, s.workers, 0)
    ensures |Signal(s.workers, s.parked, wake)| == |s.workers|
    ensures Total(ParkedOne, Signal(s.workers, s.parked, wake), 0) == s.parked
    ensures Total(Asleep, Signal(s.workers, s.parked, wake), 0) < |s.workers|
  {
    AsleepIsParked(s.workers);
    if Total(Asleep, s.workers, 0) > 0 {
      var i := TotalFrom(Asleep, s.workers, 0);
      assert s.workers[i] == Waiting;
      TotalUpdate(ParkedOne, s.workers, 0, wake, Signalled);
      TotalUpdate(Asleep, s.workers, 0, wake, Signalled);
    } else if Signal(s.workers, s.parked, wake) != s.workers {
      TotalHas(Asleep, s.workers, 0, wake);
      assert false;
    }
  }

  /** How a worker's move fits parking: it sleeps only on an empty global ring. */
  lemma WorkParks(s: State, w: nat, flag: bool, wake: nat)
    requires w < |s.workers| == |s.locals| && !s.workers[w].Waiting? && TypedWorker(s, s.workers[w])
    requires OwnRingOk(s, w)
    ensures var move := WorkMove(s, w, flag, wake);
      && (move.pc.Waiting? ==> s.global == [] && (move.effect.ParkSelf? || move.effect.Nothing?))
      && (Searching(move.pc) ==> s.locals[w] == [] && (move.effect.Nothing? || move.effect.ParkSelf?))
      && (move.effect.ParkSelf? <==> ParkedOne(move.pc, 0) > ParkedOne(s.workers[w], 0))
      && (move.effect.PopGlobalAwake? <==> ParkedOne(move.pc, 0) < ParkedOne(s.workers[w], 0))
      && (move.effect.PushOwn? || move.effect.PopOwn? || move.effect.StealHalf? ==> move.effect.w == w)
  {
  }

  lemma ProducerMoveKeepsParking(s: State, p: nat, pc: Producer, e: Effect)
    requires p < |s.producers| && TypedEffect(s, e) && ParkInv(s) && |s.workers| > 0
    requires e.PushGlobal? ==> CanSignal(s.workers, s.parked, e.wake)
    requires !e.PopGlobal? && !e.PopGlobalAwake? && !e.ParkSelf? && !e.PushOwn? && !e.PopOwn? && !e.StealHalf?
    ensures ParkInv(Apply(s, e).(producers := s.producers[p := pc]))
  {
    if e.PushGlobal? { PushWakes(s, e.wake); }
    ApplyKeepsSizes(s, e);
    var s' := Apply(s, e).(producers := s.producers[p := pc]);
    forall w | 0 <= w < |s'.workers| ensures OwnRingOk(s', w) { assert OwnRingOk(s, w); }
  }

  lemma RingsShrink(s: State, e: Effect, w: nat, v: nat)
    requires TypedEffect(s, e) && v < |s.locals| && v != w
    requires e.PushOwn? || e.PopOwn? || e.StealHalf? ==> e.w == w
    ensures |Apply(s, e).locals| == |s.locals|
    ensures s.locals[v] == [] ==> Apply(s, e).locals[v] == []
  {
  }

  lemma WorkerMoveKeepsRings(s: State, w: nat, pc: Worker, e: Effect)
    requires w < |s.workers| && TypedEffect(s, e) && ParkInv(s)
    requires Searching(pc) ==> s.locals[w] == [] && (e.Nothing? || e.ParkSelf?)
    requires e.PushOwn? || e.PopOwn? || e.StealHalf? ==> e.w == w
    ensures var s' := Apply(s, e).(workers := Apply(s, e).workers[w := pc]);
      |s'.locals| == |s'.workers| && forall v :: 0 <= v < |s'.workers| ==> OwnRingOk(s', v)
  {
    ApplyKeepsSizes(s, e);
    var s' := Apply(s, e).(workers := Apply(s, e).workers[w := pc]);
    forall v | 0 <= v < |s'.workers| ensures OwnRingOk(s', v) {
      assert OwnRingOk(s, v);
      if v != w { RingsShrink(s, e, w, v); }
    }
  }

  lemma WorkerMoveKeepsCounts(s: State, w: nat, pc: Worker, e: Effect)
    requires w < |s.workers| && TypedEffect(s, e) && ParkInv(s) && !s.workers[w].Waiting?
    requires e.PushGlobal? ==> CanSignal(s.workers, s.parked, e.wake)
    requires pc.Waiting? ==> s.global == [] && (e.ParkSelf? || e.Nothing?)
    requires e.ParkSelf? <==> ParkedOne(pc, 0) > ParkedOne(s.workers[w], 0)
    requires e.PopGlobalAwake? <==> ParkedOne(pc, 0) < ParkedOne(s.workers[w], 0)
    ensures |Apply(s, e).workers| == |s.workers|
    ensures var s' := Apply(s, e).(workers := Apply(s, e).workers[w := pc]);
      && s'.parked == Total(ParkedOne, s'.workers, 0)
      && (s'.global != [] ==> Total(Asleep, s'.workers, 0) < |s'.workers|)
  {
    var mid := Apply(s, e);
    if e.PushGlobal? { PushWakes(s, e.wake); }
    ApplyKeepsSizes(s, e);
    TotalUpdate(ParkedOne, mid.workers, 0, w, pc);
    TotalUpdate(Asleep, mid.workers, 0, w, pc);
  }

  lemma StepKeepsParking(s: State, a: Action)
    requires Typed(s) && Enabled(s, a) && ParkInv(s)
    ensures ParkInv(Next(s, a))
  {
    match a
    case Receive(_, _, _, _) =>
      forall w | 0 <= w < |s.workers| ensures OwnRingOk(Next(s, a), w) { assert OwnRingOk(s, w); }
    case Produce(p, flag, wake) =>
      var move := ProduceMove(s, p, flag, wake);
      ProduceTyped(s, a);
      ProducerMoveKeepsParking(s, p, move.pc, move.effect);
    case Work(w, flag, wake) => WorkKeepsParking(s, a);
  }

  lemma WorkKeepsParking(s: State, a: Action)
    requires Typed(s) && Enabled(s, a) && ParkInv(s) && a.Work?
    ensures ParkInv(Next(s, a))
  {
    var move := WorkMove(s, a.w, a.flag, a.wake);
    WorkTyped(s, a);
    assert OwnRingOk(s, a.w);
    WorkParks(s, a.w, a.flag, a.wake);
    WorkerMoveKeepsRings(s, a.w, move.pc, move.effect);
    WorkerMoveKeepsCounts(s, a.w, move.pc, move.effect);
  }
}
