/**
  Single ownership.  A token for a grain is its presence in a ready ring or in the
  hand of a thread that is about to push it or to take it for processing; an owner
  is a worker inside the grain's turn.
 */
module KernelTokens {
  import opened Basics
  import opened Kernel
  import opened Counting

  function PushToken(pc: Producer, g: nat): nat {
    if pc == Push(g) then 1 else 0
  }

  function WorkToken(pc: Worker, g: nat): nat {
    if (pc.Begin? || pc.ReTake? || pc.Requeue? || pc.Spill?) && pc.g == g then 1 else 0
  }

  function TurnToken(pc: Worker, g: nat): nat {
    if pc.Turn? && pc.g == g then 1 else 0
  }

  function RingTokens(ring: seq<nat>, g: nat): nat {
    multiset(ring)[g]
  }

  /** Tokens of g in the global ring and in the workers' rings. */
  function RingTotal(s: State, g: nat): nat {
    RingTokens(s.global, g) + Total(RingTokens, s.locals, g)
  }

  /** Every token of g, wherever it is. */
  function Tokens(s: State, g: nat): nat {
    Total(PushToken, s.producers, g) + Total(WorkToken, s.workers, g) + RingTotal(s, g)
  }

  /** The number of workers inside a turn of g. */
  function Owners(s: State, g: nat): nat {
    Total(TurnToken, s.workers, g)
  }

  /** Idle: no token, no owner.  Scheduled: one token.  Processing: one owner. */
  predicate GrainTokens(s: State, g: nat)
    requires g < |s.grains|
  {
    && Tokens(s, g) == Bit(s.grains[g].sched.Scheduled?)
    && Owners(s, g) == Bit(s.grains[g].sched.Processing?)
  }

  predicate TokenInv(s: State) {
    forall g :: 0 <= g < |s.grains| ==> GrainTokens(s, g)
  }

  // ---- how one effect changes rings and states ---------------------------------

  function Entering(e: Effect, g: nat): nat {
    Bit((e.PushGlobal? || e.PushOwn?) && e.g == g)
  }

  function Leaving(s: State, e: Effect, g: nat): nat
    requires TypedEffect(s, e)
  {
    match e
    case PopGlobal => Bit(s.global[0] == g)
    case PopGlobalAwake => Bit(s.global[0] == g)
    case PopOwn(w) => Bit(s.locals[w][0] == g)
    case StealHalf(w, v) => Bit(s.locals[v][0] == g)
    case _ => 0
  }

  function SchedAfter(s: State, e: Effect, g: nat): Sched
    requires g < |s.grains|
  {
    if e.Become? && e.g == g then e.sched else s.grains[g].sched
  }

  lemma RingSplit(ring: seq<nat>, k: nat, g: nat)
    requires k <= |ring|
    ensures RingTokens(ring, g) == RingTokens(ring[..k], g) + RingTokens(ring[k..], g)
  {
    assert ring == ring[..k] + ring[k..];
  }

  lemma StealKeepsBag(ring: seq<nat>, own: seq<nat>, k: nat, g: nat)
    requires 1 + k <= |ring|
    ensures RingTokens(ring[1 + k..], g) + RingTokens(own + ring[1..1 + k], g) + Bit(ring[0] == g)
         == RingTokens(ring, g) + RingTokens(own, g)
  {
    RingSplit(ring, 1, g);
    RingSplit(ring[1..], k, g);
    assert ring[1..][..k] == ring[1..1 + k] && ring[1..][k..] == ring[1 + k..];
    assert RingTokens(ring[..1], g) == Bit(ring[0] == g);
  }

  lemma StealConserves(s: State, w: nat, v: nat, g: nat)
    requires TypedEffect(s, StealHalf(w, v))
    ensures Total(RingTokens, Apply(s, StealHalf(w, v)).locals, g) + Bit(s.locals[v][0] == g)
         == Total(RingTokens, s.locals, g)
  {
    var k := MovedCount(|s.locals[v]|, |s.locals[w]|);
    var ring := s.locals[v];
    var rest := s.locals[v := ring[1 + k..]];
    TotalUpdate(RingTokens, s.locals, g, v, ring[1 + k..]);
    TotalUpdate(RingTokens, rest, g, w, s.locals[w] + ring[1..1 + k]);
    StealKeepsBag(ring, s.locals[w], k, g);
  }

  lemma PushConserves(rings: seq<seq<nat>>, w: nat, x: nat, g: nat)
    requires w < |rings|
    ensures Total(RingTokens, rings[w := rings[w] + [x]], g) == Total(RingTokens, rings, g) + Bit(x == g)
  {
    TotalUpdate(RingTokens, rings, g, w, rings[w] + [x]);
  }

  lemma PopConserves(rings: seq<seq<nat>>, w: nat, g: nat)
    requires w < |rings| && rings[w] != []
    ensures Total(RingTokens, rings[w := rings[w][1..]], g) + Bit(rings[w][0] == g) == Total(RingTokens, rings, g)
  {
    TotalUpdate(RingTokens, rings, g, w, rings[w][1..]);
    RingSplit(rings[w], 1, g);
  }

  lemma ApplyRings(s: State, e: Effect, g: nat)
    requires TypedEffect(s, e) && g < |s.grains|
    ensures RingTotal(Apply(s, e), g) + Leaving(s, e, g) == RingTotal(s, g) + Entering(e, g)
  {
    match e
    case PopGlobal => RingSplit(s.global, 1, g);
    case PopGlobalAwake => RingSplit(s.global, 1, g);
    case PushOwn(w, x) => PushConserves(s.locals, w, x, g);
    case PopOwn(w) => PopConserves(s.locals, w, g);
    case StealHalf(w, v) => StealConserves(s, w, v, g);
    case _ =>
  }

  lemma ApplySched(s: State, e: Effect, g: nat)
    requires TypedEffect(s, e) && g < |s.grains|
    ensures |Apply(s, e).grains| == |s.grains| && Apply(s, e).grains[g].sched == SchedAfter(s, e, g)
  {
  }

  lemma ApplyWorkers(s: State, e: Effect, g: nat)
    requires TypedEffect(s, e)
    ensures |Apply(s, e).workers| == |s.workers|
    ensures Total(WorkToken, Apply(s, e).workers, g) == Total(WorkToken, s.workers, g)
    ensures Total(TurnToken, Apply(s, e).workers, g) == Total(TurnToken, s.workers, g)
  {
    if Apply(s, e).workers != s.workers {
      TotalUpdate(WorkToken, s.workers, g, e.wake, Signalled);
      TotalUpdate(TurnToken, s.workers, g, e.wake, Signalled);
    }
  }

  // ---- each thread's move balances -----------------------------------------------

  predicate TokensBalance(s: State, e: Effect, before: nat, after: nat, g: nat)
    requires TypedEffect(s, e) && g < |s.grains|
  {
    before + Leaving(s, e, g) + Bit(SchedAfter(s, e, g).Scheduled?)
    == after + Entering(e, g) + Bit(s.grains[g].sched.Scheduled?)
  }

  lemma ProduceBalance(s: State, p: nat, flag: bool, wake: nat, g: nat)
    requires p < |s.producers| && !s.producers[p].Ready? && TypedProducer(s, s.producers[p]) && g < |s.grains|
    requires TypedEffect(s, ProduceMove(s, p, flag, wake).effect)
    ensures var move := ProduceMove(s, p, flag, wake);
      && TokensBalance(s, move.effect, PushToken(s.producers[p], g), PushToken(move.pc, g), g)
      && SchedAfter(s, move.effect, g).Processing? == s.grains[g].sched.Processing?
  {
  }

  /** A thread that holds a token or owns a turn finds the state it expects. */
  predicate HandFits(s: State, pc: Worker) {
    && ((pc.Begin? || pc.ReTake? || pc.Requeue? || pc.Spill?) ==>
          pc.g < |s.grains| && s.grains[pc.g].sched.Scheduled?)
    && (pc.Turn? ==> pc.g < |s.grains| && s.grains[pc.g].sched.Processing?)
  }

  /**
    In every state with single ownership: a worker that took a token finds the grain
    Scheduled, so TakeForProcessing never fails, and a worker in a turn finds it
    Processing, so YieldToScheduled and reset only ever overwrite Processing.
   */
  lemma TokensFitHands(s: State, w: nat)
    requires Typed(s) && TokenInv(s) && w < |s.workers|
    ensures HandFits(s, s.workers[w])
  {
    var pc := s.workers[w];
    if pc.Begin? || pc.ReTake? || pc.Requeue? || pc.Spill? {
      TotalHas(WorkToken, s.workers, pc.g, w);
      assert GrainTokens(s, pc.g);
    } else if pc.Turn? {
      TotalHas(TurnToken, s.workers, pc.g, w);
      assert GrainTokens(s, pc.g);
    }
  }

  lemma WorkBalance(s: State, w: nat, flag: bool, wake: nat, g: nat)
    requires w < |s.workers| == |s.locals| && !s.workers[w].Waiting? && TypedWorker(s, s.workers[w])
    requires g < |s.grains| && HandFits(s, s.workers[w])
    requires TypedEffect(s, WorkMove(s, w, flag, wake).effect)
    ensures var move := WorkMove(s, w, flag, wake);
      && TokensBalance(s, move.effect, WorkToken(s.workers[w], g), WorkToken(move.pc, g), g)
      && TurnToken(s.workers[w], g) + Bit(SchedAfter(s, move.effect, g).Processing?)
         == TurnToken(move.pc, g) + Bit(s.grains[g].sched.Processing?)
  {
  }

  // ---- the invariant is kept ---------------------------------------------------------

  lemma ProducerMoveKeepsTokens(s: State, p: nat, pc: Producer, e: Effect, g: nat)
    requires p < |s.producers| && TypedEffect(s, e) && g < |s.grains| && GrainTokens(s, g)
    requires TokensBalance(s, e, PushToken(s.producers[p], g), PushToken(pc, g), g)
    requires SchedAfter(s, e, g).Processing? == s.grains[g].sched.Processing?
    ensures var s' := Apply(s, e).(producers := s.producers[p := pc]); g < |s'.grains| && GrainTokens(s', g)
  {
    TotalUpdate(PushToken, s.producers, g, p, pc);
    ApplyRings(s, e, g);
    ApplySched(s, e, g);
    ApplyWorkers(s, e, g);
  }

  lemma WorkerMoveKeepsTokens(s: State, w: nat, pc: Worker, e: Effect, g: nat)
    requires w < |s.workers| && TypedEffect(s, e) && g < |s.grains| && GrainTokens(s, g)
    requires TokensBalance(s, e, WorkToken(s.workers[w], g), WorkToken(pc, g), g)
    requires TurnToken(s.workers[w], g) + Bit(SchedAfter(s, e, g).Processing?)
          == TurnToken(pc, g) + Bit(s.grains[g].sched.Processing?)
    requires !s.workers[w].Waiting?
    ensures |Apply(s, e).workers| == |s.workers|
    ensures var s' := Apply(s, e).(workers := Apply(s, e).workers[w := pc]); g < |s'.grains| && GrainTokens(s', g)
  {
    var mid := Apply(s, e);
    ApplyRings(s, e, g);
    ApplySched(s, e, g);
    ApplyWorkers(s, e, g);
    SameWorker(s, e, w);
    TotalUpdate(WorkToken, mid.workers, g, w, pc);
    TotalUpdate(TurnToken, mid.workers, g, w, pc);
  }

  /** A signal reaches a waiting worker only. */
  lemma SameWorker(s: State, e: Effect, w: nat)
    requires TypedEffect(s, e) && w < |s.workers| && !s.workers[w].Waiting?
    ensures |Apply(s, e).workers| == |s.workers| && Apply(s, e).workers[w] == s.workers[w]
  {
  }

  lemma ReceiveKeepsTokens(s: State, a: Action)
    requires Typed(s) && Enabled(s, a) && a.Receive? && TokenInv(s)
    ensures TokenInv(Next(s, a))
  {
    forall g | 0 <= g < |s.grains|
      ensures GrainTokens(Next(s, a), g)
    {
      assert GrainTokens(s, g);
      TotalUpdate(PushToken, s.producers, g, a.p, Next(s, a).producers[a.p]);
    }
  }

  lemma ProduceKeepsTokens(s: State, a: Action)
    requires Typed(s) && Enabled(s, a) && a.Produce? && TokenInv(s)
    ensures TokenInv(Next(s, a))
  {
    var move := ProduceMove(s, a.p, a.flag, a.wake);
    ProduceTyped(s, a);
    forall g | 0 <= g < |s.grains|
      ensures g < |Next(s, a).grains| && GrainTokens(Next(s, a), g)
    {
      ProduceBalance(s, a.p, a.flag, a.wake, g);
      ProducerMoveKeepsTokens(s, a.p, move.pc, move.effect, g);
    }
    ApplyKeepsSizes(s, move.effect);
  }

  lemma WorkKeepsTokens(s: State, a: Action)
    requires Typed(s) && Enabled(s, a) && a.Work? && TokenInv(s)
    ensures TokenInv(Next(s, a))
  {
    var move := WorkMove(s, a.w, a.flag, a.wake);
    WorkTyped(s, a);
    TokensFitHands(s, a.w);
    forall g | 0 <= g < |s.grains|
      ensures g < |Next(s, a).grains| && GrainTokens(Next(s, a), g)
    {
      WorkBalance(s, a.w, a.flag, a.wake, g);
      WorkerMoveKeepsTokens(s, a.w, move.pc, move.effect, g);
    }
    ApplyKeepsSizes(s, move.effect);
  }
}
