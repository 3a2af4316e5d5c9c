/** The scheduling kernel's guarantees, for every run and every interleaving. */
module KernelTheorems {
  import opened Basics
  import opened Kernel
  import opened KernelTokens
  import opened KernelMailbox
  import opened KernelMailboxSteps
  import opened KernelTyping
  import opened KernelCounts
  import opened KernelParking
  import opened Counting

  ghost predicate Inv(s: State) {
    Typed(s) && TokenInv(s) && MailInv(s) && LenInv(s) && ReclaimInv(s) && ParkInv(s)
  }

  /** A run: any finite sequence of enabled steps from a fresh system. */
  ghost predicate IsRun(states: seq<State>, actions: seq<Action>) {
    && |states| == |actions| + 1
    && Init(states[0])
    && forall i :: 0 <= i < |actions| ==>
         Typed(states[i]) && Enabled(states[i], actions[i]) && states[i + 1] == Next(states[i], actions[i])
  }

  ghost predicate Reachable(s: State) {
    exists states, actions :: IsRun(states, actions) && states[|actions|] == s
  }

  lemma InitCounts(s: State, g: nat)
    requires Init(s) && g < |s.grains|
    ensures GrainTokens(s, g) && LenOk(s, g) && Covered(s, g) && GrainOk(s.nodes, s.grains[g], g)
  {
    TotalZero(PushToken, s.producers, g);
    TotalZero(WorkToken, s.workers, g);
    TotalZero(TurnToken, s.workers, g);
    TotalZero(RingTokens, s.locals, g);
    TotalZero(Reserved, s.producers, g);
    TotalZero(Uncounted, s.producers, g);
    TotalZero(Popped, s.workers, g);
  }

  lemma InitHolds(s: State)
    requires Init(s)
    ensures Inv(s)
  {
    forall g | 0 <= g < |s.grains|
      ensures GrainTokens(s, g) && LenOk(s, g) && Covered(s, g) && GrainOk(s.nodes, s.grains[g], g)
    {
      InitCounts(s, g);
    }
    TotalZero(ParkedOne, s.workers, 0);
    TypedOfBounds(s);
  }

  lemma StepHolds(s: State, a: Action)
    requires Inv(s) && Enabled(s, a)
    ensures Inv(Next(s, a))
  {
    StepKeepsBounds(s, a);
    StepKeepsTokens(s, a);
    StepKeepsMail(s, a);
    StepKeepsLen(s, a);
    StepKeepsReclaim(s, a);
    StepKeepsParking(s, a);
    TypedOfBounds(Next(s, a));
  }

  lemma StepKeepsTokens(s: State, a: Action)
    requires Typed(s) && TokenInv(s) && Enabled(s, a)
    ensures TokenInv(Next(s, a))
  {
    match a
    case Receive(_, _, _, _) => ReceiveKeepsTokens(s, a);
    case Produce(_, _, _) => ProduceKeepsTokens(s, a);
    case Work(_, _, _) => WorkKeepsTokens(s, a);
  }

  lemma StepKeepsMail(s: State, a: Action)
    requires Typed(s) && TokenInv(s) && MailInv(s) && Enabled(s, a)
    ensures MailInv(Next(s, a))
  {
    match a
    case Receive(_, _, _, _) => ReceiveKeepsMail(s, a);
    case Produce(_, _, _) => ProduceKeepsMail(s, a);
    case Work(_, _, _) => WorkKeepsMail(s, a);
  }

  lemma {:induction false} RunHolds(states: seq<State>, actions: seq<Action>, i: nat)
    requires IsRun(states, actions) && i <= |actions|
    ensures Inv(states[i])
  {
    if i == 0 {
      InitHolds(states[0]);
    } else {
      RunHolds(states, actions, i - 1);
      StepHolds(states[i - 1], actions[i - 1]);
    }
  }

  lemma ReachableHolds(s: State)
    requires Reachable(s)
    ensures Inv(s)
  {
    var states, actions :| IsRun(states, actions) && states[|actions|] == s;
    RunHolds(states, actions, |actions|);
  }

  lemma ReachableAt(states: seq<State>, actions: seq<Action>, n: nat)
    requires IsRun(states, actions) && n <= |actions|
    ensures Reachable(states[n])
  {
    assert IsRun(states[..n + 1], actions[..n]) && states[..n + 1][|actions[..n]|] == states[n];
  }

  // ---- single ownership -------------------------------------------------------------

  /**
    A grain is Idle exactly when no token for it exists and no worker is in its turn;
    otherwise there is exactly one of the two.  At most one worker is inside a turn.
   */
  lemma SingleOwnership(s: State, g: nat)
    requires Reachable(s) && g < |s.grains|
    ensures Tokens(s, g) + Owners(s, g) == (if s.grains[g].sched.Idle? then 0 else 1)
    ensures s.grains[g].sched.Processing? <==> Owners(s, g) == 1
    ensures forall w, v :: 0 <= w < v < |s.workers| && s.workers[w].Turn? && s.workers[v].Turn?
              ==> !(s.workers[w].g == g && s.workers[v].g == g)
  {
    ReachableHolds(s);
    assert GrainTokens(s, g);
    forall w, v | 0 <= w < v < |s.workers| && s.workers[w].Turn? && s.workers[v].Turn?
      ensures !(s.workers[w].g == g && s.workers[v].g == g)
    {
      if s.workers[w].g == g && s.workers[v].g == g { OneWorkerPerTurn(s, w, v); }
    }
  }

  /**
    TakeForProcessing never fails, neither on a token from a ring nor in the reclaim;
    YieldToScheduled and reset only ever overwrite Processing.
   */
  lemma TransitionsFindTheirState(s: State, w: nat)
    requires Reachable(s) && w < |s.workers|
    ensures s.workers[w].Begin? || s.workers[w].ReTake? ==>
              s.workers[w].g < |s.grains| && s.grains[s.workers[w].g].sched.Scheduled?
    ensures s.workers[w].Turn? ==>
              s.workers[w].g < |s.grains| && s.grains[s.workers[w].g].sched.Processing?
  {
    ReachableHolds(s);
    TokensFitHands(s, w);
  }

  // ---- the mailbox is a FIFO queue ------------------------------------------------------

  /** What was handled is a prefix of what was accepted; the rest is the message in hand and the held ones. */
  lemma DeliveredInOrder(s: State, g: nat)
    requires Reachable(s) && g < |s.grains|
    ensures var box := s.grains[g].box;
      && |box.live| > 0 && (forall i :: 0 <= i < |box.live| ==> box.live[i] < |s.nodes|)
      && box.accepted == box.handled + box.inHand + Messages(s.nodes, box.live[1..])
      && |box.inHand| <= 1 && box.handled <= box.accepted
  {
    ReachableHolds(s);
    assert GrainOk(s.nodes, s.grains[g], g);
    if s.grains[g].sched.Processing? {
      assert GrainTokens(s, g);
      var w := TotalFrom(TurnToken, s.workers, g);
      assert WorkerOk(s.nodes, s.grains, w, s.workers[w]);
    }
  }

  lemma EffectExtendsHistory(s: State, e: Effect, g: nat)
    requires TypedEffect(s, e) && g < |s.grains|
    ensures g < |Apply(s, e).grains|
    ensures s.grains[g].box.accepted <= Apply(s, e).grains[g].box.accepted
    ensures s.grains[g].box.handled <= Apply(s, e).grains[g].box.handled
  {
  }

  /** One step extends a grain's histories at the end and never rewrites them. */
  lemma StepExtendsHistory(s: State, a: Action, g: nat)
    requires Typed(s) && Enabled(s, a) && g < |s.grains|
    ensures g < |Next(s, a).grains|
    ensures s.grains[g].box.accepted <= Next(s, a).grains[g].box.accepted
    ensures s.grains[g].box.handled <= Next(s, a).grains[g].box.handled
  {
    if a.Produce? {
      ProduceTyped(s, a);
      EffectExtendsHistory(s, ProduceMove(s, a.p, a.flag, a.wake).effect, g);
    } else if a.Work? {
      WorkTyped(s, a);
      EffectExtendsHistory(s, WorkMove(s, a.w, a.flag, a.wake).effect, g);
    }
  }

  lemma {:induction false} HistoryOnlyGrows(states: seq<State>, actions: seq<Action>, i: nat, j: nat, g: nat)
    requires IsRun(states, actions) && i <= j <= |actions| && g < |states[i].grains|
    ensures g < |states[j].grains|
    ensures states[i].grains[g].box.accepted <= states[j].grains[g].box.accepted
    ensures states[i].grains[g].box.handled <= states[j].grains[g].box.handled
    decreases j
  {
    if i < j {
      HistoryOnlyGrows(states, actions, i, j - 1, g);
      StepExtendsHistory(states[j - 1], actions[j - 1], g);
    }
  }

  /** Dequeue answers nil only when, at its tail load, nothing accepted is still undelivered. */
  lemma NilMeansEmpty(s: State, w: nat)
    requires Reachable(s) && w < |s.workers| && s.workers[w].Turn? && s.workers[w].at.LoadTail?
    requires s.workers[w].g < |s.grains|
    ensures var gr := s.grains[s.workers[w].g];
      s.workers[w].at.h == gr.box.tail <==> gr.box.handled == gr.box.accepted
  {
    ReachableHolds(s);
    var g := s.workers[w].g;
    var box := s.grains[g].box;
    assert GrainOk(s.nodes, s.grains[g], g) && WorkerOk(s.nodes, s.grains, w, s.workers[w]);
    assert |box.live| > 1 ==> box.live[0] != box.live[|box.live| - 1];
    DeliveredInOrder(s, g);
  }

  /** The producer may still write to the node or to its link. */
  predicate ProducerUses(pc: Producer, h: nat) {
    match pc
    case Check(_, n) => n == h
    case ReserveLoad(_, n) => n == h
    case ReserveCas(_, n, _) => n == h
    case ClearNext(_, n) => n == h
    case Swap(_, n) => n == h
    case Link(_, _, prev) => prev == h
    case _ => false
  }

  /** The worker may still read, write or handle the node. */
  predicate WorkerUses(pc: Worker, h: nat) {
    pc.Turn? &&
    match pc.at
    case LoadNext(x) => x == h
    case LoadTail(x) => x == h
    case Spin(x) => x == h
    case StoreHead(x, _) => x == h
    case Decrement(x, nx) => x == h || nx == h
    case Unlink(x, nx) => x == h || nx == h
    case Recycle(x, nx) => x == h || nx == h
    case Handle(nx) => nx == h
    case _ => false
  }

  lemma RetiredIsUnused(s: State, w: nat, h: nat, v: nat)
    requires Inv(s) && h < |s.nodes| && s.nodes[h].home == Retired(w) && v < |s.workers| && v != w
    ensures !WorkerUses(s.workers[v], h)
  {
    var pc := s.workers[v];
    assert WorkerOk(s.nodes, s.grains, v, pc);
    if pc.Turn? { assert GrainOk(s.nodes, s.grains[pc.g], pc.g); }
  }

  /**
    When the old sentinel goes back to the pool it is not there yet, no mailbox list holds
    it, it is no head and no tail, no producer uses it and no other worker uses it.
   */
  lemma RecyclingIsSafe(s: State, w: nat)
    requires Reachable(s) && w < |s.workers| && s.workers[w].Turn? && s.workers[w].at.Recycle?
    ensures s.workers[w].at.h !in s.pool
    ensures forall g :: 0 <= g < |s.grains| ==> s.workers[w].at.h !in s.grains[g].box.live
    ensures forall g :: 0 <= g < |s.grains| ==>
      s.workers[w].at.h != s.grains[g].box.head && s.workers[w].at.h != s.grains[g].box.tail
    ensures forall p :: 0 <= p < |s.producers| ==> !ProducerUses(s.producers[p], s.workers[w].at.h)
    ensures forall v :: 0 <= v < |s.workers| && v != w ==> !WorkerUses(s.workers[v], s.workers[w].at.h)
  {
    ReachableHolds(s);
    var h := s.workers[w].at.h;
    assert WorkerOk(s.nodes, s.grains, w, s.workers[w]);
    forall g | 0 <= g < |s.grains|
      ensures h !in s.grains[g].box.live && h != s.grains[g].box.tail && h != s.grains[g].box.head
    {
      assert GrainOk(s.nodes, s.grains[g], g);
    }
    forall p | 0 <= p < |s.producers| ensures !ProducerUses(s.producers[p], h) {
      assert ProducerOk(s.nodes, p, s.producers[p]);
    }
    forall v | 0 <= v < |s.workers| && v != w ensures !WorkerUses(s.workers[v], h) {
      RetiredIsUnused(s, w, h, v);
    }
  }

  // ---- length accounting ---------------------------------------------------------------

  /**
    Bounded: held <= len <= capacity always.  Unbounded, with no dequeue in progress:
    len is the held messages minus the producers that swapped and have not counted, so
    len == 0 with messages held means a producer has still to try to schedule.
   */
  lemma LengthAccounting(s: State, g: nat)
    requires Reachable(s) && g < |s.grains|
    ensures s.grains[g].capacity > 0 ==> HeldCount(s, g) <= s.grains[g].len <= s.grains[g].capacity
    ensures s.grains[g].capacity <= 0 && Total(Popped, s.workers, g) == 0 ==>
              s.grains[g].len == HeldCount(s, g) - Total(Uncounted, s.producers, g)
    ensures s.grains[g].len == 0 && HeldCount(s, g) > 0 ==>
              exists p :: 0 <= p < |s.producers| && Announcing(s.producers[p], g) == 1
  {
    ReachableHolds(s);
    assert LenOk(s, g);
    UncountedAnnounce(s.producers, g);
    if s.grains[g].len == 0 && HeldCount(s, g) > 0 {
      var p := TotalFrom(Announcing, s.producers, g);
    }
  }

  // ---- no message is stranded ------------------------------------------------------------

  /** No call of receive is in progress and every worker is an unsignalled waiter. */
  ghost predicate Quiescent(s: State) {
    && (forall p :: 0 <= p < |s.producers| ==> s.producers[p].Ready?)
    && (forall w :: 0 <= w < |s.workers| ==> s.workers[w].Waiting?)
  }

  lemma AllAsleep(ws: seq<Worker>)
    requires forall w :: 0 <= w < |ws| ==> ws[w].Waiting?
    ensures Total(Asleep, ws, 0) == |ws|
  {
    if ws != [] { AllAsleep(ws[..|ws| - 1]); }
  }

  /** In every reachable quiescent state the rings are empty, every grain is Idle, and every
      accepted message has been handled. */
  lemma NoMessageStranded(s: State, g: nat)
    requires Reachable(s) && Quiescent(s) && g < |s.grains|
    ensures s.global == []
    ensures forall w :: 0 <= w < |s.locals| ==> s.locals[w] == []
    ensures s.grains[g].sched.Idle?
    ensures HeldCount(s, g) == 0
    ensures s.grains[g].box.handled == s.grains[g].box.accepted
  {
    ReachableHolds(s);
    AllAsleep(s.workers);
    forall w | 0 <= w < |s.locals| ensures s.locals[w] == [] { assert OwnRingOk(s, w); }
    TotalZero(PushToken, s.producers, g);
    TotalZero(WorkToken, s.workers, g);
    TotalZero(TurnToken, s.workers, g);
    TotalZero(RingTokens, s.locals, g);
    TotalZero(Announcing, s.producers, g);
    TotalZero(Rechecking, s.workers, g);
    assert GrainTokens(s, g) && Covered(s, g) && GrainOk(s.nodes, s.grains[g], g);
    DeliveredInOrder(s, g);
  }

  // ---- the rings lose and invent nothing ---------------------------------------------------

  ghost function EffectOf(s: State, a: Action): Effect
    requires Typed(s) && Enabled(s, a)
  {
    match a
    case Receive(_, _, _, _) => Nothing
    case Produce(p, flag, wake) => ProduceMove(s, p, flag, wake).effect
    case Work(w, flag, wake) => WorkMove(s, w, flag, wake).effect
  }

  /** How often g was put into a ring in the first n steps. */
  ghost function Pushed(states: seq<State>, actions: seq<Action>, n: nat, g: nat): nat
    requires IsRun(states, actions) && n <= |actions|
  {
    if n == 0 then 0
    else Pushed(states, actions, n - 1, g) + Entering(EffectOf(states[n - 1], actions[n - 1]), g)
  }

  /** How often g was handed to a worker in the first n steps. */
  ghost function Taken(states: seq<State>, actions: seq<Action>, n: nat, g: nat): nat
    requires IsRun(states, actions) && n <= |actions|
  {
    if n == 0 then 0
    else
      var e := EffectOf(states[n - 1], actions[n - 1]);
      Taken(states, actions, n - 1, g) + if TypedEffect(states[n - 1], e) then Leaving(states[n - 1], e, g) else 0
  }

  lemma StepConservesRings(s: State, a: Action, g: nat)
    requires Typed(s) && Enabled(s, a) && g < |s.grains|
    ensures TypedEffect(s, EffectOf(s, a)) && |Next(s, a).grains| == |s.grains|
    ensures RingTotal(Next(s, a), g) + Leaving(s, EffectOf(s, a), g) == RingTotal(s, g) + Entering(EffectOf(s, a), g)
  {
    if a.Produce? {
      ProduceTyped(s, a);
    } else if a.Work? {
      WorkTyped(s, a);
    }
    if !a.Receive? {
      ApplyRings(s, EffectOf(s, a), g);
      ApplyKeepsSizes(s, EffectOf(s, a));
    }
  }

  /** Whatever was spilled, stolen or wrapped around: pushed = taken + still in a ring. */
  lemma {:induction false} RingConservation(states: seq<State>, actions: seq<Action>, n: nat, g: nat)
    requires IsRun(states, actions) && n <= |actions| && g < |states[0].grains|
    ensures |states[n].grains| == |states[0].grains|
    ensures Pushed(states, actions, n, g) == Taken(states, actions, n, g) + RingTotal(states[n], g)
  {
    if n == 0 {
      TotalZero(RingTokens, states[0].locals, g);
    } else {
      RingConservation(states, actions, n - 1, g);
      StepConservesRings(states[n - 1], actions[n - 1], g);
    }
  }

  // ---- no deadlock ---------------------------------------------------------------------------

  /** A worker that only a signal or a producer's link can move. */
  predicate Blocked(s: State, pc: Worker) {
    || pc.Waiting?
    || (pc.Turn? && pc.at.Spin? && pc.at.h < |s.nodes| && s.nodes[pc.at.h].next.None?)
  }

  /** Which waiter to signal, if there is one. */
  lemma SignalChoice(ws: seq<Worker>, parked: int) returns (wake: nat)
    ensures CanSignal(ws, parked, wake)
  {
    if i :| 0 <= i < |ws| && ws[i] == Waiting {
      wake := i;
    } else {
      wake := 0;
    }
  }

  lemma ProducerCanMove(s: State, p: nat) returns (a: Action)
    requires Typed(s) && p < |s.producers| && !s.producers[p].Ready?
    ensures !a.Receive? && Enabled(s, a) && Next(s, a) != s
  {
    var wake := SignalChoice(s.workers, s.parked);
    a := Produce(p, true, wake);
    assert Next(s, a).producers[p] != s.producers[p];
  }

  lemma WorkerCanMove(s: State, w: nat) returns (a: Action)
    requires Typed(s) && w < |s.workers| && !Blocked(s, s.workers[w])
    ensures !a.Receive? && Enabled(s, a) && Next(s, a) != s
  {
    var wake := SignalChoice(s.workers, s.parked);
    a := Work(w, true, wake);
    WorkTyped(s, a);
    ApplyKeepsSizes(s, WorkMove(s, w, true, wake).effect);
    assert WorkMove(s, w, true, wake).pc != s.workers[w];
    assert Next(s, a).workers[w] != s.workers[w];
  }

  /**
    Unless everything is at rest, some thread can take a step that changes the state: a
    spinning Dequeue always waits for a producer that is about to write the link.
   */
  lemma NoDeadlock(s: State) returns (a: Action)
    requires Reachable(s) && !Quiescent(s)
    ensures !a.Receive? && Typed(s) && Enabled(s, a) && Next(s, a) != s
  {
    ReachableHolds(s);
    if p :| 0 <= p < |s.producers| && !s.producers[p].Ready? {
      a := ProducerCanMove(s, p);
    } else {
      var w :| 0 <= w < |s.workers| && !s.workers[w].Waiting?;
      if Blocked(s, s.workers[w]) { SpinHasLinker(s, w); }
      a := WorkerCanMove(s, w);
    }
  }

  lemma SpinHasLinker(s: State, w: nat)
    requires Inv(s) && w < |s.workers| && s.workers[w].Turn? && Blocked(s, s.workers[w])
    ensures exists p :: 0 <= p < |s.producers| && !s.producers[p].Ready?
  {
    var pc := s.workers[w];
    var live := s.grains[pc.g].box.live;
    assert WorkerOk(s.nodes, s.grains, w, pc) && GrainOk(s.nodes, s.grains[pc.g], pc.g);
    assert |live| > 1 && s.nodes[live[0]].after == Some(live[1]);
    assert NodeOk(s, pc.at.h);
    assert !s.producers[s.nodes[pc.at.h].linker].Ready?;
  }
}
