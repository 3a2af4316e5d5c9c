/**
  How long the kernel can go on without new receives.  Producers have a budget of steps,
  whatever the workers do; once no receive is in progress, every step of every worker
  spends from an effort that the state determines.
 */
module KernelProgress {
  import opened Basics
  import opened Kernel
  import opened KernelTokens
  import opened KernelMailbox
  import opened KernelMailboxSteps
  import opened KernelCounts
  import opened KernelTheorems
  import opened Counting

  // ---- the effort in a state ---------------------------------------------------------

  /** What a grain in a ring is worth: a turn that finds nothing, and the search after it. */
  function Ticket(n: nat): nat { 2 * n + 11 }

  /** What a held message is worth: its handling, and a requeue of its grain. */
  function Parcel(n: nat): nat { 2 * n + 14 + Ticket(n) }

  /** Bounds the steps a worker takes before it needs another grain or another message. */
  function SpotRank(n: nat, first: bool, busy: bool, at: Spot): nat {
    match at
    case LoadHead => 2 * n + 10 + if first then 0 else Ticket(n)
    case LoadNext(_) => 2 * n + 9
    case LoadTail(_) => 2 * n + 8
    case Spin(_) => 2
    case StoreHead(_, _) => 1
    case Decrement(_, _) => 2 * n + 14 + Ticket(n)
    case Unlink(_, _) => 2 * n + 13 + Ticket(n)
    case Recycle(_, _) => 2 * n + 12 + Ticket(n)
    case Handle(_) => 2 * n + 11 + Ticket(n)
    case GoIdle => if busy then 2 * n + 15 + Ticket(n) else 2 * n + 7
  }

  /** For n workers and a budget of t messages a turn; busy grains have a length other than 0. */
  function Rank(n: nat, t: nat, busy: set<nat>, pc: Worker): nat {
    match pc
    case Waiting => 0
    case Signalled => 1
    case Park => 2
    case ProbeSibling(i) => 3 + if i < n then 2 * (n - i) else 0
    case Steal(i) => 2 + if i < n then 2 * (n - i) else 0
    case LockGlobal => 2 * n + 2
    case ProbeGlobal => 2 * n + 3
    case LockLocal => 2 * n + 4
    case PopLocal => 2 * n + 5
    case Begin(_) => Ticket(n)
    case Turn(g, left, at) => SpotRank(n, left == t, g in busy, at)
    case CheckEmpty(g, _) => if g in busy then 2 * n + 14 + Ticket(n) else 2 * n + 6
    case ReLoad(_, _) => 2 * n + 13 + Ticket(n)
    case ReCas(_, _) => 2 * n + 12 + Ticket(n)
    case ReTake(_, _) => 2 * n + 11 + Ticket(n)
    case Requeue(_) => 2 * n + 8 + Ticket(n)
    case Spill(_) => 2 * n + 7 + Ticket(n)
  }

  function RankOf(n: nat, t: nat, busy: set<nat>): (Worker, nat) -> nat {
    (pc, k) => Rank(n, t, busy, pc)
  }

  function Busy(s: State): set<nat> {
    set g | 0 <= g < |s.grains| && s.grains[g].len != 0
  }

  function RingLength(ring: seq<nat>, k: nat): nat { |ring| }

  /** Entries in all rings. */
  function RingCount(s: State): nat {
    |s.global| + Total(RingLength, s.locals, 0)
  }

  function HeldIn(gr: Grain, k: nat): nat {
    if |gr.box.live| > 0 then |gr.box.live| - 1 else 0
  }

  /** Messages in all mailboxes. */
  function HeldTotal(s: State): nat {
    Total(HeldIn, s.grains, 0)
  }

  function Worth(each: nat, count: nat): nat { each * count }

  function WorkerEffort(s: State): nat {
    Total(RankOf(|s.workers|, s.throughput, Busy(s)), s.workers, 0)
  }

  function Effort(s: State): nat {
    WorkerEffort(s) + Worth(Ticket(|s.workers|), RingCount(s)) + Worth(Parcel(|s.workers|), HeldTotal(s))
  }

  // ---- what one step does to the counts ------------------------------------------------

  function In(e: Effect): nat { Bit(e.PushGlobal? || e.PushOwn?) }

  function Out(e: Effect): nat { Bit(e.PopGlobal? || e.PopGlobalAwake? || e.PopOwn? || e.StealHalf?) }

  lemma StealMoves(s: State, w: nat, v: nat)
    requires TypedEffect(s, StealHalf(w, v))
    ensures RingCount(Apply(s, StealHalf(w, v))) + 1 == RingCount(s)
  {
    var k := MovedCount(|s.locals[v]|, |s.locals[w]|);
    var ring := s.locals[v];
    var rest := s.locals[v := ring[1 + k..]];
    TotalUpdate(RingLength, s.locals, 0, v, ring[1 + k..]);
    TotalUpdate(RingLength, rest, 0, w, s.locals[w] + ring[1..1 + k]);
  }

  lemma CountRings(s: State, e: Effect)
    requires TypedEffect(s, e)
    ensures RingCount(Apply(s, e)) + Out(e) == RingCount(s) + In(e)
  {
    match e
    case PushOwn(w, x) => TotalUpdate(RingLength, s.locals, 0, w, s.locals[w] + [x]);
    case PopOwn(w) => TotalUpdate(RingLength, s.locals, 0, w, s.locals[w][1..]);
    case StealHalf(w, v) => StealMoves(s, w, v);
    case _ =>
  }

  lemma CountHeld(s: State, e: Effect)
    requires TypedEffect(s, e) && (e.SwapTail? ==> |s.grains[e.g].box.live| > 0)
    requires e.AdvanceHead? ==> |s.grains[e.g].box.live| > 1
    ensures |Apply(s, e).grains| == |s.grains|
    ensures HeldTotal(Apply(s, e)) + Bit(e.AdvanceHead?) == HeldTotal(s) + Bit(e.SwapTail?)
  {
    if e.Become? || e.AddLen? || e.SwapTail? || e.AdvanceHead? || e.Finish? {
      TotalUpdate(HeldIn, s.grains, 0, e.g, Apply(s, e).grains[e.g]);
      assert Apply(s, e).grains == s.grains[e.g := Apply(s, e).grains[e.g]];
    }
  }

  // ---- no receive is in progress ---------------------------------------------------------

  ghost predicate AllReady(s: State) {
    forall p :: 0 <= p < |s.producers| ==> s.producers[p].Ready?
  }

  /** The length counter is then exact but for a dequeue under way. */
  lemma ExactLength(s: State, g: nat)
    requires LenInv(s) && AllReady(s) && g < |s.grains|
    ensures s.grains[g].len == HeldCount(s, g) + Total(Popped, s.workers, g)
  {
    assert LenOk(s, g);
    TotalZero(Reserved, s.producers, g);
    TotalZero(Uncounted, s.producers, g);
  }

  /** An owner that is not decrementing is alone, so nobody is. */
  lemma NonePopped(s: State, w: nat)
    requires Inv(s) && w < |s.workers| && s.workers[w].Turn? && !s.workers[w].at.Decrement?
    ensures Total(Popped, s.workers, s.workers[w].g) == 0
  {
    var g := s.workers[w].g;
    if Total(Popped, s.workers, g) > 0 {
      var v := TotalFrom(Popped, s.workers, g);
      OneWorkerPerTurn(s, w, v);
    }
  }

  /** Then a dequeue that finds the tail at its head leaves an empty mailbox behind. */
  lemma TailMeansZero(s: State, w: nat)
    requires Inv(s) && AllReady(s) && w < |s.workers| && s.workers[w].Turn? && s.workers[w].at.LoadTail?
    requires s.workers[w].g < |s.grains| && s.workers[w].at.h == s.grains[s.workers[w].g].box.tail
    ensures s.grains[s.workers[w].g].len == 0
  {
    var g := s.workers[w].g;
    var live := s.grains[g].box.live;
    assert GrainOk(s.nodes, s.grains[g], g) && WorkerOk(s.nodes, s.grains, w, s.workers[w]);
    assert live[0] == live[|live| - 1] && |live| == 1;
    NonePopped(s, w);
    ExactLength(s, g);
  }

  lemma PoppedCounts(s: State, w: nat)
    requires Inv(s) && AllReady(s) && w < |s.workers| && s.workers[w].Turn? && s.workers[w].at.Decrement?
    requires s.workers[w].g < |s.grains|
    ensures s.grains[s.workers[w].g].len > 0
  {
    var g := s.workers[w].g;
    assert GrainOk(s.nodes, s.grains[g], g);
    TotalHas(Popped, s.workers, g, w);
    ExactLength(s, g);
  }

  // ---- every step of a worker spends -----------------------------------------------------

  /** The rank before pays for the rank after, for what is pushed and for the waiter it wakes. */
  predicate Pays(n: nat, before: nat, after: nat, e: Effect) {
    after + Ticket(n) * In(e) + Bit(e.PushGlobal?) < before + Ticket(n) * Out(e) + Parcel(n) * Bit(e.AdvanceHead?)
  }

  lemma TurnSpends(s: State, w: nat, g: nat, left: nat, at: Spot)
    requires g < |s.grains| && TypedSpot(s, s.grains[g], at) && s.throughput > 0
    requires at.LoadTail? && at.h == s.grains[g].box.tail ==> s.grains[g].len == 0
    requires at.Spin? ==> s.nodes[at.h].next.Some?
    ensures
      var n, t, busy := |s.workers|, s.throughput, Busy(s);
      var move := TurnMove(s, w, g, left, at);
      Pays(n, Rank(n, t, busy, Turn(g, left, at)), Rank(n, t, busy, move.pc), move.effect) && !move.effect.SwapTail?
  {
  }

  lemma MoveSpends(s: State, w: nat, flag: bool, wake: nat)
    requires w < |s.workers| == |s.locals| && !s.workers[w].Waiting? && TypedWorker(s, s.workers[w])
    requires s.throughput > 0
    requires var pc := s.workers[w];
      pc.Turn? && pc.at.LoadTail? && pc.at.h == s.grains[pc.g].box.tail ==> s.grains[pc.g].len == 0
    requires var pc := s.workers[w]; pc.Turn? && pc.at.Spin? ==> s.nodes[pc.at.h].next.Some?
    ensures
      var n, t, busy := |s.workers|, s.throughput, Busy(s);
      var move := WorkMove(s, w, flag, wake);
      Pays(n, Rank(n, t, busy, s.workers[w]), Rank(n, t, busy, move.pc), move.effect) && !move.effect.SwapTail?
  {
    var pc := s.workers[w];
    if pc.Turn? { TurnSpends(s, w, pc.g, pc.left, pc.at); }
  }

  /** Lengths go down only, so that no grain becomes busy. */
  lemma BusyShrinks(s: State, e: Effect)
    requires TypedEffect(s, e) && (e.AddLen? ==> s.grains[e.g].len > 0)
    ensures |Apply(s, e).grains| == |s.grains| && Busy(Apply(s, e)) <= Busy(s)
  {
  }

  lemma RankShrinks(n: nat, t: nat, busy: set<nat>, busy': set<nat>, ws: seq<Worker>)
    requires busy' <= busy
    ensures Total(RankOf(n, t, busy'), ws, 0) <= Total(RankOf(n, t, busy), ws, 0)
  {
    TotalWithin(RankOf(n, t, busy), RankOf(n, t, busy'), ws, 0, 0);
  }

  /** The workers' ranks after a move and the signal that goes with it. */
  lemma RanksAfter(s: State, w: nat, pc: Worker, e: Effect, f: (Worker, nat) -> nat)
    requires TypedEffect(s, e) && w < |s.workers| && !s.workers[w].Waiting?
    requires f(Waiting, 0) == 0 && f(Signalled, 0) == 1
    ensures |Apply(s, e).workers| == |s.workers|
    ensures Total(f, Apply(s, e).workers[w := pc], 0) + f(s.workers[w], 0)
         <= Total(f, s.workers, 0) + f(pc, 0) + Bit(e.PushGlobal?)
  {
    SameWorker(s, e, w);
    TotalUpdate(f, Apply(s, e).workers, 0, w, pc);
    if Apply(s, e).workers != s.workers { TotalUpdate(f, s.workers, 0, e.wake, Signalled); }
  }

  lemma Times(a: nat, b: nat, b': nat, d: nat, d': nat)
    requires b' + d == b + d'
    ensures Worth(a, b') + a * d == Worth(a, b) + a * d'
  {
    assert a * (b' + d) == a * (b + d');
  }

  lemma MoveKeepsEffort(s: State, w: nat, pc: Worker, e: Effect)
    requires TypedEffect(s, e) && w < |s.workers| && !s.workers[w].Waiting? && !e.SwapTail?
    requires e.AddLen? ==> s.grains[e.g].len > 0
    requires e.AdvanceHead? ==> |s.grains[e.g].box.live| > 1
    requires
      var n, t, busy := |s.workers|, s.throughput, Busy(s);
      Pays(n, Rank(n, t, busy, s.workers[w]), Rank(n, t, busy, pc), e)
    ensures |Apply(s, e).workers| == |s.workers|
    ensures Effort(Apply(s, e).(workers := Apply(s, e).workers[w := pc])) < Effort(s)
  {
    var n, t := |s.workers|, s.throughput;
    var mid := Apply(s, e);
    ApplyKeepsSizes(s, e);
    var s' := mid.(workers := mid.workers[w := pc]);
    RanksAfter(s, w, pc, e, RankOf(n, t, Busy(s)));
    BusyShrinks(s, e);
    assert Busy(s') == Busy(mid);
    RankShrinks(n, t, Busy(s), Busy(s'), s'.workers);
    CountRings(s, e);
    CountHeld(s, e);
    Times(Ticket(n), RingCount(s), RingCount(s'), Out(e), In(e));
    Times(Parcel(n), HeldTotal(s), HeldTotal(s'), Bit(e.AdvanceHead?), 0);
  }

  /** No turn goes idle over a message, spins, or counts below zero. */
  lemma Unhindered(s: State, w: nat)
    requires Inv(s) && AllReady(s) && w < |s.workers|
    ensures
      var pc := s.workers[w];
      pc.Turn? ==>
        && TypedWorker(s, pc) && pc.g < |s.grains|
        && (pc.at.LoadTail? && pc.at.h == s.grains[pc.g].box.tail ==> s.grains[pc.g].len == 0)
        && (pc.at.Spin? ==> s.nodes[pc.at.h].next.Some?)
        && (pc.at.Decrement? ==> s.grains[pc.g].len > 0)
  {
    var pc := s.workers[w];
    assert TypedWorker(s, pc);
    if pc.Turn? {
      if pc.at.LoadTail? && pc.at.h == s.grains[pc.g].box.tail { TailMeansZero(s, w); }
      if pc.at.Spin? && s.nodes[pc.at.h].next.None? {
        SpinHasLinker(s, w);
        assert false;
      }
      if pc.at.Decrement? { PoppedCounts(s, w); }
    }
  }

  /** Once no receive is in progress every step of a worker lowers the effort. */
  lemma WorkSpends(s: State, a: Action)
    requires Inv(s) && AllReady(s) && s.throughput > 0 && a.Work? && Enabled(s, a)
    ensures Effort(Next(s, a)) < Effort(s)
  {
    var pc := s.workers[a.w];
    assert TypedWorker(s, pc);
    WorkTyped(s, a);
    Unhindered(s, a.w);
    MoveSpends(s, a.w, a.flag, a.wake);
    var move := WorkMove(s, a.w, a.flag, a.wake);
    assert move.effect.AddLen? ==> pc.Turn? && pc.at.Decrement? && move.effect.g == pc.g;
    assert move.effect.AdvanceHead? ==> pc.Turn? && pc.at.StoreHead? && move.effect.g == pc.g;
    MoveKeepsEffort(s, a.w, move.pc, move.effect);
  }

  /** No Receive among the actions from j to k. */
  ghost predicate NoReceive(actions: seq<Action>, j: nat, k: nat)
    requires j <= k <= |actions|
  {
    forall i :: j <= i < k ==> !actions[i].Receive?
  }

  /** Without receives producers stay ready and only workers move. */
  lemma StaysReady(s: State, a: Action)
    requires Typed(s) && AllReady(s) && Enabled(s, a) && !a.Receive?
    ensures a.Work? && AllReady(Next(s, a)) && Next(s, a).throughput == s.throughput
  {
    WorkTyped(s, a);
    ApplyKeepsSizes(s, WorkMove(s, a.w, a.flag, a.wake).effect);
  }

  /** One step of a run. */
  lemma StepSpends(states: seq<State>, actions: seq<Action>, i: nat)
    requires IsRun(states, actions) && i < |actions| && !actions[i].Receive?
    requires AllReady(states[i]) && states[i].throughput > 0
    ensures Effort(states[i + 1]) < Effort(states[i])
  {
    RunHolds(states, actions, i);
    StaysReady(states[i], actions[i]);
    WorkSpends(states[i], actions[i]);
  }

  lemma ReadyNext(states: seq<State>, actions: seq<Action>, i: nat)
    requires IsRun(states, actions) && i < |actions| && !actions[i].Receive? && AllReady(states[i])
    ensures AllReady(states[i + 1]) && states[i + 1].throughput == states[i].throughput
  {
    StaysReady(states[i], actions[i]);
  }

  lemma {:induction false} ReadyThroughout(states: seq<State>, actions: seq<Action>, j: nat, k: nat)
    requires IsRun(states, actions) && j <= k <= |actions| && NoReceive(actions, j, k)
    requires AllReady(states[j]) && states[j].throughput > 0
    ensures AllReady(states[k]) && states[k].throughput > 0
  {
    if j < k {
      ReadyThroughout(states, actions, j, k - 1);
      ReadyNext(states, actions, k - 1);
    }
  }

  lemma {:induction false} FallsEachTime(efforts: seq<nat>, j: nat, k: nat)
    requires j <= k < |efforts| && forall i :: j <= i < k ==> efforts[i + 1] < efforts[i]
    ensures k - j + efforts[k] <= efforts[j]
  {
    if j < k { FallsEachTime(efforts, j, k - 1); }
  }

  /** However the workers are scheduled, they take at most as many steps as there is effort. */
  lemma WorkersSettle(states: seq<State>, actions: seq<Action>, j: nat, k: nat)
    requires IsRun(states, actions) && j <= k <= |actions| && NoReceive(actions, j, k)
    requires AllReady(states[j]) && states[j].throughput > 0
    ensures AllReady(states[k]) && states[k].throughput > 0
    ensures k - j <= Effort(states[j]) - Effort(states[k])
  {
    var efforts := seq(|states|, i requires 0 <= i < |states| => Effort(states[i]));
    forall i | j <= i < k ensures efforts[i + 1] < efforts[i] {
      ReadyThroughout(states, actions, j, i);
      StepSpends(states, actions, i);
    }
    ReadyThroughout(states, actions, j, k);
    FallsEachTime(efforts, j, k);
  }

  lemma Prolong(states: seq<State>, actions: seq<Action>, a: Action)
    requires IsRun(states, actions) && Typed(states[|actions|]) && Enabled(states[|actions|], a)
    ensures IsRun(states + [Next(states[|actions|], a)], actions + [a])
  {
    var states', actions' := states + [Next(states[|actions|], a)], actions + [a];
    assert states'[0] == states[0];
    forall i | 0 <= i < |actions'|
      ensures Typed(states'[i]) && Enabled(states'[i], actions'[i]) && states'[i + 1] == Next(states'[i], actions'[i])
    {
      assert states'[i] == states[i];
      if i < |actions| { assert actions'[i] == actions[i] && states'[i + 1] == states[i + 1]; }
    }
  }

  /** Short of rest, some worker can take a step that spends. */
  lemma CanGoOn(states: seq<State>, actions: seq<Action>) returns (a: Action)
    requires IsRun(states, actions) && AllReady(states[|actions|]) && states[|actions|].throughput > 0
    requires !Quiescent(states[|actions|])
    ensures a.Work? && Typed(states[|actions|]) && Enabled(states[|actions|], a)
    ensures
      var s' := Next(states[|actions|], a);
      && IsRun(states + [s'], actions + [a]) && AllReady(s') && s'.throughput > 0
      && Effort(s') < Effort(states[|actions|])
  {
    var s := states[|actions|];
    assert Reachable(s);
    a := NoDeadlock(s);
    RunHolds(states, actions, |actions|);
    StaysReady(s, a);
    WorkSpends(s, a);
    Prolong(states, actions, a);
  }

  /** A run that has spent the effort is at rest: all that was accepted has been handled. */
  lemma SpentIsQuiescent(states: seq<State>, actions: seq<Action>, j: nat)
    requires IsRun(states, actions) && j <= |actions| && NoReceive(actions, j, |actions|)
    requires AllReady(states[j]) && states[j].throughput > 0 && |actions| - j >= Effort(states[j])
    ensures Quiescent(states[|actions|])
  {
    WorkersSettle(states, actions, j, |actions|);
    if !Quiescent(states[|actions|]) { var a := CanGoOn(states, actions); }
  }

  /** Every run can be brought to rest within its effort once its producers are ready. */
  lemma {:induction false} ComesToRest(states: seq<State>, actions: seq<Action>)
    returns (states': seq<State>, actions': seq<Action>)
    requires IsRun(states, actions) && AllReady(states[|actions|]) && states[|actions|].throughput > 0
    ensures IsRun(states', actions') && states <= states' && actions <= actions'
    ensures NoReceive(actions', |actions|, |actions'|) && Quiescent(states'[|actions'|])
    ensures |actions'| - |actions| <= Effort(states[|actions|])
    decreases Effort(states[|actions|])
  {
    states', actions' := states, actions;
    if !Quiescent(states[|actions|]) {
      var a := CanGoOn(states, actions);
      states', actions' := ComesToRest(states + [Next(states[|actions|], a)], actions + [a]);
      assert actions'[|actions|] == a;
    }
  }

  // ---- producers finish --------------------------------------------------------------------

  function Lengths(s: State): seq<int> {
    seq(|s.grains|, g requires 0 <= g < |s.grains| => s.grains[g].len)
  }

  /** Steps to the end of receive; a reservation that has seen an old length must load again. */
  function ProducerRank(lens: seq<int>, pc: Producer): nat {
    match pc
    case Ready => 0
    case Check(_, _) => 12
    case ReserveLoad(_, _) => 10
    case ReserveCas(g, _, seen) => if g < |lens| && lens[g] == seen then 9 else 11
    case ClearNext(_, _) => 8
    case Swap(_, _) => 7
    case Link(_, _, _) => 6
    case Count(_) => 5
    case TryLoad(_) => 4
    case TryCas(_) => 3
    case Push(_) => 2
  }

  function ProducerRankOf(lens: seq<int>): (Producer, nat) -> nat {
    (pc, k) => ProducerRank(lens, pc)
  }

  /** How often a producer's call, and later the dequeue of its message, can still change a length. */
  function Pending(pc: Producer, k: nat): nat {
    if pc.Check? || pc.ReserveLoad? || pc.ReserveCas? then 3
    else if pc.ClearNext? || pc.Swap? then 2
    else if pc.Link? || pc.Count? then 1
    else 0
  }

  function Decrementing(pc: Worker, k: nat): nat {
    Bit(pc.Turn? && pc.at.Decrement?)
  }

  function Changes(s: State): nat {
    Total(Pending, s.producers, 0) + HeldTotal(s) + Total(Decrementing, s.workers, 0)
  }

  function Budget(s: State): nat {
    Worth(2 * |s.producers|, Changes(s)) + Total(ProducerRankOf(Lengths(s)), s.producers, 0)
  }

  /** One producer's move: it spends, and every change of a length is one less to come. */
  lemma ProducerSpends(s: State, p: nat, flag: bool, wake: nat)
    requires p < |s.producers| && !s.producers[p].Ready? && TypedProducer(s, s.producers[p])
    ensures
      var pc, move := s.producers[p], ProduceMove(s, p, flag, wake);
      && ProducerRank(Lengths(s), move.pc) < ProducerRank(Lengths(s), pc)
      && Pending(move.pc, 0) + Bit(move.effect.SwapTail?) + Bit(move.effect.AddLen?) <= Pending(pc, 0)
      && !move.effect.AdvanceHead?
  {
  }

  /** A worker's move. */
  lemma WorkerTrades(s: State, w: nat, flag: bool, wake: nat)
    requires w < |s.workers| == |s.locals| && !s.workers[w].Waiting? && TypedWorker(s, s.workers[w])
    ensures
      var move := WorkMove(s, w, flag, wake);
      && Decrementing(move.pc, 0) + Bit(move.effect.AddLen?)
         == Decrementing(s.workers[w], 0) + Bit(move.effect.AdvanceHead?)
      && !move.effect.SwapTail?
  {
  }

  /** Lengths change by AddLen only; a rank grows by at most 2 when they do. */
  lemma RanksFollow(s: State, s': State, e: Effect)
    requires TypedEffect(s, e) && s'.grains == Apply(s, e).grains
    ensures !e.AddLen? ==> Lengths(s') == Lengths(s)
    ensures Total(ProducerRankOf(Lengths(s')), s'.producers, 0)
         <= Total(ProducerRankOf(Lengths(s)), s'.producers, 0) + 2 * |s'.producers| * Bit(e.AddLen?)
  {
    if e.AddLen? { TotalWithin(ProducerRankOf(Lengths(s)), ProducerRankOf(Lengths(s')), s'.producers, 0, 2); }
  }

  lemma LessOften(a: nat, b: nat, b': nat, d: nat)
    requires b' + d <= b
    ensures Worth(a, b') + a * d <= Worth(a, b)
  {
    assert a * (b' + d) <= a * b;
  }

  lemma ProduceKeepsBudget(s: State, p: nat, pc: Producer, e: Effect)
    requires TypedEffect(s, e) && p < |s.producers| && !e.AdvanceHead?
    requires e.SwapTail? ==> |s.grains[e.g].box.live| > 0
    requires ProducerRank(Lengths(s), pc) < ProducerRank(Lengths(s), s.producers[p])
    requires Pending(pc, 0) + Bit(e.SwapTail?) + Bit(e.AddLen?) <= Pending(s.producers[p], 0)
    ensures Budget(Apply(s, e).(producers := s.producers[p := pc])) < Budget(s)
  {
    var s' := Apply(s, e).(producers := s.producers[p := pc]);
    TotalUpdate(Pending, s.producers, 0, p, pc);
    CountHeld(s, e);
    SignalKeepsDecrementing(s, e);
    TotalUpdate(ProducerRankOf(Lengths(s)), s.producers, 0, p, pc);
    RanksFollow(s, s', e);
    LessOften(2 * |s.producers|, Changes(s), Changes(s'), Bit(e.AddLen?));
  }

  lemma SignalKeepsDecrementing(s: State, e: Effect)
    requires TypedEffect(s, e)
    ensures |Apply(s, e).workers| == |s.workers|
    ensures Total(Decrementing, Apply(s, e).workers, 0) == Total(Decrementing, s.workers, 0)
  {
    if Apply(s, e).workers != s.workers { TotalUpdate(Decrementing, s.workers, 0, e.wake, Signalled); }
  }

  lemma WorkKeepsBudget(s: State, w: nat, pc: Worker, e: Effect)
    requires TypedEffect(s, e) && w < |s.workers| && !s.workers[w].Waiting? && !e.SwapTail?
    requires e.AdvanceHead? ==> |s.grains[e.g].box.live| > 1
    requires Decrementing(pc, 0) + Bit(e.AddLen?) == Decrementing(s.workers[w], 0) + Bit(e.AdvanceHead?)
    ensures |Apply(s, e).workers| == |s.workers|
    ensures Budget(Apply(s, e).(workers := Apply(s, e).workers[w := pc])) <= Budget(s)
  {
    var mid := Apply(s, e);
    SignalKeepsDecrementing(s, e);
    SameWorker(s, e, w);
    var s' := mid.(workers := mid.workers[w := pc]);
    ApplyKeepsSizes(s, e);
    TotalUpdate(Decrementing, mid.workers, 0, w, pc);
    CountHeld(s, e);
    RanksFollow(s, s', e);
    LessOften(2 * |s.producers|, Changes(s), Changes(s'), Bit(e.AddLen?));
  }

  lemma ProduceLowersBudget(s: State, a: Action)
    requires Inv(s) && Enabled(s, a) && a.Produce?
    ensures Budget(Next(s, a)) < Budget(s)
  {
    ProduceTyped(s, a);
    ProducerSpends(s, a.p, a.flag, a.wake);
    var move := ProduceMove(s, a.p, a.flag, a.wake);
    if move.effect.SwapTail? { assert GrainOk(s.nodes, s.grains[move.effect.g], move.effect.g); }
    ProduceKeepsBudget(s, a.p, move.pc, move.effect);
  }

  lemma WorkLeavesBudget(s: State, a: Action)
    requires Typed(s) && Enabled(s, a) && a.Work?
    ensures Budget(Next(s, a)) <= Budget(s)
  {
    WorkTyped(s, a);
    WorkerTrades(s, a.w, a.flag, a.wake);
    var pc, move := s.workers[a.w], WorkMove(s, a.w, a.flag, a.wake);
    assert TypedWorker(s, pc);
    assert move.effect.AdvanceHead? ==> pc.Turn? && pc.at.StoreHead? && move.effect.g == pc.g;
    WorkKeepsBudget(s, a.w, move.pc, move.effect);
  }

  lemma StepKeepsBudget(states: seq<State>, actions: seq<Action>, i: nat)
    requires IsRun(states, actions) && i < |actions| && !actions[i].Receive?
    ensures Budget(states[i + 1]) + Bit(actions[i].Produce?) <= Budget(states[i])
  {
    RunHolds(states, actions, i);
    if actions[i].Produce? {
      ProduceLowersBudget(states[i], actions[i]);
    } else {
      WorkLeavesBudget(states[i], actions[i]);
    }
  }

  /** The steps of producers between j and k. */
  ghost function Produced(actions: seq<Action>, j: nat, k: nat): nat
    requires j <= k <= |actions|
    decreases k
  {
    if j == k then 0 else Produced(actions, j, k - 1) + Bit(actions[k - 1].Produce?)
  }

  lemma {:induction false} SpentInTurn(budgets: seq<nat>, actions: seq<Action>, j: nat, k: nat)
    requires |budgets| == |actions| + 1 && j <= k <= |actions|
    requires forall i :: j <= i < k ==> budgets[i + 1] + Bit(actions[i].Produce?) <= budgets[i]
    ensures Produced(actions, j, k) + budgets[k] <= budgets[j]
    decreases k
  {
    if j < k { SpentInTurn(budgets, actions, j, k - 1); }
  }

  /** Whatever the workers do, producers take at most as many steps as their budget. */
  lemma ProducersFinish(states: seq<State>, actions: seq<Action>, j: nat, k: nat)
    requires IsRun(states, actions) && j <= k <= |actions| && NoReceive(actions, j, k)
    ensures Produced(actions, j, k) + Budget(states[k]) <= Budget(states[j])
  {
    var budgets := seq(|states|, i requires 0 <= i < |states| => Budget(states[i]));
    forall i | j <= i < k ensures budgets[i + 1] + Bit(actions[i].Produce?) <= budgets[i] {
      StepKeepsBudget(states, actions, i);
    }
    SpentInTurn(budgets, actions, j, k);
  }
}
