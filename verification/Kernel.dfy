/**
  The cooperative scheduling kernel as a step machine.

  Any number of producers run `receive`; any number of workers run `take` and
  `runTurn`.  Every atomic load, store, swap or compare-and-swap is one step and
  every section under a lock is one step, so a run is any interleaving of those
  steps.  Steps are labelled by an Action and computed by Next.

  Fields marked "history" are never read by a step's control flow; they record
  what happened so that properties can be stated.
 */
module Kernel {
  import opened Basics

  type Message = nat

  /** The message a reset context holds. */
  const CLEARED: Message := 0

  const LOCAL_QUEUE_CAP: nat := 256
  const CONTEXT_POOL_CAP: nat := 512

  datatype Sched = Idle | Scheduled | Processing

  /** Where a context is: known only to the proof. */
  datatype Home = Loose | Held(producer: nat) | Boxed(grain: nat) | Retired(worker: nat)

  /** A grain context, which is also a mailbox list node. */
  datatype Node = Node(
    next: Option<nat>,
    msg: Message,
    home: Home,            // history: who may touch the node
    after: Option<nat>,    // history: the node whose producer swapped the tail next
    linker: nat)           // history: that producer

  /** The linked list of a grain's mailbox. */
  datatype Box = Box(
    head: nat,
    tail: nat,
    live: seq<nat>,            // history: sentinel and held nodes, in tail-swap order
    accepted: seq<Message>,    // history: messages in tail-swap order
    inHand: seq<Message>,      // history: dequeued, not yet handled
    handled: seq<Message>)     // history: messages given to the handler

  /** A grain: its scheduling state and its mailbox; capacity <= 0 means unbounded. */
  datatype Grain = Grain(sched: Sched, len: int, capacity: int, box: Box)

  /** Where a producer is inside receive, mailbox.tryEnqueue, TrySchedule and push. */
  datatype Producer =
    | Ready
    | Check(g: nat, n: nat)
    | ReserveLoad(g: nat, n: nat)
    | ReserveCas(g: nat, n: nat, seen: int)
    | ClearNext(g: nat, n: nat)
    | Swap(g: nat, n: nat)
    | Link(g: nat, n: nat, prev: nat)
    | Count(g: nat)
    | TryLoad(g: nat)
    | TryCas(g: nat)
    | Push(g: nat)

  /** Where a worker is inside Dequeue and dispatchOne. */
  datatype Spot =
    | LoadHead
    | LoadNext(h: nat)
    | LoadTail(h: nat)
    | Spin(h: nat)
    | StoreHead(h: nat, nx: nat)
    | Decrement(h: nat, nx: nat)
    | Unlink(h: nat, nx: nat)
    | Recycle(h: nat, nx: nat)
    | Handle(nx: nat)
    | GoIdle

  /** Where a worker is inside take, runTurn, finishOrReclaim and reschedule. */
  datatype Worker =
    | PopLocal
    | LockLocal
    | ProbeGlobal
    | LockGlobal
    | ProbeSibling(i: nat)
    | Steal(i: nat)
    | Park
    | Waiting
    | Signalled
    | Begin(g: nat)
    | Turn(g: nat, left: nat, at: Spot)
    | CheckEmpty(g: nat, left: nat)
    | ReLoad(g: nat, left: nat)
    | ReCas(g: nat, left: nat)
    | ReTake(g: nat, left: nat)
    | Requeue(g: nat)
    | Spill(g: nat)

  datatype State = State(
    throughput: nat,
    grains: seq<Grain>,
    nodes: seq<Node>,
    pool: set<nat>,
    producers: seq<Producer>,
    workers: seq<Worker>,
    global: seq<nat>,
    locals: seq<seq<nat>>,
    parked: int)

  /**
    Receive starts a call of receive with a pooled or a new context; Produce and
    Work advance one thread by one step.  `flag` resolves what the thread cannot
    know (is the grain active; does the size of the shared ring, of a sibling's or of its
    own ring that a thief empties look positive) and `wake` is the waiter that a Signal picks.
   */
  datatype Action =
    | Receive(p: nat, g: nat, m: Message, reuse: Option<nat>)
    | Produce(p: nat, flag: bool, wake: nat)
    | Work(w: nat, flag: bool, wake: nat)

  // ---- ready-queue pieces -------------------------------------------------

  /** cond.Signal under parkMu: one waiter, if any, is woken. */
  predicate CanSignal(ws: seq<Worker>, parked: int, wake: nat) {
    parked > 0 && (exists i :: 0 <= i < |ws| && ws[i] == Waiting) ==> wake < |ws| && ws[wake] == Waiting
  }

  function Signal(ws: seq<Worker>, parked: int, wake: nat): seq<Worker> {
    if parked > 0 && wake < |ws| && ws[wake] == Waiting then ws[wake := Signalled] else ws
  }

  /** How many items stealHalf moves besides the one it returns. */
  function MovedCount(victim: nat, thief: nat): nat {
    var want := (victim + 1) / 2;
    var room := if thief < LOCAL_QUEUE_CAP then LOCAL_QUEUE_CAP - thief else 0;
    if want <= 1 then 0 else if want - 1 <= room then want - 1 else room
  }

  /** stealHalf on the rings as sequences: the victim's first item is returned, not kept here. */
  function StealRings<T>(rings: seq<seq<T>>, w: nat, v: nat): seq<seq<T>>
    requires w < |rings| && v < |rings| && w != v && rings[v] != []
  {
    var k := MovedCount(|rings[v]|, |rings[w]|);
    rings[v := rings[v][1 + k..]][w := rings[w] + rings[v][1..1 + k]]
  }

  /** The i-th sibling in worker w's rotation: always a worker other than w. */
  function Victim(w: nat, i: nat, n: nat): (v: nat)
    requires w < n && 1 <= i < n
    ensures v < n && v != w && (v == w + i || v + n == w + i)
  {
    RotationStaysOff(w, i, n);
    (w + i) % n
  }

  lemma RotationStaysOff(w: nat, i: nat, n: nat)
    requires w < n && 1 <= i < n
    ensures (w + i) % n == if w + i < n then w + i else w + i - n
  {
    if w + i >= n {
      assert (w + i - n) % n == w + i - n;
      assert w + i == (w + i - n) + n * 1;
    }
  }

  // ---- moves: a thread's own transition and what it does to shared state --------

  /** One atomic operation, or one section under a lock, on the shared state. */
  datatype Effect =
    | Nothing
    | Become(g: nat, sched: Sched)
    | AddLen(g: nat, d: int)
    | SetNext(n: nat, next: Option<nat>)
    | Discard(n: nat)
    | SwapTail(g: nat, n: nat, p: nat)
    | AdvanceHead(g: nat, h: nat, nx: nat, w: nat)
    | Release(n: nat)
    | Finish(g: nat, nx: nat)
    | PushGlobal(g: nat, wake: nat)
    | PopGlobal
    | PopGlobalAwake
    | ParkSelf
    | PushOwn(w: nat, g: nat)
    | PopOwn(w: nat)
    | StealHalf(w: nat, v: nat)

  datatype ProducerMove = ProducerMove(pc: Producer, effect: Effect)
  datatype WorkerMove = WorkerMove(pc: Worker, effect: Effect)

  /** One step of receive. */
  function ProduceMove(s: State, p: nat, flag: bool, wake: nat): ProducerMove
    requires p < |s.producers| && !s.producers[p].Ready? && TypedProducer(s, s.producers[p])
  {
    var pc := s.producers[p];
    var gr := s.grains[pc.g];
    match pc
    case Check(g, n) =>
      if !flag then ProducerMove(Ready, Discard(n))
      else if gr.capacity > 0 then ProducerMove(ReserveLoad(g, n), Nothing)
      else ProducerMove(ClearNext(g, n), Nothing)
    case ReserveLoad(g, n) =>
      if gr.len >= gr.capacity then ProducerMove(Ready, Discard(n))
      else ProducerMove(ReserveCas(g, n, gr.len), Nothing)
    case ReserveCas(g, n, seen) =>
      if gr.len == seen then ProducerMove(ClearNext(g, n), AddLen(g, 1))
      else ProducerMove(ReserveLoad(g, n), Nothing)
    case ClearNext(g, n) => ProducerMove(Swap(g, n), SetNext(n, None))
    case Swap(g, n) => ProducerMove(Link(g, n, gr.box.tail), SwapTail(g, n, p))
    case Link(g, n, prev) =>
      ProducerMove(if gr.capacity <= 0 then Count(g) else TryLoad(g), SetNext(prev, Some(n)))
    case Count(g) => ProducerMove(TryLoad(g), AddLen(g, 1))
    case TryLoad(g) => ProducerMove(if gr.sched.Idle? then TryCas(g) else Ready, Nothing)
    case TryCas(g) =>
      if gr.sched.Idle? then ProducerMove(Push(g), Become(g, Scheduled)) else ProducerMove(Ready, Nothing)
    case Push(g) => ProducerMove(Ready, PushGlobal(g, wake))
  }

  /** One step of Dequeue, dispatchOne or the end of runTurn's loop. */
  function TurnMove(s: State, w: nat, g: nat, left: nat, at: Spot): WorkerMove
    requires g < |s.grains| && TypedSpot(s, s.grains[g], at)
  {
    var gr := s.grains[g];
    match at
    case LoadHead =>
      if left == 0 then WorkerMove(Requeue(g), Become(g, Scheduled))
      else WorkerMove(Turn(g, left - 1, LoadNext(gr.box.head)), Nothing)
    case LoadNext(h) =>
      WorkerMove(Turn(g, left, if s.nodes[h].next.None? then LoadTail(h) else StoreHead(h, s.nodes[h].next.value)),
                 Nothing)
    case LoadTail(h) => WorkerMove(Turn(g, left, if h == gr.box.tail then GoIdle else Spin(h)), Nothing)
    case Spin(h) =>
      WorkerMove(Turn(g, left, if s.nodes[h].next.None? then Spin(h) else StoreHead(h, s.nodes[h].next.value)),
                 Nothing)
    case StoreHead(h, nx) => WorkerMove(Turn(g, left, Decrement(h, nx)), AdvanceHead(g, h, nx, w))
    case Decrement(h, nx) => WorkerMove(Turn(g, left, Unlink(h, nx)), AddLen(g, -1))
    case Unlink(h, nx) => WorkerMove(Turn(g, left, Recycle(h, nx)), SetNext(h, None))
    case Recycle(h, nx) => WorkerMove(Turn(g, left, Handle(nx)), Release(h))
    case Handle(nx) => WorkerMove(Turn(g, left, LoadHead), Finish(g, nx))
    case GoIdle => WorkerMove(CheckEmpty(g, left), Become(g, Idle))
  }

  /** One step of take, runTurn, finishOrReclaim or reschedule. */
  function WorkMove(s: State, w: nat, flag: bool, wake: nat): WorkerMove
    requires w < |s.workers| == |s.locals| && !s.workers[w].Waiting? && TypedWorker(s, s.workers[w])
  {
    var n := |s.workers|;
    match s.workers[w]
    case PopLocal => WorkerMove(if s.locals[w] == [] && !flag then ProbeGlobal else LockLocal, Nothing)
    case LockLocal =>
      if s.locals[w] == [] then WorkerMove(ProbeGlobal, Nothing)
      else WorkerMove(Begin(s.locals[w][0]), PopOwn(w))
    case ProbeGlobal => WorkerMove(if flag then LockGlobal else ProbeSibling(1), Nothing)
    case LockGlobal =>
      if s.global == [] then WorkerMove(ProbeSibling(1), Nothing)
      else WorkerMove(Begin(s.global[0]), PopGlobal)
    case ProbeSibling(i) =>
      WorkerMove(if i >= n then Park else if flag then Steal(i) else ProbeSibling(i + 1), Nothing)
    case Steal(i) =>
      var v := Victim(w, i, n);
      if s.locals[v] == [] then WorkerMove(ProbeSibling(i + 1), Nothing)
      else WorkerMove(Begin(s.locals[v][0]), StealHalf(w, v))
    case Park =>
      if s.global == [] then WorkerMove(Waiting, ParkSelf)
      else WorkerMove(Begin(s.global[0]), PopGlobal)
    case Signalled =>
      if s.global == [] then WorkerMove(Waiting, Nothing)
      else WorkerMove(Begin(s.global[0]), PopGlobalAwake)
    case Begin(g) =>
      if s.grains[g].sched.Scheduled? then WorkerMove(Turn(g, s.throughput, LoadHead), Become(g, Processing))
      else WorkerMove(PopLocal, Nothing)
    case Turn(g, left, at) => TurnMove(s, w, g, left, at)
    case CheckEmpty(g, left) => WorkerMove(if s.grains[g].len == 0 then PopLocal else ReLoad(g, left), Nothing)
    case ReLoad(g, left) => WorkerMove(if s.grains[g].sched.Idle? then ReCas(g, left) else PopLocal, Nothing)
    case ReCas(g, left) =>
      if s.grains[g].sched.Idle? then WorkerMove(ReTake(g, left), Become(g, Scheduled))
      else WorkerMove(PopLocal, Nothing)
    case ReTake(g, left) =>
      if s.grains[g].sched.Scheduled? then WorkerMove(Turn(g, left, LoadHead), Become(g, Processing))
      else WorkerMove(PopLocal, Nothing)
    case Requeue(g) =>
      if |s.locals[w]| < LOCAL_QUEUE_CAP then WorkerMove(PopLocal, PushOwn(w, g))
      else WorkerMove(Spill(g), Nothing)
    case Spill(g) => WorkerMove(PopLocal, PushGlobal(g, wake))
  }

  predicate TypedEffect(s: State, e: Effect) {
    match e
    case Nothing => true
    case Become(g, _) => g < |s.grains|
    case AddLen(g, _) => g < |s.grains|
    case SetNext(n, _) => n < |s.nodes|
    case Discard(n) => n < |s.nodes|
    case SwapTail(g, n, _) => g < |s.grains| && n < |s.nodes| && s.grains[g].box.tail < |s.nodes|
    case AdvanceHead(g, h, nx, _) => g < |s.grains| && h < |s.nodes| && nx < |s.nodes| && |s.grains[g].box.live| > 0
    case Release(n) => n < |s.nodes|
    case Finish(g, nx) => g < |s.grains| && nx < |s.nodes|
    case PushGlobal(g, _) => g < |s.grains|
    case PopGlobal => s.global != []
    case PopGlobalAwake => s.global != []
    case ParkSelf => true
    case PushOwn(w, g) => w < |s.locals| && g < |s.grains|
    case PopOwn(w) => w < |s.locals| && s.locals[w] != []
    case StealHalf(w, v) => w < |s.locals| && v < |s.locals| && w != v && s.locals[v] != []
  }

  function Apply(s: State, e: Effect): State
    requires TypedEffect(s, e)
  {
    match e
    case Nothing => s
    case Become(g, x) => s.(grains := s.grains[g := s.grains[g].(sched := x)])
    case AddLen(g, d) => s.(grains := s.grains[g := s.grains[g].(len := s.grains[g].len + d)])
    case SetNext(n, x) => s.(nodes := s.nodes[n := s.nodes[n].(next := x)])
    case Discard(n) => s.(nodes := s.nodes[n := s.nodes[n].(home := Loose)])
    case SwapTail(g, n, p) =>
      var gr := s.grains[g];
      var marked := s.nodes[gr.box.tail := s.nodes[gr.box.tail].(after := Some(n), linker := p)];
      s.(nodes := marked[n := marked[n].(home := Boxed(g))],
         grains := s.grains[g := gr.(box := gr.box.(tail := n, live := gr.box.live + [n],
                                                    accepted := gr.box.accepted + [s.nodes[n].msg]))])
    case AdvanceHead(g, h, nx, w) =>
      var gr := s.grains[g];
      s.(nodes := s.nodes[h := s.nodes[h].(home := Retired(w))],
         grains := s.grains[g := gr.(box := gr.box.(head := nx, live := gr.box.live[1..],
                                                    inHand := gr.box.inHand + [s.nodes[nx].msg]))])
    case Release(n) =>
      s.(nodes := s.nodes[n := s.nodes[n].(msg := CLEARED, home := Loose)],
         pool := if |s.pool| < CONTEXT_POOL_CAP then s.pool + {n} else s.pool)
    case Finish(g, nx) =>
      var gr := s.grains[g];
      s.(grains := s.grains[g := gr.(box := gr.box.(handled := gr.box.handled + [s.nodes[nx].msg], inHand := []))])
    case PushGlobal(g, wake) => s.(global := s.global + [g], workers := Signal(s.workers, s.parked, wake))
    case PopGlobal => s.(global := s.global[1..])
    case PopGlobalAwake => s.(global := s.global[1..], parked := s.parked - 1)
    case ParkSelf => s.(parked := s.parked + 1)
    case PushOwn(w, g) => s.(locals := s.locals[w := s.locals[w] + [g]])
    case PopOwn(w) => s.(locals := s.locals[w := s.locals[w][1..]])
    case StealHalf(w, v) => s.(locals := StealRings(s.locals, w, v))
  }

  // ---- steps ---------------------------------------------------------------

  ghost predicate Enabled(s: State, a: Action) {
    match a
    case Receive(p, g, m, reuse) =>
      && p < |s.producers| && s.producers[p].Ready?
      && g < |s.grains|
      && (reuse.Some? ==> reuse.value in s.pool)
    case Produce(p, flag, wake) =>
      && p < |s.producers| && !s.producers[p].Ready?
      && (s.producers[p].Push? ==> CanSignal(s.workers, s.parked, wake))
    case Work(w, flag, wake) =>
      && w < |s.workers| && !s.workers[w].Waiting?
      && (s.workers[w].Spill? ==> CanSignal(s.workers, s.parked, wake))
  }

  /** getGrainContext and build: the context leaves the pool, or is newly allocated. */
  function StartReceive(s: State, p: nat, g: nat, m: Message, reuse: Option<nat>): State
    requires p < |s.producers| && (reuse.Some? ==> reuse.value < |s.nodes|)
  {
    match reuse
    case Some(n) =>
      s.(pool := s.pool - {n},
         nodes := s.nodes[n := s.nodes[n].(msg := m, home := Held(p), after := None)],
         producers := s.producers[p := Check(g, n)])
    case None =>
      s.(nodes := s.nodes + [Node(None, m, Held(p), None, 0)],
         producers := s.producers[p := Check(g, |s.nodes|)])
  }

  ghost function Next(s: State, a: Action): State
    requires Typed(s) && Enabled(s, a)
  {
    match a
    case Receive(p, g, m, reuse) => StartReceive(s, p, g, m, reuse)
    case Produce(p, flag, wake) =>
      ProduceTyped(s, a);
      var move := ProduceMove(s, p, flag, wake);
      Apply(s, move.effect).(producers := s.producers[p := move.pc])
    case Work(w, flag, wake) =>
      WorkTyped(s, a);
      var move := WorkMove(s, w, flag, wake);
      var s' := Apply(s, move.effect);
      s'.(workers := s'.workers[w := move.pc])
  }

  // ---- well-typed states -----------------------------------------------------

  predicate TypedProducer(s: State, pc: Producer) {
    match pc
    case Ready => true
    case Check(g, n) => g < |s.grains| && n < |s.nodes|
    case ReserveLoad(g, n) => g < |s.grains| && n < |s.nodes|
    case ReserveCas(g, n, _) => g < |s.grains| && n < |s.nodes|
    case ClearNext(g, n) => g < |s.grains| && n < |s.nodes|
    case Swap(g, n) => g < |s.grains| && n < |s.nodes|
    case Link(g, n, prev) => g < |s.grains| && n < |s.nodes| && prev < |s.nodes|
    case Count(g) => g < |s.grains|
    case TryLoad(g) => g < |s.grains|
    case TryCas(g) => g < |s.grains|
    case Push(g) => g < |s.grains|
  }

  predicate TypedSpot(s: State, gr: Grain, at: Spot) {
    match at
    case LoadHead => true
    case LoadNext(h) => h < |s.nodes|
    case LoadTail(h) => h < |s.nodes|
    case Spin(h) => h < |s.nodes|
    case StoreHead(h, nx) => h < |s.nodes| && nx < |s.nodes| && |gr.box.live| > 1
    case Decrement(h, nx) => h < |s.nodes| && nx < |s.nodes|
    case Unlink(h, nx) => h < |s.nodes| && nx < |s.nodes|
    case Recycle(h, nx) => h < |s.nodes| && nx < |s.nodes|
    case Handle(nx) => nx < |s.nodes|
    case GoIdle => true
  }

  predicate TypedWorker(s: State, pc: Worker) {
    match pc
    case ProbeSibling(i) => 1 <= i
    case Steal(i) => 1 <= i < |s.workers|
    case Begin(g) => g < |s.grains|
    case Turn(g, _, at) => g < |s.grains| && TypedSpot(s, s.grains[g], at)
    case CheckEmpty(g, _) => g < |s.grains|
    case ReLoad(g, _) => g < |s.grains|
    case ReCas(g, _) => g < |s.grains|
    case ReTake(g, _) => g < |s.grains|
    case Requeue(g) => g < |s.grains|
    case Spill(g) => g < |s.grains|
    case _ => true
  }

  /** Every index a thread, a ring or a mailbox holds is in range. */
  predicate Typed(s: State) {
    && |s.locals| == |s.workers| > 0
    && (forall p :: 0 <= p < |s.producers| ==> TypedProducer(s, s.producers[p]))
    && (forall w :: 0 <= w < |s.workers| ==> TypedWorker(s, s.workers[w]))
    && (forall g :: 0 <= g < |s.grains| ==> s.grains[g].box.head < |s.nodes| && s.grains[g].box.tail < |s.nodes|)
    && (forall n :: n in s.pool ==> n < |s.nodes|)
    && (forall i :: 0 <= i < |s.global| ==> s.global[i] < |s.grains|)
    && (forall w, i :: 0 <= w < |s.locals| && 0 <= i < |s.locals[w]| ==> s.locals[w][i] < |s.grains|)
  }

  lemma ProduceTyped(s: State, a: Action)
    requires Typed(s) && Enabled(s, a) && a.Produce?
    ensures TypedEffect(s, ProduceMove(s, a.p, a.flag, a.wake).effect)
  {
  }

  lemma WorkTyped(s: State, a: Action)
    requires Typed(s) && Enabled(s, a) && a.Work?
    ensures TypedEffect(s, WorkMove(s, a.w, a.flag, a.wake).effect)
  {
  }

  lemma ApplyKeepsSizes(s: State, e: Effect)
    requires TypedEffect(s, e)
    ensures var s' := Apply(s, e);
      && |s'.grains| == |s.grains| && |s'.nodes| == |s.nodes|
      && |s'.workers| == |s.workers| && |s'.locals| == |s.locals|
      && s'.producers == s.producers && s'.throughput == s.throughput
  {
  }

  // ---- runs -------------------------------------------------------------------

  /** Fresh mailboxes (one sentinel each), empty rings, all threads at their start. */
  ghost predicate Init(s: State) {
    && |s.locals| == |s.workers| > 0
    && |s.nodes| == |s.grains|
    && s.pool == {} && s.global == [] && s.parked == 0
    && (forall w :: 0 <= w < |s.workers| ==> s.workers[w] == PopLocal && s.locals[w] == [])
    && (forall p :: 0 <= p < |s.producers| ==> s.producers[p] == Ready)
    && (forall g :: 0 <= g < |s.grains| ==>
          && s.grains[g] == Grain(Idle, 0, s.grains[g].capacity, Box(g, g, [g], [], [], []))
          && s.nodes[g] == Node(None, CLEARED, Boxed(g), None, 0))
  }
}
