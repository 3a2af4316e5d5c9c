/**
 * The request map and its two counters, as any number of goroutines see them. The counters are
 * atomics beside a concurrent map: reserving a place, counting a blocking request, entering the
 * map, completing, leaving the map and giving the places back are separate steps, and so are the
 * two stores of zero that end a cancellation.
 */
module RequestAccounting {
  import opened Basics
  import opened Counting

  /** A request's state object; the serial tells objects with one id apart. */
  datatype Handle = Handle(id: nat, serial: nat, stash: bool)

  /** What a goroutine does next; todo holds the keys a cancellation still has to look at. */
  datatype Thread =
    | Rest
    | Reserve(r: Handle)                              // registerRequestState: load the counter
    | Swap(r: Handle, seen: int)                      // its CAS
    | Count(r: Handle)                                // its blocking count
    | Enter(r: Handle)                                // its map write
    | Find(id: nat)                                   // completeRequest: look up
    | Finish(r: Handle, todo: Option<seq<nat>>)       // complete the state
    | Leave(r: Handle)                                // deregisterRequestState: look up
    | Drop(r: Handle, todo: Option<seq<nat>>)         // map delete
    | Release(stash: bool, todo: Option<seq<nat>>)    // give the place back
    | Unblock(todo: Option<seq<nat>>)                 // give the blocking count back
    | List                                            // cancelInFlightRequests: the keys
    | Sweep(keys: seq<nat>)                           // its loop
    | Zero                                            // store 0 in the counter
    | ZeroBlocking

  datatype Requests = Requests(
    limit: int,
    tracked: map<nat, Handle>,
    completed: set<Handle>,
    inFlight: int,
    blocking: int,
    used: set<nat>,            // history: ids that registrations have used
    threads: seq<Thread>)

  /** A goroutine starts an operation, gets the keys of the map, or takes its next step. */
  datatype Step = Start(i: nat, op: Thread) | Keys(i: nat, keys: seq<nat>) | Go(i: nat)

  predicate Init(s: Requests) {
    && s.tracked == map[] && s.completed == {} && s.inFlight == 0 && s.blocking == 0 && s.used == {}
    && forall i :: 0 <= i < |s.threads| ==> s.threads[i].Rest?
  }

  ghost predicate Enabled(s: Requests, a: Step) {
    && a.i < |s.threads|
    && match a
       case Start(i, op) => s.threads[i].Rest? && (op.Reserve? || op.Find? || op.Leave? || op.List?)
       case Keys(i, keys) => s.threads[i].List? && Set(keys) == s.tracked.Keys
       case Go(i) => !s.threads[i].Rest? && !s.threads[i].List?
  }

  /** Where a goroutine goes when it is done with one request. */
  function Onward(todo: Option<seq<nat>>): Thread {
    if todo.Some? then Sweep(todo.value) else Rest
  }

  function At(s: Requests, i: nat, t: Thread): Requests
    requires i < |s.threads|
  {
    s.(threads := s.threads[i := t])
  }

  function Dropped(m: map<nat, Handle>, id: nat): map<nat, Handle> {
    map k | k in m && k != id :: m[k]
  }

  function Move(s: Requests, i: nat): Requests
    requires i < |s.threads| && !s.threads[i].Rest? && !s.threads[i].List?
  {
    match s.threads[i]
    case Reserve(r) =>
      if s.limit <= 0 then At(s, i, Count(r)).(inFlight := s.inFlight + 1)
      else if s.inFlight >= s.limit then At(s, i, Rest)
      else At(s, i, Swap(r, s.inFlight))
    case Swap(r, seen) =>
      if s.inFlight == seen then At(s, i, Count(r)).(inFlight := s.inFlight + 1)
      else At(s, i, Reserve(r))
    case Count(r) => At(s, i, Enter(r)).(blocking := s.blocking + Bit(r.stash))
    case Enter(r) => At(s, i, Rest).(tracked := s.tracked[r.id := r])
    case Find(id) => At(s, i, if id in s.tracked then Finish(s.tracked[id], None) else Rest)
    case Finish(r, todo) =>
      if r in s.completed then At(s, i, Onward(todo))
      else At(s, i, if todo.None? then Leave(r) else Drop(r, todo)).(completed := s.completed + {r})
    case Leave(r) => At(s, i, if r.id in s.tracked then Drop(r, None) else Rest)
    case Drop(r, todo) => At(s, i, Release(r.stash, todo)).(tracked := Dropped(s.tracked, r.id))
    case Release(stash, todo) =>
      At(s, i, if stash then Unblock(todo) else Onward(todo)).(inFlight := s.inFlight - 1)
    case Unblock(todo) => At(s, i, Onward(todo)).(blocking := s.blocking - 1)
    case Sweep(keys) =>
      if keys == [] then At(s, i, Zero)
      else if keys[0] !in s.tracked then At(s, i, Sweep(keys[1..]))
      else At(s, i, Finish(s.tracked[keys[0]], Some(keys[1..])))
    case Zero => At(s, i, ZeroBlocking).(inFlight := 0)
    case ZeroBlocking => At(s, i, Rest).(blocking := 0)
  }

  ghost function Next(s: Requests, a: Step): Requests
    requires Enabled(s, a)
  {
    match a
    case Start(i, op) => At(s, i, op).(used := if op.Reserve? then s.used + {op.r.id} else s.used)
    case Keys(i, keys) => At(s, i, Sweep(keys))
    case Go(i) => Move(s, i)
  }

  ghost predicate IsRun(run: seq<Requests>, steps: seq<Step>) {
    && |run| == |steps| + 1 && Init(run[0])
    && forall k :: 0 <= k < |steps| ==> Enabled(run[k], steps[k]) && run[k + 1] == Next(run[k], steps[k])
  }

  // ---- what is outstanding -------------------------------------------------------------

  /** A place reserved for a request that is not yet, or no longer, in the map. */
  function Held(t: Thread, key: nat): nat {
    if t.Count? || t.Enter? || t.Release? then 1 else 0
  }

  function HeldBlocking(t: Thread, key: nat): nat {
    if t.Unblock? || (t.Enter? && t.r.stash) || (t.Release? && t.stash) then 1 else 0
  }

  ghost function Blockers(tracked: map<nat, Handle>): set<nat> {
    set k | k in tracked && tracked[k].stash
  }

  /** The requests in the map and those on their way in or out. */
  ghost function Outstanding(s: Requests): nat {
    |s.tracked| + Total(Held, s.threads, 0)
  }

  ghost function Blocked(s: Requests): nat {
    |Blockers(s.tracked)| + Total(HeldBlocking, s.threads, 0)
  }

  /** How far a counter has fallen behind. */
  ghost function Drift(s: Requests): int {
    Outstanding(s) - s.inFlight
  }

  ghost function BlockingDrift(s: Requests): int {
    Blocked(s) - s.blocking
  }

  lemma EnterCounts(m: map<nat, Handle>, r: Handle)
    ensures |m[r.id := r]| == |m| + Bit(r.id !in m)
    ensures |Blockers(m[r.id := r])| == |Blockers(m)| + Bit(r.stash) - Bit(Blocks(m, r.id))
  {
    assert m[r.id := r].Keys == m.Keys + {r.id};
    BlockersBut(m, r.id);
    BlockersBut(m[r.id := r], r.id);
    assert Dropped(m[r.id := r], r.id) == Dropped(m, r.id);
  }

  predicate Blocks(m: map<nat, Handle>, id: nat) {
    id in m && m[id].stash
  }

  lemma BlockersBut(m: map<nat, Handle>, id: nat)
    ensures |Blockers(m)| == |Blockers(Dropped(m, id))| + Bit(Blocks(m, id))
  {
    assert Blockers(Dropped(m, id)) == Blockers(m) - {id};
  }

  lemma DropCounts(m: map<nat, Handle>, id: nat)
    ensures |Dropped(m, id)| == |m| - Bit(id in m)
    ensures |Blockers(Dropped(m, id))| == |Blockers(m)| - Bit(Blocks(m, id))
  {
    assert Dropped(m, id).Keys == m.Keys - {id};
    BlockersBut(m, id);
  }

  /** What a step adds to the drift of the first counter. */
  ghost function Slip(s: Requests, a: Step): int
    requires Enabled(s, a)
  {
    if !a.Go? then 0
    else
      match s.threads[a.i]
      case Enter(r) => 0 - Bit(r.id in s.tracked)
      case Drop(r, _) => Bit(r.id !in s.tracked)
      case Zero => s.inFlight
      case _ => 0
  }

  ghost function BlockingSlip(s: Requests, a: Step): int
    requires Enabled(s, a)
  {
    if !a.Go? then 0
    else
      match s.threads[a.i]
      case Enter(r) => 0 - Bit(Blocks(s.tracked, r.id))
      case Drop(r, _) => Bit(r.stash) - Bit(Blocks(s.tracked, r.id))
      case ZeroBlocking => s.blocking
      case _ => 0
  }

  /** What a step adds to the size of the map, and to its blocking requests. */
  ghost function Growth(s: Requests, a: Step): int
    requires Enabled(s, a)
  {
    if !a.Go? then 0
    else
      match s.threads[a.i]
      case Enter(r) => Bit(r.id !in s.tracked)
      case Drop(r, _) => 0 - Bit(r.id in s.tracked)
      case _ => 0
  }

  ghost function BlockingGrowth(s: Requests, a: Step): int
    requires Enabled(s, a)
  {
    if !a.Go? then 0
    else
      match s.threads[a.i]
      case Enter(r) => Bit(r.stash) - Bit(Blocks(s.tracked, r.id))
      case Drop(r, _) => 0 - Bit(Blocks(s.tracked, r.id))
      case _ => 0
  }

  lemma MapStep(s: Requests, a: Step)
    requires Enabled(s, a)
    ensures |Next(s, a).tracked| == |s.tracked| + Growth(s, a)
    ensures |Blockers(Next(s, a).tracked)| == |Blockers(s.tracked)| + BlockingGrowth(s, a)
  {
    var t := s.threads[a.i];
    if a.Go? && t.Enter? { EnterCounts(s.tracked, t.r); }
    if a.Go? && t.Drop? { DropCounts(s.tracked, t.r.id); }
  }

  /** One goroutine moves. */
  lemma ThreadStep(s: Requests, a: Step)
    requires Enabled(s, a)
    ensures |Next(s, a).threads| == |s.threads| && Next(s, a).threads == s.threads[a.i := Next(s, a).threads[a.i]]
  {
  }

  /** What the goroutine that moves holds before and after balances counter, map and slip. */
  lemma Balance(s: Requests, a: Step)
    requires Enabled(s, a)
    ensures
      var s' := Next(s, a);
      var t, t' := s.threads[a.i], s'.threads[a.i];
      Growth(s, a) + Held(t', 0) - Held(t, 0) == s'.inFlight - s.inFlight + Slip(s, a)
  {
  }

  lemma BlockingBalance(s: Requests, a: Step)
    requires Enabled(s, a)
    ensures
      var s' := Next(s, a);
      var t, t' := s.threads[a.i], s'.threads[a.i];
      BlockingGrowth(s, a) + HeldBlocking(t', 0) - HeldBlocking(t, 0) == s'.blocking - s.blocking + BlockingSlip(s, a)
  {
  }

  /** Only a slip changes the drift. */
  lemma DriftStep(s: Requests, a: Step)
    requires Enabled(s, a)
    ensures Drift(Next(s, a)) == Drift(s) + Slip(s, a)
  {
    ThreadStep(s, a);
    MapStep(s, a);
    Balance(s, a);
    TotalUpdate(Held, s.threads, 0, a.i, Next(s, a).threads[a.i]);
  }

  lemma BlockingDriftStep(s: Requests, a: Step)
    requires Enabled(s, a)
    ensures BlockingDrift(Next(s, a)) == BlockingDrift(s) + BlockingSlip(s, a)
  {
    ThreadStep(s, a);
    MapStep(s, a);
    BlockingBalance(s, a);
    TotalUpdate(HeldBlocking, s.threads, 0, a.i, Next(s, a).threads[a.i]);
  }

  // ---- all runs ------------------------------------------------------------------------

  ghost predicate AtRest(s: Requests) {
    forall i :: 0 <= i < |s.threads| ==> s.threads[i].Rest?
  }

  lemma NothingHeld(s: Requests)
    requires AtRest(s)
    ensures Outstanding(s) == |s.tracked| && Blocked(s) == |Blockers(s.tracked)|
  {
    TotalZero(Held, s.threads, 0);
    TotalZero(HeldBlocking, s.threads, 0);
  }

  /** The sum of the slips of a run. */
  ghost function Slips(run: seq<Requests>, steps: seq<Step>, k: nat): int
    requires IsRun(run, steps) && k < |run|
  {
    if k == 0 then 0 else Slips(run, steps, k - 1) + Slip(run[k - 1], steps[k - 1])
  }

  ghost function BlockingSlips(run: seq<Requests>, steps: seq<Step>, k: nat): int
    requires IsRun(run, steps) && k < |run|
  {
    if k == 0 then 0 else BlockingSlips(run, steps, k - 1) + BlockingSlip(run[k - 1], steps[k - 1])
  }

  /** In every run each counter is what is outstanding less the slips so far. */
  lemma {:induction false} CountersOff(run: seq<Requests>, steps: seq<Step>, k: nat)
    requires IsRun(run, steps) && k < |run|
    ensures run[k].inFlight == Outstanding(run[k]) - Slips(run, steps, k)
    ensures run[k].blocking == Blocked(run[k]) - BlockingSlips(run, steps, k)
  {
    if k == 0 {
      NothingHeld(run[0]);
      assert Blockers(map[]) == {};
    } else {
      CountersOff(run, steps, k - 1);
      DriftStep(run[k - 1], steps[k - 1]);
      BlockingDriftStep(run[k - 1], steps[k - 1]);
    }
  }

  /** The counter is within the limit, and so is what a goroutine is about to make of it. */
  ghost predicate Bounded(s: Requests) {
    s.inFlight <= s.limit && forall i :: 0 <= i < |s.threads| && s.threads[i].Swap? ==> s.threads[i].seen < s.limit
  }

  lemma BoundedStep(s: Requests, a: Step)
    requires Enabled(s, a) && Bounded(s) && s.limit > 0
    ensures Bounded(Next(s, a)) && Next(s, a).limit == s.limit
  {
    ThreadStep(s, a);
  }

  /** The first counter never passes the limit. */
  lemma {:induction false} CounterBounded(run: seq<Requests>, steps: seq<Step>, k: nat)
    requires IsRun(run, steps) && k < |run| && run[0].limit > 0
    ensures run[k].limit == run[0].limit && Bounded(run[k])
  {
    if k > 0 {
      CounterBounded(run, steps, k - 1);
      BoundedStep(run[k - 1], steps[k - 1]);
    }
  }

  /** The limit holds for the requests themselves up to the slips. */
  lemma LimitUpToSlips(run: seq<Requests>, steps: seq<Step>, k: nat)
    requires IsRun(run, steps) && k < |run| && run[0].limit > 0
    ensures |run[k].tracked| <= Outstanding(run[k]) <= run[0].limit + Slips(run, steps, k)
  {
    CounterBounded(run, steps, k);
    CountersOff(run, steps, k);
  }

  /** No slip. */
  ghost predicate Clean(s: Requests, a: Step)
    requires Enabled(s, a)
  {
    Slip(s, a) == 0 && BlockingSlip(s, a) == 0
  }

  ghost predicate CleanRun(run: seq<Requests>, steps: seq<Step>) {
    IsRun(run, steps) && forall k :: 0 <= k < |steps| ==> Clean(run[k], steps[k])
  }

  lemma {:induction false} NoSlips(run: seq<Requests>, steps: seq<Step>, k: nat)
    requires CleanRun(run, steps) && k < |run|
    ensures Slips(run, steps, k) == 0 && BlockingSlips(run, steps, k) == 0
  {
    if k > 0 { NoSlips(run, steps, k - 1); }
  }

  /** Without slips the limit holds in every interleaving, and the counters count what is outstanding. */
  lemma CleanRunCounts(run: seq<Requests>, steps: seq<Step>, k: nat)
    requires CleanRun(run, steps) && k < |run|
    ensures run[k].inFlight == Outstanding(run[k]) && run[k].blocking == Blocked(run[k])
    ensures run[0].limit > 0 ==> |run[k].tracked| <= run[0].limit
    ensures AtRest(run[k]) ==> run[k].inFlight == |run[k].tracked| && run[k].blocking == |Blockers(run[k].tracked)|
  {
    NoSlips(run, steps, k);
    CountersOff(run, steps, k);
    if run[0].limit > 0 { LimitUpToSlips(run, steps, k); }
    if AtRest(run[k]) { NothingHeld(run[k]); }
  }

  /** Stashed messages are released by the last blocking request, and by no other. */
  lemma ReleasedByTheLast(run: seq<Requests>, steps: seq<Step>, k: nat)
    requires CleanRun(run, steps) && k < |steps| && steps[k].Go? && run[k].threads[steps[k].i].Unblock?
    ensures run[k + 1].blocking == 0 <==> Blocked(run[k + 1]) == 0
    ensures run[k + 1].blocking == 0 ==> Blockers(run[k + 1].tracked) == {}
  {
    CleanRunCounts(run, steps, k + 1);
  }

  // ---- orderly runs ----------------------------------------------------------------------

  /** Ids are fresh, and a state is deregistered only by whoever completed it. */
  ghost predicate Orderly(s: Requests, a: Step) {
    a.Start? ==> !a.op.Leave? && (a.op.Reserve? ==> a.op.r.id !in s.used)
  }

  ghost predicate OrderlyRun(run: seq<Requests>, steps: seq<Step>) {
    IsRun(run, steps) && forall k :: 0 <= k < |steps| ==> Orderly(run[k], steps[k])
  }

  predicate Registers(t: Thread) {
    t.Reserve? || t.Swap? || t.Count? || t.Enter?
  }

  function Registering(t: Thread, id: nat): nat {
    Bit(Registers(t) && t.r.id == id)
  }

  function Dropping(t: Thread, id: nat): nat {
    Bit((t.Leave? || t.Drop?) && t.r.id == id)
  }

  /** An id is used once: by one goroutine that registers it, or in the map, or no more. */
  ghost predicate UsedOnce(s: Requests, id: nat) {
    Total(Registering, s.threads, id) + Bit(id in s.tracked) <= Bit(id in s.used)
  }

  /** A tracked state has one goroutine that takes it out once it is completed, and none before. */
  ghost predicate OneDropper(s: Requests, id: nat) {
    Total(Dropping, s.threads, id) == Bit(id in s.tracked && s.tracked[id] in s.completed)
  }

  predicate Tracks(s: Requests, r: Handle) {
    r.id in s.tracked && s.tracked[r.id] == r
  }

  ghost predicate ThreadOk(s: Requests, t: Thread) {
    && (Registers(t) ==> t.r !in s.completed)
    && (t.Finish? ==> t.r in s.completed || Tracks(s, t.r))
    && (t.Leave? || t.Drop? ==> t.r in s.completed && Tracks(s, t.r))
  }

  ghost predicate OrderInv(s: Requests) {
    && (forall id :: UsedOnce(s, id)) && (forall id :: OneDropper(s, id))
    && (forall i :: 0 <= i < |s.threads| ==> ThreadOk(s, s.threads[i]))
    && (forall r :: r in s.completed ==> r.id in s.used)
    && (forall id :: id in s.tracked ==> s.tracked[id].id == id)
  }

  /** What the goroutine that moves does to the counts of an id. */
  lemma CountStep(s: Requests, a: Step, id: nat)
    requires Enabled(s, a)
    ensures
      var t, t' := s.threads[a.i], Next(s, a).threads[a.i];
      && Total(Registering, Next(s, a).threads, id) + Registering(t, id)
         == Total(Registering, s.threads, id) + Registering(t', id)
      && Total(Dropping, Next(s, a).threads, id) + Dropping(t, id) == Total(Dropping, s.threads, id) + Dropping(t', id)
  {
    ThreadStep(s, a);
    TotalUpdate(Registering, s.threads, id, a.i, Next(s, a).threads[a.i]);
    TotalUpdate(Dropping, s.threads, id, a.i, Next(s, a).threads[a.i]);
  }

  lemma RegisteringUntracked(s: Requests, i: nat)
    requires i < |s.threads| && Registers(s.threads[i]) && UsedOnce(s, s.threads[i].r.id)
    ensures s.threads[i].r.id !in s.tracked && s.threads[i].r.id in s.used
  {
    TotalHas(Registering, s.threads, s.threads[i].r.id, i);
  }

  lemma OnlyDropper(s: Requests, i: nat, j: nat)
    requires i < |s.threads| && j < |s.threads| && i != j
    requires (s.threads[i].Leave? || s.threads[i].Drop?) && (s.threads[j].Leave? || s.threads[j].Drop?)
    requires OneDropper(s, s.threads[i].r.id)
    ensures s.threads[i].r.id != s.threads[j].r.id
  {
    if s.threads[i].r.id == s.threads[j].r.id {
      TotalHasBoth(Dropping, s.threads, s.threads[i].r.id, if i < j then i else j, if i < j then j else i);
    }
  }

  lemma StepKeepsUse(s: Requests, a: Step, id: nat)
    requires OrderInv(s) && Enabled(s, a) && Orderly(s, a)
    ensures UsedOnce(Next(s, a), id)
  {
    assert UsedOnce(s, id);
    CountStep(s, a, id);
    if a.Go? && s.threads[a.i].Enter? {
      assert UsedOnce(s, s.threads[a.i].r.id);
      RegisteringUntracked(s, a.i);
    }
  }

  lemma StepKeepsDropper(s: Requests, a: Step, id: nat)
    requires OrderInv(s) && Enabled(s, a) && Orderly(s, a)
    ensures OneDropper(Next(s, a), id)
  {
    var t := s.threads[a.i];
    assert OneDropper(s, id) && ThreadOk(s, t);
    CountStep(s, a, id);
    if a.Go? && t.Enter? {
      assert UsedOnce(s, t.r.id);
      RegisteringUntracked(s, a.i);
    } else if a.Go? && t.Finish? {
      FinishKeepsDropper(s, a, id);
    } else if a.Go? && t.Drop? {
      DropKeepsDropper(s, a, id);
    } else {
      LooseStep(s, a, id);
    }
  }

  lemma FinishKeepsDropper(s: Requests, a: Step, id: nat)
    requires Enabled(s, a) && a.Go? && s.threads[a.i].Finish? && ThreadOk(s, s.threads[a.i]) && OneDropper(s, id)
    requires id in s.tracked ==> s.tracked[id].id == id
    ensures OneDropper(Next(s, a), id)
  {
    CountStep(s, a, id);
  }

  lemma DropKeepsDropper(s: Requests, a: Step, id: nat)
    requires Enabled(s, a) && a.Go? && s.threads[a.i].Drop? && ThreadOk(s, s.threads[a.i]) && OneDropper(s, id)
    ensures OneDropper(Next(s, a), id)
  {
    CountStep(s, a, id);
  }

  /** Any other step but a map write. */
  lemma LooseStep(s: Requests, a: Step, id: nat)
    requires Enabled(s, a) && Orderly(s, a) && OneDropper(s, id) && ThreadOk(s, s.threads[a.i])
    requires a.Go? ==> !s.threads[a.i].Enter? && !s.threads[a.i].Finish? && !s.threads[a.i].Drop?
    ensures OneDropper(Next(s, a), id)
  {
    CountStep(s, a, id);
  }

  lemma StepKeepsThread(s: Requests, a: Step, j: nat)
    requires OrderInv(s) && Enabled(s, a) && Orderly(s, a) && j < |s.threads|
    ensures |Next(s, a).threads| == |s.threads| && ThreadOk(Next(s, a), Next(s, a).threads[j])
  {
    ThreadStep(s, a);
    var t, u := s.threads[a.i], s.threads[j];
    assert ThreadOk(s, t) && ThreadOk(s, u);
    if a.Go? && j != a.i {
      if t.Enter? {
        assert UsedOnce(s, t.r.id);
        RegisteringUntracked(s, a.i);
      } else if t.Finish? && Registers(u) {
        assert UsedOnce(s, u.r.id);
        RegisteringUntracked(s, j);
      } else if t.Drop? && (u.Leave? || u.Drop?) {
        assert OneDropper(s, u.r.id);
        OnlyDropper(s, j, a.i);
      }
    }
  }

  lemma StepKeepsOrder(s: Requests, a: Step)
    requires OrderInv(s) && Enabled(s, a) && Orderly(s, a)
    ensures OrderInv(Next(s, a))
  {
    var s', t := Next(s, a), s.threads[a.i];
    forall id ensures UsedOnce(s', id) { StepKeepsUse(s, a, id); }
    forall id ensures OneDropper(s', id) { StepKeepsDropper(s, a, id); }
    forall j | 0 <= j < |s'.threads| ensures ThreadOk(s', s'.threads[j]) {
      ThreadStep(s, a);
      StepKeepsThread(s, a, j);
    }
    forall r | r in s'.completed ensures r.id in s'.used {
      if r !in s.completed {
        assert ThreadOk(s, t) && UsedOnce(s, r.id);
      }
    }
  }

  lemma {:induction false} OrderHolds(run: seq<Requests>, steps: seq<Step>, k: nat)
    requires OrderlyRun(run, steps) && k < |run|
    ensures OrderInv(run[k])
  {
    if k == 0 {
      forall id ensures UsedOnce(run[0], id) && OneDropper(run[0], id) {
        TotalZero(Registering, run[0].threads, id);
        TotalZero(Dropping, run[0].threads, id);
      }
    } else {
      OrderHolds(run, steps, k - 1);
      StepKeepsOrder(run[k - 1], steps[k - 1]);
    }
  }

  /** In an orderly run a request enters the map once and leaves it once: only a store of 0 can slip. */
  lemma OnlyZeroSlips(run: seq<Requests>, steps: seq<Step>, k: nat)
    requires OrderlyRun(run, steps) && k < |steps|
    ensures !StoresZero(run[k], steps[k]) ==> Slip(run[k], steps[k]) == 0
    ensures !StoresZeroBlocking(run[k], steps[k]) ==> BlockingSlip(run[k], steps[k]) == 0
  {
    var s, a := run[k], steps[k];
    OrderHolds(run, steps, k);
    assert ThreadOk(s, s.threads[a.i]);
    if a.Go? && s.threads[a.i].Enter? {
      assert UsedOnce(s, s.threads[a.i].r.id);
      RegisteringUntracked(s, a.i);
    }
  }

  // ---- which cancellation decides ----------------------------------------------------------

  predicate StoresZero(s: Requests, a: Step) {
    a.Go? && a.i < |s.threads| && s.threads[a.i].Zero?
  }

  predicate StoresZeroBlocking(s: Requests, a: Step) {
    a.Go? && a.i < |s.threads| && s.threads[a.i].ZeroBlocking?
  }

  /** What was outstanding when 0 was last stored. */
  ghost function LeftOver(run: seq<Requests>, steps: seq<Step>, k: nat): nat
    requires IsRun(run, steps) && k < |run|
  {
    if k == 0 then 0
    else if StoresZero(run[k - 1], steps[k - 1]) then Outstanding(run[k - 1])
    else LeftOver(run, steps, k - 1)
  }

  ghost function BlockingLeftOver(run: seq<Requests>, steps: seq<Step>, k: nat): nat
    requires IsRun(run, steps) && k < |run|
  {
    if k == 0 then 0
    else if StoresZeroBlocking(run[k - 1], steps[k - 1]) then Blocked(run[k - 1])
    else BlockingLeftOver(run, steps, k - 1)
  }

  /** In an orderly run each counter falls short by what its last store of 0 forgot. */
  lemma {:induction false} OrderlyCounts(run: seq<Requests>, steps: seq<Step>, k: nat)
    requires OrderlyRun(run, steps) && k < |run|
    ensures run[k].inFlight == Outstanding(run[k]) - LeftOver(run, steps, k)
    ensures run[k].blocking == Blocked(run[k]) - BlockingLeftOver(run, steps, k)
  {
    if k == 0 {
      NothingHeld(run[0]);
      assert Blockers(map[]) == {};
    } else {
      OrderlyCounts(run, steps, k - 1);
      OnlyZeroSlips(run, steps, k - 1);
      DriftStep(run[k - 1], steps[k - 1]);
      BlockingDriftStep(run[k - 1], steps[k - 1]);
    }
  }

  /** Nothing is tracked and no goroutine holds a place. */
  ghost predicate Vacant(s: Requests) {
    s.tracked == map[] && forall i :: 0 <= i < |s.threads| ==> Held(s.threads[i], 0) == 0
  }

  ghost predicate Unblocked(s: Requests) {
    Blockers(s.tracked) == {} && forall i :: 0 <= i < |s.threads| ==> HeldBlocking(s.threads[i], 0) == 0
  }

  lemma VacantIsZero(s: Requests)
    ensures Vacant(s) <==> Outstanding(s) == 0
    ensures Unblocked(s) <==> Blocked(s) == 0
  {
    if Vacant(s) { TotalZero(Held, s.threads, 0); }
    if Unblocked(s) { TotalZero(HeldBlocking, s.threads, 0); }
    forall i | 0 <= i < |s.threads| ensures Held(s.threads[i], 0) <= Total(Held, s.threads, 0) {
      TotalHas(Held, s.threads, 0, i);
    }
    forall i | 0 <= i < |s.threads| ensures HeldBlocking(s.threads[i], 0) <= Total(HeldBlocking, s.threads, 0) {
      TotalHas(HeldBlocking, s.threads, 0, i);
    }
  }

  /** The j-th step is the last before k to store 0 in the in-flight counter. */
  ghost predicate LastZero(run: seq<Requests>, steps: seq<Step>, j: nat, k: nat)
    requires IsRun(run, steps) && k < |run|
  {
    j < k && StoresZero(run[j], steps[j]) && forall i :: j < i < k ==> !StoresZero(run[i], steps[i])
  }

  ghost predicate LastZeroBlocking(run: seq<Requests>, steps: seq<Step>, j: nat, k: nat)
    requires IsRun(run, steps) && k < |run|
  {
    j < k && StoresZeroBlocking(run[j], steps[j]) && forall i :: j < i < k ==> !StoresZeroBlocking(run[i], steps[i])
  }

  lemma NewestZero(run: seq<Requests>, steps: seq<Step>, j: nat, k: nat)
    requires IsRun(run, steps) && 0 < k < |run|
    ensures LastZero(run, steps, j, k) <==>
            if StoresZero(run[k - 1], steps[k - 1]) then j == k - 1 else LastZero(run, steps, j, k - 1)
  {
  }

  lemma {:induction false} LeftOverIs(run: seq<Requests>, steps: seq<Step>, k: nat)
    requires IsRun(run, steps) && k < |run|
    ensures LeftOver(run, steps, k) == 0 <==> forall j: nat :: LastZero(run, steps, j, k) ==> Vacant(run[j])
  {
    if k > 0 {
      if StoresZero(run[k - 1], steps[k - 1]) {
        VacantIsZero(run[k - 1]);
        forall j: nat ensures LastZero(run, steps, j, k) <==> j == k - 1 {
          NewestZero(run, steps, j, k);
        }
      } else {
        LeftOverIs(run, steps, k - 1);
        forall j: nat ensures LastZero(run, steps, j, k) <==> LastZero(run, steps, j, k - 1) {
          NewestZero(run, steps, j, k);
        }
      }
    }
  }

  lemma NewestZeroBlocking(run: seq<Requests>, steps: seq<Step>, j: nat, k: nat)
    requires IsRun(run, steps) && 0 < k < |run|
    ensures LastZeroBlocking(run, steps, j, k) <==>
            if StoresZeroBlocking(run[k - 1], steps[k - 1]) then j == k - 1 else LastZeroBlocking(run, steps, j, k - 1)
  {
  }

  lemma {:induction false} BlockingLeftOverIs(run: seq<Requests>, steps: seq<Step>, k: nat)
    requires IsRun(run, steps) && k < |run|
    ensures BlockingLeftOver(run, steps, k) == 0 <==>
            forall j: nat :: LastZeroBlocking(run, steps, j, k) ==> Unblocked(run[j])
  {
    if k > 0 {
      if StoresZeroBlocking(run[k - 1], steps[k - 1]) {
        VacantIsZero(run[k - 1]);
        forall j: nat ensures LastZeroBlocking(run, steps, j, k) <==> j == k - 1 {
          NewestZeroBlocking(run, steps, j, k);
        }
      } else {
        BlockingLeftOverIs(run, steps, k - 1);
        forall j: nat ensures LastZeroBlocking(run, steps, j, k) <==> LastZeroBlocking(run, steps, j, k - 1) {
          NewestZeroBlocking(run, steps, j, k);
        }
      }
    }
  }

  /**
   * Once all goroutines of an orderly run rest, the in-flight counter is right exactly if, when
   * the last cancellation stored its 0, nothing was tracked and no goroutine stood between its
   * reservation and its map write or between its map delete and its decrement. The same holds of
   * the blocking counter and its own store.
   */
  lemma RightAtRest(run: seq<Requests>, steps: seq<Step>, k: nat)
    requires OrderlyRun(run, steps) && k < |run| && AtRest(run[k])
    ensures run[k].inFlight == |run[k].tracked| <==> forall j: nat :: LastZero(run, steps, j, k) ==> Vacant(run[j])
    ensures run[k].blocking == |Blockers(run[k].tracked)| <==>
            forall j: nat :: LastZeroBlocking(run, steps, j, k) ==> Unblocked(run[j])
  {
    OrderlyCounts(run, steps, k);
    NothingHeld(run[k]);
    LeftOverIs(run, steps, k);
    BlockingLeftOverIs(run, steps, k);
  }

  /** In an orderly run more requests than the limit are outstanding only by what the last store of 0 forgot. */
  lemma LimitUpToLeftOver(run: seq<Requests>, steps: seq<Step>, k: nat)
    requires OrderlyRun(run, steps) && k < |run| && run[0].limit > 0
    ensures |run[k].tracked| <= Outstanding(run[k]) <= run[0].limit + LeftOver(run, steps, k)
  {
    CounterBounded(run, steps, k);
    OrderlyCounts(run, steps, k);
  }

  /** An orderly run whose cancellations store 0 over nothing has no slips. */
  lemma OrderlyIsClean(run: seq<Requests>, steps: seq<Step>)
    requires OrderlyRun(run, steps)
    requires forall k :: 0 <= k < |steps| && StoresZero(run[k], steps[k]) ==> Vacant(run[k])
    requires forall k :: 0 <= k < |steps| && StoresZeroBlocking(run[k], steps[k]) ==> Unblocked(run[k])
    ensures CleanRun(run, steps)
  {
    forall k | 0 <= k < |steps| ensures Clean(run[k], steps[k]) {
      OnlyZeroSlips(run, steps, k);
      AllVacant(run, steps, k);
    }
  }

  /** Its counters are right all along. */
  lemma {:induction false} AllVacant(run: seq<Requests>, steps: seq<Step>, k: nat)
    requires OrderlyRun(run, steps) && k < |run|
    requires forall j :: 0 <= j < |steps| && StoresZero(run[j], steps[j]) ==> Vacant(run[j])
    requires forall j :: 0 <= j < |steps| && StoresZeroBlocking(run[j], steps[j]) ==> Unblocked(run[j])
    ensures run[k].inFlight == Outstanding(run[k]) && run[k].blocking == Blocked(run[k])
    ensures Vacant(run[k]) ==> run[k].inFlight == 0
    ensures Unblocked(run[k]) ==> run[k].blocking == 0
  {
    OrderlyCounts(run, steps, k);
    forall j: nat | LastZero(run, steps, j, k) ensures Vacant(run[j]) { }
    forall j: nat | LastZeroBlocking(run, steps, j, k) ensures Unblocked(run[j]) { }
    LeftOverIs(run, steps, k);
    BlockingLeftOverIs(run, steps, k);
    VacantIsZero(run[k]);
  }

  // ---- a cancellation beside a completion ----------------------------------------------

  lemma Extend(run: seq<Requests>, steps: seq<Step>, a: Step, next: Requests)
    requires IsRun(run, steps) && Enabled(run[|steps|], a) && next == Next(run[|steps|], a)
    ensures IsRun(run + [next], steps + [a])
    ensures OrderlyRun(run, steps) && Orderly(run[|steps|], a) ==> OrderlyRun(run + [next], steps + [a])
  {
  }

  /** A goroutine at rest reserves a place. */
  lemma Reserved(run: seq<Requests>, steps: seq<Step>, i: nat, r: Handle)
    returns (run': seq<Requests>, steps': seq<Step>)
    requires IsRun(run, steps) && i < |run[|steps|].threads| && run[|steps|].threads[i].Rest?
    requires run[|steps|].limit > 0 ==> run[|steps|].inFlight < run[|steps|].limit
    ensures IsRun(run', steps') && run <= run' && steps <= steps'
    ensures OrderlyRun(run, steps) && r.id !in run[|steps|].used ==> OrderlyRun(run', steps')
    ensures
      var s := run[|steps|];
      run'[|steps'|] == s.(threads := s.threads[i := Count(r)], inFlight := s.inFlight + 1, used := s.used + {r.id})
  {
    var s := run[|steps|];
    var s1 := At(s, i, Reserve(r)).(used := s.used + {r.id});
    Extend(run, steps, Start(i, Reserve(r)), s1);
    run', steps' := run + [s1], steps + [Start(i, Reserve(r))];
    var counted := s1.(threads := s.threads[i := Count(r)], inFlight := s.inFlight + 1);
    if s.limit > 0 {
      var s2 := s1.(threads := s.threads[i := Swap(r, s.inFlight)]);
      assert s1.threads[i := s2.threads[i]] == s2.threads;
      Extend(run', steps', Go(i), s2);
      run', steps' := run' + [s2], steps' + [Go(i)];
      assert s2.threads[i := Count(r)] == counted.threads;
    } else {
      assert s1.threads[i := Count(r)] == counted.threads;
    }
    Extend(run', steps', Go(i), counted);
    run', steps' := run' + [counted], steps' + [Go(i)];
  }

  /** A goroutine at rest registers a request and rests again. */
  lemma Registered(run: seq<Requests>, steps: seq<Step>, i: nat, r: Handle)
    returns (run': seq<Requests>, steps': seq<Step>)
    requires IsRun(run, steps) && i < |run[|steps|].threads| && run[|steps|].threads[i].Rest?
    requires run[|steps|].limit > 0 ==> run[|steps|].inFlight < run[|steps|].limit
    ensures IsRun(run', steps') && run <= run' && steps <= steps'
    ensures OrderlyRun(run, steps) && r.id !in run[|steps|].used ==> OrderlyRun(run', steps')
    ensures
      var s := run[|steps|];
      run'[|steps'|] == s.(tracked := s.tracked[r.id := r], inFlight := s.inFlight + 1,
                           blocking := s.blocking + Bit(r.stash), used := s.used + {r.id})
  {
    var s := run[|steps|];
    run', steps' := Reserved(run, steps, i, r);
    var s1 := s.(threads := s.threads[i := Enter(r)], inFlight := s.inFlight + 1,
                 blocking := s.blocking + Bit(r.stash), used := s.used + {r.id});
    assert s.threads[i := Count(r)][i := Enter(r)] == s1.threads;
    Extend(run', steps', Go(i), s1);
    run', steps' := run' + [s1], steps' + [Go(i)];
    var s2 := s1.(threads := s.threads, tracked := s.tracked[r.id := r]);
    assert s1.threads[i := Rest] == s.threads;
    Extend(run', steps', Go(i), s2);
    run', steps' := run' + [s2], steps' + [Go(i)];
  }

  /** Two goroutines at rest and nothing tracked, both counters at n. */
  function Empty(limit: int, completed: set<Handle>, used: set<nat>, n: int): Requests {
    Requests(limit, map[], completed, n, n, used, [Rest, Rest])
  }

  /** One blocking request tracked, with these goroutines. */
  function Single(limit: int, r: Handle, completed: set<Handle>, n: int, threads: seq<Thread>): Requests {
    Requests(limit, map[r.id := r], completed, n, n, {r.id}, threads)
  }

  lemma OneTracked(limit: int, r: Handle) returns (run: seq<Requests>, steps: seq<Step>)
    requires r.stash
    ensures OrderlyRun(run, steps) && run[0] == Empty(limit, {}, {}, 0)
    ensures run[|steps|] == Single(limit, r, {}, 1, [Rest, Rest])
  {
    run, steps := Registered([Empty(limit, {}, {}, 0)], [], 0, r);
    assert run[|steps|].used == {r.id};
  }

  /** The first goroutine has completed the only request and is yet to deregister it. */
  lemma CompletedFirst(limit: int, r: Handle) returns (run: seq<Requests>, steps: seq<Step>)
    requires r.stash
    ensures OrderlyRun(run, steps) && run[0] == Empty(limit, {}, {}, 0)
    ensures run[|steps|] == Single(limit, r, {r}, 1, [Leave(r), Rest])
  {
    run, steps := OneTracked(limit, r);
    var s := Single(limit, r, {}, 1, [Find(r.id), Rest]);
    assert [Rest, Rest][0 := Find(r.id)] == [Find(r.id), Rest];
    Extend(run, steps, Start(0, Find(r.id)), s);
    run, steps := run + [s], steps + [Start(0, Find(r.id))];
    var s1 := s.(threads := [Finish(r, None), Rest]);
    Extend(run, steps, Go(0), s1);
    run, steps := run + [s1], steps + [Go(0)];
    var s2 := s.(threads := [Leave(r), Rest], completed := {r});
    assert s.completed + {r} == {r};
    Extend(run, steps, Go(0), s2);
    run, steps := run + [s2], steps + [Go(0)];
  }

  /** The second goroutine starts to cancel and reaches the only request. */
  lemma Listed(run: seq<Requests>, steps: seq<Step>, r: Handle, first: Thread)
    returns (run': seq<Requests>, steps': seq<Step>)
    requires IsRun(run, steps) && run[|steps|].threads == [first, Rest] && run[|steps|].tracked == map[r.id := r]
    ensures IsRun(run', steps') && run <= run' && steps <= steps'
    ensures OrderlyRun(run, steps) ==> OrderlyRun(run', steps')
    ensures run'[|steps'|] == run[|steps|].(threads := [first, Finish(r, Some([]))])
  {
    var s := run[|steps|];
    var s1 := s.(threads := [first, List]);
    Extend(run, steps, Start(1, List), s1);
    run', steps' := run + [s1], steps + [Start(1, List)];
    var s2 := s.(threads := [first, Sweep([r.id])]);
    assert Set([r.id]) == {r.id} == s1.tracked.Keys;
    Extend(run', steps', Keys(1, [r.id]), s2);
    run', steps' := run' + [s2], steps' + [Keys(1, [r.id])];
    var s3 := s.(threads := [first, Finish(r, Some([]))]);
    assert [r.id][1..] == [];
    Extend(run', steps', Go(1), s3);
    run', steps' := run' + [s3], steps' + [Go(1)];
  }

  /** The end of a cancellation: 0 is stored twice. */
  lemma Zeroed(run: seq<Requests>, steps: seq<Step>, first: Thread)
    returns (run': seq<Requests>, steps': seq<Step>)
    requires IsRun(run, steps) && run[|steps|].threads == [first, Sweep([])]
    ensures IsRun(run', steps') && run <= run' && steps <= steps'
    ensures OrderlyRun(run, steps) ==> OrderlyRun(run', steps')
    ensures run'[|steps'|] == run[|steps|].(inFlight := 0, blocking := 0, threads := [first, Rest])
  {
    var s := run[|steps|];
    var s2 := s.(threads := [first, Zero]);
    Extend(run, steps, Go(1), s2);
    run', steps' := run + [s2], steps + [Go(1)];
    var s3 := s.(threads := [first, ZeroBlocking], inFlight := 0);
    Extend(run', steps', Go(1), s3);
    run', steps' := run' + [s3], steps' + [Go(1)];
    var s4 := s.(threads := [first, Rest], inFlight := 0, blocking := 0);
    Extend(run', steps', Go(1), s4);
    run', steps' := run' + [s4], steps' + [Go(1)];
  }

  /** The first goroutine takes the request out and gives both counts back. */
  lemma Released(run: seq<Requests>, steps: seq<Step>, r: Handle) returns (run': seq<Requests>, steps': seq<Step>)
    requires IsRun(run, steps) && run[|steps|].threads == [Drop(r, None), Rest] && r.stash
    requires Dropped(run[|steps|].tracked, r.id) == map[]
    ensures IsRun(run', steps') && run <= run' && steps <= steps'
    ensures OrderlyRun(run, steps) ==> OrderlyRun(run', steps')
    ensures
      var s := run[|steps|];
      run'[|steps'|] == s.(tracked := map[], threads := [Rest, Rest], inFlight := s.inFlight - 1,
                           blocking := s.blocking - 1)
  {
    var s := run[|steps|];
    var s1 := s.(tracked := map[], threads := [Release(true, None), Rest]);
    Extend(run, steps, Go(0), s1);
    run', steps' := run + [s1], steps + [Go(0)];
    var s2 := s1.(inFlight := s.inFlight - 1, threads := [Unblock(None), Rest]);
    Extend(run', steps', Go(0), s2);
    run', steps' := run' + [s2], steps' + [Go(0)];
    var s3 := s2.(blocking := s.blocking - 1, threads := [Rest, Rest]);
    Extend(run', steps', Go(0), s3);
    run', steps' := run' + [s3], steps' + [Go(0)];
  }

  /**
   * A cancellation finds the request completed, skips it and stores 0 twice; then the completion
   * deregisters it: nothing is tracked, and both counters rest at -1.
   */
  lemma CountersBelowZero(limit: int, r: Handle) returns (run: seq<Requests>, steps: seq<Step>)
    requires r.stash
    ensures OrderlyRun(run, steps) && run[0] == Empty(limit, {}, {}, 0)
    ensures run[|steps|] == Empty(limit, {r}, {r.id}, -1)
  {
    run, steps := CompletedFirst(limit, r);
    run, steps := Listed(run, steps, r, Leave(r));
    var s1 := run[|steps|].(threads := [Leave(r), Sweep([])]);
    Extend(run, steps, Go(1), s1);
    run, steps := run + [s1], steps + [Go(1)];
    run, steps := Zeroed(run, steps, Leave(r));
    var s2 := run[|steps|].(threads := [Drop(r, None), Rest]);
    Extend(run, steps, Go(0), s2);
    run, steps := run + [s2], steps + [Go(0)];
    assert Dropped(map[r.id := r], r.id) == map[];
    run, steps := Released(run, steps, r);
  }

  /** From then on a blocking request in flight does not block: its counter stands at 0. */
  lemma BlockingUnseen(limit: int, r: Handle, next: Handle) returns (run: seq<Requests>, steps: seq<Step>)
    requires r.stash && next.stash && next.id != r.id
    ensures OrderlyRun(run, steps) && AtRest(run[|steps|]) && run[|steps|].limit == limit
    ensures run[|steps|].tracked == map[next.id := next] && run[|steps|].blocking == 0
  {
    run, steps := CountersBelowZero(limit, r);
    run, steps := Registered(run, steps, 0, next);
  }

  /** A cancellation takes the only request out while another goroutine is about to do the same. */
  lemma TakenOutBeside(run: seq<Requests>, steps: seq<Step>, r: Handle, first: Thread)
    returns (run': seq<Requests>, steps': seq<Step>)
    requires IsRun(run, steps) && run[|steps|].threads == [first, Finish(r, Some([]))] && r.stash
    requires r !in run[|steps|].completed && Dropped(run[|steps|].tracked, r.id) == map[]
    ensures IsRun(run', steps') && run <= run' && steps <= steps'
    ensures
      var s := run[|steps|];
      run'[|steps'|] == s.(tracked := map[], completed := s.completed + {r}, threads := [first, Sweep([])],
                           inFlight := s.inFlight - 1, blocking := s.blocking - 1)
  {
    var s := run[|steps|];
    var s1 := s.(completed := s.completed + {r}, threads := [first, Drop(r, Some([]))]);
    Extend(run, steps, Go(1), s1);
    run', steps' := run + [s1], steps + [Go(1)];
    var s2 := s1.(tracked := map[], threads := [first, Release(true, Some([]))]);
    Extend(run', steps', Go(1), s2);
    run', steps' := run' + [s2], steps' + [Go(1)];
    var s3 := s2.(inFlight := s.inFlight - 1, threads := [first, Unblock(Some([]))]);
    Extend(run', steps', Go(1), s3);
    run', steps' := run' + [s3], steps' + [Go(1)];
    var s4 := s3.(blocking := s.blocking - 1, threads := [first, Sweep([])]);
    Extend(run', steps', Go(1), s4);
    run', steps' := run' + [s4], steps' + [Go(1)];
  }

  /**
   * A request that could not be sent is deregistered without being completed. Beside a
   * cancellation both delete it and both decrement: the counters rest at -1 although nothing was
   * outstanding but this request.
   */
  lemma DroppedTwice(limit: int, r: Handle) returns (run: seq<Requests>, steps: seq<Step>, k: nat)
    requires r.stash
    ensures IsRun(run, steps) && run[0] == Empty(limit, {}, {}, 0) && k < |steps|
    ensures steps[k] == Start(0, Leave(r)) && Tracks(run[k], r) && r !in run[k].completed
    ensures run[|steps|] == Empty(limit, {r}, {r.id}, -1)
  {
    run, steps := OneTracked(limit, r);
    k := |steps|;
    ghost var start := steps + [Start(0, Leave(r))];
    var s1 := Single(limit, r, {}, 1, [Leave(r), Rest]);
    assert [Rest, Rest][0 := Leave(r)] == [Leave(r), Rest];
    Extend(run, steps, Start(0, Leave(r)), s1);
    run, steps := run + [s1], start;
    var s2 := s1.(threads := [Drop(r, None), Rest]);
    Extend(run, steps, Go(0), s2);
    run, steps := run + [s2], steps + [Go(0)];
    run, steps := CancelledBeside(run, steps, r);
    run, steps := Released(run, steps, r);
  }

  lemma CancelledBeside(run: seq<Requests>, steps: seq<Step>, r: Handle)
    returns (run': seq<Requests>, steps': seq<Step>)
    requires IsRun(run, steps) && run[|steps|].threads == [Drop(r, None), Rest] && r.stash
    requires run[|steps|].tracked == map[r.id := r] && r !in run[|steps|].completed
    ensures IsRun(run', steps') && run <= run' && steps <= steps' && Dropped(run'[|steps'|].tracked, r.id) == map[]
    ensures
      var s := run[|steps|];
      run'[|steps'|] == s.(tracked := map[], completed := s.completed + {r}, inFlight := 0, blocking := 0)
  {
    assert Dropped(map[r.id := r], r.id) == map[];
    run', steps' := Listed(run, steps, r, Drop(r, None));
    run', steps' := TakenOutBeside(run', steps', r, Drop(r, None));
    run', steps' := Zeroed(run', steps', Drop(r, None));
  }
}
