/**
 * One asynchronous request, as any number of goroutines see it. Installing a continuation and
 * completing the request are lock sections; running the continuation happens after the lock is
 * released. Every interleaving of these steps is a run.
 */
module RequestCompletion {
  import opened Basics
  import opened Counting

  /** How a goroutine completes: through completeRequest, or cancelled with the whole actor. */
  datatype Route = Complete | CancelAll

  /** What a goroutine is about to do. */
  datatype Thread =
    | Then(callback: nat)                          // Then, before its lock section
    | Finish(outcome: int, route: Route)           // complete, before its lock section
    | Deregister(pending: Option<nat>, outcome: int)   // completed; about to leave the request map
    | Call(callback: nat, outcome: int)            // about to run a continuation
    | Rest

  /** The first outcome, the continuation, and what has been run so far. */
  datatype Request = Request(
    completed: Option<int>,
    route: Route,                 // of the completion, once there is one
    callback: Option<nat>,
    late: bool,                   // the continuation was installed after the completion
    runs: seq<(nat, int)>,
    threads: seq<Thread>)

  predicate Init(s: Request) {
    && s.completed.None? && s.callback.None? && !s.late && s.runs == []
    && forall i :: 0 <= i < |s.threads| ==> s.threads[i].Then? || s.threads[i].Finish? || s.threads[i].Rest?
  }

  predicate Enabled(s: Request, i: nat) {
    i < |s.threads| && !s.threads[i].Rest?
  }

  /** setCallback: the first continuation stays; after completion it is run by its installer. */
  function SetCallback(s: Request, i: nat, callback: nat): Request
    requires i < |s.threads|
  {
    if s.callback.Some? then s.(threads := s.threads[i := Rest])
    else if s.completed.Some? then
      s.(callback := Some(callback), late := true, threads := s.threads[i := Call(callback, s.completed.value)])
    else s.(callback := Some(callback), threads := s.threads[i := Rest])
  }

  /** complete: the first outcome stays; a cancelled actor drops the continuation. */
  function CompleteOnce(s: Request, i: nat, outcome: int, route: Route): Request
    requires i < |s.threads|
  {
    if s.completed.Some? then s.(threads := s.threads[i := Rest])
    else
      s.(completed := Some(outcome), route := route,
         threads := s.threads[i := if route == Complete then Deregister(s.callback, outcome) else Rest])
  }

  function Next(s: Request, i: nat): Request
    requires Enabled(s, i)
  {
    match s.threads[i]
    case Then(callback) => SetCallback(s, i, callback)
    case Finish(outcome, route) => CompleteOnce(s, i, outcome, route)
    case Deregister(callback, outcome) =>
      s.(threads := s.threads[i := if callback.Some? then Call(callback.value, outcome) else Rest])
    case Call(callback, outcome) =>
      s.(runs := s.runs + [(callback, outcome)], threads := s.threads[i := Rest])
  }

  // ---- the invariant -------------------------------------------------------------------

  /** The goroutine will run a continuation. */
  function Owes(t: Thread, key: nat): nat {
    if t.Call? || (t.Deregister? && t.pending.Some?) then 1 else 0
  }

  ghost function Owed(s: Request): nat {
    Total(Owes, s.threads, 0)
  }

  /** A continuation is due if it was there at a proper completion, or came after any completion. */
  predicate Due(s: Request) {
    s.completed.Some? && s.callback.Some? && (s.route == Complete || s.late)
  }

  /** A goroutine that owes a run owes the installed continuation the first outcome. */
  ghost predicate ThreadOk(s: Request, t: Thread) {
    match t
    case Deregister(pending, outcome) => s.completed == Some(outcome) && (pending.Some? ==> s.callback == pending)
    case Call(callback, outcome) => s.completed == Some(outcome) && s.callback == Some(callback)
    case _ => true
  }

  ghost predicate Inv(s: Request) {
    && Owed(s) + |s.runs| == (if Due(s) then 1 else 0)
    && (forall i :: 0 <= i < |s.threads| ==> ThreadOk(s, s.threads[i]))
    && (forall r :: r in s.runs ==> s.callback == Some(r.0) && s.completed == Some(r.1))
    && (s.late ==> s.completed.Some? && s.callback.Some?)
  }

  lemma InitHolds(s: Request)
    requires Init(s)
    ensures Inv(s)
  {
    TotalZero(Owes, s.threads, 0);
  }

  lemma StepKeepsInv(s: Request, i: nat)
    requires Inv(s) && Enabled(s, i)
    ensures Inv(Next(s, i))
  {
    var s' := Next(s, i);
    TotalUpdate(Owes, s.threads, 0, i, s'.threads[i]);
    assert s'.threads == s.threads[i := s'.threads[i]];
    assert ThreadOk(s, s.threads[i]);
    forall j | 0 <= j < |s'.threads| ensures ThreadOk(s', s'.threads[j]) {
      assert ThreadOk(s, s.threads[j]);
    }
  }

  ghost predicate IsRun(run: seq<Request>, moves: seq<nat>) {
    && |run| == |moves| + 1 && Init(run[0])
    && forall k :: 0 <= k < |moves| ==> Enabled(run[k], moves[k]) && run[k + 1] == Next(run[k], moves[k])
  }

  lemma {:induction false} RunKeepsInv(run: seq<Request>, moves: seq<nat>, k: nat)
    requires IsRun(run, moves) && k < |run|
    ensures Inv(run[k])
  {
    if k == 0 {
      InitHolds(run[0]);
    } else {
      RunKeepsInv(run, moves, k - 1);
      StepKeepsInv(run[k - 1], moves[k - 1]);
    }
  }

  // ---- the theorems --------------------------------------------------------------------

  /** The first outcome and the first continuation stay, and what has been run is not undone. */
  lemma {:induction false} FirstWins(run: seq<Request>, moves: seq<nat>, j: nat, k: nat)
    requires IsRun(run, moves) && j <= k < |run|
    ensures run[j].completed.Some? ==> run[k].completed == run[j].completed && run[k].route == run[j].route
    ensures run[j].callback.Some? ==> run[k].callback == run[j].callback
    ensures run[j].runs <= run[k].runs
  {
    if j < k { FirstWins(run, moves, j, k - 1); }
  }

  /** The continuation runs at most once, and it is the first one, with the first outcome. */
  lemma RunsAtMostOnce(run: seq<Request>, moves: seq<nat>, k: nat)
    requires IsRun(run, moves) && k < |run|
    ensures |run[k].runs| <= 1
    ensures forall r :: r in run[k].runs ==> run[k].callback == Some(r.0) && run[k].completed == Some(r.1)
  {
    RunKeepsInv(run, moves, k);
  }

  /**
   * Once every goroutine has come to rest, a completed request has run its continuation exactly
   * if one was installed and the completion went through completeRequest or came before it.
   */
  lemma RunsExactlyOnce(run: seq<Request>, moves: seq<nat>, k: nat)
    requires IsRun(run, moves) && k < |run|
    requires forall i :: 0 <= i < |run[k].threads| ==> run[k].threads[i].Rest?
    ensures |run[k].runs| == if Due(run[k]) then 1 else 0
    ensures run[k].completed.Some? && run[k].callback.Some? && run[k].route == Complete ==>
              run[k].runs == [(run[k].callback.value, run[k].completed.value)]
  {
    RunKeepsInv(run, moves, k);
    TotalZero(Owes, run[k].threads, 0);
    if Due(run[k]) { assert run[k].runs[0] in run[k].runs; }
  }

  // ---- what the moves decide -----------------------------------------------------------

  /** The first of the moves before k by a goroutine that started with Then. */
  function FirstThen(start: seq<Thread>, moves: seq<nat>, k: nat): Option<nat>
    requires k <= |moves| && forall j :: 0 <= j < |moves| ==> moves[j] < |start|
  {
    if k == 0 then None
    else
      var before := FirstThen(start, moves, k - 1);
      if before.Some? then before else if start[moves[k - 1]].Then? then Some(k - 1) else None
  }

  /** The first of the moves before k by a goroutine that started with complete. */
  function FirstFinish(start: seq<Thread>, moves: seq<nat>, k: nat): Option<nat>
    requires k <= |moves| && forall j :: 0 <= j < |moves| ==> moves[j] < |start|
  {
    if k == 0 then None
    else
      var before := FirstFinish(start, moves, k - 1);
      if before.Some? then before else if start[moves[k - 1]].Finish? then Some(k - 1) else None
  }

  lemma {:induction false} FirstThenIs(start: seq<Thread>, moves: seq<nat>, k: nat)
    requires k <= |moves| && forall j :: 0 <= j < |moves| ==> moves[j] < |start|
    ensures
      var a := FirstThen(start, moves, k);
      && (a.Some? ==> a.value < k && start[moves[a.value]].Then?)
      && forall j :: 0 <= j < (if a.Some? then a.value else k) ==> !start[moves[j]].Then?
  {
    if k > 0 { FirstThenIs(start, moves, k - 1); }
  }

  lemma {:induction false} FirstFinishIs(start: seq<Thread>, moves: seq<nat>, k: nat)
    requires k <= |moves| && forall j :: 0 <= j < |moves| ==> moves[j] < |start|
    ensures
      var b := FirstFinish(start, moves, k);
      && (b.Some? ==> b.value < k && start[moves[b.value]].Finish?)
      && forall j :: 0 <= j < (if b.Some? then b.value else k) ==> !start[moves[j]].Finish?
  {
    if k > 0 { FirstFinishIs(start, moves, k - 1); }
  }

  lemma {:induction false} SameThreads(run: seq<Request>, moves: seq<nat>, k: nat)
    requires IsRun(run, moves) && k < |run|
    ensures |run[k].threads| == |run[0].threads|
  {
    if k > 0 { SameThreads(run, moves, k - 1); }
  }

  lemma MovesInRange(run: seq<Request>, moves: seq<nat>)
    requires IsRun(run, moves)
    ensures forall j :: 0 <= j < |moves| ==> moves[j] < |run[0].threads|
  {
    forall j | 0 <= j < |moves| ensures moves[j] < |run[0].threads| { SameThreads(run, moves, j); }
  }

  /** A goroutine stands at its start until it moves, and never again before a lock section. */
  lemma {:induction false} StartsOnce(run: seq<Request>, moves: seq<nat>, k: nat, i: nat)
    requires IsRun(run, moves) && k < |run| && i < |run[0].threads|
    ensures |run[k].threads| == |run[0].threads|
    ensures (forall j :: 0 <= j < k ==> moves[j] != i) ==> run[k].threads[i] == run[0].threads[i]
    ensures (exists j :: 0 <= j < k && moves[j] == i) ==> !run[k].threads[i].Then? && !run[k].threads[i].Finish?
  {
    if k > 0 { StartsOnce(run, moves, k - 1, i); }
  }

  /** The continuation, the outcome and their order follow from the moves. */
  ghost predicate Decided(run: seq<Request>, moves: seq<nat>, k: nat)
    requires IsRun(run, moves) && k < |run| && forall j :: 0 <= j < |moves| ==> moves[j] < |run[0].threads|
  {
    var start := run[0].threads;
    var a, b := FirstThen(start, moves, k), FirstFinish(start, moves, k);
    && (a.Some? ==> a.value < k && start[moves[a.value]].Then?)
    && (b.Some? ==> b.value < k && start[moves[b.value]].Finish?)
    && run[k].callback == (if a.None? then None else Some(start[moves[a.value]].callback))
    && run[k].completed == (if b.None? then None else Some(start[moves[b.value]].outcome))
    && (b.Some? ==> run[k].route == start[moves[b.value]].route)
    && run[k].late == (a.Some? && b.Some? && b.value < a.value)
  }

  /** The goroutine of a step stands where it started exactly if this is its first move. */
  lemma FirstMove(run: seq<Request>, moves: seq<nat>, k: nat)
    requires IsRun(run, moves) && k < |moves| && forall j :: 0 <= j < |moves| ==> moves[j] < |run[0].threads|
    ensures
      var start, t := run[0].threads, run[k].threads[moves[k]];
      && (t.Then? || t.Finish? ==> t == start[moves[k]])
      && (start[moves[k]].Then? && FirstThen(start, moves, k).None? ==> t == start[moves[k]])
      && (start[moves[k]].Finish? && FirstFinish(start, moves, k).None? ==> t == start[moves[k]])
  {
    StartsOnce(run, moves, k, moves[k]);
    FirstThenIs(run[0].threads, moves, k);
    FirstFinishIs(run[0].threads, moves, k);
  }

  lemma {:induction false} MovesDecide(run: seq<Request>, moves: seq<nat>, k: nat)
    requires IsRun(run, moves) && k < |run| && forall j :: 0 <= j < |moves| ==> moves[j] < |run[0].threads|
    ensures Decided(run, moves, k)
  {
    if k > 0 {
      MovesDecide(run, moves, k - 1);
      FirstMove(run, moves, k - 1);
    }
  }

  /**
   * Once some goroutine that started with Then has left its lock section, the continuation is
   * that of the first such goroutine; the outcome is that of the first to complete.
   */
  lemma FirstInstallsFirstCompletes(run: seq<Request>, moves: seq<nat>, j: nat, k: nat)
    requires IsRun(run, moves) && j < k < |run|
    ensures moves[j] < |run[0].threads| && forall i :: 0 <= i < j ==> moves[i] < |run[0].threads|
    ensures
      var start := run[0].threads;
      && (start[moves[j]].Then? && (forall i :: 0 <= i < j ==> !start[moves[i]].Then?) ==>
            run[k].callback == Some(start[moves[j]].callback))
      && (start[moves[j]].Finish? && (forall i :: 0 <= i < j ==> !start[moves[i]].Finish?) ==>
            run[k].completed == Some(start[moves[j]].outcome) && run[k].route == start[moves[j]].route)
  {
    MovesInRange(run, moves);
    MovesDecide(run, moves, k);
    FirstThenIs(run[0].threads, moves, k);
    FirstFinishIs(run[0].threads, moves, k);
  }

  /**
   * Once every goroutine rests, the runs follow from who moved first: none without both a Then
   * and a completion, none if the Then came before an actor-wide cancellation, and otherwise one
   * run of the first continuation with the first outcome.
   */
  lemma RunsAsMoved(run: seq<Request>, moves: seq<nat>, k: nat)
    requires IsRun(run, moves) && k < |run|
    requires forall i :: 0 <= i < |run[k].threads| ==> run[k].threads[i].Rest?
    ensures forall j :: 0 <= j < |moves| ==> moves[j] < |run[0].threads|
    ensures
      var start := run[0].threads;
      var a, b := FirstThen(start, moves, k), FirstFinish(start, moves, k);
      if a.None? || b.None? then run[k].runs == []
      else
        && a.value < k && b.value < k && start[moves[a.value]].Then? && start[moves[b.value]].Finish?
        && run[k].runs == if a.value < b.value && start[moves[b.value]].route == CancelAll then []
                          else [(start[moves[a.value]].callback, start[moves[b.value]].outcome)]
  {
    MovesInRange(run, moves);
    MovesDecide(run, moves, k);
    RunKeepsInv(run, moves, k);
    TotalZero(Owes, run[k].threads, 0);
    if Due(run[k]) { assert run[k].runs[0] in run[k].runs; }
  }

  /** The most moves a goroutine still makes. */
  function Ahead(t: Thread, key: nat): nat {
    match t
    case Then(_) => 2
    case Finish(_, _) => 3
    case Deregister(_, _) => 2
    case Call(_, _) => 1
    case Rest => 0
  }

  /** No run goes on for ever: every move uses up one of at most three moves per goroutine. */
  lemma {:induction false} ComesToRest(run: seq<Request>, moves: seq<nat>, k: nat)
    requires IsRun(run, moves) && k < |run|
    ensures Total(Ahead, run[k].threads, 0) + k <= Total(Ahead, run[0].threads, 0) <= 3 * |run[0].threads|
  {
    if k == 0 {
      TotalZero((t: Thread, key: nat) => 0, run[0].threads, 0);
      TotalWithin((t: Thread, key: nat) => 0, Ahead, run[0].threads, 0, 3);
    } else {
      ComesToRest(run, moves, k - 1);
      var s, s', i := run[k - 1], run[k], moves[k - 1];
      TotalUpdate(Ahead, s.threads, 0, i, s'.threads[i]);
      assert s'.threads == s.threads[i := s'.threads[i]];
    }
  }

  /** A continuation installed before the whole actor's requests are cancelled never runs. */
  lemma CancelledInSilence(callback: nat, outcome: int) returns (run: seq<Request>, moves: seq<nat>)
    ensures IsRun(run, moves) && |run| == 3
    ensures run[2].threads == [Rest, Rest] && run[2].callback == Some(callback) && run[2].completed == Some(outcome)
    ensures run[2].runs == []
  {
    var s0 := Request(None, Complete, None, false, [], [Then(callback), Thread.Finish(outcome, CancelAll)]);
    moves := [0, 1];
    var s1 := Next(s0, 0);
    run := [s0, s1, Next(s1, 1)];
  }
}
