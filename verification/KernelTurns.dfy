/**
  The budget of a turn, counted in the steps of a run: from the step in which a worker takes a
  grain, it makes at most `throughput` dequeue attempts; a turn that has made them all yields, and
  one that ends earlier has found the mailbox empty or the grain scheduled by somebody else.
 */
module KernelTurns {
  import opened Basics
  import opened Kernel
  import opened KernelTheorems

  /** The worker has a grain of its own, or had it and may take it back. */
  predicate InTurn(pc: Worker) {
    pc.Turn? || pc.CheckEmpty? || pc.ReLoad? || pc.ReCas? || pc.ReTake?
  }

  /** The worker begins a dequeue in this step. */
  predicate Attempts(before: Worker, after: Worker) {
    before.Turn? && before.at.LoadHead? && after.Turn? && after.at.LoadNext?
  }

  /** The worker is on the way from a dequeue attempt to the end of its handling. */
  predicate Underway(pc: Worker) {
    pc.Turn? && !pc.at.LoadHead? && !pc.at.GoIdle?
  }

  /** How many messages of the worker's grain a step hands to the handler. */
  function HandledIn(s: State, s': State, w: nat): int
    requires w < |s.workers|
  {
    if s.workers[w].Turn? && s.workers[w].g < |s.grains| && s.workers[w].g < |s'.grains| then
      |s'.grains[s.workers[w].g].box.handled| - |s.grains[s.workers[w].g].box.handled|
    else 0
  }

  /** This is a step of worker w. */
  predicate StepOf(a: Action, w: nat) { a.Work? && a.w == w }

  /** The dequeue attempts of worker w since it last took a grain. */
  ghost function AttemptCount(states: seq<State>, actions: seq<Action>, n: nat, w: nat): nat
    requires IsRun(states, actions) && n <= |actions|
  {
    if n == 0 then 0
    else
      var so, s, s' := AttemptCount(states, actions, n - 1, w), states[n - 1], states[n];
      if !StepOf(actions[n - 1], w) then so
      else if s.workers[w].Begin? then 0
      else so + if w < |s'.workers| then Bit(Attempts(s.workers[w], s'.workers[w])) else 0
  }

  /** The messages that worker w has handled since it last took a grain. */
  ghost function HandledCount(states: seq<State>, actions: seq<Action>, n: nat, w: nat): int
    requires IsRun(states, actions) && n <= |actions|
  {
    if n == 0 then 0
    else
      var so, s := HandledCount(states, actions, n - 1, w), states[n - 1];
      if !StepOf(actions[n - 1], w) then so
      else if s.workers[w].Begin? then 0
      else so + HandledIn(s, states[n], w)
  }

  // ---- one step ------------------------------------------------------------------------

  /** A worker stays where it is in the steps of others, except that a waiter may be woken. */
  lemma OthersLeaveMe(s: State, a: Action, w: nat)
    requires Typed(s) && Enabled(s, a) && w < |s.workers| && !StepOf(a, w)
    ensures |Next(s, a).workers| == |s.workers| && Next(s, a).throughput == s.throughput
    ensures
      || Next(s, a).workers[w] == s.workers[w]
      || (s.workers[w].Waiting? && Next(s, a).workers[w].Signalled?)
  {
    match a
    case Receive(_, _, _, _) =>
    case Produce(p, flag, wake) =>
      ProduceTyped(s, a);
      ApplyKeepsSizes(s, ProduceMove(s, p, flag, wake).effect);
    case Work(v, flag, wake) =>
      WorkTyped(s, a);
      ApplyKeepsSizes(s, WorkMove(s, v, flag, wake).effect);
  }

  /** A step inside a turn uses up one of the budget if it begins an attempt, and only then. */
  predicate Accounts(throughput: nat, pc: Worker, pc': Worker, handled: int) {
    InTurn(pc') ==>
      if pc.Begin? then pc'.left == throughput && !Underway(pc')
      else
        && InTurn(pc) && pc'.left + Bit(Attempts(pc, pc')) == pc.left
        && handled + Bit(Underway(pc')) <= Bit(Underway(pc)) + Bit(Attempts(pc, pc'))
  }

  /** How the step of a worker ends its turn. */
  predicate Ends(s: State, pc: Worker, pc': Worker) {
    InTurn(pc) && !InTurn(pc') ==>
      && pc.g < |s.grains|
      && if pc' == Requeue(pc.g) then pc.left == 0
         else
           && pc' == PopLocal
           && (if pc.CheckEmpty? then s.grains[pc.g].len == 0
               else (pc.ReLoad? || pc.ReCas?) && !s.grains[pc.g].sched.Idle?)
  }

  lemma MoveAccounts(s: State, a: Action, w: nat)
    requires Typed(s) && Enabled(s, a) && StepOf(a, w)
    ensures
      var pc, pc' := s.workers[w], WorkMove(s, w, a.flag, a.wake).pc;
      && Accounts(s.throughput, pc, pc', Bit(pc.Turn? && pc.at.Handle?))
      && ((pc.ReTake? ==> s.grains[pc.g].sched.Scheduled?) ==> Ends(s, pc, pc'))
  {
  }

  /** Where the worker's own step takes it, and what the step does to its grain. */
  lemma OwnStep(s: State, a: Action, w: nat)
    requires Typed(s) && Enabled(s, a) && StepOf(a, w)
    ensures |Next(s, a).workers| == |s.workers| && Next(s, a).throughput == s.throughput
    ensures Next(s, a).workers[w] == WorkMove(s, w, a.flag, a.wake).pc
    ensures HandledIn(s, Next(s, a), w) == Bit(s.workers[w].Turn? && s.workers[w].at.Handle?)
  {
    WorkTyped(s, a);
    ApplyKeepsSizes(s, WorkMove(s, w, a.flag, a.wake).effect);
  }

  /** One step of anybody, as worker w sees it. */
  lemma StepAccounts(s: State, a: Action, s': State, w: nat)
    requires Typed(s) && Enabled(s, a) && s' == Next(s, a) && w < |s.workers|
    ensures |s'.workers| == |s.workers| && s'.throughput == s.throughput
    ensures StepOf(a, w) ==> Accounts(s.throughput, s.workers[w], s'.workers[w], HandledIn(s, s', w))
    ensures !StepOf(a, w) ==> InTurn(s.workers[w]) == InTurn(s'.workers[w])
    ensures !StepOf(a, w) && InTurn(s'.workers[w]) ==> s'.workers[w] == s.workers[w]
  {
    if StepOf(a, w) {
      OwnStep(s, a, w);
      MoveAccounts(s, a, w);
    } else {
      OthersLeaveMe(s, a, w);
    }
  }

  // ---- every run -----------------------------------------------------------------------

  /** What is left of the budget is what the attempts have not used, and no attempt handles two messages. */
  ghost predicate BudgetOk(states: seq<State>, actions: seq<Action>, n: nat, w: nat)
    requires IsRun(states, actions) && n <= |actions|
  {
    && w < |states[n].workers| && states[n].throughput == states[0].throughput
    && (InTurn(states[n].workers[w]) ==>
          && AttemptCount(states, actions, n, w) + states[n].workers[w].left == states[0].throughput
          && HandledCount(states, actions, n, w) + Bit(Underway(states[n].workers[w]))
               <= AttemptCount(states, actions, n, w))
  }

  lemma {:induction false} BudgetIsAttempts(states: seq<State>, actions: seq<Action>, n: nat, w: nat)
    requires IsRun(states, actions) && n <= |actions| && w < |states[0].workers|
    ensures BudgetOk(states, actions, n, w)
  {
    if n > 0 {
      BudgetIsAttempts(states, actions, n - 1, w);
      StepAccounts(states[n - 1], actions[n - 1], states[n], w);
    }
  }

  /** A turn makes at most `throughput` dequeue attempts, and handles at most one message in each. */
  lemma TurnIsBounded(states: seq<State>, actions: seq<Action>, n: nat, w: nat)
    requires IsRun(states, actions) && n <= |actions| && w < |states[0].workers|
    ensures w < |states[n].workers|
    ensures InTurn(states[n].workers[w]) ==>
      HandledCount(states, actions, n, w) <= AttemptCount(states, actions, n, w) <= states[0].throughput
  {
    BudgetIsAttempts(states, actions, n, w);
  }

  /** At the head of the loop: with nothing left the worker yields, otherwise it begins an attempt. */
  lemma LoopStep(s: State, a: Action, s': State, w: nat, g: nat)
    requires Typed(s) && Enabled(s, a) && s' == Next(s, a) && w < |s.workers| && StepOf(a, w)
    requires s.workers[w].Turn? && s.workers[w].g == g && s.workers[w].at.LoadHead?
    ensures w < |s'.workers| && g < |s'.grains| == |s.grains|
    ensures
      if s.workers[w].left > 0 then
        && s'.workers[w].Turn? && s'.workers[w].g == g && s'.workers[w].at.LoadNext?
        && s'.grains[g].sched == s.grains[g].sched
      else s'.workers[w] == Requeue(g) && s'.grains[g].sched.Scheduled?
  {
    OwnStep(s, a, w);
  }

  /**
    Before each attempt the worker goes on exactly if it has made fewer than `throughput`; after the
    last one it yields: the grain is Scheduled again and the worker is about to requeue it.
   */
  lemma BudgetDecides(states: seq<State>, actions: seq<Action>, n: nat, w: nat, g: nat)
    requires IsRun(states, actions) && n < |actions| && w < |states[0].workers| && StepOf(actions[n], w)
    requires w < |states[n].workers| && states[n].workers[w].Turn?
    requires states[n].workers[w].g == g && states[n].workers[w].at.LoadHead?
    ensures w < |states[n + 1].workers| && g < |states[n + 1].grains|
    ensures
      var pc := states[n + 1].workers[w];
      if AttemptCount(states, actions, n, w) < states[0].throughput then
        pc.Turn? && pc.g == g && pc.at.LoadNext? && states[n + 1].grains[g].sched.Processing?
      else
        pc == Requeue(g) && states[n + 1].grains[g].sched.Scheduled?
  {
    BudgetIsAttempts(states, actions, n, w);
    LoopStep(states[n], actions[n], states[n + 1], w, g);
    ReachableAt(states, actions, n);
    TransitionsFindTheirState(states[n], w);
  }

  lemma EndStep(s: State, a: Action, s': State, w: nat)
    requires Typed(s) && Enabled(s, a) && s' == Next(s, a) && w < |s.workers|
    requires s.workers[w].ReTake? ==> s.workers[w].g < |s.grains| && s.grains[s.workers[w].g].sched.Scheduled?
    ensures |s'.workers| == |s.workers| && Ends(s, s.workers[w], s'.workers[w])
  {
    if StepOf(a, w) {
      OwnStep(s, a, w);
      MoveAccounts(s, a, w);
    } else {
      OthersLeaveMe(s, a, w);
    }
  }

  /**
    A turn ends with a requeue after `throughput` attempts; or, having set the grain Idle, because
    the mailbox has length 0 or because somebody else has scheduled the grain since.
   */
  lemma TurnEnds(states: seq<State>, actions: seq<Action>, n: nat, w: nat)
    requires IsRun(states, actions) && n < |actions| && w < |states[0].workers|
    ensures w < |states[n].workers| && w < |states[n + 1].workers|
    ensures
      var s, pc, pc' := states[n], states[n].workers[w], states[n + 1].workers[w];
      InTurn(pc) && !InTurn(pc') ==>
        && pc.g < |s.grains|
        && if pc' == Requeue(pc.g) then AttemptCount(states, actions, n, w) == states[0].throughput
           else
             && pc' == PopLocal
             && (if pc.CheckEmpty? then s.grains[pc.g].len == 0
                 else (pc.ReLoad? || pc.ReCas?) && !s.grains[pc.g].sched.Idle?)
  {
    BudgetIsAttempts(states, actions, n, w);
    ReachableAt(states, actions, n);
    TransitionsFindTheirState(states[n], w);
    EndStep(states[n], actions[n], states[n + 1], w);
  }
}
