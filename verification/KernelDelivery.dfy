/**
  What is delivered is what was sent.  A call of receive is known by the index of its Receive
  action; its context carries that action's message until the tail swap, which appends it to the
  mailbox of that action's grain.  So the mailbox accepts exactly the messages of the calls that
  reach the swap, each once, and the calls that give up found the grain inactive or full.
 */
module KernelDelivery {
  import opened Basics
  import opened Kernel
  import opened KernelMailbox
  import opened KernelTheorems

  /** The call that producer p made last before step n. */
  function CallOf(actions: seq<Action>, n: nat, p: nat): (r: Option<nat>)
    requires n <= |actions|
    ensures r.Some? ==> r.value < n && actions[r.value].Receive? && actions[r.value].p == p
  {
    if n == 0 then None
    else if actions[n - 1].Receive? && actions[n - 1].p == p then Some(n - 1)
    else CallOf(actions, n - 1, p)
  }

  /** The producer has not swapped the tail yet. */
  predicate BeforeSwap(pc: Producer) {
    pc.Check? || pc.ReserveLoad? || pc.ReserveCas? || pc.ClearNext? || pc.Swap?
  }

  /** Producer p swaps a tail in this step. */
  predicate Swaps(s: State, a: Action, p: nat) {
    a.Produce? && a.p == p && p < |s.producers| && s.producers[p].Swap?
  }

  // ---- one step ------------------------------------------------------------------------

  lemma StepKeepsSizes(s: State, a: Action)
    requires Typed(s) && Enabled(s, a)
    ensures |Next(s, a).producers| == |s.producers| && |Next(s, a).grains| == |s.grains|
  {
    if a.Produce? {
      ProduceTyped(s, a);
      ApplyKeepsSizes(s, ProduceMove(s, a.p, a.flag, a.wake).effect);
    } else if a.Work? {
      WorkTyped(s, a);
      ApplyKeepsSizes(s, WorkMove(s, a.w, a.flag, a.wake).effect);
    }
  }

  /** Where a step leaves producer p. */
  lemma ProducerAfter(s: State, a: Action, p: nat)
    requires Typed(s) && Enabled(s, a) && p < |s.producers|
    ensures p < |Next(s, a).producers|
    ensures Next(s, a).producers[p] ==
            if a.Receive? && a.p == p then Check(a.g, if a.reuse.Some? then a.reuse.value else |s.nodes|)
            else if a.Produce? && a.p == p then ProduceMove(s, p, a.flag, a.wake).pc
            else s.producers[p]
  {
    if a.Produce? {
      ProduceTyped(s, a);
      ApplyKeepsSizes(s, ProduceMove(s, a.p, a.flag, a.wake).effect);
    } else if a.Work? {
      WorkTyped(s, a);
      ApplyKeepsSizes(s, WorkMove(s, a.w, a.flag, a.wake).effect);
    }
  }

  lemma EffectKeepsMessage(s: State, e: Effect, n: nat)
    requires TypedEffect(s, e) && n < |s.nodes| && (e.Release? ==> e.n != n)
    ensures n < |Apply(s, e).nodes| && Apply(s, e).nodes[n].msg == s.nodes[n].msg
  {
  }

  /** What a step does to the accepted messages of a grain. */
  lemma EffectAccepts(s: State, e: Effect, g: nat)
    requires TypedEffect(s, e) && g < |s.grains|
    ensures |Apply(s, e).grains| == |s.grains| && Apply(s, e).grains[g].capacity == s.grains[g].capacity
    ensures Apply(s, e).grains[g].box.accepted ==
            s.grains[g].box.accepted + if e.SwapTail? && e.g == g then [s.nodes[e.n].msg] else []
  {
  }

  /** The context of a call is not cleared by a worker. */
  lemma NotReleased(s: State, w: nat, p: nat)
    requires Inv(s) && w < |s.workers| && p < |s.producers| && BeforeSwap(s.producers[p])
    requires s.workers[w].Turn? && s.workers[w].at.Recycle?
    ensures s.workers[w].at.h != s.producers[p].n
  {
    assert ProducerOk(s.nodes, p, s.producers[p]);
    assert WorkerOk(s.nodes, s.grains, w, s.workers[w]);
  }

  /** The context, the message and the grain of a call stay until the swap, in the steps of everybody. */
  predicate CallGoesOn(s: State, s': State, p: nat)
    requires p < |s.producers| && p < |s'.producers|
  {
    var pc, pc' := s.producers[p], s'.producers[p];
    && (!pc'.Ready? ==> !pc.Ready? && pc'.g == pc.g)
    && (BeforeSwap(pc') ==>
          && BeforeSwap(pc) && pc'.n == pc.n && pc.n < |s.nodes| && pc.n < |s'.nodes|
          && s'.nodes[pc.n].msg == s.nodes[pc.n].msg)
  }

  lemma ReceiveGoesOn(s: State, a: Action, s': State, p: nat)
    requires Inv(s) && Enabled(s, a) && s' == Next(s, a) && a.Receive? && p < |s.producers|
    ensures |s'.producers| == |s.producers|
    ensures a.p != p ==> CallGoesOn(s, s', p)
    ensures a.p == p ==>
      && s'.producers[p].Check? && s'.producers[p].g == a.g
      && s'.producers[p].n < |s'.nodes| && s'.nodes[s'.producers[p].n].msg == a.m
  {
    assert ProducerOk(s.nodes, p, s.producers[p]);
  }

  lemma MoveGoesOn(s: State, p: nat, flag: bool, wake: nat)
    requires p < |s.producers| && !s.producers[p].Ready? && TypedProducer(s, s.producers[p])
    ensures
      var pc, move := s.producers[p], ProduceMove(s, p, flag, wake);
      && !move.effect.Release?
      && (!move.pc.Ready? ==> move.pc.g == pc.g)
      && (BeforeSwap(move.pc) ==> BeforeSwap(pc) && move.pc.n == pc.n)
  {
  }

  lemma ProduceGoesOn(s: State, a: Action, s': State, p: nat)
    requires Inv(s) && Enabled(s, a) && s' == Next(s, a) && a.Produce? && p < |s.producers|
    ensures |s'.producers| == |s.producers| && CallGoesOn(s, s', p)
  {
    ProduceTyped(s, a);
    StepKeepsSizes(s, a);
    ProducerAfter(s, a, p);
    MoveGoesOn(s, a.p, a.flag, a.wake);
    if BeforeSwap(s.producers[p]) {
      EffectKeepsMessage(s, ProduceMove(s, a.p, a.flag, a.wake).effect, s.producers[p].n);
    }
  }

  lemma WorkGoesOn(s: State, a: Action, s': State, p: nat)
    requires Inv(s) && Enabled(s, a) && s' == Next(s, a) && a.Work? && p < |s.producers|
    ensures |s'.producers| == |s.producers| && CallGoesOn(s, s', p)
  {
    WorkTyped(s, a);
    var e := WorkMove(s, a.w, a.flag, a.wake).effect;
    StepKeepsSizes(s, a);
    ProducerAfter(s, a, p);
    if BeforeSwap(s.producers[p]) {
      if e.Release? { NotReleased(s, a.w, p); }
      EffectKeepsMessage(s, e, s.producers[p].n);
    }
  }

  lemma StepGoesOn(s: State, a: Action, s': State, p: nat)
    requires Inv(s) && Enabled(s, a) && s' == Next(s, a) && p < |s.producers|
    ensures |s'.producers| == |s.producers|
    ensures !(a.Receive? && a.p == p) ==> CallGoesOn(s, s', p)
    ensures a.Receive? && a.p == p ==>
      && s'.producers[p].Check? && s'.producers[p].g == a.g
      && s'.producers[p].n < |s'.nodes| && s'.nodes[s'.producers[p].n].msg == a.m
  {
    match a
    case Receive(_, _, _, _) => ReceiveGoesOn(s, a, s', p);
    case Produce(_, _, _) => ProduceGoesOn(s, a, s', p);
    case Work(_, _, _) => WorkGoesOn(s, a, s', p);
  }

  /** Only a tail swap accepts a message: that of its context, for the grain of its producer. */
  lemma StepAccepts(s: State, a: Action, s': State, g: nat)
    requires Inv(s) && Enabled(s, a) && s' == Next(s, a) && g < |s.grains|
    ensures |s'.grains| == |s.grains| && s'.grains[g].capacity == s.grains[g].capacity
    ensures
      var swaps := a.Produce? && Swaps(s, a, a.p) && s.producers[a.p].g == g;
      && (swaps ==> s.producers[a.p].n < |s.nodes|)
      && s'.grains[g].box.accepted ==
         s.grains[g].box.accepted + if swaps then [s.nodes[s.producers[a.p].n].msg] else []
  {
    if a.Produce? {
      ProduceTyped(s, a);
      EffectAccepts(s, ProduceMove(s, a.p, a.flag, a.wake).effect, g);
    } else if a.Work? {
      WorkTyped(s, a);
      EffectAccepts(s, WorkMove(s, a.w, a.flag, a.wake).effect, g);
    }
  }

  // ---- a call carries its message --------------------------------------------------------

  /** Producer p works for its last call: that call's grain, and until the swap that call's message. */
  ghost predicate WorksFor(states: seq<State>, actions: seq<Action>, n: nat, p: nat)
    requires IsRun(states, actions) && n <= |actions|
  {
    && p < |states[n].producers|
    && var pc := states[n].producers[p];
       !pc.Ready? ==>
         && CallOf(actions, n, p).Some?
         && var call := actions[CallOf(actions, n, p).value];
            && pc.g == call.g
            && (BeforeSwap(pc) ==> pc.n < |states[n].nodes| && states[n].nodes[pc.n].msg == call.m)
  }

  lemma {:induction false} CarriesItsMessage(states: seq<State>, actions: seq<Action>, n: nat, p: nat)
    requires IsRun(states, actions) && n <= |actions| && p < |states[0].producers|
    ensures |states[n].producers| == |states[0].producers|
    ensures WorksFor(states, actions, n, p)
  {
    if n > 0 {
      CarriesItsMessage(states, actions, n - 1, p);
      RunHolds(states, actions, n - 1);
      StepGoesOn(states[n - 1], actions[n - 1], states[n], p);
    }
  }

  // ---- accepted messages -------------------------------------------------------------------

  /** The calls on grain g that have reached the swap, in the order of their swaps. */
  ghost function Reached(states: seq<State>, actions: seq<Action>, n: nat, g: nat): seq<nat>
    requires IsRun(states, actions) && n <= |actions|
  {
    if n == 0 then []
    else
      var before, a := Reached(states, actions, n - 1, g), actions[n - 1];
      if !a.Produce? || !Swaps(states[n - 1], a, a.p) then before
      else
        var call := CallOf(actions, n - 1, a.p);
        if call.Some? && actions[call.value].g == g then before + [call.value] else before
  }

  /** The calls are of this grain, each once, and those of one producer in the order it made them. */
  ghost predicate CallsInOrder(actions: seq<Action>, calls: seq<nat>, g: nat) {
    && (forall k :: 0 <= k < |calls| ==>
          calls[k] < |actions| && actions[calls[k]].Receive? && actions[calls[k]].g == g)
    && (forall j, k :: 0 <= j < k < |calls| ==> calls[j] != calls[k])
    && (forall j, k :: 0 <= j < k < |calls| && actions[calls[j]].p == actions[calls[k]].p ==> calls[j] < calls[k])
  }

  function MessagesOf(actions: seq<Action>, calls: seq<nat>): seq<Message>
    requires forall k :: 0 <= k < |calls| ==> calls[k] < |actions| && actions[calls[k]].Receive?
  {
    seq(|calls|, k requires 0 <= k < |calls| => actions[calls[k]].m)
  }

  /** A call that has reached the swap is over, or its producer is past the swap. */
  ghost predicate Passed(states: seq<State>, actions: seq<Action>, n: nat, r: nat)
    requires IsRun(states, actions) && n <= |actions|
  {
    && r < n && actions[r].Receive? && actions[r].p < |states[n].producers|
    && CallOf(actions, n, actions[r].p).Some?
    && var last := CallOf(actions, n, actions[r].p).value;
       r <= last && (r == last ==> !BeforeSwap(states[n].producers[actions[r].p]))
  }

  ghost predicate AllPassed(states: seq<State>, actions: seq<Action>, n: nat, calls: seq<nat>)
    requires IsRun(states, actions) && n <= |actions|
  {
    forall k :: 0 <= k < |calls| ==> Passed(states, actions, n, calls[k])
  }

  lemma PassedStays(states: seq<State>, actions: seq<Action>, n: nat, r: nat)
    requires IsRun(states, actions) && n < |actions| && Passed(states, actions, n, r)
    ensures Passed(states, actions, n + 1, r)
  {
    RunHolds(states, actions, n);
    StepGoesOn(states[n], actions[n], states[n + 1], actions[r].p);
  }

  lemma AllPassedStay(states: seq<State>, actions: seq<Action>, n: nat, calls: seq<nat>)
    requires IsRun(states, actions) && n < |actions| && AllPassed(states, actions, n, calls)
    ensures AllPassed(states, actions, n + 1, calls)
  {
    forall k | 0 <= k < |calls| ensures Passed(states, actions, n + 1, calls[k]) {
      PassedStays(states, actions, n, calls[k]);
    }
  }

  lemma AppendCall(actions: seq<Action>, calls: seq<nat>, r: nat, g: nat)
    requires CallsInOrder(actions, calls, g)
    requires r < |actions| && actions[r].Receive? && actions[r].g == g
    requires forall k :: 0 <= k < |calls| ==> calls[k] != r && (actions[calls[k]].p == actions[r].p ==> calls[k] < r)
    ensures CallsInOrder(actions, calls + [r], g)
    ensures MessagesOf(actions, calls + [r]) == MessagesOf(actions, calls) + [actions[r].m]
  {
  }

  /** The call of a producer at its swap is a new one, and the latest of that producer. */
  lemma SwapIsNew(states: seq<State>, actions: seq<Action>, n: nat, p: nat, r: nat, calls: seq<nat>)
    requires IsRun(states, actions) && n < |actions| && Swaps(states[n], actions[n], p)
    requires CallOf(actions, n, p) == Some(r) && AllPassed(states, actions, n, calls)
    ensures forall k :: 0 <= k < |calls| ==> calls[k] != r && (actions[calls[k]].p == p ==> calls[k] < r)
  {
    forall k | 0 <= k < |calls| ensures calls[k] != r && (actions[calls[k]].p == p ==> calls[k] < r) {
      assert Passed(states, actions, n, calls[k]);
    }
  }

  /** After its swap the call has passed. */
  lemma SwapPasses(states: seq<State>, actions: seq<Action>, n: nat, p: nat, r: nat)
    requires IsRun(states, actions) && n < |actions| && Swaps(states[n], actions[n], p)
    requires CallOf(actions, n, p) == Some(r)
    ensures Passed(states, actions, n + 1, r)
  {
    ProducerAfter(states[n], actions[n], p);
  }

  lemma {:induction false} SameSizes(states: seq<State>, actions: seq<Action>, n: nat)
    requires IsRun(states, actions) && n <= |actions|
    ensures |states[n].producers| == |states[0].producers| && |states[n].grains| == |states[0].grains|
  {
    if n > 0 {
      SameSizes(states, actions, n - 1);
      StepKeepsSizes(states[n - 1], actions[n - 1]);
    }
  }

  /** The accepted messages are those of the calls that have reached the swap. */
  ghost predicate AcceptedOk(states: seq<State>, actions: seq<Action>, n: nat, g: nat)
    requires IsRun(states, actions) && n <= |actions|
  {
    var calls := Reached(states, actions, n, g);
    && CallsInOrder(actions, calls, g) && AllPassed(states, actions, n, calls)
    && g < |states[n].grains| && states[n].grains[g].box.accepted == MessagesOf(actions, calls)
  }

  lemma SwapAccepts(states: seq<State>, actions: seq<Action>, n: nat, g: nat, p: nat)
    requires IsRun(states, actions) && n < |actions| && AcceptedOk(states, actions, n, g)
    requires Swaps(states[n], actions[n], p) && states[n].producers[p].g == g && p < |states[0].producers|
    ensures AcceptedOk(states, actions, n + 1, g)
  {
    var calls := Reached(states, actions, n, g);
    CarriesItsMessage(states, actions, n, p);
    var r := CallOf(actions, n, p).value;
    SwapIsNew(states, actions, n, p, r, calls);
    AppendCall(actions, calls, r, g);
    AllPassedStay(states, actions, n, calls);
    SwapPasses(states, actions, n, p, r);
    RunHolds(states, actions, n);
    StepAccepts(states[n], actions[n], states[n + 1], g);
    assert Reached(states, actions, n + 1, g) == calls + [r];
  }

  lemma NoSwapAccepts(states: seq<State>, actions: seq<Action>, n: nat, g: nat)
    requires IsRun(states, actions) && n < |actions| && AcceptedOk(states, actions, n, g)
    requires actions[n].Produce? && Swaps(states[n], actions[n], actions[n].p) ==>
      states[n].producers[actions[n].p].g != g && actions[n].p < |states[0].producers|
    ensures AcceptedOk(states, actions, n + 1, g)
  {
    var calls, a := Reached(states, actions, n, g), actions[n];
    AllPassedStay(states, actions, n, calls);
    RunHolds(states, actions, n);
    StepAccepts(states[n], a, states[n + 1], g);
    if a.Produce? && Swaps(states[n], a, a.p) { CarriesItsMessage(states, actions, n, a.p); }
    assert Reached(states, actions, n + 1, g) == calls;
  }

  /**
    In every run, the accepted messages of a grain are the messages of the calls on it that have
    reached the swap, in the order of the swaps: each call once, the calls of one producer in order.
   */
  lemma {:induction false} AcceptedAreSent(states: seq<State>, actions: seq<Action>, n: nat, g: nat)
    requires IsRun(states, actions) && n <= |actions| && g < |states[0].grains|
    ensures AcceptedOk(states, actions, n, g)
  {
    if n > 0 {
      AcceptedAreSent(states, actions, n - 1, g);
      SameSizes(states, actions, n - 1);
      var s, a := states[n - 1], actions[n - 1];
      if a.Produce? && Swaps(s, a, a.p) && s.producers[a.p].g == g {
        SwapAccepts(states, actions, n - 1, g, a.p);
      } else {
        NoSwapAccepts(states, actions, n - 1, g);
      }
    }
  }

  // ---- what becomes of a call --------------------------------------------------------------

  /** A call before its swap; one that has made it; one that has given up. */
  datatype Fate = Open | Accepted | Refused

  /** What the steps of its producer have made of call r. */
  ghost function FateOf(states: seq<State>, actions: seq<Action>, n: nat, r: nat): Fate
    requires IsRun(states, actions) && r < n <= |actions| && actions[r].Receive?
  {
    if n == r + 1 then Open
    else
      var before, a, p := FateOf(states, actions, n - 1, r), actions[n - 1], actions[r].p;
      if before != Open || !a.Produce? || a.p != p then before
      else if Swaps(states[n - 1], a, p) then Accepted
      else if p < |states[n].producers| && states[n].producers[p].Ready? then Refused
      else Open
  }

  /** The producer finds the grain inactive, or its mailbox bounded and full. */
  predicate TurnedAway(s: State, a: Action) {
    && a.Produce? && a.p < |s.producers|
    && var pc := s.producers[a.p];
       || (pc.Check? && !a.flag)
       || (pc.ReserveLoad? && pc.g < |s.grains| && 0 < s.grains[pc.g].capacity <= s.grains[pc.g].len)
  }

  /** A place is only asked for where the mailbox is bounded. */
  ghost predicate AsksIfBounded(s: State, p: nat) {
    && p < |s.producers|
    && (s.producers[p].ReserveLoad? || s.producers[p].ReserveCas? ==>
          s.producers[p].g < |s.grains| && s.grains[s.producers[p].g].capacity > 0)
  }

  lemma AsksStep(s: State, a: Action, s': State, p: nat)
    requires Inv(s) && Enabled(s, a) && s' == Next(s, a) && AsksIfBounded(s, p)
    ensures AsksIfBounded(s', p)
  {
    StepGoesOn(s, a, s', p);
    StepKeepsSizes(s, a);
    var pc' := s'.producers[p];
    if pc'.ReserveLoad? || pc'.ReserveCas? {
      StepAccepts(s, a, s', pc'.g);
      AsksMove(s, a, s', p);
    }
  }

  lemma AsksMove(s: State, a: Action, s': State, p: nat)
    requires Typed(s) && Enabled(s, a) && s' == Next(s, a) && AsksIfBounded(s, p) && p < |s'.producers|
    requires s'.producers[p].ReserveLoad? || s'.producers[p].ReserveCas?
    ensures s'.producers[p].g < |s.grains| && s.grains[s'.producers[p].g].capacity > 0
  {
    ProducerAfter(s, a, p);
  }

  lemma {:induction false} AsksInRun(states: seq<State>, actions: seq<Action>, n: nat, p: nat)
    requires IsRun(states, actions) && n <= |actions| && p < |states[0].producers|
    ensures AsksIfBounded(states[n], p)
  {
    if n > 0 {
      AsksInRun(states, actions, n - 1, p);
      RunHolds(states, actions, n - 1);
      AsksStep(states[n - 1], actions[n - 1], states[n], p);
    }
  }

  /** Before its swap a call ends exactly where it is turned away. */
  lemma GivesUpIfTurnedAway(states: seq<State>, actions: seq<Action>, n: nat)
    requires IsRun(states, actions) && n < |actions| && actions[n].Produce?
    ensures
      var p := actions[n].p;
      && p < |states[n].producers| && p < |states[n + 1].producers|
      && (BeforeSwap(states[n].producers[p]) ==>
            (states[n + 1].producers[p].Ready? <==> TurnedAway(states[n], actions[n])))
  {
    SameSizes(states, actions, n);
    AsksInRun(states, actions, n, actions[n].p);
    ProducerAfter(states[n], actions[n], actions[n].p);
  }

  /** The producer of call r is turned away at step k, still working for that call. */
  ghost predicate TurnsAway(states: seq<State>, actions: seq<Action>, r: nat, k: nat)
    requires IsRun(states, actions) && r < |actions| && actions[r].Receive?
  {
    && k < |actions| && actions[k].Produce? && actions[k].p == actions[r].p
    && CallOf(actions, k, actions[r].p) == Some(r) && TurnedAway(states[k], actions[k])
  }

  ghost predicate WasTurnedAway(states: seq<State>, actions: seq<Action>, n: nat, r: nat)
    requires IsRun(states, actions) && r < n <= |actions| && actions[r].Receive?
  {
    exists k :: 0 <= k < n && TurnsAway(states, actions, r, k)
  }

  /** The steps say where a call is: before its swap, among the accepted ones, or turned away at some step. */
  ghost predicate FateOk(states: seq<State>, actions: seq<Action>, n: nat, r: nat)
    requires IsRun(states, actions) && r < n <= |actions| && actions[r].Receive?
  {
    var p, fate := actions[r].p, FateOf(states, actions, n, r);
    && p < |states[n].producers|
    && (fate.Open? <==> CallOf(actions, n, p) == Some(r) && BeforeSwap(states[n].producers[p]))
    && (fate.Accepted? <==> r in Reached(states, actions, n, actions[r].g))
    && (fate.Refused? <==> WasTurnedAway(states, actions, n, r))
  }

  lemma FateStarts(states: seq<State>, actions: seq<Action>, r: nat)
    requires IsRun(states, actions) && r < |actions| && actions[r].Receive?
    ensures FateOk(states, actions, r + 1, r)
  {
    RunHolds(states, actions, r);
    StepGoesOn(states[r], actions[r], states[r + 1], actions[r].p);
    var g := actions[r].g;
    SameSizes(states, actions, r);
    AcceptedAreSent(states, actions, r, g);
    assert AllPassed(states, actions, r, Reached(states, actions, r, g));
  }

  /** A producer moves in its own steps only; before the swap it stays there, swaps, or is done. */
  lemma ProducerStep(s: State, a: Action, s': State, p: nat)
    requires Typed(s) && Enabled(s, a) && s' == Next(s, a) && p < |s.producers| && BeforeSwap(s.producers[p])
    ensures p < |s'.producers| && !(a.Receive? && a.p == p)
    ensures !(a.Produce? && a.p == p) ==> s'.producers[p] == s.producers[p]
    ensures a.Produce? && a.p == p ==>
      if Swaps(s, a, p) then s'.producers[p].Link?
      else s'.producers[p].Ready? || BeforeSwap(s'.producers[p])
  {
    ProducerAfter(s, a, p);
  }

  /** A call that is open now: its producer's own step decides. */
  lemma OpenNow(states: seq<State>, actions: seq<Action>, n: nat, r: nat)
    requires IsRun(states, actions) && r < n < |actions| && actions[r].Receive? && FateOk(states, actions, n, r)
    requires FateOf(states, actions, n, r).Open?
    ensures
      var p := actions[r].p;
      && p < |states[n + 1].producers| && CallOf(actions, n + 1, p) == Some(r)
      && (FateOf(states, actions, n + 1, r).Open? <==> BeforeSwap(states[n + 1].producers[p]))
  {
    ProducerStep(states[n], actions[n], states[n + 1], actions[r].p);
  }

  lemma OpenStep(states: seq<State>, actions: seq<Action>, n: nat, r: nat)
    requires IsRun(states, actions) && r < n < |actions| && actions[r].Receive? && FateOk(states, actions, n, r)
    ensures
      var p := actions[r].p;
      && p < |states[n + 1].producers|
      && (FateOf(states, actions, n + 1, r).Open? <==>
            CallOf(actions, n + 1, p) == Some(r) && BeforeSwap(states[n + 1].producers[p]))
  {
    if FateOf(states, actions, n, r).Open? {
      OpenNow(states, actions, n, r);
    } else {
      RunHolds(states, actions, n);
      StepGoesOn(states[n], actions[n], states[n + 1], actions[r].p);
    }
  }

  lemma AcceptedStep(states: seq<State>, actions: seq<Action>, n: nat, r: nat)
    requires IsRun(states, actions) && r < n < |actions| && actions[r].Receive? && FateOk(states, actions, n, r)
    ensures FateOf(states, actions, n + 1, r).Accepted? <==> r in Reached(states, actions, n + 1, actions[r].g)
  {
  }

  /** A producer that is turned away is before its swap, and done. */
  lemma TurnedAwayStep(states: seq<State>, actions: seq<Action>, n: nat, r: nat)
    requires IsRun(states, actions) && r < n < |actions| && actions[r].Receive? && FateOk(states, actions, n, r)
    ensures FateOf(states, actions, n + 1, r).Refused? <==>
            FateOf(states, actions, n, r).Refused? || TurnsAway(states, actions, r, n)
  {
    if actions[n].Produce? { GivesUpIfTurnedAway(states, actions, n); }
  }

  lemma TurnedAwayMore(states: seq<State>, actions: seq<Action>, n: nat, r: nat)
    requires IsRun(states, actions) && r < n < |actions| && actions[r].Receive?
    ensures WasTurnedAway(states, actions, n + 1, r) <==>
            WasTurnedAway(states, actions, n, r) || TurnsAway(states, actions, r, n)
  {
    if k :| 0 <= k < n && TurnsAway(states, actions, r, k) {
      assert WasTurnedAway(states, actions, n + 1, r);
    }
  }

  lemma RefusedStep(states: seq<State>, actions: seq<Action>, n: nat, r: nat)
    requires IsRun(states, actions) && r < n < |actions| && actions[r].Receive? && FateOk(states, actions, n, r)
    ensures FateOf(states, actions, n + 1, r).Refused? <==> WasTurnedAway(states, actions, n + 1, r)
  {
    TurnedAwayStep(states, actions, n, r);
    TurnedAwayMore(states, actions, n, r);
  }

  /**
    At every point of every run a call is one of three: before its swap, with its producer; accepted,
    just if it is among those that reached the swap; refused, just if its producer was turned away.
   */
  lemma {:induction false} EveryCallHasAFate(states: seq<State>, actions: seq<Action>, n: nat, r: nat)
    requires IsRun(states, actions) && r < n <= |actions| && actions[r].Receive?
    ensures FateOk(states, actions, n, r)
    decreases n
  {
    if n == r + 1 {
      FateStarts(states, actions, r);
    } else {
      EveryCallHasAFate(states, actions, n - 1, r);
      OpenStep(states, actions, n - 1, r);
      AcceptedStep(states, actions, n - 1, r);
      RefusedStep(states, actions, n - 1, r);
    }
  }

  /**
    Once everything is at rest, a grain has handled the messages of exactly the calls on it that
    were not turned away, each once and in the order of their swaps.
   */
  lemma SentAreHandled(states: seq<State>, actions: seq<Action>, n: nat, g: nat)
    requires IsRun(states, actions) && n <= |actions| && g < |states[0].grains| && Quiescent(states[n])
    ensures g < |states[n].grains|
    ensures
      var calls := Reached(states, actions, n, g);
      && CallsInOrder(actions, calls, g)
      && states[n].grains[g].box.handled == MessagesOf(actions, calls)
      && forall r :: 0 <= r < n && actions[r].Receive? && actions[r].g == g ==>
           (r in calls <==> !WasTurnedAway(states, actions, n, r))
  {
    SameSizes(states, actions, n);
    AcceptedAreSent(states, actions, n, g);
    ReachableAt(states, actions, n);
    NoMessageStranded(states[n], g);
    forall r | 0 <= r < n && actions[r].Receive? && actions[r].g == g
      ensures r in Reached(states, actions, n, g) <==> !WasTurnedAway(states, actions, n, r)
    {
      EveryCallHasAFate(states, actions, n, r);
    }
  }
}
