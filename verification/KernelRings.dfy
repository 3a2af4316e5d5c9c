/**
  The ready rings and the context pool over whole runs: what comes out of a ring is what went in, in
  that order; a steal takes half; no ring outgrows its bound; a worker that gives up has asked
  everybody; the pool holds cleared contexts, those recycled and not yet reused.
 */
module KernelRings {
  import opened Basics
  import opened Kernel
  import opened KernelMailbox
  import opened KernelTheorems
  import opened KernelTurns
  import R = ReadyQueue

  /** This step hands worker w the grain it begins with. */
  predicate Hands(s: State, a: Action, s': State) {
    && a.Work? && a.w < |s.workers| && a.w < |s'.workers|
    && !s.workers[a.w].Begin? && s'.workers[a.w].Begin?
  }

  // ---- the shared ring -------------------------------------------------------------------

  /** What a step puts into the shared ring: the grain that a thread was about to push. */
  function GlobalPut(s: State, a: Action): seq<nat> {
    if a.Produce? && a.p < |s.producers| && s.producers[a.p].Push? then [s.producers[a.p].g]
    else if a.Work? && a.w < |s.workers| && s.workers[a.w].Spill? then [s.workers[a.w].g]
    else []
  }

  /** What a step takes from the shared ring: the grain that a worker gets at a look into it. */
  function GlobalGot(s: State, a: Action, s': State): seq<nat> {
    if && Hands(s, a, s')
       && (s.workers[a.w].LockGlobal? || s.workers[a.w].Park? || s.workers[a.w].Signalled?)
    then [s'.workers[a.w].g] else []
  }

  ghost function GlobalIn(states: seq<State>, actions: seq<Action>, n: nat): seq<nat>
    requires IsRun(states, actions) && n <= |actions|
  {
    if n == 0 then [] else GlobalIn(states, actions, n - 1) + GlobalPut(states[n - 1], actions[n - 1])
  }

  ghost function GlobalOut(states: seq<State>, actions: seq<Action>, n: nat): seq<nat>
    requires IsRun(states, actions) && n <= |actions|
  {
    if n == 0 then []
    else GlobalOut(states, actions, n - 1) + GlobalGot(states[n - 1], actions[n - 1], states[n])
  }

  lemma GlobalWorkStep(s: State, a: Action, s': State)
    requires Typed(s) && Enabled(s, a) && s' == Next(s, a) && a.Work?
    ensures s.global + GlobalPut(s, a) == GlobalGot(s, a, s') + s'.global
  {
    OwnStep(s, a, a.w);
    WorkTyped(s, a);
    assert s'.global == Apply(s, WorkMove(s, a.w, a.flag, a.wake).effect).global;
  }

  lemma GlobalStep(s: State, a: Action, s': State)
    requires Typed(s) && Enabled(s, a) && s' == Next(s, a)
    ensures s.global + GlobalPut(s, a) == GlobalGot(s, a, s') + s'.global
  {
    if a.Produce? {
      ProduceTyped(s, a);
      assert s'.global == Apply(s, ProduceMove(s, a.p, a.flag, a.wake).effect).global;
    } else if a.Work? {
      GlobalWorkStep(s, a, s');
    }
  }

  lemma Shift(into: seq<nat>, out: seq<nat>, ring: seq<nat>, put: seq<nat>, got: seq<nat>, ring': seq<nat>)
    requires into == out + ring && ring + put == got + ring'
    ensures into + put == (out + got) + ring'
  {
    assert (out + ring) + put == out + (ring + put);
    assert out + (got + ring') == (out + got) + ring';
  }

  /** The shared ring is a queue: what was put in is what was taken out and then what is there, in order. */
  lemma {:induction false} GlobalFifo(states: seq<State>, actions: seq<Action>, n: nat)
    requires IsRun(states, actions) && n <= |actions|
    ensures GlobalIn(states, actions, n) == GlobalOut(states, actions, n) + states[n].global
  {
    if n > 0 {
      GlobalFifo(states, actions, n - 1);
      var s, a, s' := states[n - 1], actions[n - 1], states[n];
      GlobalStep(s, a, s');
      Shift(GlobalIn(states, actions, n - 1), GlobalOut(states, actions, n - 1), s.global,
            GlobalPut(s, a), GlobalGot(s, a, s'), s'.global);
    }
  }

  // ---- the workers' rings ----------------------------------------------------------------

  /** A step in which worker a.w takes from the ring of worker v. */
  predicate StealsFrom(s: State, a: Action, s': State, v: nat) {
    && Hands(s, a, s') && s.workers[a.w].Steal?
    && 1 <= s.workers[a.w].i < |s.workers| && Victim(a.w, s.workers[a.w].i, |s.workers|) == v
  }

  /** What is new at the end of worker w's ring. */
  function Gained(s: State, s': State, w: nat): seq<nat> {
    if w < |s.locals| && w < |s'.locals| && |s.locals[w]| <= |s'.locals[w]| then s'.locals[w][|s.locals[w]|..] else []
  }

  /** What a step puts into worker v's ring: a requeued grain, or what it steals beside the one it begins with. */
  function LocalPut(s: State, a: Action, s': State, v: nat): seq<nat> {
    if !a.Work? || a.w != v || v >= |s.workers| || v >= |s'.workers| then []
    else if s.workers[v].Requeue? && s'.workers[v].PopLocal? then [s.workers[v].g]
    else if s.workers[v].Steal? && s'.workers[v].Begin? then Gained(s, s', v)
    else []
  }

  /** What a step takes from worker v's ring: the grain somebody begins with, then what a thief keeps. */
  function LocalGot(s: State, a: Action, s': State, v: nat): seq<nat> {
    if !Hands(s, a, s') then []
    else if a.w == v && s.workers[v].LockLocal? then [s'.workers[v].g]
    else if StealsFrom(s, a, s', v) then [s'.workers[a.w].g] + Gained(s, s', a.w)
    else []
  }

  ghost function LocalIn(states: seq<State>, actions: seq<Action>, n: nat, v: nat): seq<nat>
    requires IsRun(states, actions) && n <= |actions|
  {
    if n == 0 then []
    else LocalIn(states, actions, n - 1, v) + LocalPut(states[n - 1], actions[n - 1], states[n], v)
  }

  ghost function LocalOut(states: seq<State>, actions: seq<Action>, n: nat, v: nat): seq<nat>
    requires IsRun(states, actions) && n <= |actions|
  {
    if n == 0 then []
    else LocalOut(states, actions, n - 1, v) + LocalGot(states[n - 1], actions[n - 1], states[n], v)
  }

  /** A steal: the thief begins with the victim's first grain and keeps the next ones in order. */
  lemma StealStep(s: State, a: Action, s': State)
    requires Typed(s) && Enabled(s, a) && s' == Next(s, a) && a.Work? && s.workers[a.w].Steal?
    requires s'.workers[a.w].Begin?
    ensures
      var w := a.w;
      var v := Victim(w, s.workers[w].i, |s.workers|);
      && |s'.locals| == |s.locals| && |s'.workers| == |s.workers|
      && |s.locals[w]| <= |s'.locals[w]| && s'.locals[w][..|s.locals[w]|] == s.locals[w]
      && s.locals[v] == [s'.workers[w].g] + Gained(s, s', w) + s'.locals[v]
      && |Gained(s, s', w)| == MovedCount(|s.locals[v]|, |s.locals[w]|)
      && forall u :: 0 <= u < |s.locals| && u != w && u != v ==> s'.locals[u] == s.locals[u]
  {
    OwnStep(s, a, a.w);
    WorkTyped(s, a);
    var w, v := a.w, Victim(a.w, s.workers[a.w].i, |s.workers|);
    var k := MovedCount(|s.locals[v]|, |s.locals[w]|);
    assert s'.locals == StealRings(s.locals, w, v);
    assert Gained(s, s', w) == s.locals[v][1..1 + k];
  }

  /** A step that is no steal. */
  lemma PlainStep(s: State, a: Action, s': State, v: nat)
    requires Typed(s) && Enabled(s, a) && s' == Next(s, a) && v < |s.locals| && a.Work?
    requires s.workers[a.w].Steal? ==> s.locals[Victim(a.w, s.workers[a.w].i, |s.workers|)] == []
    ensures |s'.locals| == |s.locals|
    ensures s.locals[v] + LocalPut(s, a, s', v) == LocalGot(s, a, s', v) + s'.locals[v]
  {
    OwnStep(s, a, a.w);
    WorkTyped(s, a);
    assert s'.locals == Apply(s, WorkMove(s, a.w, a.flag, a.wake).effect).locals;
  }

  lemma LocalStep(s: State, a: Action, s': State, v: nat)
    requires Typed(s) && Enabled(s, a) && s' == Next(s, a) && v < |s.locals|
    ensures |s'.locals| == |s.locals|
    ensures s.locals[v] + LocalPut(s, a, s', v) == LocalGot(s, a, s', v) + s'.locals[v]
  {
    if a.Produce? {
      ProduceTyped(s, a);
      assert s'.locals == Apply(s, ProduceMove(s, a.p, a.flag, a.wake).effect).locals;
    } else if a.Work? {
      OwnStep(s, a, a.w);
      if s.workers[a.w].Steal? && s'.workers[a.w].Begin? {
        StealStep(s, a, s');
        StolenStep(s, a, s', v);
      } else {
        PlainStep(s, a, s', v);
      }
    }
  }

  lemma StolenStep(s: State, a: Action, s': State, v: nat)
    requires a.Work? && a.w < |s.workers| == |s'.workers| && s.workers[a.w].Steal? && s'.workers[a.w].Begin?
    requires 1 <= s.workers[a.w].i < |s.workers| == |s.locals| == |s'.locals| && v < |s.locals|
    requires
      var w := a.w;
      var u := Victim(w, s.workers[w].i, |s.workers|);
      && |s.locals[w]| <= |s'.locals[w]| && s'.locals[w][..|s.locals[w]|] == s.locals[w]
      && s.locals[u] == [s'.workers[w].g] + Gained(s, s', w) + s'.locals[u]
      && (v != w && v != u ==> s'.locals[v] == s.locals[v])
    ensures s.locals[v] + LocalPut(s, a, s', v) == LocalGot(s, a, s', v) + s'.locals[v]
  {
    if v == a.w { assert s'.locals[v] == s'.locals[v][..|s.locals[v]|] + Gained(s, s', v); }
  }

  /** Each worker's ring is a queue too, whoever takes from it. */
  lemma {:induction false} LocalFifo(states: seq<State>, actions: seq<Action>, n: nat, v: nat)
    requires IsRun(states, actions) && n <= |actions| && v < |states[0].locals|
    ensures |states[n].locals| == |states[0].locals|
    ensures LocalIn(states, actions, n, v) == LocalOut(states, actions, n, v) + states[n].locals[v]
  {
    if n > 0 {
      LocalFifo(states, actions, n - 1, v);
      var s, a, s' := states[n - 1], actions[n - 1], states[n];
      LocalStep(s, a, s', v);
      Shift(LocalIn(states, actions, n - 1, v), LocalOut(states, actions, n - 1, v), s.locals[v],
            LocalPut(s, a, s', v), LocalGot(s, a, s', v), s'.locals[v]);
    }
  }

  // ---- how much a steal takes, and how full a ring gets --------------------------------------

  lemma RingGrows(s: State, a: Action, s': State, v: nat)
    requires Typed(s) && Enabled(s, a) && s' == Next(s, a) && v < |s.locals| && |s.locals[v]| <= LOCAL_QUEUE_CAP
    ensures v < |s'.locals| && |s'.locals[v]| <= LOCAL_QUEUE_CAP
  {
    LocalStep(s, a, s', v);
    if a.Work? && s.workers[a.w].Steal? && s'.workers[a.w].Begin? {
      StealStep(s, a, s');
    } else if a.Work? {
      OwnStep(s, a, a.w);
    }
  }

  /** No worker's ring ever holds more than its bound. */
  lemma {:induction false} RingsAreBounded(states: seq<State>, actions: seq<Action>, n: nat, v: nat)
    requires IsRun(states, actions) && n <= |actions| && v < |states[0].locals|
    ensures v < |states[n].locals| && |states[n].locals[v]| <= LOCAL_QUEUE_CAP
  {
    if n > 0 {
      RingsAreBounded(states, actions, n - 1, v);
      RingGrows(states[n - 1], actions[n - 1], states[n], v);
    }
  }

  /**
    A steal leaves the victim the smaller half: of k grains (k + 1) / 2 go, one to begin with and the
    others into the thief's ring, or as many as fit there.
   */
  lemma StealTakesHalf(states: seq<State>, actions: seq<Action>, n: nat, v: nat)
    requires IsRun(states, actions) && n < |actions| && v < |states[0].locals|
    requires StealsFrom(states[n], actions[n], states[n + 1], v)
    ensures
      var s, s', w := states[n], states[n + 1], actions[n].w;
      && v < |s.locals| == |s'.locals| && w < |s.locals| && w != v
      && var k, room := |s.locals[v]|, LOCAL_QUEUE_CAP - |s.locals[w]|;
         && k > 0 && room >= 0
         && |s'.locals[v]| == (if (k + 1) / 2 <= 1 + room then k / 2 else k - 1 - room)
         && |s'.locals[v]| + 1 + |s'.locals[w]| == k + |s.locals[w]|
  {
    var s, w := states[n], actions[n].w;
    LocalFifo(states, actions, n, v);
    RingsAreBounded(states, actions, n, w);
    StealStep(s, actions[n], states[n + 1]);
  }

  /** A worker that yields puts its grain into its own ring, unless that holds its bound: then it spills. */
  lemma SpillsOnlyIfFull(states: seq<State>, actions: seq<Action>, n: nat, w: nat)
    requires IsRun(states, actions) && n < |actions| && w < |states[0].locals| && StepOf(actions[n], w)
    requires w < |states[n].workers| && states[n].workers[w].Requeue?
    ensures
      var s, s', g := states[n], states[n + 1], states[n].workers[w].g;
      && w < |s.locals| == |s'.locals| && w < |s'.workers|
      && if |s.locals[w]| == LOCAL_QUEUE_CAP then s'.workers[w] == Spill(g) && s'.locals[w] == s.locals[w]
         else s'.workers[w] == PopLocal && s'.locals[w] == s.locals[w] + [g]
  {
    RingsAreBounded(states, actions, n, w);
    OwnStep(states[n], actions[n], w);
    LocalStep(states[n], actions[n], states[n + 1], w);
  }

  // ---- a worker that parks has asked everybody ------------------------------------------------

  /** What a worker has asked after a step from this place. */
  function ProbedAfter(pc: Worker, probed: set<nat>, w: nat, n: nat): set<nat>
    requires w < n
  {
    match pc
    case PopLocal => {}
    case ProbeSibling(i) => if 1 <= i < n then probed + {Victim(w, i, n)} else probed
    case _ => probed
  }

  /** The workers whose rings worker w has looked at since it last looked at its own. */
  ghost function Probed(states: seq<State>, actions: seq<Action>, n: nat, w: nat): set<nat>
    requires IsRun(states, actions) && n <= |actions|
  {
    if n == 0 then {}
    else
      var before, s := Probed(states, actions, n - 1, w), states[n - 1];
      if StepOf(actions[n - 1], w) then ProbedAfter(s.workers[w], before, w, |s.workers|) else before
  }

  /** The siblings before the k-th are among the probed. */
  predicate AskedTo(probed: set<nat>, w: nat, n: nat, k: nat)
    requires w < n
  {
    forall j :: 1 <= j < k && j < n ==> Victim(w, j, n) in probed
  }

  /** In the middle of its rotation a worker has looked at the siblings before this one. */
  predicate AskedSoFar(pc: Worker, probed: set<nat>, w: nat, n: nat)
    requires w < n
  {
    match pc
    case ProbeSibling(i) => AskedTo(probed, w, n, i)
    case Steal(i) => AskedTo(probed, w, n, i + 1)
    case Park => AskedTo(probed, w, n, n)
    case _ => true
  }

  lemma AskOneMore(probed: set<nat>, w: nat, n: nat, i: nat)
    requires w < n && AskedTo(probed, w, n, i) && 1 <= i
    ensures i < n ==> AskedTo(probed + {Victim(w, i, n)}, w, n, i + 1)
    ensures i >= n ==> AskedTo(probed, w, n, n)
  {
  }

  lemma AskStep(s: State, a: Action, w: nat, probed: set<nat>)
    requires Typed(s) && Enabled(s, a) && StepOf(a, w) && AskedSoFar(s.workers[w], probed, w, |s.workers|)
    ensures AskedSoFar(WorkMove(s, w, a.flag, a.wake).pc,
                       ProbedAfter(s.workers[w], probed, w, |s.workers|), w, |s.workers|)
  {
    var pc := s.workers[w];
    assert AskedTo({}, w, |s.workers|, 1) && AskedTo(probed, w, |s.workers|, 1);
    if pc.ProbeSibling? { AskOneMore(probed, w, |s.workers|, pc.i); }
  }

  lemma {:induction false} AsksInTurn(states: seq<State>, actions: seq<Action>, n: nat, w: nat)
    requires IsRun(states, actions) && n <= |actions| && w < |states[0].workers|
    ensures |states[n].workers| == |states[0].workers|
    ensures AskedSoFar(states[n].workers[w], Probed(states, actions, n, w), w, |states[n].workers|)
  {
    if n > 0 {
      AsksInTurn(states, actions, n - 1, w);
      var s, a := states[n - 1], actions[n - 1];
      if StepOf(a, w) {
        AskStep(s, a, w, Probed(states, actions, n - 1, w));
        OwnStep(s, a, w);
      } else {
        OthersLeaveMe(s, a, w);
      }
    }
  }

  /** A worker that is about to park has looked at the ring of every other worker since its last look at its own. */
  lemma ParksAfterAsking(states: seq<State>, actions: seq<Action>, n: nat, w: nat, v: nat)
    requires IsRun(states, actions) && n <= |actions| && w < |states[0].workers|
    requires w < |states[n].workers| && states[n].workers[w].Park? && v < |states[n].workers| && v != w
    ensures v in Probed(states, actions, n, w)
  {
    AsksInTurn(states, actions, n, w);
    R.RotationCovers(w, v, |states[n].workers|);
  }

  // ---- the context pool ----------------------------------------------------------------------

  /** The contexts that were recycled while there was room, and not reused since. */
  ghost function Pooled(states: seq<State>, actions: seq<Action>, n: nat): set<nat>
    requires IsRun(states, actions) && n <= |actions|
  {
    if n == 0 then {}
    else
      var before, s, a := Pooled(states, actions, n - 1), states[n - 1], actions[n - 1];
      if a.Receive? && a.reuse.Some? then before - {a.reuse.value}
      else if a.Work? && s.workers[a.w].Turn? && s.workers[a.w].at.Recycle? && |before| < CONTEXT_POOL_CAP then
        before + {s.workers[a.w].at.h}
      else before
  }

  /** A context that nobody uses, as new. */
  predicate Clean(nodes: seq<Node>, x: nat) {
    x < |nodes| && nodes[x].msg == CLEARED && nodes[x].next.None?
  }

  /** A worker about to recycle a context has taken it out of its list. */
  predicate Unlinked(s: State, w: nat) {
    && w < |s.workers|
    && (s.workers[w].Turn? && s.workers[w].at.Recycle? ==>
          s.workers[w].at.h < |s.nodes| && s.nodes[s.workers[w].at.h].next.None?)
  }

  /** What a step on the shared state leaves of a context outside the lists. */
  predicate Left(nodes: seq<Node>, nodes': seq<Node>, x: nat) {
    && x < |nodes| <= |nodes'|
    && nodes'[x].next in {None, nodes[x].next} && nodes'[x].msg in {CLEARED, nodes[x].msg}
  }

  lemma EffectLeaves(s: State, e: Effect, x: nat)
    requires TypedEffect(s, e) && x < |s.nodes| && (e.SetNext? && e.next.Some? ==> e.n != x)
    ensures Left(s.nodes, Apply(s, e).nodes, x)
  {
  }

  /** A context outside the lists keeps its fields, or they are cleared, unless it is reused. */
  lemma AloneStays(s: State, a: Action, s': State, x: nat)
    requires Inv(s) && Enabled(s, a) && s' == Next(s, a) && x < |s.nodes|
    requires s.nodes[x].home.Loose? || s.nodes[x].home.Retired?
    requires !(a.Receive? && a.reuse == Some(x))
    ensures Left(s.nodes, s'.nodes, x)
  {
    if a.Produce? {
      assert ProducerOk(s.nodes, a.p, s.producers[a.p]);
      ProduceTyped(s, a);
      EffectLeaves(s, ProduceMove(s, a.p, a.flag, a.wake).effect, x);
    } else if a.Work? {
      WorkTyped(s, a);
      EffectLeaves(s, WorkMove(s, a.w, a.flag, a.wake).effect, x);
    }
  }

  lemma OwnUnlink(s: State, a: Action, s': State, w: nat)
    requires Typed(s) && Enabled(s, a) && s' == Next(s, a) && StepOf(a, w)
    ensures Unlinked(s', w)
  {
    OwnStep(s, a, w);
    WorkTyped(s, a);
  }

  lemma OthersUnlink(s: State, a: Action, s': State, w: nat)
    requires Inv(s) && Enabled(s, a) && s' == Next(s, a) && !StepOf(a, w) && Unlinked(s, w)
    ensures Unlinked(s', w)
  {
    OthersLeaveMe(s, a, w);
    if s.workers[w].Turn? && s.workers[w].at.Recycle? {
      assert WorkerOk(s.nodes, s.grains, w, s.workers[w]);
      AloneStays(s, a, s', s.workers[w].at.h);
    }
  }

  lemma {:induction false} UnlinkedFirst(states: seq<State>, actions: seq<Action>, n: nat, w: nat)
    requires IsRun(states, actions) && n <= |actions| && w < |states[0].workers|
    ensures Unlinked(states[n], w)
  {
    if n > 0 {
      UnlinkedFirst(states, actions, n - 1, w);
      var s, a := states[n - 1], actions[n - 1];
      if StepOf(a, w) {
        OwnUnlink(s, a, states[n], w);
      } else {
        RunHolds(states, actions, n - 1);
        OthersUnlink(s, a, states[n], w);
      }
    }
  }

  lemma EffectPools(s: State, e: Effect)
    requires TypedEffect(s, e)
    ensures
      var s' := Apply(s, e);
      if e.Release? then
        && s'.pool == (if |s.pool| < CONTEXT_POOL_CAP then s.pool + {e.n} else s.pool)
        && |s'.nodes| == |s.nodes| && s'.nodes[e.n] == s.nodes[e.n].(msg := CLEARED, home := Loose)
      else s'.pool == s.pool
  {
  }

  /** What a step does to the pool. */
  lemma PoolStep(s: State, a: Action, s': State)
    requires Typed(s) && Enabled(s, a) && s' == Next(s, a)
    ensures
      if a.Receive? && a.reuse.Some? then s'.pool == s.pool - {a.reuse.value}
      else if a.Work? && s.workers[a.w].Turn? && s.workers[a.w].at.Recycle? then
        && s'.pool == (if |s.pool| < CONTEXT_POOL_CAP then s.pool + {s.workers[a.w].at.h} else s.pool)
        && s.workers[a.w].at.h < |s.nodes| == |s'.nodes|
        && s'.nodes[s.workers[a.w].at.h] == s.nodes[s.workers[a.w].at.h].(msg := CLEARED, home := Loose)
      else s'.pool == s.pool
  {
    if a.Produce? {
      ProduceTyped(s, a);
      EffectPools(s, ProduceMove(s, a.p, a.flag, a.wake).effect);
    } else if a.Work? {
      WorkTyped(s, a);
      EffectPools(s, WorkMove(s, a.w, a.flag, a.wake).effect);
    }
  }

  lemma PoolStaysClean(s: State, a: Action, s': State)
    requires Inv(s) && Enabled(s, a) && s' == Next(s, a) && (a.Work? ==> Unlinked(s, a.w))
    requires |s.pool| <= CONTEXT_POOL_CAP && forall x :: x in s.pool ==> Clean(s.nodes, x)
    ensures |s'.pool| <= CONTEXT_POOL_CAP && forall x :: x in s'.pool ==> Clean(s'.nodes, x)
  {
    PoolStep(s, a, s');
    forall x | x in s'.pool ensures Clean(s'.nodes, x) {
      if x in s.pool { AloneStays(s, a, s', x); }
    }
  }

  /**
    At every point of every run the pool holds the contexts that were recycled while there was room
    and not reused since; there are at most its bound, and each is as new.
   */
  lemma {:induction false} PoolHoldsRecycled(states: seq<State>, actions: seq<Action>, n: nat)
    requires IsRun(states, actions) && n <= |actions|
    ensures states[n].pool == Pooled(states, actions, n) && |states[n].pool| <= CONTEXT_POOL_CAP
    ensures forall x :: x in states[n].pool ==> Clean(states[n].nodes, x)
  {
    if n > 0 {
      PoolHoldsRecycled(states, actions, n - 1);
      RunHolds(states, actions, n - 1);
      var s, a := states[n - 1], actions[n - 1];
      PoolStep(s, a, states[n]);
      if a.Work? {
        AsksInTurn(states, actions, n - 1, 0);
        UnlinkedFirst(states, actions, n - 1, a.w);
      }
      PoolStaysClean(s, a, states[n]);
    }
  }
}
