/** Every step of every thread keeps the mailbox invariant. */
module KernelMailboxSteps {
  import opened Basics
  import opened Kernel
  import opened KernelTokens
  import opened KernelMailbox
  import opened Counting

  lemma ReceiveKeepsMail(s: State, a: Action)
    requires Typed(s) && Enabled(s, a) && a.Receive? && MailInv(s)
    ensures MailInv(Next(s, a))
  {
    if a.reuse.Some? {
      PrivateNodeKeepsMail(s, Next(s, a), a.reuse.value);
    } else {
      AllocateKeepsMail(s, Next(s, a), a.p, a.g, a.m);
    }
  }

  lemma AllocateKeepsMail(s: State, s': State, p: nat, g: nat, m: Message)
    requires Typed(s) && MailInv(s) && p < |s.producers| && s.producers[p].Ready?
    requires s' == StartReceive(s, p, g, m, None)
    ensures MailInv(s')
  {
    GrainsFrame(s, s');
    forall k | 0 <= k < |s'.nodes| ensures NodeOk(s', k) {
      if k < |s.nodes| { assert NodeOk(s, k); }
    }
    forall q | 0 <= q < |s'.producers| ensures ProducerOk(s'.nodes, q, s'.producers[q]) {
      assert ProducerOk(s.nodes, q, s.producers[q]);
    }
    forall w | 0 <= w < |s'.workers| ensures WorkerOk(s'.nodes, s'.grains, w, s'.workers[w]) {
      assert WorkerOk(s.nodes, s.grains, w, s.workers[w]);
    }
  }

  lemma ProduceKeepsMail(s: State, a: Action)
    requires Typed(s) && Enabled(s, a) && a.Produce? && MailInv(s)
    ensures MailInv(Next(s, a))
  {
    var pc := s.producers[a.p];
    assert ProducerOk(s.nodes, a.p, pc);
    if pc.Swap? {
      SwapKeepsMail(s, Next(s, a), a.p);
    } else if pc.Link? {
      LinkKeepsMail(s, Next(s, a), a.p, ProduceMove(s, a.p, a.flag, a.wake).pc);
    } else if pc.ClearNext? {
      PrivateNodeKeepsMail(s, Next(s, a), pc.n);
    } else if ProduceMove(s, a.p, a.flag, a.wake).effect.Discard? {
      PrivateNodeKeepsMail(s, Next(s, a), pc.n);
    } else {
      QuietProduceKeepsMail(s, a);
    }
  }

  lemma QuietProduceKeepsMail(s: State, a: Action)
    requires Typed(s) && Enabled(s, a) && a.Produce? && MailInv(s)
    requires var pc := s.producers[a.p]; !pc.Swap? && !pc.Link? && !pc.ClearNext?
    requires !ProduceMove(s, a.p, a.flag, a.wake).effect.Discard?
    ensures MailInv(Next(s, a))
  {
    var move := ProduceMove(s, a.p, a.flag, a.wake);
    assert ProducerOk(s.nodes, a.p, s.producers[a.p]);
    assert GrainOk(s.nodes, s.grains[s.producers[a.p].g], s.producers[a.p].g);
    ProduceTyped(s, a);
    QuietPcKeepsMail(s, a.p, move.pc, move.effect);
  }

  lemma QuietPcKeepsMail(s: State, p: nat, pc: Producer, e: Effect)
    requires MailInv(s) && p < |s.producers| && !s.producers[p].Link? && TypedEffect(s, e) && QuietEffect(s, e)
    requires ProducerOk(s.nodes, p, pc)
    ensures MailInv(Apply(s, e).(producers := s.producers[p := pc]))
  {
    forall g | 0 <= g < |s.grains| ensures GrainOk(s.nodes, s.grains[g], g) {}
    var s' := Apply(s, e).(producers := s.producers[p := pc]);
    assert forall w :: 0 <= w < |s.workers| ==>
             s'.workers[w] == s.workers[w] || WorkerOk(s.nodes, s.grains, w, s'.workers[w]);
    QuietKeepsMail(s, s');
  }

  /** No two workers are ever inside a turn of the same grain. */
  lemma OneWorkerPerTurn(s: State, w: nat, v: nat)
    requires Typed(s) && TokenInv(s) && w < |s.workers| && v < |s.workers|
    requires s.workers[w].Turn? && s.workers[v].Turn? && s.workers[w].g == s.workers[v].g
    ensures w == v
  {
    var g := s.workers[w].g;
    assert GrainTokens(s, g);
    if w < v {
      TotalHasBoth(TurnToken, s.workers, g, w, v);
    } else if v < w {
      TotalHasBoth(TurnToken, s.workers, g, v, w);
    }
  }

  lemma WorkKeepsMail(s: State, a: Action)
    requires Typed(s) && Enabled(s, a) && a.Work? && TokenInv(s) && MailInv(s)
    ensures MailInv(Next(s, a))
  {
    var pc := s.workers[a.w];
    if pc.Turn? {
      TurnKeepsMail(s, a);
    } else {
      TakeKeepsMail(s, a);
    }
  }

  lemma SoleOwner(s: State, w: nat)
    requires Typed(s) && TokenInv(s) && w < |s.workers| && s.workers[w].Turn?
    ensures forall v :: 0 <= v < |s.workers| && v != w ==> !(s.workers[v].Turn? && s.workers[v].g == s.workers[w].g)
  {
    forall v | 0 <= v < |s.workers| && v != w
      ensures !(s.workers[v].Turn? && s.workers[v].g == s.workers[w].g)
    {
      if s.workers[v].Turn? && s.workers[v].g == s.workers[w].g { OneWorkerPerTurn(s, w, v); }
    }
  }

  lemma TurnKeepsMail(s: State, a: Action)
    requires Typed(s) && Enabled(s, a) && a.Work? && TokenInv(s) && MailInv(s) && s.workers[a.w].Turn?
    ensures MailInv(Next(s, a))
  {
    var at := s.workers[a.w].at;
    TokensFitHands(s, a.w);
    if at.StoreHead? || at.Handle? {
      ListTurnKeepsMail(s, a);
    } else if at.Unlink? || at.Recycle? {
      var move := WorkMove(s, a.w, a.flag, a.wake);
      ReleaseKeepsMail(s, a.w, move.pc, move.effect);
    } else {
      QuietTurnKeepsMail(s, a);
    }
  }

  lemma ListTurnKeepsMail(s: State, a: Action)
    requires Typed(s) && Enabled(s, a) && a.Work? && TokenInv(s) && MailInv(s) && s.workers[a.w].Turn?
    requires HandFits(s, s.workers[a.w])
    requires s.workers[a.w].at.StoreHead? || s.workers[a.w].at.Handle?
    ensures MailInv(Next(s, a))
  {
    SoleOwner(s, a.w);
    WorkTyped(s, a);
    if s.workers[a.w].at.StoreHead? {
      AdvanceKeepsMail(s, Next(s, a), a.w);
    } else {
      FinishKeepsMail(s, Next(s, a), a.w);
    }
  }

  /** head.next.Store(nil), then reset and return to the pool: only the old sentinel changes. */
  lemma ReleaseKeepsMail(s: State, w: nat, pc: Worker, e: Effect)
    requires MailInv(s) && w < |s.workers| && s.workers[w].Turn? && pc != s.workers[w]
    requires s.workers[w].at.Unlink? || s.workers[w].at.Recycle?
    requires var h := s.workers[w].at.h; h < |s.nodes| && (e == SetNext(h, None) || e == Release(h))
    requires pc.Turn? && pc.g == s.workers[w].g && !pc.at.StoreHead?
    requires e.SetNext? ==> pc.at == Recycle(s.workers[w].at.h, s.workers[w].at.nx)
    requires e.Release? ==> pc.at == Handle(s.workers[w].at.nx)
    ensures MailInv(Apply(s, e).(workers := s.workers[w := pc]))
  {
    if e.SetNext? { UnlinkKeepsMail(s, w, pc); } else { RecycleKeepsMail(s, w, pc); }
  }

  lemma UnlinkKeepsMail(s: State, w: nat, pc: Worker)
    requires MailInv(s) && w < |s.workers| && s.workers[w].Turn? && pc != s.workers[w]
    requires s.workers[w].at.Unlink? || s.workers[w].at.Recycle?
    requires s.workers[w].at.h < |s.nodes| && pc.Turn? && pc.g == s.workers[w].g
    requires pc.at == Recycle(s.workers[w].at.h, s.workers[w].at.nx)
    ensures MailInv(Apply(s, SetNext(s.workers[w].at.h, None)).(workers := s.workers[w := pc]))
  {
    var h := s.workers[w].at.h;
    var s' := Apply(s, SetNext(h, None)).(workers := s.workers[w := pc]);
    assert WorkerOk(s.nodes, s.grains, w, s.workers[w]);
    assert GrainOk(s.nodes, s.grains[pc.g], pc.g);
    assert WorkerOk(s'.nodes, s'.grains, w, pc);
    PrivateNodeKeepsMail(s, s', h);
  }

  lemma RecycleKeepsMail(s: State, w: nat, pc: Worker)
    requires MailInv(s) && w < |s.workers| && s.workers[w].Turn? && pc != s.workers[w]
    requires s.workers[w].at.Unlink? || s.workers[w].at.Recycle?
    requires s.workers[w].at.h < |s.nodes| && pc.Turn? && pc.g == s.workers[w].g
    requires pc.at == Handle(s.workers[w].at.nx)
    ensures MailInv(Apply(s, Release(s.workers[w].at.h)).(workers := s.workers[w := pc]))
  {
    var h := s.workers[w].at.h;
    var s' := Apply(s, Release(h)).(workers := s.workers[w := pc]);
    assert WorkerOk(s.nodes, s.grains, w, s.workers[w]);
    assert GrainOk(s.nodes, s.grains[pc.g], pc.g);
    assert WorkerOk(s'.nodes, s'.grains, w, pc);
    PrivateNodeKeepsMail(s, s', h);
  }

  predicate QuietEffect(s: State, e: Effect) {
    && !e.SetNext? && !e.Discard? && !e.SwapTail? && !e.AdvanceHead? && !e.Release? && !e.Finish?
    && (e.Become? && e.g < |s.grains| && !e.sched.Processing? ==> s.grains[e.g].box.inHand == [])
  }

  lemma QuietMoveKeepsMail(s: State, w: nat, pc: Worker, e: Effect)
    requires MailInv(s) && w < |s.workers| && TypedEffect(s, e) && QuietEffect(s, e)
    requires WorkerOk(s.nodes, s.grains, w, pc)
    ensures w < |Apply(s, e).workers|
    ensures MailInv(Apply(s, e).(workers := Apply(s, e).workers[w := pc]))
  {
    forall g | 0 <= g < |s.grains| ensures GrainOk(s.nodes, s.grains[g], g) {}
    QuietKeepsMail(s, Apply(s, e).(workers := Apply(s, e).workers[w := pc]));
  }

  lemma QuietTurnKeepsMail(s: State, a: Action)
    requires Typed(s) && Enabled(s, a) && a.Work? && MailInv(s) && s.workers[a.w].Turn?
    requires HandFits(s, s.workers[a.w])
    requires var at := s.workers[a.w].at; !at.StoreHead? && !at.Handle? && !at.Unlink? && !at.Recycle?
    ensures MailInv(Next(s, a))
  {
    var move := WorkMove(s, a.w, a.flag, a.wake);
    WorkTyped(s, a);
    assert WorkerOk(s.nodes, s.grains, a.w, s.workers[a.w]);
    QuietMoveKeepsMail(s, a.w, move.pc, move.effect);
  }

  lemma TakeKeepsMail(s: State, a: Action)
    requires Typed(s) && Enabled(s, a) && a.Work? && TokenInv(s) && MailInv(s) && !s.workers[a.w].Turn?
    ensures MailInv(Next(s, a))
  {
    var move := WorkMove(s, a.w, a.flag, a.wake);
    WorkTyped(s, a);
    TokensFitHands(s, a.w);
    forall g | 0 <= g < |s.grains| ensures GrainOk(s.nodes, s.grains[g], g) {}
    QuietMoveKeepsMail(s, a.w, move.pc, move.effect);
  }
}
