/**
 * The bound of Slack, told from the actions of a run: the clock, the timeout, the times stored and
 * how far stores fell behind are functions of the actions, and so is which marks have returned. The
 * other half of the bound is here too: an idle actor's deadline is not late.
 */
module SlackHistory {
  import opened Passivation
  import opened Slack

  /** The clock after the first k actions. */
  function Clock(start: int, actions: seq<Action>, k: nat): int
    requires k <= |actions|
  {
    if k == 0 then start
    else Clock(start, actions, k - 1) + if actions[k - 1].Tick? then actions[k - 1].d else 0
  }

  /** The timeout of the last time-based registration. */
  function Span(start: int, actions: seq<Action>, k: nat): int
    requires k <= |actions|
  {
    if k == 0 then start
    else if actions[k - 1].Register? && actions[k - 1].timed then actions[k - 1].span
    else Span(start, actions, k - 1)
  }

  /** The greatest time stored. */
  function Greatest(actions: seq<Action>, k: nat): int
    requires k <= |actions|
  {
    if k == 0 then 0
    else
      var before := Greatest(actions, k - 1);
      if actions[k - 1].MarkStore? && actions[k - 1].at > before then actions[k - 1].at else before
  }

  /** The most that a store fell behind the greatest time stored before it. */
  function Behind(actions: seq<Action>, k: nat): nat
    requires k <= |actions|
  {
    if k == 0 then 0
    else
      var before, a := Behind(actions, k - 1), actions[k - 1];
      if a.MarkStore? && Greatest(actions, k - 1) - a.at > before then Greatest(actions, k - 1) - a.at else before
  }

  predicate Marks(a: Action) { a.MarkStore? || a.MarkLoad? || a.MarkCas? || a.MarkTouch? }

  /** The step itself, before it is noted whether a touch is under way. */
  function Bare(s: Actor, a: Action): Actor
    requires Enabled(s, a)
  {
    if Marks(a) then Mark(s, a) else Manage(s, a)
  }

  lemma BareNext(s: Actor, a: Action)
    requires Enabled(s, a)
    ensures Next(s, a) == Bare(s, a) || Next(s, a) == Bare(s, a).(calm := Bare(s, a).settled)
  {
  }

  /** What an action says of the clock, the timeout, the greatest time and the skew. */
  predicate Tells(s: Actor, a: Action, s': Actor) {
    && s'.now == s.now + (if a.Tick? then a.d else 0)
    && s'.timeout == (if a.Register? && a.timed then a.span else s.timeout)
    && s'.latest == (if a.MarkStore? && a.at > s.latest then a.at else s.latest)
    && s'.skew == (if a.MarkStore? && s.latest - a.at > s.skew then s.latest - a.at else s.skew)
    && |s'.markers| == |s.markers|
  }

  lemma MarkTells(s: Actor, a: Action)
    requires Enabled(s, a) && Marks(a)
    ensures Tells(s, a, Mark(s, a)) && Mark(s, a).settled >= s.settled && Mark(s, a).calm == s.calm
  {
  }

  lemma ManageTells(s: Actor, a: Action)
    requires Enabled(s, a) && !Marks(a)
    ensures Tells(s, a, Manage(s, a)) && Manage(s, a).markers == s.markers
    ensures Manage(s, a).settled == s.settled && Manage(s, a).calm == s.calm
  {
  }

  lemma StepTells(s: Actor, a: Action, s': Actor)
    requires Enabled(s, a) && s' == Next(s, a)
    ensures Tells(s, a, s') && s'.settled >= s.settled
    ensures s.calm <= s.settled ==> s.calm <= s'.calm <= s'.settled
    ensures s'.markers == Bare(s, a).markers && s'.settled == Bare(s, a).settled
  {
    BareNext(s, a);
    if Marks(a) { MarkTells(s, a); } else { ManageTells(s, a); }
  }

  lemma {:induction false} ToldFromActions(run: seq<Actor>, actions: seq<Action>, k: nat)
    requires IsRun(run, actions) && k < |run|
    ensures run[k].now == Clock(run[0].now, actions, k) && run[k].timeout == Span(run[0].timeout, actions, k)
    ensures run[k].latest == Greatest(actions, k) && run[k].skew == Behind(actions, k)
    ensures |run[k].markers| == |run[0].markers|
  {
    if k > 0 {
      ToldFromActions(run, actions, k - 1);
      StepTells(run[k - 1], actions[k - 1], run[k]);
    }
  }

  /** Without a store that falls behind there is no skew. */
  lemma {:induction false} InOrderNoSkew(actions: seq<Action>, k: nat)
    requires k <= |actions|
    ensures Behind(actions, k) == 0 <==>
            forall j :: 0 <= j < k && actions[j].MarkStore? ==> actions[j].at >= Greatest(actions, j)
  {
    if k > 0 { InOrderNoSkew(actions, k - 1); }
  }

  // ---- marks that have returned ----------------------------------------------------------

  /** The time that marker m stored last. */
  function LastStored(actions: seq<Action>, k: nat, m: nat): int
    requires k <= |actions|
  {
    if k == 0 then 0
    else if actions[k - 1].MarkStore? && actions[k - 1].m == m then actions[k - 1].at
    else LastStored(actions, k - 1, m)
  }

  /** A marker keeps its time until it returns, and then that has settled. */
  predicate MarkerGoesOn(s: Actor, a: Action, s': Actor, m: nat)
    requires m < |s.markers| && m < |s'.markers|
  {
    var k, k' := s.markers[m], s'.markers[m];
    if a.MarkStore? && a.m == m then !k'.Rest? && k'.at == a.at
    else if k.Rest? then k'.Rest?
    else if k'.Rest? then s'.settled >= k.at
    else k'.at == k.at
  }

  lemma MarkGoesOn(s: Actor, a: Action, m: nat)
    requires Enabled(s, a) && Marks(a) && m < |s.markers|
    ensures m < |Mark(s, a).markers| && MarkerGoesOn(s, a, Mark(s, a), m)
  {
  }

  lemma MarkerStep(s: Actor, a: Action, s': Actor, m: nat)
    requires Enabled(s, a) && s' == Next(s, a) && m < |s.markers|
    ensures m < |s'.markers| && s'.settled >= s.settled && MarkerGoesOn(s, a, s', m)
  {
    StepTells(s, a, s');
    if Marks(a) { MarkGoesOn(s, a, m); } else { ManageTells(s, a); }
  }

  /** A marker works on what it stored last; when it is back at rest, that has settled. */
  lemma {:induction false} ReturnedSettle(run: seq<Actor>, actions: seq<Action>, k: nat, m: nat)
    requires IsRun(run, actions) && k < |run| && m < |run[0].markers|
    ensures |run[k].markers| == |run[0].markers|
    ensures !run[k].markers[m].Rest? ==> run[k].markers[m].at == LastStored(actions, k, m)
    ensures run[k].markers[m].Rest? ==> run[k].settled >= LastStored(actions, k, m)
  {
    if k > 0 {
      ReturnedSettle(run, actions, k - 1, m);
      StepTells(run[k - 1], actions[k - 1], run[k]);
      MarkerStep(run[k - 1], actions[k - 1], run[k], m);
    }
  }

  /** What has settled stays so, and at a calm point it is calm. */
  lemma {:induction false} SettledStays(run: seq<Actor>, actions: seq<Action>, i: nat, k: nat)
    requires IsRun(run, actions) && i <= k < |run|
    ensures run[i].settled <= run[k].settled && run[i].calm <= run[k].calm
    ensures i > 0 && !Touching(run[i]) ==> run[k].calm >= run[i].settled
    decreases k
  {
    if i < k {
      SettledStays(run, actions, i, k - 1);
      CalmGrows(run, actions, k - 1);
    } else if i > 0 {
      assert run[i] == Next(run[i - 1], actions[i - 1]);
    }
  }

  lemma {:induction false} CalmGrows(run: seq<Actor>, actions: seq<Action>, k: nat)
    requires IsRun(run, actions) && k < |actions|
    ensures run[k].calm <= run[k].settled
    ensures run[k].settled <= run[k + 1].settled && run[k].calm <= run[k + 1].calm <= run[k + 1].settled
  {
    if k > 0 { CalmGrows(run, actions, k - 1); }
    StepTells(run[k], actions[k], run[k + 1]);
  }

  /**
   * An actor is picked at least timeout - 100ms - skew after any activity whose mark had returned at
   * a point of the run where no touch was under way: all four told from the actions.
   */
  lemma PickedLate(run: seq<Actor>, actions: seq<Action>, i: nat, k: nat, m: nat)
    requires QuietRun(run, actions) && 0 < i <= k < |actions| && (actions[k].Pop? || actions[k].PopStray?)
    requires m < |run[0].markers| && m < |run[i].markers| && run[i].markers[m].Rest? && !Touching(run[i])
    ensures Clock(run[0].now, actions, k) - LastStored(actions, i, m) >
            Span(run[0].timeout, actions, k) - TOUCH_INTERVAL - Behind(actions, k)
  {
    ToldFromActions(run, actions, k);
    ReturnedSettle(run, actions, i, m);
    SettledStays(run, actions, i, k);
    TriggerIsLate(run, actions, k);
  }

  // ---- an idle actor's deadline ------------------------------------------------------------

  /** The action neither records activity nor puts the entry into the heap anew. */
  predicate Idles(a: Action) {
    !a.MarkStore? && !a.Register? && !a.Resume? && !a.Finish? && !a.Reset?
  }

  /** No deadline, now or after a touch, is later than a timeout from the given time. */
  predicate DueBy(s: Actor, t: int) {
    (s.copies > 0 ==> s.deadline <= t + s.timeout) && s.activity <= t && s.activity != 0
  }

  lemma MarkDue(s: Actor, a: Action, t: int)
    requires Enabled(s, a) && Marks(a) && DueBy(s, t) && Idles(a)
    ensures DueBy(Mark(s, a), t)
  {
  }

  lemma ManageDue(s: Actor, a: Action, t: int)
    requires Enabled(s, a) && !Marks(a) && DueBy(s, t) && Idles(a)
    ensures DueBy(Manage(s, a), t)
  {
  }

  lemma DueStep(s: Actor, a: Action, s': Actor, t: int)
    requires Enabled(s, a) && s' == Next(s, a) && DueBy(s, t) && Idles(a)
    ensures DueBy(s', t) && s'.timeout == s.timeout
  {
    StepTells(s, a, s');
    BareNext(s, a);
    if Marks(a) { MarkDue(s, a, t); } else { ManageDue(s, a, t); }
  }

  lemma {:induction false} DueInTime(run: seq<Actor>, actions: seq<Action>, j: nat, k: nat, t: int)
    requires IsRun(run, actions) && j <= k < |run| && DueBy(run[j], t)
    requires forall i :: j <= i < k ==> Idles(actions[i])
    ensures DueBy(run[k], t) && run[k].timeout == run[j].timeout
    decreases k
  {
    if j < k {
      var last := k - 1;
      DueInTime(run, actions, j, last, t);
      assert Idles(actions[last]);
      DueStep(run[last], actions[last], run[last + 1], t);
    }
  }

  /** The deadline of a queued entry. */
  predicate Soon(s: Actor) {
    s.copies > 0 ==> s.deadline <= s.now + s.timeout
  }

  lemma MarkSoon(s: Actor, a: Action)
    requires Enabled(s, a) && Marks(a) && TimesOk(s) && Soon(s)
    ensures Soon(Mark(s, a))
  {
  }

  lemma ManageSoon(s: Actor, a: Action)
    requires Enabled(s, a) && !Marks(a) && TimesOk(s) && PlacesOk(s) && Soon(s) && Undisturbed(s, a)
    ensures Soon(Manage(s, a))
  {
  }

  lemma SoonStep(s: Actor, a: Action, s': Actor)
    requires Enabled(s, a) && s' == Next(s, a) && TimesOk(s) && PlacesOk(s) && Soon(s) && Undisturbed(s, a)
    ensures Soon(s')
  {
    BareNext(s, a);
    if Marks(a) { MarkSoon(s, a); } else { ManageSoon(s, a); }
  }

  /** A deadline is never more than a timeout from now. */
  lemma {:induction false} NeverTooLate(run: seq<Actor>, actions: seq<Action>, k: nat)
    requires QuietRun(run, actions) && k < |run|
    ensures Soon(run[k])
  {
    if k > 0 {
      NeverTooLate(run, actions, k - 1);
      RunKeepsInv(run, actions, k - 1);
      SoonStep(run[k - 1], actions[k - 1], run[k]);
    }
  }

  /**
   * An actor that has recorded activity and is left alone from then on, in the heap throughout, is
   * due a timeout later: from that moment a trigger can pick it.
   */
  lemma IdleIsDue(run: seq<Actor>, actions: seq<Action>, j: nat, k: nat)
    requires QuietRun(run, actions) && j <= k < |run| && run[j].activity != 0
    requires forall i :: j <= i < k ==> Idles(actions[i])
    requires run[k].copies > 0 && run[k].flight.Grounded? && run[k].now >= run[j].now + run[k].timeout
    ensures Enabled(run[k], Pop)
  {
    NeverTooLate(run, actions, j);
    RunKeepsInv(run, actions, j);
    DueInTime(run, actions, j, k, run[j].now);
  }
}
