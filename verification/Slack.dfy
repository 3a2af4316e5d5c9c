/**
 * How stale a deadline can get. One actor as the passivation manager and its own activity see
 * it: any number of goroutines may be marking activity, each in four separate steps (store the
 * time, load the last touch, win the touch interval by CAS, touch the heap), and every manager
 * operation may fall between them.
 */
module Slack {
  import opened Passivation

  /** At most one touch per this many nanoseconds. */
  const TOUCH_INTERVAL := 100_000_000

  /** Where a goroutine is inside markActivity. */
  datatype Marker = Rest | Stored(at: int) | Loaded(at: int, seen: int) | Won(at: int)

  /** The entry popped by a trigger; Stale if it is not the registered one. */
  datatype Flight = Grounded | Current | Stale

  datatype Actor = Actor(
    now: int,
    activity: int,          // 0: none recorded
    lastTouch: int,
    markers: seq<Marker>,
    latest: int,            // history: the greatest time stored
    skew: nat,              // history: how far a stored time fell behind the greatest one
    settled: int,           // history: the greatest time whose markActivity has returned
    calm: int,              // history: settled when last no marker stood before its touch
    registered: bool,
    timeBased: bool,
    timeout: int,
    paused: bool,
    copies: nat,            // places of the registered entry in the heap
    indexed: bool,          // its index is not -1
    deadline: int,
    strays: seq<int>,       // deadlines of entries in the heap that are registered no more
    flight: Flight)

  datatype Action =
    | Tick(d: nat)
    | MarkStore(m: nat, at: int)
    | MarkLoad(m: nat)
    | MarkCas(m: nat)
    | MarkTouch(m: nat)
    | Register(timed: bool, span: int)
    | Unregister
    | Pause
    | Resume
    | Pop
    | PopStray(k: nat)
    | Finish(passivated: bool)
    | Sift
    | DropPaused
    | Reset

  predicate Init(s: Actor) {
    && s.now > 0 && s.activity == 0 && s.lastTouch == 0 && s.latest == 0 && s.skew == 0
    && s.settled == 0 && s.calm == 0
    && (forall m :: 0 <= m < |s.markers| ==> s.markers[m].Rest?)
    && !s.registered && s.copies == 0 && !s.indexed && s.strays == [] && s.flight == Grounded
  }

  /** The clock never goes back; markers that overlap may store their times in any order. */
  predicate Enabled(s: Actor, a: Action) {
    match a
    case MarkStore(m, at) => m < |s.markers| && s.markers[m].Rest? && 0 < at <= s.now
    case MarkLoad(m) => m < |s.markers| && s.markers[m].Stored?
    case MarkCas(m) => m < |s.markers| && s.markers[m].Loaded?
    case MarkTouch(m) => m < |s.markers| && s.markers[m].Won?
    case Pop => s.copies > 0 && s.deadline <= s.now && s.flight.Grounded?
    case PopStray(k) => k < |s.strays| && s.strays[k] <= s.now && s.flight.Grounded?
    case Finish(_) => !s.flight.Grounded?
    case Sift => s.copies > 0
    case DropPaused => s.paused && s.copies > 0 && s.indexed
    case _ => true
  }

  /** heap.Push with a fresh deadline. */
  function Pushed(s: Actor): Actor {
    s.(copies := s.copies + 1, indexed := true, deadline := Refreshed(s.activity, s.now, s.timeout))
  }

  /** heap.Remove by index, if the entry has one. */
  function Removed(s: Actor): Actor {
    s.(copies := if s.indexed && s.copies > 0 then s.copies - 1 else s.copies, indexed := false)
  }

  /** The registration goes; what is left of it in the heap stays there. */
  function Dropped(s: Actor): Actor {
    s.(registered := false, strays := s.strays + seq(s.copies, _ => s.deadline), copies := 0, indexed := false)
  }

  /** A call of markActivity returns. */
  function Returned(s: Actor, m: nat, at: int): Actor
    requires m < |s.markers|
  {
    s.(markers := s.markers[m := Rest], settled := if at > s.settled then at else s.settled)
  }

  function Mark(s: Actor, a: Action): Actor
    requires Enabled(s, a) && (a.MarkStore? || a.MarkLoad? || a.MarkCas? || a.MarkTouch?)
  {
    match a
    case MarkStore(m, at) =>
      var t := s.(activity := at, markers := s.markers[m := Stored(at)]);
      if at >= s.latest then t.(latest := at)
      else if s.latest - at > s.skew then t.(skew := s.latest - at) else t
    case MarkLoad(m) =>
      var at := s.markers[m].at;
      if at - s.lastTouch >= TOUCH_INTERVAL then s.(markers := s.markers[m := Loaded(at, s.lastTouch)])
      else Returned(s, m, at)
    case MarkCas(m) =>
      var at := s.markers[m].at;
      if s.lastTouch == s.markers[m].seen then s.(lastTouch := at, markers := s.markers[m := Won(at)])
      else Returned(s, m, at)
    case MarkTouch(m) =>
      var t := Returned(s, m, s.markers[m].at);
      if s.registered && !s.paused && s.timeBased && s.indexed
      then t.(deadline := Refreshed(s.activity, s.now, s.timeout)) else t
  }

  function Manage(s: Actor, a: Action): Actor
    requires Enabled(s, a) && !(a.MarkStore? || a.MarkLoad? || a.MarkCas? || a.MarkTouch?)
  {
    match a
    case Tick(d) => s.(now := s.now + d)
    case Register(timed, span) =>
      var t := Removed(s).(registered := true, timeBased := timed, paused := false);
      if timed then Pushed(t.(timeout := span)) else t
    case Unregister =>
      if !s.registered then s
      else Dropped(Removed(s)).(flight := if s.flight.Current? then Stale else s.flight)
    case Pause => if !s.registered || s.paused then s else Removed(s).(paused := true)
    case Resume =>
      if !s.registered || !s.paused then s
      else if s.timeBased then Pushed(s.(paused := false))
      else s.(paused := false)
    case Pop => s.(copies := s.copies - 1, indexed := false, flight := Current)
    case PopStray(k) => s.(strays := s.strays[..k] + s.strays[k + 1..], flight := Stale)
    case Finish(passivated) =>
      var t := s.(flight := Grounded);
      if s.flight.Stale? then t
      else if passivated then Dropped(t)
      else if s.paused then t
      else Pushed(t)
    case Sift => s.(indexed := true)
    case DropPaused => Removed(s)
    case Reset => s.(activity := 0)
  }

  /** Some goroutine has won the interval and has not touched the heap yet. */
  ghost predicate Touching(s: Actor) {
    exists m :: 0 <= m < |s.markers| && s.markers[m].Won?
  }

  ghost function Next(s: Actor, a: Action): Actor
    requires Enabled(s, a)
  {
    var t := if a.MarkStore? || a.MarkLoad? || a.MarkCas? || a.MarkTouch? then Mark(s, a) else Manage(s, a);
    if Touching(t) then t else t.(calm := t.settled)
  }

  /** The step does not register or requeue an entry in flight. */
  predicate Undisturbed(s: Actor, a: Action) {
    s.flight.Current? ==> !a.Register? && (a.Resume? ==> !s.registered || !s.paused || !s.timeBased)
  }

  // ---- the invariant -------------------------------------------------------------------

  ghost predicate TimesOk(s: Actor) {
    && 0 <= s.lastTouch <= s.latest <= s.now && 0 < s.now && s.activity <= s.latest
    && (s.activity != 0 ==> s.activity >= s.latest - s.skew)
    && s.calm <= s.settled <= s.latest
  }

  /** The heap holds the entry at most once, exactly while it can be scheduled and is not in flight. */
  ghost predicate PlacesOk(s: Actor) {
    && s.strays == [] && s.copies <= 1 && (s.indexed <==> s.copies == 1)
    && (s.copies == 1 ==> s.registered && s.timeBased && !s.paused)
    && (s.flight.Current? ==> s.registered && s.timeBased && s.copies == 0)
  }

  ghost predicate MarkerOk(s: Actor, k: Marker) {
    match k
    case Rest => true
    case Stored(at) => at <= s.latest
    case Loaded(at, seen) => at <= s.latest && seen + TOUCH_INTERVAL <= at && seen <= s.lastTouch
    case Won(at) => at <= s.lastTouch
  }

  ghost predicate MarkersOk(s: Actor) {
    forall m :: 0 <= m < |s.markers| ==> MarkerOk(s, s.markers[m])
  }

  /** A queued deadline that has seen every touch but those under way. */
  ghost predicate DeadlineOk(s: Actor) {
    && s.deadline >= s.lastTouch + s.timeout - s.skew
    && s.deadline > s.settled + s.timeout - TOUCH_INTERVAL - s.skew
    && forall m :: 0 <= m < |s.markers| && s.markers[m].Loaded? && s.markers[m].seen != s.lastTouch ==>
         s.deadline >= s.markers[m].at + s.timeout - s.skew
  }

  /** The latest time stored has settled or is still with a marker. */
  ghost predicate LatestOk(s: Actor) {
    s.settled == s.latest || exists m :: 0 <= m < |s.markers| && !s.markers[m].Rest? && s.markers[m].at == s.latest
  }

  ghost predicate Inv(s: Actor) {
    && TimesOk(s) && PlacesOk(s) && MarkersOk(s) && LatestOk(s)
    && (s.copies == 1 ==> s.deadline > s.calm + s.timeout - TOUCH_INTERVAL - s.skew)
    && (!Touching(s) ==> s.calm == s.settled && (s.copies == 1 ==> DeadlineOk(s)))
  }

  /** A fresh deadline is late enough for everything. */
  lemma FreshDeadline(s: Actor)
    requires TimesOk(s) && MarkersOk(s) && s.deadline == Refreshed(s.activity, s.now, s.timeout)
    ensures DeadlineOk(s) && s.deadline > s.calm + s.timeout - TOUCH_INTERVAL - s.skew
  {
    forall m | 0 <= m < |s.markers| && s.markers[m].Loaded? ensures s.deadline >= s.markers[m].at + s.timeout - s.skew {
      assert MarkerOk(s, s.markers[m]);
    }
  }

  /** One marker replaced; the clock of touches may have moved on. */
  lemma MarkersStay(s: Actor, s': Actor, m: nat)
    requires m < |s.markers| == |s'.markers| && MarkersOk(s) && s'.markers == s.markers[m := s'.markers[m]]
    requires s'.latest >= s.latest && s'.lastTouch >= s.lastTouch
    requires MarkerOk(s', s'.markers[m])
    ensures MarkersOk(s')
  {
    forall k | 0 <= k < |s'.markers| ensures MarkerOk(s', s'.markers[k]) {
      if k != m { assert MarkerOk(s, s.markers[k]); }
    }
  }

  lemma KeepsTouching(s: Actor, s': Actor, m: nat)
    requires m < |s.markers| && |s'.markers| == |s.markers| && s'.markers == s.markers[m := s'.markers[m]]
    requires !s.markers[m].Won? && !s'.markers[m].Won?
    ensures Touching(s') <==> Touching(s)
  {
    if Touching(s) {
      var w :| 0 <= w < |s.markers| && s.markers[w].Won?;
      assert s'.markers[w].Won?;
    }
  }

  lemma StoreKeepsLatest(s: Actor, m: nat, at: int)
    requires LatestOk(s) && Enabled(s, MarkStore(m, at))
    ensures LatestOk(Mark(s, MarkStore(m, at)))
  {
    var s' := Mark(s, MarkStore(m, at));
    if at >= s.latest {
      assert s'.markers[m].at == s'.latest;
    } else if s.settled != s.latest {
      var w :| 0 <= w < |s.markers| && !s.markers[w].Rest? && s.markers[w].at == s.latest;
      assert s'.markers[w].at == s'.latest;
    }
  }

  lemma KeepsDeadline(s: Actor, s': Actor, m: nat)
    requires DeadlineOk(s) && m < |s.markers| == |s'.markers| && s'.markers == s.markers[m := s'.markers[m]]
    requires !s'.markers[m].Loaded? || s'.markers[m].seen == s'.lastTouch
    requires s'.deadline == s.deadline && s'.timeout == s.timeout && s'.lastTouch == s.lastTouch
    requires s'.settled == s.settled && s'.skew >= s.skew
    ensures DeadlineOk(s')
  {
    assert forall k :: 0 <= k < |s.markers| && k != m ==> s'.markers[k] == s.markers[k];
  }

  /** What a store does to the rest of the invariant. */
  lemma StoreKeepsRest(s: Actor, s': Actor, m: nat)
    requires Inv(s) && TimesOk(s') && PlacesOk(s') && LatestOk(s') && m < |s.markers| == |s'.markers|
    requires s.markers[m].Rest? && s'.markers == s.markers[m := s'.markers[m]]
    requires s'.markers[m].Stored? && s'.markers[m].at <= s'.latest
    requires s'.deadline == s.deadline && s'.timeout == s.timeout && s'.lastTouch == s.lastTouch
    requires s'.settled == s.settled && s'.skew >= s.skew && s'.copies == s.copies && s'.calm == s.calm
    requires s'.latest >= s.latest
    ensures Inv(s')
  {
    MarkersStay(s, s', m);
    KeepsTouching(s, s', m);
    if s.copies == 1 && !Touching(s) { KeepsDeadline(s, s', m); }
  }

  lemma StoreKeeps(s: Actor, m: nat, at: int)
    requires Inv(s) && Enabled(s, MarkStore(m, at))
    ensures Inv(Next(s, MarkStore(m, at)))
  {
    var t := Mark(s, MarkStore(m, at));
    KeepsTouching(s, t, m);
    StoreKeepsLatest(s, m, at);
    StoreKeepsRest(s, t, m);
    if !Touching(t) { assert t.(calm := t.settled) == t; }
  }

  /** A marker returns: its time has settled. */
  lemma ReturnKeepsLatest(s: Actor, s': Actor, m: nat)
    requires LatestOk(s) && TimesOk(s) && m < |s.markers| && !s.markers[m].Rest? && s.markers[m].at <= s.latest
    requires s'.markers == s.markers[m := Rest] && s'.latest == s.latest
    requires s'.settled == if s.markers[m].at > s.settled then s.markers[m].at else s.settled
    ensures LatestOk(s') && s'.settled <= s'.latest
  {
    if s.settled != s.latest {
      var w :| 0 <= w < |s.markers| && !s.markers[w].Rest? && s.markers[w].at == s.latest;
      if w != m { assert s'.markers[w] == s.markers[w]; }
    }
  }

  /** A marker that leaves its touch to another one, or to nobody. */
  lemma ReturnKeeps(s: Actor, m: nat)
    requires Inv(s) && m < |s.markers| && !s.markers[m].Rest? && !s.markers[m].Won?
    requires !Touching(s) && s.copies == 1 ==> s.deadline > s.markers[m].at + s.timeout - TOUCH_INTERVAL - s.skew
    ensures
      var t := Returned(s, m, s.markers[m].at);
      Inv(if Touching(t) then t else t.(calm := t.settled))
  {
    var t := Returned(s, m, s.markers[m].at);
    var s' := if Touching(t) then t else t.(calm := t.settled);
    assert MarkerOk(s, s.markers[m]);
    MarkersStay(s, s', m);
    KeepsTouching(s, s', m);
    ReturnKeepsLatest(s, s', m);
    assert forall k :: 0 <= k < |s.markers| && k != m ==> s'.markers[k] == s.markers[k];
  }

  /** The latest time stays with its marker when one of them moves on. */
  lemma LatestStays(s: Actor, s': Actor, m: nat)
    requires LatestOk(s) && m < |s.markers| == |s'.markers| && s'.markers == s.markers[m := s'.markers[m]]
    requires !s.markers[m].Rest? && !s'.markers[m].Rest? && s'.markers[m].at == s.markers[m].at
    requires s'.latest == s.latest && s'.settled == s.settled
    ensures LatestOk(s')
  {
    if s.settled != s.latest {
      var w :| 0 <= w < |s.markers| && !s.markers[w].Rest? && s.markers[w].at == s.latest;
      assert s'.markers[w].at == s.latest;
    }
  }

  lemma LoadKeeps(s: Actor, m: nat)
    requires Inv(s) && Enabled(s, MarkLoad(m))
    ensures Inv(Next(s, MarkLoad(m)))
  {
    var s' := Next(s, MarkLoad(m));
    assert MarkerOk(s, s.markers[m]);
    if s.markers[m].at - s.lastTouch < TOUCH_INTERVAL {
      ReturnKeeps(s, m);
    } else {
      MarkersStay(s, s', m);
      KeepsTouching(s, s', m);
      LatestStays(s, s', m);
      if s.copies == 1 && !Touching(s) { KeepsDeadline(s, s', m); }
    }
  }

  lemma CasKeeps(s: Actor, m: nat)
    requires Inv(s) && Enabled(s, MarkCas(m))
    ensures Inv(Next(s, MarkCas(m)))
  {
    var s' := Next(s, MarkCas(m));
    assert MarkerOk(s, s.markers[m]);
    if s.lastTouch != s.markers[m].seen {
      ReturnKeeps(s, m);
    } else {
      MarkersStay(s, s', m);
      LatestStays(s, s', m);
      assert s'.markers[m].Won?;
    }
  }

  lemma TouchKeeps(s: Actor, m: nat)
    requires Inv(s) && Enabled(s, MarkTouch(m))
    ensures Inv(Next(s, MarkTouch(m)))
  {
    var s' := Next(s, MarkTouch(m));
    assert MarkerOk(s, s.markers[m]);
    MarkersStay(s, s', m);
    ReturnKeepsLatest(s, s', m);
    if s'.copies == 1 { FreshDeadline(s'); }
  }

  /** Manager steps leave the markers alone. */
  lemma SameMarkers(s: Actor, s': Actor)
    requires MarkersOk(s) && LatestOk(s) && s'.markers == s.markers && s'.latest == s.latest
    requires s'.lastTouch == s.lastTouch && s'.settled == s.settled
    ensures MarkersOk(s') && LatestOk(s') && (Touching(s') <==> Touching(s))
  {
    forall m | 0 <= m < |s'.markers| ensures MarkerOk(s', s'.markers[m]) { assert MarkerOk(s, s.markers[m]); }
  }

  /** A step that leaves the deadline alone and queues nothing. */
  lemma CalmStepKeeps(s: Actor, t: Actor)
    requires Inv(s) && t.markers == s.markers && t.latest == s.latest && t.lastTouch == s.lastTouch
    requires t.skew == s.skew && t.settled == s.settled && t.calm == s.calm && TimesOk(t) && PlacesOk(t)
    requires t.copies == 1 ==> s.copies == 1 && t.deadline == s.deadline && t.timeout == s.timeout
    ensures Inv(if Touching(t) then t else t.(calm := t.settled))
  {
    SameMarkers(s, t);
    SameMarkers(s, if Touching(t) then t else t.(calm := t.settled));
  }

  /** A step that queues the entry with a fresh deadline. */
  lemma PushKeeps(s: Actor, t: Actor)
    requires Inv(s) && t.markers == s.markers && t.latest == s.latest && t.lastTouch == s.lastTouch
    requires t.skew == s.skew && t.settled == s.settled && t.calm == s.calm && TimesOk(t) && PlacesOk(t)
    requires t.deadline == Refreshed(t.activity, t.now, t.timeout)
    ensures Inv(if Touching(t) then t else t.(calm := t.settled))
  {
    var s' := if Touching(t) then t else t.(calm := t.settled);
    SameMarkers(s, s');
    FreshDeadline(s');
  }

  lemma ManageKeeps(s: Actor, a: Action)
    requires Inv(s) && Enabled(s, a) && Undisturbed(s, a)
    requires !(a.MarkStore? || a.MarkLoad? || a.MarkCas? || a.MarkTouch?)
    ensures Inv(Next(s, a))
  {
    var t := Manage(s, a);
    assert seq(0, _ => s.deadline) == [];
    if (a.Register? && a.timed) || (a.Resume? && s.registered && s.paused && s.timeBased)
       || (a.Finish? && s.flight.Current? && !a.passivated && !s.paused) {
      PushKeeps(s, t);
    } else {
      CalmStepKeeps(s, t);
    }
  }

  lemma StepKeepsInv(s: Actor, a: Action)
    requires Inv(s) && Enabled(s, a) && Undisturbed(s, a)
    ensures Inv(Next(s, a))
  {
    match a
    case MarkStore(m, at) => StoreKeeps(s, m, at);
    case MarkLoad(m) => LoadKeeps(s, m);
    case MarkCas(m) => CasKeeps(s, m);
    case MarkTouch(m) => TouchKeeps(s, m);
    case _ => ManageKeeps(s, a);
  }

  ghost predicate IsRun(run: seq<Actor>, actions: seq<Action>) {
    && |run| == |actions| + 1 && Init(run[0])
    && forall k :: 0 <= k < |actions| ==> Enabled(run[k], actions[k]) && run[k + 1] == Next(run[k], actions[k])
  }

  /** No step of the run registers or requeues an entry in flight. */
  ghost predicate QuietRun(run: seq<Actor>, actions: seq<Action>) {
    IsRun(run, actions) && forall k :: 0 <= k < |actions| ==> Undisturbed(run[k], actions[k])
  }

  lemma {:induction false} RunKeepsInv(run: seq<Actor>, actions: seq<Action>, k: nat)
    requires QuietRun(run, actions) && k < |run|
    ensures Inv(run[k])
  {
    if k > 0 {
      RunKeepsInv(run, actions, k - 1);
      StepKeepsInv(run[k - 1], actions[k - 1]);
    }
  }

  // ---- the bound -----------------------------------------------------------------------

  /**
   * A trigger never picks an actor for which less than the timeout, minus the touch interval and
   * the skew of overlapping stores, has passed since the last activity that had settled when
   * last no touch was under way. If none is under way now, that is the last settled activity; if
   * no marker is, the last activity.
   */
  lemma TriggerIsLate(run: seq<Actor>, actions: seq<Action>, k: nat)
    requires QuietRun(run, actions) && k < |actions| && (actions[k].Pop? || actions[k].PopStray?)
    ensures run[k].now - run[k].calm > run[k].timeout - TOUCH_INTERVAL - run[k].skew
    ensures !Touching(run[k]) ==> run[k].now - run[k].settled > run[k].timeout - TOUCH_INTERVAL - run[k].skew
    ensures (forall m :: 0 <= m < |run[k].markers| ==> run[k].markers[m].Rest?) ==>
              run[k].now - run[k].latest > run[k].timeout - TOUCH_INTERVAL - run[k].skew
  {
    RunKeepsInv(run, actions, k);
  }

  /** With every marker at rest a queued deadline is later than the last activity plus timeout, but for the slack. */
  lemma DeadlineSlack(run: seq<Actor>, actions: seq<Action>, k: nat)
    requires QuietRun(run, actions) && k < |run| && run[k].copies > 0
    requires forall m :: 0 <= m < |run[k].markers| ==> run[k].markers[m].Rest?
    ensures run[k].deadline > run[k].latest + run[k].timeout - TOUCH_INTERVAL - run[k].skew
  {
    RunKeepsInv(run, actions, k);
  }

  // ---- where the bound ends ------------------------------------------------------------

  function Start(markers: seq<Marker>): Actor {
    Actor(1, 0, 0, markers, 0, 0, 0, 0, false, false, 0, false, 0, false, 0, [], Grounded)
  }

  /** An activity that is stored and not yet touched is not seen. */
  lemma PickedWhileMarking(timeout: nat) returns (run: seq<Actor>, actions: seq<Action>)
    ensures QuietRun(run, actions) && |actions| == 4 && actions[3] == Pop
    ensures run[3].timeout == timeout && !Touching(run[3]) && run[3].activity == run[3].now
  {
    actions := [Register(true, timeout), Tick(timeout), MarkStore(0, 1 + timeout), Pop];
    var s1 := Next(Start([Rest]), actions[0]);
    var s2 := s1.(now := 1 + timeout);
    var s3 := Next(s2, actions[2]);
    run := [Start([Rest]), s1, s2, s3, Next(s3, Pop)];
  }

  /** One more step. */
  lemma Extend(run: seq<Actor>, actions: seq<Action>, a: Action, next: Actor)
    requires IsRun(run, actions) && Enabled(run[|actions|], a) && next == Next(run[|actions|], a)
    ensures IsRun(run + [next], actions + [a])
  {
  }

  /** A marker stands free to win the interval with an activity of this instant. */
  ghost predicate Free(s: Actor, m: nat) {
    && m < |s.markers| && s.markers[m].Rest? && !Touching(s) && s.calm == s.settled
    && 0 < s.now && s.latest <= s.now && s.lastTouch + TOUCH_INTERVAL <= s.now
  }

  lemma WinSteps(s: Actor, s1: Actor, s2: Actor, s3: Actor, m: nat)
    requires Free(s, m)
    requires s1 == s.(activity := s.now, latest := s.now, markers := s.markers[m := Stored(s.now)])
    requires s2 == s1.(markers := s.markers[m := Loaded(s.now, s.lastTouch)])
    requires s3 == s2.(lastTouch := s.now, markers := s.markers[m := Won(s.now)])
    ensures Enabled(s, MarkStore(m, s.now)) && s1 == Next(s, MarkStore(m, s.now))
    ensures Enabled(s1, MarkLoad(m)) && s2 == Next(s1, MarkLoad(m))
    ensures Enabled(s2, MarkCas(m)) && s3 == Next(s2, MarkCas(m))
  {
    KeepsTouching(s, s1, m);
    KeepsTouching(s, s2, m);
    assert s3.markers[m].Won?;
  }

  /** A marker at rest records an activity of this instant and wins the interval. */
  lemma Win(run: seq<Actor>, actions: seq<Action>, m: nat) returns (run': seq<Actor>, actions': seq<Action>)
    requires IsRun(run, actions) && Free(run[|actions|], m)
    ensures IsRun(run', actions') && |actions'| == |actions| + 3 && run <= run' && actions <= actions'
    ensures forall k :: |actions| <= k < |actions'| ==> Undisturbed(run'[k], actions'[k])
    ensures
      var s := run[|actions|];
      run'[|actions'|] == s.(activity := s.now, latest := s.now, lastTouch := s.now,
                             markers := s.markers[m := Won(s.now)])
  {
    var s := run[|actions|];
    var s1 := s.(activity := s.now, latest := s.now, markers := s.markers[m := Stored(s.now)]);
    var s2 := s1.(markers := s.markers[m := Loaded(s.now, s.lastTouch)]);
    var s3 := s2.(lastTouch := s.now, markers := s.markers[m := Won(s.now)]);
    WinSteps(s, s1, s2, s3, m);
    Extend(run, actions, MarkStore(m, s.now), s1);
    Extend(run + [s1], actions + [MarkStore(m, s.now)], MarkLoad(m), s2);
    run', actions' := run + [s1] + [s2], actions + [MarkStore(m, s.now)] + [MarkLoad(m)];
    Extend(run', actions', MarkCas(m), s3);
    run', actions' := run' + [s3], actions' + [MarkCas(m)];
  }

  /** The first of two markers has won the interval at the first deadline. */
  lemma TouchUnderWay(timeout: nat) returns (run: seq<Actor>, actions: seq<Action>)
    requires timeout >= TOUCH_INTERVAL
    ensures QuietRun(run, actions) && |actions| == 5
    ensures
      var end := 1 + timeout;
      run[5] == Start([Won(end), Rest]).(now := end, activity := end, lastTouch := end, latest := end,
                                         registered := true, timeBased := true, timeout := timeout,
                                         copies := 1, indexed := true, deadline := end)
  {
    var s0 := Start([Rest, Rest]);
    var s1 := Next(s0, Register(true, timeout));
    run, actions := [s0, s1, s1.(now := 1 + timeout)], [Register(true, timeout), Tick(timeout)];
    run, actions := Win(run, actions, 0);
    assert s0.markers[0 := Won(1 + timeout)] == [Won(1 + timeout), Rest];
  }

  /**
   * A second marker finds the interval taken and returns while the first has yet to touch the
   * heap: its settled activity of this very instant is not seen.
   */
  lemma PickedWhileTouching(timeout: nat) returns (run: seq<Actor>, actions: seq<Action>)
    requires timeout >= TOUCH_INTERVAL
    ensures QuietRun(run, actions) && |actions| == 8 && actions[7] == Pop
    ensures run[7].timeout == timeout && Touching(run[7]) && run[7].settled == run[7].now
  {
    var end := 1 + timeout;
    run, actions := TouchUnderWay(timeout);
    assert run[5].markers[0].Won?;
    var s6 := run[5].(markers := [Won(end), Stored(end)]);
    assert s6.markers[0].Won?;
    Extend(run, actions, MarkStore(1, end), s6);
    run, actions := run + [s6], actions + [MarkStore(1, end)];
    var s7 := run[5].(settled := end);
    assert s6.markers[1 := Rest] == s7.markers && s7.markers[0].Won?;
    Extend(run, actions, MarkLoad(1), s7);
    run, actions := run + [s7], actions + [MarkLoad(1)];
    Extend(run, actions, Pop, Next(s7, Pop));
    run, actions := run + [Next(s7, Pop)], actions + [Pop];
  }

  /** A store that comes late takes the recorded activity back, and with it the deadline of the next touch. */
  lemma PickedAfterStaleStore(timeout: nat) returns (run: seq<Actor>, actions: seq<Action>)
    requires timeout >= TOUCH_INTERVAL
    ensures QuietRun(run, actions) && |actions| == 9 && actions[8] == Pop && run[8].skew == timeout
    ensures run[8].timeout == timeout && run[8].markers == [Rest, Rest] && run[8].settled == run[8].now
  {
    var end := 1 + timeout;
    run, actions := TouchUnderWay(timeout);
    var s5 := run[5];
    var s6 := s5.(activity := 1, skew := timeout, markers := [Won(end), Stored(1)]);
    assert s5.markers[0].Won? && s6.markers[0].Won?;
    Extend(run, actions, MarkStore(1, 1), s6);
    run, actions := run + [s6], actions + [MarkStore(1, 1)];
    var s7 := s5.(activity := 1, skew := timeout, settled := 1);
    assert s6.markers[1 := Rest] == s7.markers && s7.markers[0].Won?;
    Extend(run, actions, MarkLoad(1), s7);
    run, actions := run + [s7], actions + [MarkLoad(1)];
    var s8 := s7.(markers := [Rest, Rest], settled := end, calm := end);
    Extend(run, actions, MarkTouch(0), s8);
    run, actions := run + [s8], actions + [MarkTouch(0)];
    Extend(run, actions, Pop, Next(s8, Pop));
    run, actions := run + [Next(s8, Pop)], actions + [Pop];
  }

  /** The registered entry is due in the heap and no touch can move it. */
  ghost predicate Stuck(s: Actor) {
    && s.markers == [Rest] && s.copies > 0 && s.flight.Grounded? && 0 < s.deadline <= s.now
    && !(s.registered && !s.paused && s.timeBased && s.indexed)
    && s.latest <= s.now && s.lastTouch + TOUCH_INTERVAL <= s.now && s.calm == s.settled <= s.now
  }

  /** A stuck entry is picked although an activity of this very instant has been marked to the end. */
  lemma StuckIsPicked(run: seq<Actor>, actions: seq<Action>) returns (run': seq<Actor>, actions': seq<Action>)
    requires IsRun(run, actions) && Stuck(run[|actions|])
    ensures IsRun(run', actions') && |actions'| == |actions| + 5 && actions'[|actions| + 4] == Pop
    ensures run <= run' && actions <= actions'
    ensures forall k :: |actions| <= k < |actions'| ==> Undisturbed(run'[k], actions'[k])
    ensures run'[|actions| + 4].timeout == run[|actions|].timeout && !Touching(run'[|actions| + 4])
    ensures run'[|actions| + 4].settled == run'[|actions| + 4].now
  {
    run', actions' := Win(run, actions, 0);
    var s := run[|actions|];
    var s4 := s.(activity := s.now, latest := s.now, lastTouch := s.now, settled := s.now, calm := s.now);
    assert run'[|actions'|].markers == [Won(s.now)];
    Extend(run', actions', MarkTouch(0), s4);
    run', actions' := run' + [s4], actions' + [MarkTouch(0)];
    Extend(run', actions', Pop, Next(s4, Pop));
    run', actions' := run' + [Next(s4, Pop)], actions' + [Pop];
  }

  /** A run to an actor in flight at its first deadline. */
  lemma InFlight(timeout: nat) returns (run: seq<Actor>, actions: seq<Action>)
    ensures IsRun(run, actions) && |actions| == 3
    ensures forall k :: 0 <= k < 3 ==> Undisturbed(run[k], actions[k])
    ensures run[3] == Start([Rest]).(now := 1 + timeout, registered := true, timeBased := true, timeout := timeout,
                                     deadline := 1 + timeout, flight := Current)
  {
    var s1 := Next(Start([Rest]), Register(true, timeout));
    var s2 := s1.(now := 1 + timeout);
    actions := [Register(true, timeout), Tick(timeout), Pop];
    run := [Start([Rest]), s1, s2, Next(s2, Pop)];
  }

  /**
   * An entry switched to message counting while in flight goes back into the heap, where no
   * touch reaches it.
   */
  lemma PickedAfterSwitch(timeout: nat) returns (run: seq<Actor>, actions: seq<Action>)
    requires timeout >= TOUCH_INTERVAL
    ensures IsRun(run, actions) && |actions| == 11 && actions[10] == Pop && actions[3] == Register(false, 0)
    ensures forall k :: 0 <= k < 11 && k != 3 ==> Undisturbed(run[k], actions[k])
    ensures run[10].timeout == timeout && !Touching(run[10]) && run[10].settled == run[10].now
  {
    run, actions := InFlight(timeout);
    var s4 := run[3].(timeBased := false);
    var s5 := s4.(flight := Grounded, copies := 1, indexed := true, deadline := 1 + timeout + timeout);
    Extend(run, actions, Register(false, 0), s4);
    run, actions := run + [s4], actions + [Register(false, 0)];
    Extend(run, actions, Finish(false), s5);
    run, actions := run + [s5], actions + [Finish(false)];
    Extend(run, actions, Tick(timeout), s5.(now := s5.deadline));
    run, actions := StuckIsPicked(run + [s5.(now := s5.deadline)], actions + [Tick(timeout)]);
  }

  /** The actor after its entry in flight was queued once more and then settled. */
  function Doubled(timeout: nat): Actor {
    Start([Rest]).(now := 1 + timeout, registered := true, timeBased := true, timeout := timeout,
                   copies := 2, indexed := true, deadline := 1 + timeout + timeout)
  }

  /** An entry registered anew while in flight is queued twice. */
  lemma DoubledByRegister(timeout: nat) returns (run: seq<Actor>, actions: seq<Action>)
    ensures IsRun(run, actions) && |actions| == 5 && actions[3] == Register(true, timeout)
    ensures run[5] == Doubled(timeout) && forall k :: 0 <= k < 5 && k != 3 ==> Undisturbed(run[k], actions[k])
  {
    run, actions := InFlight(timeout);
    var s4 := run[3].(copies := 1, indexed := true, deadline := 1 + timeout + timeout);
    Extend(run, actions, Register(true, timeout), s4);
    run, actions := run + [s4], actions + [Register(true, timeout)];
    Extend(run, actions, Finish(false), Doubled(timeout));
    run, actions := run + [Doubled(timeout)], actions + [Finish(false)];
  }

  /** An entry paused and resumed while in flight is queued twice as well. */
  lemma DoubledByResume(timeout: nat) returns (run: seq<Actor>, actions: seq<Action>)
    ensures IsRun(run, actions) && |actions| == 6 && actions[4] == Resume
    ensures run[6] == Doubled(timeout) && forall k :: 0 <= k < 6 && k != 4 ==> Undisturbed(run[k], actions[k])
  {
    run, actions := InFlight(timeout);
    var s4 := run[3].(paused := true);
    var s5 := run[3].(copies := 1, indexed := true, deadline := 1 + timeout + timeout);
    Extend(run, actions, Pause, s4);
    run, actions := run + [s4], actions + [Pause];
    Extend(run, actions, Resume, s5);
    run, actions := run + [s5], actions + [Resume];
    Extend(run, actions, Finish(false), Doubled(timeout));
    run, actions := run + [Doubled(timeout)], actions + [Finish(false)];
  }

  /** A doubled entry switched to message counting leaves one place of the heap; the other one stays. */
  lemma DoubledIsPicked(run: seq<Actor>, actions: seq<Action>, timeout: nat)
    returns (run': seq<Actor>, actions': seq<Action>)
    requires IsRun(run, actions) && timeout >= TOUCH_INTERVAL && run[|actions|] == Doubled(timeout)
    ensures IsRun(run', actions') && |actions'| == |actions| + 7 && actions'[|actions| + 6] == Pop
    ensures run <= run' && actions <= actions'
    ensures forall k :: |actions| <= k < |actions'| ==> Undisturbed(run'[k], actions'[k])
    ensures run'[|actions| + 6].timeout == timeout && !Touching(run'[|actions| + 6])
    ensures run'[|actions| + 6].settled == run'[|actions| + 6].now
  {
    var s1 := run[|actions|].(copies := 1, indexed := false, timeBased := false);
    var s2 := s1.(now := s1.deadline);
    Extend(run, actions, Register(false, 0), s1);
    Extend(run + [s1], actions + [Register(false, 0)], Tick(timeout), s2);
    run', actions' := StuckIsPicked(run + [s1] + [s2], actions + [Register(false, 0)] + [Tick(timeout)]);
  }

  lemma PickedAfterRegister(timeout: nat) returns (run: seq<Actor>, actions: seq<Action>)
    requires timeout >= TOUCH_INTERVAL
    ensures IsRun(run, actions) && |actions| == 12 && actions[11] == Pop && actions[3] == Register(true, timeout)
    ensures forall k :: 0 <= k < 12 && k != 3 ==> Undisturbed(run[k], actions[k])
    ensures run[11].timeout == timeout && !Touching(run[11]) && run[11].settled == run[11].now
  {
    run, actions := DoubledByRegister(timeout);
    run, actions := DoubledIsPicked(run, actions, timeout);
  }

  lemma PickedAfterResume(timeout: nat) returns (run: seq<Actor>, actions: seq<Action>)
    requires timeout >= TOUCH_INTERVAL
    ensures IsRun(run, actions) && |actions| == 13 && actions[12] == Pop && actions[4] == Resume
    ensures forall k :: 0 <= k < 13 && k != 4 ==> Undisturbed(run[k], actions[k])
    ensures run[12].timeout == timeout && !Touching(run[12]) && run[12].settled == run[12].now
  {
    run, actions := DoubledByResume(timeout);
    run, actions := DoubledIsPicked(run, actions, timeout);
  }

  // ---- removal without an index --------------------------------------------------------

  /** The heap holds a paused entry whose index is -1: nextEntry removes it with that index. */
  predicate Lost(s: Actor) {
    s.registered && s.paused && s.copies > 0 && !s.indexed
  }

  lemma NeverLost(run: seq<Actor>, actions: seq<Action>, k: nat)
    requires QuietRun(run, actions) && k < |run|
    ensures !Lost(run[k])
  {
    RunKeepsInv(run, actions, k);
  }

  /** Pausing a doubled entry takes out one place and its index; the other place stays. */
  lemma LostAfterRegister(timeout: nat) returns (run: seq<Actor>, actions: seq<Action>)
    ensures IsRun(run, actions) && |actions| == 6 && actions[3] == Register(true, timeout) && Lost(run[6])
    ensures forall k :: 0 <= k < 6 && k != 3 ==> Undisturbed(run[k], actions[k])
  {
    run, actions := DoubledByRegister(timeout);
    var s := run[5].(copies := 1, indexed := false, paused := true);
    Extend(run, actions, Pause, s);
    run, actions := run + [s], actions + [Pause];
  }

  lemma LostAfterResume(timeout: nat) returns (run: seq<Actor>, actions: seq<Action>)
    ensures IsRun(run, actions) && |actions| == 7 && actions[4] == Resume && Lost(run[7])
    ensures forall k :: 0 <= k < 7 && k != 4 ==> Undisturbed(run[k], actions[k])
  {
    run, actions := DoubledByResume(timeout);
    var s := run[6].(copies := 1, indexed := false, paused := true);
    Extend(run, actions, Pause, s);
    run, actions := run + [s], actions + [Pause];
  }
}
