/**
 * What becomes of a request, in every orderly interleaving: it is refused at the limit, or it is
 * tracked until somebody completes it and then leaves the map. Whatever a cancellation found in the
 * map is completed when the cancellation is over.
 */
module RequestFates {
  import opened Basics
  import opened Counting
  import opened RequestAccounting

  /** The goroutine of this step is turned away with its request. */
  predicate TurnsAway(s: Requests, a: Step, s': Requests, r: Handle) {
    && a.Go? && a.i < |s.threads| && a.i < |s'.threads|
    && s.threads[a.i] == Reserve(r) && s'.threads[a.i].Rest?
  }

  /** The request was registered before step k. */
  predicate Requested(steps: seq<Step>, k: nat, r: Handle)
    requires k <= |steps|
  {
    exists j :: 0 <= j < k && steps[j].Start? && steps[j].op == Reserve(r)
  }

  ghost predicate Refused(run: seq<Requests>, steps: seq<Step>, k: nat, r: Handle)
    requires IsRun(run, steps) && k < |run|
  {
    exists j :: 0 <= j < k && TurnsAway(run[j], steps[j], run[j + 1], r)
  }

  /** A request is refused at a positive limit that is reached, and otherwise not. */
  lemma RefusedAtLimit(run: seq<Requests>, steps: seq<Step>, k: nat, i: nat, r: Handle)
    requires IsRun(run, steps) && k < |steps| && steps[k] == Go(i) && i < |run[k].threads|
    requires run[k].threads[i] == Reserve(r)
    ensures TurnsAway(run[k], steps[k], run[k + 1], r) <==> 0 < run[k].limit <= run[k].inFlight
  {
  }

  // ---- where a request is --------------------------------------------------------------

  /** The only handle of this id: whoever registers the id has it, and the map has no other under it. */
  ghost predicate Sole(s: Requests, r: Handle) {
    && r.id in s.used && (r.id in s.tracked ==> s.tracked[r.id] == r)
    && forall i :: 0 <= i < |s.threads| && Registers(s.threads[i]) && s.threads[i].r.id == r.id ==> s.threads[i].r == r
  }

  /** It is on its way in, tracked, refused, or completed and gone: one of the four. */
  ghost predicate Somewhere(s: Requests, r: Handle, refused: bool) {
    Total(Registering, s.threads, r.id) + Bit(r.id in s.tracked) + Bit(refused)
      + Bit(r in s.completed && r.id !in s.tracked) == 1
  }

  lemma SoleStarts(s: Requests, a: Step, r: Handle)
    requires OrderInv(s) && Enabled(s, a) && Orderly(s, a) && a.Start? && a.op == Reserve(r)
    ensures Sole(Next(s, a), r) && Somewhere(Next(s, a), r, false)
  {
    assert UsedOnce(s, r.id);
    CountStep(s, a, r.id);
    ThreadStep(s, a);
    forall i | 0 <= i < |s.threads| && Registers(s.threads[i]) && s.threads[i].r.id == r.id ensures false {
      TotalHas(Registering, s.threads, r.id, i);
    }
  }

  lemma SoleStays(s: Requests, a: Step, r: Handle)
    requires OrderInv(s) && Enabled(s, a) && Orderly(s, a) && Sole(s, r)
    ensures Sole(Next(s, a), r)
  {
    ThreadStep(s, a);
    assert ThreadOk(s, s.threads[a.i]);
  }

  /** A step of a goroutine that registers: the request goes on, is turned away or enters the map. */
  lemma RegistersOn(s: Requests, i: nat, r: Handle, refused: bool)
    requires Enabled(s, Go(i)) && Registers(s.threads[i]) && ThreadOk(s, s.threads[i])
    requires Sole(s, r) && Somewhere(s, r, refused)
    ensures
      var s' := Next(s, Go(i));
      !(refused && TurnsAway(s, Go(i), s', r)) && Somewhere(s', r, refused || TurnsAway(s, Go(i), s', r))
  {
    CountStep(s, Go(i), r.id);
    if s.threads[i].r.id == r.id { TotalHas(Registering, s.threads, r.id, i); }
  }

  /** A step of any other goroutine completes the request, takes it out or leaves it alone. */
  lemma OtherwiseStays(s: Requests, a: Step, r: Handle, refused: bool)
    requires Enabled(s, a) && Orderly(s, a) && !Registers(s.threads[a.i]) && ThreadOk(s, s.threads[a.i])
    requires Sole(s, r) && Somewhere(s, r, refused)
    ensures Somewhere(Next(s, a), r, refused)
  {
    CountStep(s, a, r.id);
  }

  lemma StaysSomewhere(s: Requests, a: Step, r: Handle, refused: bool)
    requires OrderInv(s) && Enabled(s, a) && Orderly(s, a) && Sole(s, r) && Somewhere(s, r, refused)
    ensures !(refused && TurnsAway(s, a, Next(s, a), r))
    ensures Somewhere(Next(s, a), r, refused || TurnsAway(s, a, Next(s, a), r))
  {
    assert ThreadOk(s, s.threads[a.i]);
    if Registers(s.threads[a.i]) {
      RegistersOn(s, a.i, r, refused);
    } else {
      OtherwiseStays(s, a, r, refused);
    }
  }

  ghost predicate SomewhereAt(run: seq<Requests>, steps: seq<Step>, k: nat, r: Handle)
    requires IsRun(run, steps) && k < |run|
  {
    Sole(run[k], r) && Somewhere(run[k], r, Refused(run, steps, k, r))
  }

  lemma SomewhereNext(run: seq<Requests>, steps: seq<Step>, k: nat, r: Handle)
    requires OrderlyRun(run, steps) && k < |steps| && SomewhereAt(run, steps, k, r)
    ensures SomewhereAt(run, steps, k + 1, r)
  {
    OrderHolds(run, steps, k);
    SoleStays(run[k], steps[k], r);
    StaysSomewhere(run[k], steps[k], r, Refused(run, steps, k, r));
    RefusedMore(run, steps, k, r);
  }

  lemma SomewhereFirst(run: seq<Requests>, steps: seq<Step>, k: nat, r: Handle)
    requires OrderlyRun(run, steps) && k < |steps| && !Requested(steps, k, r)
    requires steps[k].Start? && steps[k].op == Reserve(r)
    ensures SomewhereAt(run, steps, k + 1, r)
  {
    OrderHolds(run, steps, k);
    SoleStarts(run[k], steps[k], r);
    NotYetRefused(run, steps, k + 1, r);
  }

  lemma {:induction false} SomewhereInRun(run: seq<Requests>, steps: seq<Step>, k: nat, r: Handle)
    requires OrderlyRun(run, steps) && k < |run| && Requested(steps, k, r)
    ensures SomewhereAt(run, steps, k, r)
  {
    if Requested(steps, k - 1, r) {
      SomewhereInRun(run, steps, k - 1, r);
      SomewhereNext(run, steps, k - 1, r);
    } else {
      SomewhereFirst(run, steps, k - 1, r);
    }
  }

  lemma RefusedMore(run: seq<Requests>, steps: seq<Step>, k: nat, r: Handle)
    requires IsRun(run, steps) && k < |steps|
    ensures Refused(run, steps, k + 1, r) <==> Refused(run, steps, k, r) || TurnsAway(run[k], steps[k], run[k + 1], r)
  {
    if Refused(run, steps, k, r) {
      var j :| 0 <= j < k && TurnsAway(run[j], steps[j], run[j + 1], r);
      assert TurnsAway(run[j], steps[j], run[j + 1], r);
    }
  }

  /** Nobody works on a request that has not been made. */
  lemma {:induction false} NotYetThere(run: seq<Requests>, steps: seq<Step>, k: nat, r: Handle, i: nat)
    requires IsRun(run, steps) && k < |run| && i < |run[k].threads| && !Requested(steps, k, r)
    ensures Registers(run[k].threads[i]) ==> run[k].threads[i].r != r
  {
    if k > 0 {
      ThreadStep(run[k - 1], steps[k - 1]);
      NotYetThere(run, steps, k - 1, r, i);
      NotYetThere(run, steps, k - 1, r, steps[k - 1].i);
    }
  }

  lemma NotYetRefused(run: seq<Requests>, steps: seq<Step>, k: nat, r: Handle)
    requires IsRun(run, steps) && 0 < k < |run| && !Requested(steps, k - 1, r) && !steps[k - 1].Go?
    ensures !Refused(run, steps, k, r)
  {
    if Refused(run, steps, k, r) {
      var j :| 0 <= j < k && TurnsAway(run[j], steps[j], run[j + 1], r);
      NotYetThere(run, steps, j, r, steps[j].i);
    }
  }

  /** At rest a tracked request is open: a completed one has been taken out. */
  lemma CompletedHaveLeft(s: Requests, id: nat)
    requires OrderInv(s) && AtRest(s) && id in s.tracked
    ensures s.tracked[id] !in s.completed
  {
    assert OneDropper(s, id);
    TotalZero(Dropping, s.threads, id);
  }

  /**
   * Once every goroutine rests, a request is exactly one of three: refused at the limit and never
   * tracked, tracked and open, or completed and gone.
   */
  lemma EveryRequestSettles(run: seq<Requests>, steps: seq<Step>, k: nat, r: Handle)
    requires OrderlyRun(run, steps) && k < |run| && AtRest(run[k]) && Requested(steps, k, r)
    ensures Bit(Refused(run, steps, k, r)) + Bit(Tracks(run[k], r)) + Bit(r in run[k].completed) == 1
  {
    OrderHolds(run, steps, k);
    SomewhereInRun(run, steps, k, r);
    TotalZero(Registering, run[k].threads, r.id);
    if r.id in run[k].tracked { CompletedHaveLeft(run[k], r.id); }
  }

  // ---- completing and cancelling -------------------------------------------------------

  lemma TrackedUntilCompleted(s: Requests, a: Step, r: Handle)
    requires OrderInv(s) && Enabled(s, a) && Orderly(s, a) && (Tracks(s, r) || r in s.completed)
    ensures Tracks(Next(s, a), r) || r in Next(s, a).completed
  {
    var t := s.threads[a.i];
    assert ThreadOk(s, t);
    if a.Go? && t.Enter? {
      assert UsedOnce(s, t.r.id);
      RegisteringUntracked(s, a.i);
    }
  }

  lemma {:induction false} CompletedStay(run: seq<Requests>, steps: seq<Step>, j: nat, k: nat)
    requires IsRun(run, steps) && j <= k < |run|
    ensures run[j].completed <= run[k].completed
  {
    if j < k { CompletedStay(run, steps, j, k - 1); }
  }

  /** The goroutine is in the loop of a cancellation. */
  predicate InSweep(t: Thread) {
    t.Sweep? || ((t.Finish? || t.Drop? || t.Release? || t.Unblock?) && t.todo.Some?)
  }

  /** The keys it has still to look at. */
  function Ahead(t: Thread): seq<nat>
    requires InSweep(t)
  {
    if t.Sweep? then t.keys else t.todo.value
  }

  /** The cancellation has the request in hand, or will come to it. */
  predicate Meets(t: Thread, r: Handle) {
    InSweep(t) && (r.id in Ahead(t) || (t.Finish? && t.r == r))
  }

  /** The request is completed, or the cancellation meets it. */
  ghost predicate WillCancel(s: Requests, i: nat, r: Handle) {
    && i < |s.threads| && InSweep(s.threads[i])
    && (r in s.completed || (Tracks(s, r) && Meets(s.threads[i], r)))
  }

  lemma SweepStep(s: Requests, a: Step, i: nat, r: Handle)
    requires OrderInv(s) && Enabled(s, a) && Orderly(s, a) && WillCancel(s, i, r)
    ensures |Next(s, a).threads| == |s.threads|
    ensures InSweep(Next(s, a).threads[i]) ==> WillCancel(Next(s, a), i, r)
    ensures Next(s, a).threads[i].Zero? ==> r in Next(s, a).completed
  {
    ThreadStep(s, a);
    TrackedUntilCompleted(s, a, r);
    if a == Go(i) && r !in s.completed { OwnSweepStep(s, i, r); }
  }

  lemma OwnSweepStep(s: Requests, i: nat, r: Handle)
    requires OrderInv(s) && Enabled(s, Go(i)) && WillCancel(s, i, r) && r !in s.completed
    ensures r in Next(s, Go(i)).completed || Meets(Next(s, Go(i)).threads[i], r)
  {
    var t := s.threads[i];
    if t.Sweep? && t.keys != [] && r.id != t.keys[0] {
      assert r.id in t.keys[1..];
    }
  }

  lemma SweepGoesOn(run: seq<Requests>, steps: seq<Step>, k: nat, i: nat, r: Handle)
    requires OrderlyRun(run, steps) && k < |steps| && WillCancel(run[k], i, r)
    ensures i < |run[k + 1].threads|
    ensures InSweep(run[k + 1].threads[i]) ==> WillCancel(run[k + 1], i, r)
    ensures run[k + 1].threads[i].Zero? ==> r in run[k + 1].completed
  {
    OrderHolds(run, steps, k);
    SweepStep(run[k], steps[k], i, r);
  }

  lemma SweepStarts(run: seq<Requests>, steps: seq<Step>, j: nat, i: nat, keys: seq<nat>, r: Handle)
    requires OrderlyRun(run, steps) && j < |steps| && steps[j] == Keys(i, keys) && Tracks(run[j], r)
    ensures WillCancel(run[j + 1], i, r)
  {
    OrderHolds(run, steps, j);
    TrackedUntilCompleted(run[j], steps[j], r);
    assert r.id in Set(keys);
  }

  lemma {:induction false} WillCancelInRun(
    run: seq<Requests>, steps: seq<Step>, j: nat, k: nat, i: nat, keys: seq<nat>, r: Handle)
    requires OrderlyRun(run, steps) && j < k < |run| && steps[j] == Keys(i, keys) && Tracks(run[j], r)
    requires forall m :: j < m <= k ==> i < |run[m].threads| && InSweep(run[m].threads[i])
    ensures WillCancel(run[k], i, r)
    decreases k
  {
    if j + 1 == k {
      SweepStarts(run, steps, j, i, keys, r);
    } else {
      WillCancelInRun(run, steps, j, k - 1, i, keys, r);
      SweepGoesOn(run, steps, k - 1, i, r);
    }
  }

  /** When a cancellation has gone through the keys it listed, every request tracked at that listing is completed. */
  lemma CancelledAreCompleted(
    run: seq<Requests>, steps: seq<Step>, j: nat, k: nat, i: nat, keys: seq<nat>, r: Handle)
    requires OrderlyRun(run, steps) && j + 1 < k < |run| && steps[j] == Keys(i, keys) && Tracks(run[j], r)
    requires forall m :: j < m < k ==> i < |run[m].threads| && InSweep(run[m].threads[i])
    requires i < |run[k].threads| && run[k].threads[i].Zero?
    ensures r in run[k].completed
  {
    var last := k - 1;
    WillCancelInRun(run, steps, j, last, i, keys, r);
    SweepGoesOn(run, steps, last, i, r);
  }

  /** And once every goroutine rests, none of them is in the map. */
  lemma CancelledAreGone(
    run: seq<Requests>, steps: seq<Step>, j: nat, k: nat, n: nat, i: nat, keys: seq<nat>, r: Handle)
    requires OrderlyRun(run, steps) && j + 1 < k <= n < |run| && steps[j] == Keys(i, keys) && Tracks(run[j], r)
    requires forall m :: j < m < k ==> i < |run[m].threads| && InSweep(run[m].threads[i])
    requires i < |run[k].threads| && run[k].threads[i].Zero? && AtRest(run[n])
    ensures r in run[n].completed && !Tracks(run[n], r)
  {
    CancelledAreCompleted(run, steps, j, k, i, keys, r);
    CompletedStay(run, steps, k, n);
    OrderHolds(run, steps, n);
    if Tracks(run[n], r) { CompletedHaveLeft(run[n], r.id); }
  }

  /** Nobody but the goroutine itself moves it. */
  lemma {:induction false} Stands(run: seq<Requests>, steps: seq<Step>, j: nat, k: nat, i: nat)
    requires IsRun(run, steps) && j <= k < |run| && i < |run[j].threads|
    requires forall m :: j <= m < k ==> steps[m].i != i
    ensures i < |run[k].threads| && run[k].threads[i] == run[j].threads[i]
  {
    if j < k {
      Stands(run, steps, j, k - 1, i);
      ThreadStep(run[k - 1], steps[k - 1]);
    }
  }

  /** A goroutine that has found a tracked request completes it in its next step, and once all rest it is gone. */
  lemma FoundAreCompleted(run: seq<Requests>, steps: seq<Step>, j: nat, k: nat, i: nat, r: Handle)
    requires OrderlyRun(run, steps) && j < k < |steps| && steps[j] == Go(i) && steps[k] == Go(i)
    requires i < |run[j].threads| && run[j].threads[i] == Find(r.id) && Tracks(run[j], r)
    requires forall m :: j < m < k ==> steps[m].i != i
    ensures r in run[k + 1].completed
    ensures forall n :: k < n < |run| && AtRest(run[n]) ==> !Tracks(run[n], r)
  {
    ThreadStep(run[j], steps[j]);
    Stands(run, steps, j + 1, k, i);
    forall n | k < n < |run| && AtRest(run[n]) ensures !Tracks(run[n], r) {
      CompletedStay(run, steps, k + 1, n);
      OrderHolds(run, steps, n);
      if Tracks(run[n], r) { CompletedHaveLeft(run[n], r.id); }
    }
  }
}
