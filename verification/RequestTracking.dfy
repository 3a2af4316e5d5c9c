/** The in-flight requests of one actor and the counters that mirror them. */
module RequestTracking {
  import opened Basics

  /** One tracked request; stash requests block the actor's other messages. */
  class RequestState {
    const id: string
    const stash: bool
    var completed: bool
    var result: int
    var callback: Option<nat>

    constructor (id: string, stash: bool)
      ensures this.id == id && this.stash == stash && !completed && callback.None?
    {
      this.id, this.stash := id, stash;
      completed, result, callback := false, 0, None;
    }

    /** The first result wins; the caller that set it gets the continuation. */
    method Complete(value: int) returns (cb: Option<nat>, first: bool)
      modifies this
      ensures completed && first == !old(completed) && callback == old(callback)
      ensures result == if first then value else old(result)
      ensures cb == if first then callback else None
    {
      if completed { return None, false; }
      completed, result := true, value;
      return callback, true;
    }
  }

  /** The ids of the blocking requests. */
  ghost function Blocking(states: map<string, RequestState>): set<string> {
    set k | k in states && states[k].stash
  }

  lemma DropCounts(states: map<string, RequestState>, k: string)
    requires k in states
    ensures |Without(states, k)| == |states| - 1
    ensures |Blocking(Without(states, k))| == |Blocking(states)| - (if states[k].stash then 1 else 0)
    ensures Blocking(Without(states, k)) == Blocking(states) - {k}
  {
    assert Without(states, k).Keys == states.Keys - {k};
    assert Blocking(Without(states, k)) == Blocking(states) - {k};
  }

  /** A second request under a tracked id makes the counters run ahead of the map. */
  lemma SetCounts(states: map<string, RequestState>, r: RequestState)
    ensures |states[r.id := r]| == if r.id in states then |states| else |states| + 1
    ensures r.id !in states ==>
              |Blocking(states[r.id := r])| == |Blocking(states)| + (if r.stash then 1 else 0)
  {
    assert states[r.id := r].Keys == states.Keys + {r.id};
    if r.id !in states { BlockingMore(states, r); }
  }

  lemma BlockingMore(states: map<string, RequestState>, r: RequestState)
    requires r.id !in states
    ensures Blocking(states[r.id := r]) == Blocking(states) + (if r.stash then {r.id} else {})
    ensures |Blocking(states[r.id := r])| == |Blocking(states)| + (if r.stash then 1 else 0)
  {
    var more := if r.stash then {r.id} else {};
    forall k ensures k in Blocking(states[r.id := r]) <==> k in Blocking(states) + more { }
    assert Blocking(states) + {} == Blocking(states);
  }

  datatype Outcome = Ok | NilState | LimitReached

  class Reentrancy {
    const maxInFlight: int
    var states: map<string, RequestState>
    var inFlightCount: int
    var blockingCount: int

    ghost function Objects(): set<RequestState>
      reads this
    {
      set k | k in states :: states[k]
    }

    /** Counters and map agree, and every tracked request is open. */
    ghost predicate Valid()
      reads this, Objects()
    {
      && (forall k :: k in states ==> states[k].id == k && !states[k].completed)
      && inFlightCount == |states| && blockingCount == |Blocking(states)|
      && (maxInFlight > 0 ==> |states| <= maxInFlight)
    }

    constructor (maxInFlight: int)
      ensures Valid() && states == map[] && this.maxInFlight == maxInFlight
    {
      this.maxInFlight := maxInFlight;
      states, inFlightCount, blockingCount := map[], 0, 0;
    }

    /** Tracks a request unless the limit is reached; the counters stay right just for a new id. */
    method Register(r: RequestState?) returns (o: Outcome)
      requires Valid() && (r != null ==> !r.completed)
      modifies this
      ensures o == if r == null then NilState
                   else if maxInFlight > 0 && |old(states)| >= maxInFlight then LimitReached
                   else Ok
      ensures o != Ok ==> unchanged(this)
      ensures o == Ok ==> states == old(states)[r.id := r] && (Valid() <==> r.id !in old(states))
    {
      if r == null { return NilState; }
      if maxInFlight > 0 && inFlightCount >= maxInFlight { return LimitReached; }
      SetCounts(states, r);
      inFlightCount := inFlightCount + 1;
      if r.stash { blockingCount := blockingCount + 1; }
      states := states[r.id := r];
      return Ok;
    }

    /** What is true when one tracked request has been completed and not yet removed. */
    ghost predicate ValidBut(id: string)
      reads this, Objects()
    {
      && (forall k :: k in states ==> states[k].id == k && (k != id ==> !states[k].completed))
      && inFlightCount == |states| && blockingCount == |Blocking(states)|
      && (maxInFlight > 0 ==> |states| <= maxInFlight)
    }

    /** Stops tracking; stashed messages are released with the last blocking request. */
    method Deregister(r: RequestState) returns (unstash: bool)
      requires ValidBut(r.id) && (r.id in states ==> states[r.id] == r)
      modifies this
      ensures Valid() && states == Without(old(states), r.id)
      ensures unstash <==> r.id in old(states) && r.stash && Blocking(states) == {}
    {
      if r.id !in states {
        assert states == Without(states, r.id);
        return false;
      }
      DropCounts(states, r.id);
      states := Without(states, r.id);
      inFlightCount := inFlightCount - 1;
      unstash := false;
      if r.stash {
        blockingCount := blockingCount - 1;
        unstash := blockingCount == 0;
      }
    }

    /** Completes a tracked request, once; known says whether the id was tracked. */
    method CompleteRequest(id: string, value: int) returns (known: bool, run: Option<(nat, int)>, unstash: bool)
      requires Valid()
      modifies this, Objects()
      ensures Valid() && known == (id in old(states)) && states == Without(old(states), id)
      ensures known ==>
                var r := old(states[id]);
                && r.completed && r.result == value && r.callback == old(states[id].callback)
                && run == if r.callback.Some? then Some((r.callback.value, value)) else None
      ensures !known ==> run.None? && !unstash && unchanged(Objects())
      ensures known ==> (unstash <==> old(states[id].stash) && Blocking(states) == {})
      ensures forall k :: k in states ==> unchanged(states[k])
    {
      if id !in states {
        assert states == Without(states, id);
        return false, None, false;
      }
      var r := states[id];
      var cb, first := r.Complete(value);
      unstash := Deregister(r);
      return true, if cb.Some? then Some((cb.value, value)) else None, unstash;
    }

    /** One turn of the cancelling loop. */
    method CancelOne(k: string, reason: int)
      requires Valid() && k in states
      modifies this, states[k]
      ensures Valid() && states == Without(old(states), k)
      ensures old(states[k]).completed && old(states[k]).result == reason
    {
      var r := states[k];
      var _, first := r.Complete(reason);
      DropCounts(states, k);
      if first {
        states := Without(states, k);
        inFlightCount := inFlightCount - 1;
        if r.stash { blockingCount := blockingCount - 1; }
      }
    }

    /** Of all the requests those under the given ids are tracked still, the others cancelled. */
    ghost predicate Swept(all: map<string, RequestState>, todo: set<string>, reason: int)
      reads this, set k | k in all :: all[k]
    {
      && todo == states.Keys && (forall k :: k in states ==> k in all && states[k] == all[k])
      && (forall k :: k in all ==> all[k].id == k)
      && (forall k :: k in all && k !in todo ==> all[k].completed && all[k].result == reason)
    }

    /** The next request of the sweep. */
    method CancelNext(ghost all: map<string, RequestState>, ghost todo: set<string>, k: string, reason: int)
      requires Valid() && Swept(all, todo, reason) && k in todo
      modifies this, set j | j in all :: all[j]
      ensures Valid() && Swept(all, todo - {k}, reason)
    {
      assert forall j :: j in all && j != k ==> all[j] != all[k];
      CancelOne(k, reason);
    }

    /** Completes and forgets everything; both counters are down to zero before they are set to it. */
    method CancelEach(reason: int)
      requires Valid()
      modifies this, Objects()
      ensures Valid() && states == map[] && inFlightCount == 0 && blockingCount == 0
      ensures forall k :: k in old(states) ==> old(states)[k].completed && old(states)[k].result == reason
    {
      ghost var all := states;
      var todo := states.Keys;
      while todo != {}
        invariant Valid() && Swept(all, todo, reason)
        decreases todo
      {
        var k :| k in todo;
        CancelNext(all, todo, k, reason);
        todo := todo - {k};
      }
    }

    method CancelInFlight(reason: int)
      requires Valid()
      modifies this, Objects()
      ensures Valid() && states == map[]
      ensures forall k :: k in old(states) ==> old(states)[k].completed && old(states)[k].result == reason
    {
      CancelEach(reason);
      inFlightCount := 0;
      blockingCount := 0;
    }

    method Reset()
      modifies this
      ensures Valid() && states == map[]
    {
      states, inFlightCount, blockingCount := map[], 0, 0;
    }
  }
}
