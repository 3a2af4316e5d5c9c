/** The registry around the heap: register, pause, touch, and the two halves of a trigger. */
module PassivationManager {
  import opened Basics
  import opened Passivation

  class Manager {
    var entries: map<string, Entry>
    const queue: DeadlineQueue
    var started: bool
    /** The entry the manager's goroutine has popped and is trying to passivate, lock released. */
    var inFlight: Entry?

    ghost function Objects(): set<Entry>
      reads this
    {
      (set k | k in entries :: entries[k]) + (if inFlight == null then {} else {inFlight})
    }

    ghost function At(id: string): set<Entry>
      reads this
    {
      if id in entries then {entries[id]} else {}
    }

    predicate Registered(e: Entry)
      reads this
    {
      e.id in entries && entries[e.id] == e
    }

    /** The queue holds registered, time-based, unpaused entries, and all of them but perhaps one. */
    ghost predicate Except(e: Entry?)
      reads this, Objects(), queue, queue.items
    {
      && queue.Valid()
      && "" !in entries
      && (forall k :: k in entries ==> entries[k].id == k)
      && (forall x :: x in queue.items ==> Registered(x) && Schedulable(x))
      && (forall x :: x in Objects() ==> x in queue.items || x.index == -1)
      && (forall k :: k in entries && Schedulable(entries[k]) && entries[k] != e ==> entries[k] in queue.items)
      && (forall k :: k in entries ==> Timed(entries[k]))
    }

    /** The one that may be missing from the queue is the entry in flight. */
    ghost predicate Sound()
      reads this, Objects(), queue, queue.items
    {
      Except(inFlight)
    }

    /** Sound, and the entry in flight has not been queued again. */
    ghost predicate Valid()
      reads this, Objects(), queue, queue.items
    {
      Sound() && (inFlight == null || inFlight !in queue.items)
    }

    constructor ()
      ensures Valid() && entries == map[] && started && inFlight == null && fresh(queue)
    {
      entries, started, inFlight := map[], true, null;
      queue := new DeadlineQueue();
    }

    /** Sound but for e, which is out of the queue whatever its fields say. */
    ghost predicate Apart(e: Entry)
      reads this, Objects(), e, queue, queue.items
    {
      && queue.Valid()
      && "" !in entries
      && (forall k :: k in entries ==> entries[k].id == k)
      && (forall x :: x in queue.items ==> Registered(x) && Schedulable(x))
      && (forall x :: x in Objects() ==> x in queue.items || x.index == -1)
      && (forall k :: k in entries && Schedulable(entries[k]) && entries[k] != inFlight && entries[k] != e ==>
            entries[k] in queue.items)
      && (forall k :: k in entries && entries[k] != e ==> Timed(entries[k]))
      && e !in queue.items && e.index == -1
    }

    /** Takes an entry out of the heap if it is there. */
    method Dequeue(e: Entry)
      requires Sound() && e in Objects()
      modifies queue, Set(queue.items)`index, e`index
      ensures Apart(e) && Set(queue.items) == Set(old(queue.items)) - {e}
    {
      if e.index >= 0 { TakeOut(e); }
      assert forall x :: x in queue.items <==> x in Set(queue.items);
    }

    method TakeOut(e: Entry)
      requires queue.Valid() && e in queue.items
      modifies queue, Set(queue.items)`index
      ensures queue.Valid() && Set(queue.items) == Set(old(queue.items)) - {e} && e.index == -1
    {
      var _ := queue.Remove(e.index);
      assert e !in Set(queue.items);
      e.index := -1;
    }

    /** Pushes an entry with a fresh deadline, queued already or not. */
    method PushFresh(e: Entry, lastActivity: int, now: int)
      modifies queue, Set(queue.items)`index, e`index, e`deadline
      ensures Set(queue.items) == Set(old(queue.items)) + {e} && |queue.items| == |old(queue.items)| + 1
      ensures e.deadline == Refreshed(lastActivity, now, e.timeout)
      ensures old(queue.Valid()) && e !in old(queue.items) ==> queue.Valid()
    {
      e.RefreshDeadline(lastActivity, now);
      queue.Push(e);
    }

    /** Puts a registered entry back with a fresh deadline. */
    method Enqueue(e: Entry, lastActivity: int, now: int)
      requires Apart(e) && Registered(e) && Schedulable(e) && Timed(e)
      modifies queue, Set(queue.items)`index, e`index, e`deadline
      ensures Sound() && Set(queue.items) == Set(old(queue.items)) + {e}
      ensures e.deadline == Refreshed(lastActivity, now, e.strategy.timeout)
    {
      PushFresh(e, lastActivity, now);
      assert forall x :: x in queue.items <==> x in Set(queue.items);
    }

    /** Pushes a registered, unpaused entry that may be queued already or no longer time-based. */
    method Requeue(e: Entry, lastActivity: int, now: int)
      requires Except(e) && inFlight == null && Registered(e) && !e.paused
      modifies queue, Set(queue.items)`index, e`index, e`deadline
      ensures Valid() <==> e.strategy.TimeBased? && e !in old(queue.items)
      ensures Set(queue.items) == Set(old(queue.items)) + {e} && |queue.items| == |old(queue.items)| + 1
      ensures e.deadline == Refreshed(lastActivity, now, Span(e))
    {
      assert Timed(e);
      if e in queue.items {
        RequeueAgain(e, lastActivity, now);
      } else {
        RequeueOnce(e, lastActivity, now);
      }
    }

    method RequeueAgain(e: Entry, lastActivity: int, now: int)
      requires e in queue.items
      modifies queue, Set(queue.items)`index, e`index, e`deadline
      ensures !queue.Indexed() && e.deadline == Refreshed(lastActivity, now, e.timeout)
      ensures Set(queue.items) == Set(old(queue.items)) + {e} && |queue.items| == |old(queue.items)| + 1
    {
      ghost var was := queue.items;
      PushFresh(e, lastActivity, now);
      assert Set(queue.items) == Set(was);
      QueuedTwice(queue, was);
    }

    method RequeueOnce(e: Entry, lastActivity: int, now: int)
      requires Except(e) && inFlight == null && Registered(e) && !e.paused && e !in queue.items
      modifies queue, Set(queue.items)`index, e`index, e`deadline
      ensures (Valid() <==> e.strategy.TimeBased?) && e.deadline == Refreshed(lastActivity, now, e.timeout)
      ensures Set(queue.items) == Set(old(queue.items)) + {e} && |queue.items| == |old(queue.items)| + 1
    {
      PushFresh(e, lastActivity, now);
      assert e in Set(queue.items) && forall x :: x in queue.items <==> x in Set(queue.items);
      if e.strategy.TimeBased? {
        assert forall x :: x in queue.items ==> Registered(x) && Schedulable(x);
        assert forall k :: k in entries && Schedulable(entries[k]) ==> entries[k] in queue.items;
      } else {
        assert !Schedulable(e);
      }
    }

    /** The entry to update in place: a new one, or the registered one taken out of the heap. */
    method Detach(id: string, strategy: Strategy) returns (e: Entry)
      requires Sound() && id != ""
      modifies this`entries, queue, Set(queue.items)`index, At(id)`index
      ensures Apart(e) && Registered(e) && e.id == id && Set(queue.items) == Set(old(queue.items)) - {e}
      ensures entries == old(entries)[id := e] && if id in old(entries) then e == old(entries[id]) else fresh(e)
    {
      if id !in entries {
        e := new Entry(id, strategy);
        entries := entries[id := e];
        return;
      }
      e := entries[id];
      Dequeue(e);
    }

    /** Gives a detached entry its strategy and, by that strategy, its place. */
    method Adopt(e: Entry, strategy: Strategy, lastActivity: int, now: int)
      requires Apart(e) && Registered(e)
      modifies this`entries, queue, Set(queue.items)`index, e
      ensures Sound()
      ensures entries == if strategy.LongLived? then Without(old(entries), e.id) else old(entries)
      ensures Set(queue.items) == Set(old(queue.items)) + (if strategy.TimeBased? then {e} else {})
      ensures e.strategy == strategy && !e.paused
      ensures e.timeout == if strategy.TimeBased? then strategy.timeout else old(e.timeout)
      ensures e.deadline == if strategy.TimeBased? then Refreshed(lastActivity, now, strategy.timeout)
                            else old(e.deadline)
    {
      e.strategy := strategy;
      e.paused := false;
      assert Apart(e);
      match strategy
      case TimeBased(timeout) =>
        e.timeout := timeout;
        Enqueue(e, lastActivity, now);
      case MessagesCount(_) =>
        assert Timed(e);
      case LongLived =>
        entries := Without(entries, e.id);
    }

    /**
     * Time-based strategies put the entry in the heap with a deadline counted from its last
     * activity, message counts keep it out, anything else drops the registration. The one way
     * to break the agreement is a time-based registration of the entry in flight.
     */
    method Register(id: string, strategy: Strategy, lastActivity: int, now: int) returns (ghost e: Entry?)
      requires Sound()
      modifies this`entries, queue, Set(queue.items)`index, At(id)
      ensures Sound() && (e == null <==> id == "" || !started)
      ensures e == null ==> entries == old(entries) && queue.items == old(queue.items)
      ensures e != null ==>
                && (if id in old(entries) then e == old(entries[id]) else fresh(e))
                && entries == (if strategy.LongLived? then Without(old(entries), id) else old(entries)[id := e])
                && e.strategy == strategy && !e.paused && (strategy.TimeBased? ==> e.timeout == strategy.timeout)
                && Set(queue.items) == Set(old(queue.items)) - {e} + (if strategy.TimeBased? then {e} else {})
                && (strategy.TimeBased? ==> e.deadline == Refreshed(lastActivity, now, strategy.timeout))
                && (!strategy.TimeBased? && id in old(entries) ==>
                      e.timeout == old(entries[id].timeout) && e.deadline == old(entries[id].deadline))
      ensures old(Valid()) ==> (Valid() <==> !(e != null && strategy.TimeBased? && e == inFlight))
    {
      if id == "" || !started { return null; }
      e := Enter(id, strategy, lastActivity, now);
      assert e in Set(queue.items) <==> strategy.TimeBased?;
      assert inFlight != null ==> (inFlight in queue.items <==> inFlight in Set(queue.items));
    }

    method Enter(id: string, strategy: Strategy, lastActivity: int, now: int) returns (e: Entry)
      requires Sound() && id != ""
      modifies this`entries, queue, Set(queue.items)`index, At(id)
      ensures Sound()
      ensures if id in old(entries) then e == old(entries[id]) else fresh(e)
      ensures entries == (if strategy.LongLived? then Without(old(entries), id) else old(entries)[id := e])
      ensures e.strategy == strategy && !e.paused && (strategy.TimeBased? ==> e.timeout == strategy.timeout)
      ensures Set(queue.items) == Set(old(queue.items)) - {e} + (if strategy.TimeBased? then {e} else {})
      ensures strategy.TimeBased? ==> e.deadline == Refreshed(lastActivity, now, strategy.timeout)
      ensures !strategy.TimeBased? && id in old(entries) ==>
                e.timeout == old(entries[id].timeout) && e.deadline == old(entries[id].deadline)
    {
      e := Detach(id, strategy);
      assert Without(old(entries)[id := e], id) == Without(old(entries), id);
      Adopt(e, strategy, lastActivity, now);
    }

    method Unregister(id: string)
      requires Sound()
      modifies this`entries, queue, Set(queue.items)`index, At(id)`index
      ensures Sound() && (old(Valid()) ==> Valid())
      ensures entries == Without(old(entries), id)
      ensures Set(queue.items) == Set(old(queue.items)) - old(At(id))
    {
      if id !in entries {
        assert Without(entries, id) == entries;
        return;
      }
      Dequeue(entries[id]);
      entries := Without(entries, id);
    }

    method Pause(id: string)
      requires Sound()
      modifies queue, Set(queue.items)`index, At(id)`index, At(id)`paused
      ensures Sound() && (old(Valid()) ==> Valid())
      ensures id in entries ==> entries[id].paused
      ensures Set(queue.items) == Set(old(queue.items)) - At(id)
    {
      if id !in entries || entries[id].paused { return; }
      var e := entries[id];
      assert Timed(e);
      Dequeue(e);
      assert forall x :: x in queue.items <==> x in Set(queue.items);
      Suspend(e);
    }

    /** Marks a detached entry as paused. */
    method Suspend(e: Entry)
      requires Apart(e) && Registered(e) && Timed(e)
      modifies e`paused
      ensures Sound() && e.paused
    {
      e.paused := true;
    }

    /** Requeues a paused time-based entry, even the one in flight. */
    method Resume(id: string, lastActivity: int, now: int) returns (ok: bool)
      requires Sound()
      modifies queue, Set(queue.items)`index, At(id)`index, At(id)`paused, At(id)`deadline
      ensures Sound() && ok == (id in entries)
      ensures ok ==> !entries[id].paused
      ensures
        var back := if ok && old(entries[id].paused) && entries[id].strategy.TimeBased? then At(id) else {};
        && Set(queue.items) == Set(old(queue.items)) + back
        && (forall e :: e in back ==> e.deadline == Refreshed(lastActivity, now, e.strategy.timeout))
        && (old(Valid()) ==> (Valid() <==> back == {} || back != {inFlight}))
    {
      ok := id in entries;
      if !ok || !entries[id].paused { return; }
      var e := entries[id];
      assert e in Objects() && e !in queue.items;
      e.paused := false;
      if e.strategy.TimeBased? {
        Enqueue(e, lastActivity, now);
        assert forall x :: x in queue.items <==> x in Set(queue.items);
      }
    }

    /** Moves the deadline of a queued entry; a participant in flight or paused is left alone. */
    method Touch(id: string, lastActivity: int, now: int)
      requires Sound()
      modifies queue, Set(queue.items)`index, At(id)`deadline
      ensures Sound() && (old(Valid()) ==> Valid()) && Set(queue.items) == Set(old(queue.items))
      ensures forall e :: e in At(id) ==>
                e.deadline == if e in queue.items then Refreshed(lastActivity, now, Span(e)) else old(e.deadline)
    {
      if id !in entries { return; }
      var e := entries[id];
      assert Timed(e);
      if e.paused || !e.strategy.TimeBased? || e.index < 0 { return; }
      queue.Refresh(e, lastActivity, now);
      assert forall x :: x in queue.items <==> x in Set(queue.items);
    }

    /** The unpaused entry with the least deadline and how long it still has. */
    method NextEntry(now: int) returns (e: Entry?, wait: int)
      requires queue.Valid()
      modifies queue, Set(queue.items)`index
      ensures queue.Valid() && Set(queue.items) <= Set(old(queue.items))
      ensures forall x :: x in old(queue.items) && x !in queue.items ==> x.paused && x.index == -1
      ensures e == null <==> queue.items == []
      ensures e != null ==> e in queue.items && !e.paused && wait == (if e.deadline > now then e.deadline - now else 0)
      ensures e != null ==> forall x :: x in queue.items ==> e.deadline <= x.deadline
      ensures old(Sound()) ==> queue.items == old(queue.items)
    {
      while queue.items != []
        invariant queue.Valid() && Set(queue.items) <= Set(old(queue.items))
        invariant forall x :: x in Set(old(queue.items)) - Set(queue.items) ==> x.paused && x.index == -1
        invariant queue.items == old(queue.items) || exists x :: x in old(queue.items) && x.paused
        decreases |queue.items|
      {
        e := queue.items[0];
        assert e in Set(queue.items);
        if e.paused {
          var _ := queue.Remove(e.index);
          e.index := -1;
        } else {
          wait := if e.deadline > now then e.deadline - now else 0;
          queue.RootFirst();
          return;
        }
      }
      e, wait := null, 0;
    }

    /** First half of a trigger: pops the expected root once its deadline has come. */
    method TriggerPop(expected: Entry, now: int) returns (popped: bool)
      requires Sound() && inFlight == null
      modifies this`inFlight, queue, Set(queue.items)`index
      ensures Valid()
      ensures popped <==> old(queue.items) != [] && old(queue.items)[0] == expected && expected.deadline <= now
      ensures popped ==> inFlight == expected && Set(queue.items) == Set(old(queue.items)) - {expected}
      ensures popped ==> forall x :: x in old(queue.items) ==> expected.deadline <= x.deadline
      ensures !popped ==> inFlight == null && queue.items == old(queue.items)
    {
      if queue.items == [] || queue.items[0] != expected || expected.deadline > now { return false; }
      queue.RootFirst();
      inFlight := queue.Pop();
      assert forall x :: x in queue.items <==> x in Set(queue.items);
      return true;
    }

    /** What settling the entry in flight needs: nobody queued it again or made it message-counted. */
    ghost predicate Settles(passivated: bool)
      requires inFlight != null
      reads this, inFlight, queue
    {
      Registered(inFlight) ==>
        if passivated then inFlight !in queue.items
        else inFlight.paused || (inFlight.strategy.TimeBased? && inFlight !in queue.items)
    }

    /** Second half of a trigger: drops the entry if it passivated, queues it again otherwise. */
    method TriggerFinish(passivated: bool, lastActivity: int, now: int)
      requires Sound() && inFlight != null
      modifies this`inFlight, this`entries, queue, Set(queue.items)`index, inFlight`index, inFlight`deadline
      ensures inFlight == null
      ensures Valid() <==> old(Settles(passivated))
      ensures
        var e := old(inFlight);
        && entries == (if old(Registered(inFlight)) && passivated then Without(old(entries), e.id) else old(entries))
        && (if old(Registered(inFlight)) && !passivated && !e.paused
            then Set(queue.items) == Set(old(queue.items)) + {e} && |queue.items| == |old(queue.items)| + 1
                 && e.deadline == Refreshed(lastActivity, now, Span(e))
            else queue.items == old(queue.items))
    {
      var e := inFlight;
      inFlight := null;
      if !Registered(e) { return; }
      if passivated {
        entries := Without(entries, e.id);
        return;
      }
      if e.paused { return; }
      Requeue(e, lastActivity, now);
    }
  }

  lemma {:induction false} SetSize(items: seq<Entry>)
    ensures |Set(items)| <= |items|
    ensures (forall k :: 0 <= k < |items| ==> items[k].index == k) ==> |Set(items)| == |items|
  {
    if items != [] {
      var n := |items| - 1;
      SetSize(items[..n]);
      assert Set(items) == Set(items[..n]) + {items[n]};
    }
  }

  /** One more place for the same entries: some entry is queued twice. */
  lemma QueuedTwice(queue: DeadlineQueue, was: seq<Entry>)
    requires |queue.items| == |was| + 1 && Set(queue.items) == Set(was)
    ensures !queue.Indexed()
  {
    SetSize(was);
    SetSize(queue.items);
  }

  /**
   * Whenever the participant of a trigger is registered again before the trigger settles, its
   * entry ends up in the heap twice, with a single index between the two places.
   */
  method RegisterDuringTrigger(m: Manager, timeout: int, lastActivity: int, now: int)
    requires m.Sound() && m.started && m.inFlight != null && m.Registered(m.inFlight)
    modifies m, m.queue, Set(m.queue.items)`index, m.inFlight
    ensures m.inFlight == null && !m.queue.Indexed()
    ensures Set(m.queue.items) == Set(old(m.queue.items)) + {old(m.inFlight)}
  {
    var e := m.inFlight;
    var _ := m.Register(e.id, TimeBased(timeout), lastActivity, now);
    ghost var mid := m.queue.items;
    assert Set(mid) == Set(old(m.queue.items)) + {e};
    m.TriggerFinish(false, lastActivity, now);
    assert Set(m.queue.items) == Set(mid);
    QueuedTwice(m.queue, mid);
  }

  /** The timeout that a time-based strategy asks for; any other leaves the last one behind. */
  function Span(e: Entry): int
    reads e
  {
    if e.strategy.TimeBased? then e.strategy.timeout else e.timeout
  }

  /** The entry's timeout is that of its strategy. */
  predicate Timed(e: Entry)
    reads e
  {
    e.timeout == Span(e)
  }

  /** Belongs in the heap. */
  predicate Schedulable(e: Entry)
    reads e
  {
    e.strategy.TimeBased? && !e.paused
  }
}
