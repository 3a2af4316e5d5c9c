/**
  The ready queue's rings as the code keeps them: fixed and growing ring buffers with
  head, tail and size updated in place, refining plain sequences.
 */
module ReadyQueue {
  import opened Basics
  import opened Kernel

  const GLOBAL_QUEUE_INITIAL_CAP: nat := 64

  /** The slot of the i-th item of a ring with n slots. */
  function Slot(head: nat, i: nat, n: nat): nat
    requires head < n && i <= n
  {
    if head + i < n then head + i else head + i - n
  }

  /** The code's modulo is that slot. */
  lemma WrapOnce(a: nat, n: nat)
    requires 0 < n && a < 2 * n
    ensures a % n == if a < n then a else a - n
  {
    if a >= n {
      assert a == (a - n) + n * 1;
      assert (a - n) % n == a - n;
    }
  }

  /** A bounded ring owned by one worker; siblings may steal from its head. */
  class LocalQueue<T> {
    const buf: array<Option<T>>
    var head: nat
    var tail: nat
    var size: nat
    var sizeAtomic: nat

    /** The ring: live slots hold items, every other slot has been cleared. */
    ghost predicate Ring()
      reads this, buf
    {
      && buf.Length == LOCAL_QUEUE_CAP && head < LOCAL_QUEUE_CAP && size <= LOCAL_QUEUE_CAP
      && tail == Slot(head, size, LOCAL_QUEUE_CAP)
      && (forall i :: 0 <= i < LOCAL_QUEUE_CAP ==> (buf[Slot(head, i, LOCAL_QUEUE_CAP)].Some? <==> i < size))
    }

    /** Outside a critical section the lock-free mirror agrees with size. */
    ghost predicate Valid()
      reads this, buf
    {
      Ring() && sizeAtomic == size
    }

    ghost function Contents(): (s: seq<T>)
      requires Ring()
      reads this, buf
      ensures |s| == size
    {
      seq(size, i requires 0 <= i < size && Ring() reads this, buf => buf[Slot(head, i, LOCAL_QUEUE_CAP)].value)
    }

    constructor ()
      ensures Valid() && Contents() == [] && fresh(buf)
    {
      buf := new Option<T>[LOCAL_QUEUE_CAP](_ => None);
      head, tail, size, sizeAtomic := 0, 0, 0, 0;
    }

    method PushBack(x: T) returns (ok: bool)
      requires Valid()
      modifies this, buf
      ensures Valid()
      ensures ok <==> |old(Contents())| < LOCAL_QUEUE_CAP
      ensures Contents() == if ok then old(Contents()) + [x] else old(Contents())
    {
      if size == LOCAL_QUEUE_CAP { return false; }
      Append(x);
      sizeAtomic := size;
      ok := true;
    }

    method PopFront() returns (r: Option<T>)
      requires Valid()
      modifies this, buf
      ensures Valid()
      ensures old(Contents()) == [] ==> r == None && Contents() == []
      ensures old(Contents()) != [] ==> r == Some(old(Contents())[0]) && Contents() == old(Contents())[1..]
    {
      if sizeAtomic == 0 { return None; }
      if size == 0 { return None; }
      var x := DropFirst();
      sizeAtomic := size;
      r := Some(x);
    }

    /** The tail write that pushBack and the steal loop share. */
    method Append(x: T)
      requires Ring() && size < LOCAL_QUEUE_CAP
      modifies this, buf
      ensures Ring() && sizeAtomic == old(sizeAtomic)
      ensures Contents() == old(Contents()) + [x]
    {
      buf[tail] := Some(x);
      tail := (tail + 1) % LOCAL_QUEUE_CAP;
      size := size + 1;
    }

    /** The head read that popFront and the steal loop share; it clears the slot. */
    method DropFirst() returns (x: T)
      requires Ring() && size > 0
      modifies this, buf
      ensures Ring() && sizeAtomic == old(sizeAtomic)
      ensures x == old(Contents())[0] && Contents() == old(Contents())[1..]
    {
      assert Slot(head, 0, LOCAL_QUEUE_CAP) == head;
      ghost var was := head;
      x := buf[head].value;
      buf[head] := None;
      head := (head + 1) % LOCAL_QUEUE_CAP;
      size := size - 1;
      forall i | 0 <= i < LOCAL_QUEUE_CAP - 1
        ensures Slot(head, i, LOCAL_QUEUE_CAP) == Slot(was, i + 1, LOCAL_QUEUE_CAP) {}
    }

    /**
      Moves up to half of this ring to dst in order and returns the first item.  With
      old contents [x] + moved + rest: x is returned, dst gains `moved` at its end, and
      `rest` stays; the move stops early when dst is full.
     */
    method StealHalf(dst: LocalQueue<T>) returns (r: Option<T>)
      requires Valid() && dst.Valid()
      requires dst != this && dst.buf != buf
      modifies this, buf, dst, dst.buf
      ensures Valid() && dst.Valid()
      ensures old(Contents()) == [] ==> r == None && Contents() == [] && dst.Contents() == old(dst.Contents())
      ensures old(Contents()) != [] ==>
        var k := MovedCount(|old(Contents())|, |old(dst.Contents())|);
        && r == Some(old(Contents())[0])
        && Contents() == old(Contents())[1 + k..]
        && dst.Contents() == old(dst.Contents()) + old(Contents())[1..1 + k]
    {
      if size == 0 { return None; }
      ghost var k;
      r, k := Transfer(dst);
      sizeAtomic := size;
      dst.sizeAtomic := dst.size;
    }

    /** The first item for the thief's hand, the rest of the half for its ring. */
    method Transfer(dst: LocalQueue<T>) returns (r: Option<T>, ghost k: nat)
      requires Ring() && dst.Ring() && dst != this && dst.buf != buf && size > 0
      modifies this, buf, dst, dst.buf
      ensures Ring() && dst.Ring()
      ensures k == MovedCount(|old(Contents())|, |old(dst.Contents())|) && 1 + k <= |old(Contents())|
      ensures r == Some(old(Contents())[0]) && Contents() == old(Contents())[1 + k..]
      ensures dst.Contents() == old(dst.Contents()) + old(Contents())[1..1 + k]
    {
      ghost var was := Contents();
      var stolen := (size + 1) / 2;
      var first := DropFirst();
      k := MoveTo(dst, stolen - 1);
      assert was[1..][..k] == was[1..1 + k] && was[1..][k..] == was[1 + k..];
      r := Some(first);
    }

    /** The transfer loop: up to `want` items, in order, until dst is full. */
    method MoveTo(dst: LocalQueue<T>, want: nat) returns (ghost k: nat)
      requires Ring() && dst.Ring() && dst != this && dst.buf != buf && want <= size
      modifies this, buf, dst, dst.buf
      ensures Ring() && dst.Ring()
      ensures k == if want <= LOCAL_QUEUE_CAP - |old(dst.Contents())| then want
                   else LOCAL_QUEUE_CAP - |old(dst.Contents())|
      ensures Contents() == old(Contents())[k..]
      ensures dst.Contents() == old(dst.Contents()) + old(Contents())[..k]
    {
      ghost var was, own := Contents(), dst.Contents();
      var i := 0;
      while i < want && dst.size < LOCAL_QUEUE_CAP
        invariant Ring() && dst.Ring()
        invariant 0 <= i <= want && |own| + i <= LOCAL_QUEUE_CAP
        invariant Contents() == was[i..] && dst.Contents() == own + was[..i]
      {
        assert was[i..][0] == was[i] && was[i..][1..] == was[i + 1..] && was[..i] + [was[i]] == was[..i + 1];
        var x := DropFirst();
        dst.Append(x);
        i := i + 1;
      }
      k := i;
    }
  }

  /** The shared overflow ring: doubles when full, never shrinks. */
  class GlobalQueue<T> {
    var buf: array<Option<T>>
    var head: nat
    var tail: nat
    var size: nat

    ghost predicate Valid()
      reads this, buf
    {
      && size <= buf.Length
      && (buf.Length == 0 ==> head == 0 && tail == 0)
      && (buf.Length > 0 ==> head < buf.Length && tail == Slot(head, size, buf.Length))
      && (forall i :: 0 <= i < buf.Length ==> (buf[Slot(head, i, buf.Length)].Some? <==> i < size))
    }

    ghost function Contents(): (s: seq<T>)
      requires Valid()
      reads this, buf
      ensures |s| == size
    {
      seq(size, i requires 0 <= i < size && Valid() reads this, buf => buf[Slot(head, i, buf.Length)].value)
    }

    constructor ()
      ensures Valid() && Contents() == [] && fresh(buf)
    {
      buf := new Option<T>[GLOBAL_QUEUE_INITIAL_CAP](_ => None);
      head, tail, size := 0, 0, 0;
    }

    method Push(x: T)
      requires Valid()
      modifies this, buf
      ensures Valid() && (buf == old(buf) || fresh(buf))
      ensures Contents() == old(Contents()) + [x]
    {
      if size == buf.Length { Grow(); }
      Append(x);
    }

    /** The tail write of push; there is a free slot. */
    method Append(x: T)
      requires Valid() && size < buf.Length
      modifies this, buf
      ensures Valid() && buf == old(buf) && Contents() == old(Contents()) + [x]
    {
      buf[tail] := Some(x);
      WrapOnce(tail + 1, buf.Length);
      tail := (tail + 1) % buf.Length;
      size := size + 1;
    }

    method Pop() returns (r: Option<T>)
      requires Valid()
      modifies this, buf
      ensures Valid() && buf == old(buf)
      ensures old(Contents()) == [] ==> r == None && Contents() == []
      ensures old(Contents()) != [] ==> r == Some(old(Contents())[0]) && Contents() == old(Contents())[1..]
    {
      if size == 0 { return None; }
      assert Slot(head, 0, buf.Length) == head;
      ghost var was := head;
      r := buf[head];
      buf[head] := None;
      WrapOnce(head + 1, buf.Length);
      head := (head + 1) % buf.Length;
      size := size - 1;
      forall i | 0 <= i < buf.Length - 1
        ensures Slot(head, i, buf.Length) == Slot(was, i + 1, buf.Length) {}
    }

    /** Doubles the capacity; order and contents stay. */
    method Grow()
      requires Valid() && size == buf.Length
      modifies this
      ensures Valid() && fresh(buf)
      ensures buf.Length == if old(buf.Length) == 0 then GLOBAL_QUEUE_INITIAL_CAP else 2 * old(buf.Length)
      ensures Contents() == old(Contents())
    {
      ghost var was := Contents();
      var newCap := buf.Length * 2;
      if newCap == 0 { newCap := GLOBAL_QUEUE_INITIAL_CAP; }
      var next := CopyOut(newCap);
      buf := next;
      head := 0;
      tail := size;
      forall j | 0 <= j < newCap ensures Slot(0, j, newCap) == j {}
    }

    /** The items in order from slot 0 of a fresh buffer, the other slots empty. */
    method CopyOut(newCap: nat) returns (next: array<Option<T>>)
      requires Valid() && size < newCap
      ensures fresh(next) && next.Length == newCap
      ensures forall j :: 0 <= j < newCap ==> next[j] == if j < size then Some(Contents()[j]) else None
    {
      next := new Option<T>[newCap](_ => None);
      for i := 0 to size
        invariant forall j :: 0 <= j < newCap ==> next[j] == if j < i then Some(Contents()[j]) else None
      {
        WrapOnce(head + i, buf.Length);
        next[i] := buf[(head + i) % buf.Length];
      }
    }
  }

  /** One ring per worker and the shared ring; the parking protocol around them is in Kernel. */
  class ReadyRings<T> {
    const locals: seq<LocalQueue<T>>
    const global: GlobalQueue<T>
    var globalCount: nat

    ghost function LocalBufs(): set<array<Option<T>>> {
      set i | 0 <= i < |locals| :: locals[i].buf
    }

    ghost predicate Valid()
      reads this, locals, LocalBufs(), global, global.buf
    {
      && |locals| > 0
      && (forall i :: 0 <= i < |locals| ==> locals[i].Valid())
      && (forall i, j :: 0 <= i < j < |locals| ==> locals[i] != locals[j] && locals[i].buf != locals[j].buf)
      && global.Valid() && global.buf !in LocalBufs()
      && globalCount == global.size
    }

    /** The workers' rings as plain sequences. */
    ghost function Locals(): (s: seq<seq<T>>)
      requires Valid()
      reads this, locals, LocalBufs(), global, global.buf
      ensures |s| == |locals| && forall i :: 0 <= i < |locals| ==> s[i] == locals[i].Contents()
    {
      seq(|locals|, i requires 0 <= i < |locals| && Valid() reads this, locals, LocalBufs(), global, global.buf =>
        locals[i].Contents())
    }

    ghost function Global(): (s: seq<T>)
      requires Valid()
      reads this, locals, LocalBufs(), global, global.buf
    {
      global.Contents()
    }

    constructor (workerCount: nat)
      requires workerCount >= 1
      ensures Valid() && |locals| == workerCount && Global() == []
      ensures forall i :: 0 <= i < workerCount ==> Locals()[i] == []
    {
      var qs: seq<LocalQueue<T>> := [];
      while |qs| < workerCount
        invariant |qs| <= workerCount
        invariant forall i :: 0 <= i < |qs| ==> fresh(qs[i]) && fresh(qs[i].buf)
        invariant forall i :: 0 <= i < |qs| ==> qs[i].Valid() && qs[i].Contents() == []
        invariant forall i, j :: 0 <= i < j < |qs| ==> qs[i] != qs[j] && qs[i].buf != qs[j].buf
      {
        var q := new LocalQueue<T>();
        qs := qs + [q];
      }
      var g := new GlobalQueue<T>();
      locals := qs;
      global := g;
      globalCount := 0;
    }

    method Push(x: T)
      requires Valid()
      modifies this, global, global.buf
      ensures Valid() && (global.buf == old(global.buf) || fresh(global.buf))
      ensures Global() == old(Global()) + [x] && Locals() == old(Locals())
    {
      global.Push(x);
      globalCount := global.size;
    }

    /** Appends to the worker's own ring unless that one is full. */
    method PushOwn(w: nat, x: T) returns (ok: bool)
      requires Valid() && w < |locals|
      modifies locals[w], locals[w].buf
      ensures Valid() && Global() == old(Global()) && ok == (|old(Locals())[w]| < LOCAL_QUEUE_CAP)
      ensures Locals() == if ok then old(Locals())[w := old(Locals())[w] + [x]] else old(Locals())
    {
      ok := locals[w].PushBack(x);
    }

    /** Appends to the worker's own ring, or to the shared ring when that one is full. */
    method PushLocal(w: nat, x: T)
      requires Valid() && w < |locals|
      modifies this, locals[w], locals[w].buf, global, global.buf
      ensures Valid() && (global.buf == old(global.buf) || fresh(global.buf))
      ensures |old(Locals())[w]| < LOCAL_QUEUE_CAP ==>
        Locals() == old(Locals())[w := old(Locals())[w] + [x]] && Global() == old(Global())
      ensures |old(Locals())[w]| == LOCAL_QUEUE_CAP ==>
        Locals() == old(Locals()) && Global() == old(Global()) + [x]
    {
      var ok := PushOwn(w, x);
      if ok { return; }
      Push(x);
    }

    method PopGlobal() returns (r: Option<T>)
      requires Valid()
      modifies this, global, global.buf
      ensures Valid() && global.buf == old(global.buf) && Locals() == old(Locals())
      ensures old(Global()) == [] ==> r == None && Global() == []
      ensures old(Global()) != [] ==> r == Some(old(Global())[0]) && Global() == old(Global())[1..]
    {
      if globalCount == 0 { return None; }
      r := global.Pop();
      if r.Some? { globalCount := global.size; }
    }

    method PopOwn(w: nat) returns (r: Option<T>)
      requires Valid() && w < |locals|
      modifies locals[w], locals[w].buf
      ensures Valid() && Global() == old(Global())
      ensures old(Locals())[w] == [] ==> r == None && Locals() == old(Locals())
      ensures old(Locals())[w] != [] ==>
        r == Some(old(Locals())[w][0]) && Locals() == old(Locals())[w := old(Locals())[w][1..]]
    {
      r := locals[w].PopFront();
    }

    method StealFrom(w: nat, v: nat) returns (r: Option<T>)
      requires Valid() && w < |locals| && v < |locals| && v != w && Locals()[v] != []
      modifies locals[w], locals[w].buf, locals[v], locals[v].buf
      ensures Valid() && Global() == old(Global())
      ensures r == Some(old(Locals())[v][0]) && Locals() == StealRings(old(Locals()), w, v)
    {
      ghost var was := Locals();
      assert was[v] == locals[v].Contents() && was[w] == locals[w].Contents();
      r := locals[v].StealHalf(locals[w]);
      forall i | 0 <= i < |locals| && i != v && i != w
        ensures locals[i].Valid() && locals[i].Contents() == was[i] {}
      assert Valid();
      StolenRings(was, Locals(), w, v);
    }

    /**
      Probes the siblings in rotation and steals from the first non-empty one: nil exactly
      when every sibling is empty, and then nothing changes.
     */
    method TrySteal(w: nat) returns (r: Option<T>, ghost i: nat)
      requires Valid() && w < |locals|
      modifies locals, LocalBufs()
      ensures Valid() && Global() == old(Global())
      ensures r.None? ==> Locals() == old(Locals()) && forall v :: 0 <= v < |locals| && v != w ==> Locals()[v] == []
      ensures r.Some? ==>
        && 1 <= i < |locals|
        && (forall j :: 1 <= j < i ==> old(Locals())[Victim(w, j, |locals|)] == [])
        && old(Locals())[Victim(w, i, |locals|)] != []
        && r.value == old(Locals())[Victim(w, i, |locals|)][0]
        && Locals() == StealRings(old(Locals()), w, Victim(w, i, |locals|))
    {
      var n := |locals|;
      i := 1;
      if n == 1 { return None, 1; }
      var k := 1;
      while k < n
        invariant 1 <= k <= n && Valid() && Locals() == old(Locals()) && Global() == old(Global())
        invariant forall j :: 1 <= j < k ==> Locals()[Victim(w, j, n)] == []
      {
        var v := Victim(w, k, n);
        if locals[v].sizeAtomic != 0 {
          r := StealFrom(w, v);
          i := k;
          return;
        }
        k := k + 1;
      }
      r := None;
      forall v | 0 <= v < n && v != w ensures Locals()[v] == [] { RotationCovers(w, v, n); }
    }

    /**
      One pass of take without blocking: own ring, then shared ring, then a steal.  It
      comes back empty-handed exactly when every ring is empty.
     */
    method TakeNow(w: nat) returns (r: Option<T>, ghost i: nat)
      requires Valid() && w < |locals|
      modifies this, locals, LocalBufs(), global, global.buf
      ensures Valid()
      ensures r.None? <==> old(Global()) == [] && forall v :: 0 <= v < |locals| ==> old(Locals())[v] == []
      ensures r.None? ==> Locals() == old(Locals()) && Global() == old(Global())
      ensures old(Locals())[w] != [] ==>
        && r == Some(old(Locals())[w][0]) && Locals() == old(Locals())[w := old(Locals())[w][1..]]
        && Global() == old(Global())
      ensures old(Locals())[w] == [] && old(Global()) != [] ==>
        r == Some(old(Global())[0]) && Locals() == old(Locals()) && Global() == old(Global())[1..]
      ensures old(Locals())[w] == [] && old(Global()) == [] && r.Some? ==>
        && 1 <= i < |locals| && Global() == []
        && (forall j :: 1 <= j < i ==> old(Locals())[Victim(w, j, |locals|)] == [])
        && old(Locals())[Victim(w, i, |locals|)] != [] && r.value == old(Locals())[Victim(w, i, |locals|)][0]
        && Locals() == StealRings(old(Locals()), w, Victim(w, i, |locals|))
    {
      i := 0;
      r := PopOwn(w);
      if r.Some? { return; }
      r := PopGlobal();
      if r.Some? { return; }
      r, i := TrySteal(w);
    }
  }

  /** A steal ring by ring is a steal on the family of rings. */
  lemma StolenRings<T>(was: seq<seq<T>>, now: seq<seq<T>>, w: nat, v: nat)
    requires |now| == |was| && w < |was| && v < |was| && w != v && was[v] != []
    requires
      var k := MovedCount(|was[v]|, |was[w]|);
      now[v] == was[v][1 + k..] && now[w] == was[w] + was[v][1..1 + k]
    requires forall i :: 0 <= i < |was| && i != v && i != w ==> now[i] == was[i]
    ensures now == StealRings(was, w, v)
  {
  }

  /** Every other worker is some sibling in the rotation. */
  lemma RotationCovers(w: nat, v: nat, n: nat)
    requires w < n && v < n && v != w
    ensures exists j :: 1 <= j < n && Victim(w, j, n) == v
  {
    var j := if v > w then v - w else v + n - w;
    RotationStaysOff(w, j, n);
    assert Victim(w, j, n) == v;
  }
}
