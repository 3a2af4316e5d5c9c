/** The passivation manager: an indexed min-heap of deadlines that mirrors a registry. */
module Passivation {
  import opened Basics

  datatype Strategy = TimeBased(timeout: int) | MessagesCount(maxMessages: int) | LongLived

  /** Scheduling metadata of one participant; index is its place in the heap, -1 if it has none. */
  class Entry {
    const id: string
    var strategy: Strategy
    var timeout: int
    var deadline: int
    var index: int
    var paused: bool

    constructor (id: string, strategy: Strategy)
      ensures this.id == id && this.strategy == strategy && index == -1 && !paused
    {
      this.id, this.strategy := id, strategy;
      timeout, deadline, index, paused := 0, 0, -1, false;
    }

    /** The check of trigger. */
    predicate Due(at: int)
      reads this`deadline
    {
      deadline <= at
    }

    /** The entry is due exactly when a ticker that measures the elapsed time would find it idle. */
    method RefreshDeadline(lastActivity: int, now: int)
      modifies this`deadline
      ensures deadline == Refreshed(lastActivity, now, timeout)
      ensures forall at :: Due(at) <==> Elapsed(lastActivity, now, at) >= timeout
    {
      var last := if lastActivity == 0 then now else lastActivity;
      deadline := last + timeout;
    }
  }

  /** The time since the last activity; without one, since the deadline was set. */
  function Elapsed(lastActivity: int, start: int, at: int): int {
    if lastActivity == 0 then at - start else at - lastActivity
  }

  /** Last activity plus timeout; an actor without recorded activity counts from now. */
  function Refreshed(lastActivity: int, now: int, timeout: int): int {
    (if lastActivity == 0 then now else lastActivity) + timeout
  }

  // ---- heap order on keys --------------------------------------------------------------

  function Parent(k: nat): nat
    requires k > 0
  {
    (k - 1) / 2
  }

  ghost predicate Edge(ks: seq<int>, k: nat)
    requires 0 < k < |ks|
  {
    ks[Parent(k)] <= ks[k]
  }

  /** Min-heap. */
  ghost predicate Heap(ks: seq<int>) {
    forall k :: 0 < k < |ks| ==> Edge(ks, k)
  }

  /** Heap but for the edge above j; j's children are fine with j's parent. */
  ghost predicate HeapAbove(ks: seq<int>, j: nat) {
    (forall k :: 0 < k < |ks| && k != j ==> Edge(ks, k)) && Bridged(ks, j)
  }

  /** Heap but for the edges below i; i's children are fine with i's parent. */
  ghost predicate HeapBelow(ks: seq<int>, i: nat) {
    (forall k :: 0 < k < |ks| && Parent(k) != i ==> Edge(ks, k)) && Bridged(ks, i)
  }

  /** Heap but for the edges at i, above and below. */
  ghost predicate HeapAround(ks: seq<int>, i: nat) {
    (forall k :: 0 < k < |ks| && k != i && Parent(k) != i ==> Edge(ks, k)) && Bridged(ks, i)
  }

  ghost predicate Bridged(ks: seq<int>, i: nat) {
    0 < i < |ks| ==> forall k :: 0 < k < |ks| && Parent(k) == i ==> ks[Parent(i)] <= ks[k]
  }

  lemma {:induction false} RootIsLeast(ks: seq<int>, k: nat)
    requires Heap(ks) && k < |ks|
    ensures ks[0] <= ks[k]
  {
    if k > 0 {
      assert Edge(ks, k);
      RootIsLeast(ks, Parent(k));
    }
  }

  function SwapAt<T>(s: seq<T>, i: nat, j: nat): seq<T>
    requires i < |s| && j < |s|
  {
    s[i := s[j]][j := s[i]]
  }

  /** One step of sifting up. */
  lemma UpStep(ks: seq<int>, j: nat)
    requires 0 < j < |ks| && HeapAbove(ks, j) && ks[j] < ks[Parent(j)]
    ensures HeapAbove(SwapAt(ks, Parent(j), j), Parent(j))
  {
    var i := Parent(j);
    var ks' := SwapAt(ks, i, j);
    forall k | 0 < k < |ks'| && k != i ensures Edge(ks', k) {
      if k != j { assert Edge(ks, k); }
    }
    if 0 < i {
      assert Edge(ks, i);
      forall k | 0 < k < |ks'| && Parent(k) == i ensures ks'[Parent(i)] <= ks'[k] {
        if k != j { assert Edge(ks, k); }
      }
    }
  }

  lemma UpDone(ks: seq<int>, j: nat)
    requires HeapAbove(ks, j) && (j == 0 || j >= |ks| || Edge(ks, j))
    ensures Heap(ks)
  {
  }

  /** One step of sifting down to the smaller child. */
  lemma DownStep(ks: seq<int>, i: nat, j: nat)
    requires 0 < j < |ks| && Parent(j) == i && HeapAround(ks, i) && ks[j] < ks[i]
    requires forall k :: 0 < k < |ks| && Parent(k) == i ==> ks[j] <= ks[k]
    ensures HeapBelow(SwapAt(ks, i, j), j)
  {
    var ks' := SwapAt(ks, i, j);
    forall k | 0 < k < |ks| && Parent(k) != j ensures Edge(ks', k) {
      if Parent(k) != i && k != i { assert Edge(ks, k); }
    }
    forall k | 0 < k < |ks| && Parent(k) == j ensures ks'[Parent(j)] <= ks'[k] {
      assert Edge(ks, k);
    }
  }

  lemma DownDone(ks: seq<int>, i: nat, j: nat)
    requires i < |ks| && j < |ks| && ks[i] <= ks[j]
    requires forall k :: 0 < k < |ks| && Parent(k) == i ==> ks[j] <= ks[k]
    ensures HeapAround(ks, i) ==> HeapAbove(ks, i)
    ensures HeapBelow(ks, i) ==> Heap(ks)
  {
  }

  /** Putting any key at i leaves the rest of the heap in order. */
  lemma ReplaceKeepsRest(ks: seq<int>, i: nat, x: int)
    requires Heap(ks) && i < |ks|
    ensures HeapAround(ks[i := x], i)
  {
    var ks' := ks[i := x];
    forall k | 0 < k < |ks'| && k != i && Parent(k) != i ensures Edge(ks', k) { assert Edge(ks, k); }
    if 0 < i {
      forall k | 0 < k < |ks'| && Parent(k) == i ensures ks'[Parent(i)] <= ks'[k] {
        assert Edge(ks, k) && Edge(ks, i);
      }
    }
  }

  lemma HeapPrefix(ks: seq<int>, n: nat)
    requires Heap(ks) && n <= |ks|
    ensures Heap(ks[..n])
  {
    forall k | 0 < k < n ensures Edge(ks[..n], k) { assert Edge(ks, k); }
  }

  /** The same entries, possibly in another order. */
  ghost predicate Permuted(a: seq<Entry>, b: seq<Entry>) {
    |a| == |b| && Set(a) == Set(b)
  }

  /** container/heap over the entries: Less compares deadlines, Swap keeps the indexes. */
  class DeadlineQueue {
    var items: seq<Entry>

    /** Every entry knows its place, so none is queued twice. */
    ghost predicate Indexed()
      reads this, items
    {
      forall k :: 0 <= k < |items| ==> items[k].index == k
    }

    ghost function Keys(): (ks: seq<int>)
      reads this, items
      ensures |ks| == |items| && forall k :: 0 <= k < |items| ==> ks[k] == items[k].deadline
    {
      seq(|items|, k requires 0 <= k < |items| reads this, items => items[k].deadline)
    }

    ghost predicate Valid()
      reads this, items
    {
      Indexed() && Heap(Keys())
    }

    constructor ()
      ensures items == []
    {
      items := [];
    }

    predicate Less(i: nat, j: nat)
      requires i < |items| && j < |items|
      reads this, items
    {
      items[i].deadline < items[j].deadline
    }

    method Swap(i: nat, j: nat)
      requires i < |items| && j < |items|
      modifies this, Set(items)`index
      ensures old(Indexed()) ==> Indexed()
      ensures items == SwapAt(old(items), i, j) && Permuted(items, old(items))
      ensures Keys() == SwapAt(old(Keys()), i, j)
    {
      ghost var was := items;
      items := SwapAt(items, i, j);
      items[i].index := i;
      items[j].index := j;
      forall e | e in was ensures e in items {
        var k :| 0 <= k < |was| && was[k] == e;
        assert items[if k == i then j else if k == j then i else k] == e;
      }
    }

    /** Swap on a queue whose indexes are right. */
    method SwapIndexed(i: nat, j: nat)
      requires Indexed() && i < |items| && j < |items|
      modifies this, Set(items)`index
      ensures Indexed() && items == SwapAt(old(items), i, j) && Permuted(items, old(items))
      ensures Keys() == SwapAt(old(Keys()), i, j)
    {
      Swap(i, j);
    }

    /** Exchanges an entry with its later parent. */
    method UpOnce(j: nat, ghost n: nat)
      requires 0 < j < n <= |items| && items[j].deadline < items[Parent(j)].deadline
      modifies this, Set(items)`index
      ensures old(Indexed()) ==> Indexed()
      ensures Permuted(items, old(items)) && items[n..] == old(items)[n..]
      ensures old(HeapAbove(Keys()[..n], j)) ==> HeapAbove(Keys()[..n], Parent(j))
    {
      ghost var ks := Keys()[..n];
      if HeapAbove(ks, j) { UpStep(ks, j); }
      Swap(Parent(j), j);
      assert Keys()[..n] == SwapAt(ks, Parent(j), j);
    }

    /** Sifts an entry up within the first n places. */
    method Up(start: nat, ghost n: nat)
      requires start < n <= |items|
      modifies this, Set(items)`index
      ensures old(Indexed()) ==> Indexed()
      ensures Permuted(items, old(items)) && items[n..] == old(items)[n..]
      ensures old(HeapAbove(Keys()[..n], start)) ==> Heap(Keys()[..n])
    {
      ghost var ordered := HeapAbove(Keys()[..n], start);
      var j: nat := start;
      while j > 0 && Less(j, Parent(j))
        invariant j < n <= |items| && (old(Indexed()) ==> Indexed())
        invariant ordered ==> HeapAbove(Keys()[..n], j)
        invariant Permuted(items, old(items)) && items[n..] == old(items)[n..]
      {
        UpOnce(j, n);
        j := Parent(j);
      }
      if ordered { UpDone(Keys()[..n], j); }
    }

    /** Up on a queue that is in order but for the edge above start. */
    method UpIndexed(start: nat, ghost n: nat)
      requires Indexed() && start < n <= |items| && HeapAbove(Keys()[..n], start)
      modifies this, Set(items)`index
      ensures Indexed() && Permuted(items, old(items))
      ensures Heap(Keys()[..n]) && items[n..] == old(items)[n..]
    {
      Up(start, n);
    }

    /** The smaller child of i within the first n places, or i if it has none. */
    method SmallerChild(i: nat, n: nat) returns (j: nat)
      requires i < n <= |items|
      ensures j < n && (j == i || (i < j && Parent(j) == i))
      ensures j == i ==> forall k :: 0 < k < n ==> Parent(k) != i
      ensures forall k :: 0 < k < n && Parent(k) == i ==> items[j].deadline <= items[k].deadline
    {
      var left := 2 * i + 1;
      if left >= n { return i; }
      j := left;
      if left + 1 < n && Less(left + 1, left) { j := left + 1; }
    }

    /** Exchanges i with its smaller, earlier child j. */
    method SwapDown(i: nat, j: nat, ghost n: nat)
      requires Indexed() && i < j < n <= |items| && Parent(j) == i && items[j].deadline < items[i].deadline
      requires HeapAround(Keys()[..n], i)
      requires forall k :: 0 < k < n && Parent(k) == i ==> items[j].deadline <= items[k].deadline
      modifies this, Set(items)`index
      ensures Indexed() && Permuted(items, old(items)) && items[n..] == old(items)[n..]
      ensures HeapBelow(Keys()[..n], j)
    {
      ghost var ks := Keys()[..n];
      DownStep(ks, i, j);
      SwapIndexed(i, j);
      assert Keys()[..n] == SwapAt(ks, i, j);
    }

    /** Exchanges i with its smaller child if that one is earlier; j is where the entry went. */
    method DownOnce(i: nat, n: nat) returns (j: nat)
      requires Indexed() && i < n <= |items| && HeapAround(Keys()[..n], i)
      modifies this, Set(items)`index
      ensures Indexed() && Permuted(items, old(items)) && items[n..] == old(items)[n..]
      ensures i <= j < n
      ensures j == i ==> items == old(items) && HeapAbove(Keys()[..n], i)
      ensures j == i && old(HeapBelow(Keys()[..n], i)) ==> Heap(Keys()[..n])
      ensures j > i ==> HeapBelow(Keys()[..n], j)
    {
      j := SmallerChild(i, n);
      ghost var ks := Keys()[..n];
      if !Less(j, i) {
        DownDone(ks, i, j);
        return i;
      }
      SwapDown(i, j, n);
    }

    /** Sifts an entry down within the first n places; says whether it moved. */
    method Down(start: nat, n: nat) returns (moved: bool)
      requires Indexed() && start < n <= |items| && HeapAround(Keys()[..n], start)
      modifies this, Set(items)`index
      ensures Indexed() && Permuted(items, old(items)) && items[n..] == old(items)[n..]
      ensures if moved then Heap(Keys()[..n]) else items == old(items) && HeapAbove(Keys()[..n], start)
    {
      var j := DownOnce(start, n);
      moved := j > start;
      if !moved { return; }
      var i := start;
      while i < j
        invariant start < j < n <= |items| && i <= j && Indexed()
        invariant Permuted(items, old(items)) && items[n..] == old(items)[n..]
        invariant if i < j then HeapBelow(Keys()[..n], j) else Heap(Keys()[..n])
        decreases n - i
      {
        i := j;
        BelowIsAround(Keys()[..n], i);
        j := DownOnce(i, n);
      }
    }

    /** Moves one queued deadline and restores the order. */
    method Refresh(e: Entry, lastActivity: int, now: int)
      requires Valid() && e in items
      modifies this, Set(items)`index, e`deadline
      ensures Valid() && Permuted(items, old(items))
      ensures e.deadline == Refreshed(lastActivity, now, e.timeout)
    {
      ghost var ks := Keys();
      e.RefreshDeadline(lastActivity, now);
      assert Keys() == ks[e.index := e.deadline];
      ReplaceKeepsRest(ks, e.index, e.deadline);
      Fix(e.index);
    }

    /** heap.Push: nothing stops a caller from pushing an entry that is queued already. */
    method Push(e: Entry)
      modifies this, Set(items)`index, e`index
      ensures Set(items) == Set(old(items)) + {e} && |items| == |old(items)| + 1
      ensures old(Valid()) && e !in old(items) ==> Valid()
    {
      ghost var ks := Keys();
      ghost var n := |items| + 1;
      e.index := |items|;
      items := items + [e];
      assert Keys()[..n] == ks + [e.deadline];
      if Heap(ks) { AppendKeepsRest(ks, e.deadline); }
      Up(|items| - 1, n);
      assert Keys()[..n] == Keys();
    }

    /** Drops the last entry; the first n places are already in order. */
    method DropLast() returns (e: Entry)
      requires Indexed() && items != [] && Heap(Keys()[..|items| - 1])
      modifies this, Set(items)`index
      ensures Valid() && e == old(items)[|old(items)| - 1] && e.index == -1
      ensures Set(items) == Set(old(items)) - {e} && |items| == |old(items)| - 1
    {
      var n := |items| - 1;
      ghost var ks := Keys()[..n];
      e := items[n];
      assert forall k :: 0 <= k < n ==> items[k] != e;
      e.index := -1;
      items := items[..n];
      assert Keys() == ks;
    }

    /** Exchanges entry i with the last one; the first n places are in order but for place i. */
    method SwapOut(i: nat, n: nat)
      requires Valid() && i < n == |items| - 1
      modifies this, Set(items)`index
      ensures Indexed() && Permuted(items, old(items)) && items[n] == old(items)[i] && HeapAround(Keys()[..n], i)
    {
      ghost var ks := Keys();
      HeapPrefix(ks, n);
      ReplaceKeepsRest(ks[..n], i, ks[n]);
      SwapIndexed(i, n);
      assert Keys()[..n] == ks[..n][i := ks[n]];
    }

    /** Puts place i of the first n in order; what lies beyond stays. */
    method Settle(i: nat, n: nat)
      requires Indexed() && i < n < |items| && HeapAround(Keys()[..n], i)
      modifies this, Set(items)`index
      ensures Indexed() && Permuted(items, old(items)) && items[n] == old(items)[n] && Heap(Keys()[..n])
    {
      var moved := Down(i, n);
      if !moved { UpIndexed(i, n); }
      assert items[n] == items[n..][0] == old(items)[n..][0];
    }

    /** Moves entry i to the last place, the others stay in order. */
    method ToEnd(i: nat)
      requires Valid() && i < |items|
      modifies this, Set(items)`index
      ensures Indexed() && Permuted(items, old(items)) && items[|items| - 1] == old(items)[i]
      ensures Heap(Keys()[..|items| - 1])
    {
      var n := |items| - 1;
      if n == i {
        HeapPrefix(Keys(), n);
      } else {
        SwapOut(i, n);
        Settle(i, n);
      }
    }

    /** heap.Remove: takes out the entry at i. */
    method Remove(i: nat) returns (e: Entry)
      requires Valid() && i < |items|
      modifies this, Set(items)`index
      ensures Valid() && e == old(items)[i] && e.index == -1
      ensures Set(items) == Set(old(items)) - {e} && |items| == |old(items)| - 1
    {
      ToEnd(i);
      e := DropLast();
    }

    method RootToEnd()
      requires Valid() && items != []
      modifies this, Set(items)`index
      ensures Indexed() && Permuted(items, old(items)) && items[|items| - 1] == old(items)[0]
      ensures Heap(Keys()[..|items| - 1])
    {
      var n := |items| - 1;
      HeapPrefix(Keys(), n);
      if n > 0 {
        SwapOut(0, n);
        ghost var last := items[n..];
        var moved := Down(0, n);
        if !moved { UpDone(Keys()[..n], 0); }
        assert items[n] == items[n..][0] == last[0];
      }
    }

    /** heap.Pop: takes out the root. */
    method Pop() returns (e: Entry)
      requires Valid() && items != []
      modifies this, Set(items)`index
      ensures Valid() && e == old(items)[0] && e.index == -1
      ensures Set(items) == Set(old(items)) - {e} && |items| == |old(items)| - 1
    {
      RootToEnd();
      e := DropLast();
    }

    /** No queued entry is due before the root. */
    lemma RootFirst()
      requires Heap(Keys()) && items != []
      ensures forall e :: e in items ==> items[0].deadline <= e.deadline
    {
      forall e | e in items ensures items[0].deadline <= e.deadline {
        var k :| 0 <= k < |items| && items[k] == e;
        RootIsLeast(Keys(), k);
      }
    }

    /** heap.Fix: puts the entry at i back in order after its deadline changed. */
    method Fix(i: nat)
      requires Indexed() && i < |items| && HeapAround(Keys(), i)
      modifies this, Set(items)`index
      ensures Valid() && Permuted(items, old(items))
    {
      ghost var n := |items|;
      assert Keys()[..n] == Keys();
      var moved := Down(i, |items|);
      if !moved { UpIndexed(i, n); }
      assert Keys()[..n] == Keys();
    }
  }

  lemma AppendKeepsRest(ks: seq<int>, x: int)
    requires Heap(ks)
    ensures HeapAbove(ks + [x], |ks|)
  {
    forall k | 0 < k < |ks| ensures Edge(ks + [x], k) { assert Edge(ks, k); }
  }

  lemma BelowIsAround(ks: seq<int>, i: nat)
    requires HeapBelow(ks, i)
    ensures HeapAround(ks, i)
  {
  }
}
