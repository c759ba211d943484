/** The binary heap that the queue keeps its items in: a list ordered parent before child. */
module HeapQ {
  import opened QueueModel

  function Parent(k: nat): nat
    requires 0 < k
  {
    (k - 1) / 2
  }

  /** A child never precedes its parent. */
  predicate EdgeOk(h: seq<Item>, k: nat)
    requires 0 < k < |h|
  {
    !Before(h[k], h[Parent(k)])
  }

  /** The heap property below position `lo`. */
  ghost predicate HeapFrom(h: seq<Item>, lo: nat) {
    forall k :: 0 < k < |h| && lo <= Parent(k) ==> EdgeOk(h, k)
  }

  ghost predicate IsHeap(h: seq<Item>) {
    HeapFrom(h, 0)
  }

  /** The same, but for the edges at one position, whose parent precedes its children. */
  ghost predicate HeapBut(h: seq<Item>, lo: nat, at: nat) {
    && (forall k :: 0 < k < |h| && lo <= Parent(k) && k != at && Parent(k) != at ==> EdgeOk(h, k))
    && (0 < at < |h| && lo <= Parent(at) ==>
          forall k :: 0 < k < |h| && Parent(k) == at ==> !Before(h[k], h[Parent(at)]))
  }

  ghost predicate ChildrenOk(h: seq<Item>, at: nat) {
    forall k :: 0 < k < |h| && Parent(k) == at ==> EdgeOk(h, k)
  }

  function Swap(h: seq<Item>, i: nat, j: nat): (r: seq<Item>)
    requires i < |h| && j < |h|
    ensures multiset(r) == multiset(h)
  {
    h[i := h[j]][j := h[i]]
  }

  lemma {:induction false} RootFirst(h: seq<Item>, k: nat)
    requires IsHeap(h) && k < |h|
    ensures !Before(h[k], h[0])
    decreases k
  {
    if k > 0 {
      assert EdgeOk(h, k);
      RootFirst(h, Parent(k));
    }
  }

  lemma SwapWithParent(h: seq<Item>, lo: nat, at: nat)
    requires 0 < at < |h| && lo <= Parent(at) && HeapBut(h, lo, at) && ChildrenOk(h, at)
    requires Before(h[at], h[Parent(at)])
    ensures HeapBut(Swap(h, Parent(at), at), lo, Parent(at)) && ChildrenOk(Swap(h, Parent(at), at), Parent(at))
  {
    var p := Parent(at);
    var r := Swap(h, p, at);
    forall k | 0 < k < |r| && lo <= Parent(k) && k != p && Parent(k) != p ensures EdgeOk(r, k) {
      if Parent(k) != at { assert EdgeOk(h, k); }
    }
    forall k | 0 < k < |r| && Parent(k) == p ensures EdgeOk(r, k) {
      if k != at { assert EdgeOk(h, k); }
    }
    if 0 < p && lo <= Parent(p) {
      assert EdgeOk(h, p);
      forall k | 0 < k < |r| && Parent(k) == p ensures !Before(r[k], r[Parent(p)]) {
        if k != at { assert EdgeOk(h, k); }
      }
    }
  }

  lemma SwapWithChild(h: seq<Item>, lo: nat, at: nat, child: nat)
    requires lo <= at < child < |h| && Parent(child) == at && HeapBut(h, lo, at)
    requires forall k :: 0 < k < |h| && Parent(k) == at ==> !Before(h[k], h[child])
    ensures HeapBut(Swap(h, at, child), lo, child)
  {
    var r := Swap(h, at, child);
    forall k | 0 < k < |r| && lo <= Parent(k) && k != child && Parent(k) != child ensures EdgeOk(r, k) {
      if k == at {
        assert !Before(h[child], h[Parent(at)]);
      } else if Parent(k) != at {
        assert EdgeOk(h, k);
      }
    }
    forall k | 0 < k < |r| && Parent(k) == child ensures !Before(r[k], r[at]) {
      assert EdgeOk(h, k);
    }
  }

  /** Moves the item at `at` towards `lo` until its parent no longer comes after it. */
  method SiftTowards(h: seq<Item>, lo: nat, at: nat) returns (r: seq<Item>)
    requires lo <= at < |h|
    requires HeapBut(h, lo, at) && ChildrenOk(h, at)
    ensures HeapFrom(r, lo) && multiset(r) == multiset(h)
    ensures |r| == |h|
  {
    r := h;
    var pos := at;
    while pos > lo && Parent(pos) >= lo && Before(r[pos], r[Parent(pos)])
      invariant lo <= pos < |r| == |h|
      invariant HeapBut(r, lo, pos) && ChildrenOk(r, pos)
      invariant multiset(r) == multiset(h)
    {
      SwapWithParent(r, lo, pos);
      r := Swap(r, Parent(pos), pos);
      pos := Parent(pos);
    }
  }

  /** The smaller child of `pos`, the left one if there is no other. */
  method SmallerChild(h: seq<Item>, pos: nat) returns (child: nat)
    requires 2 * pos + 1 < |h|
    ensures child < |h| && 0 < child && Parent(child) == pos
    ensures forall k | 0 < k < |h| && Parent(k) == pos :: !Before(h[k], h[child])
  {
    child := 2 * pos + 1;
    if child + 1 < |h| && !Before(h[child], h[child + 1]) {
      child := child + 1;
    }
  }

  /** Moves the item at `lo` down the smaller children to a leaf, then back up to its place. */
  method SiftDown(h: seq<Item>, lo: nat) returns (r: seq<Item>)
    requires lo < |h| && HeapFrom(h, lo + 1)
    ensures HeapFrom(r, lo) && multiset(r) == multiset(h)
    ensures |r| == |h|
  {
    r := h;
    var pos := lo;
    while 2 * pos + 1 < |r|
      invariant lo <= pos < |r| == |h|
      invariant HeapBut(r, lo, pos)
      invariant multiset(r) == multiset(h)
      decreases |r| - pos
    {
      var child := SmallerChild(r, pos);
      SwapWithChild(r, lo, pos, child);
      r := Swap(r, pos, child);
      pos := child;
    }
    r := SiftTowards(r, lo, pos);
  }

  method HeapPush(h: seq<Item>, x: Item) returns (r: seq<Item>)
    requires IsHeap(h)
    ensures IsHeap(r) && multiset(r) == multiset(h) + multiset{x}
  {
    r := SiftTowards(h + [x], 0, |h|);
  }

  method HeapPop(h: seq<Item>) returns (x: Item, r: seq<Item>)
    requires IsHeap(h) && h != []
    ensures x == h[0] && IsHeap(r) && multiset(r) + multiset{x} == multiset(h)
  {
    var last := h[|h| - 1];
    r := h[..|h| - 1];
    assert h == r + [last];
    if r == [] {
      return last, r;
    }
    x := r[0];
    r := SiftDown(r[0 := last], 0);
  }

  method Heapify(h: seq<Item>) returns (r: seq<Item>)
    ensures IsHeap(r) && multiset(r) == multiset(h)
  {
    r := h;
    var i: nat := |h| / 2;
    while i > 0
      invariant |r| == |h| && i <= |h| / 2
      invariant HeapFrom(r, i) && multiset(r) == multiset(h)
    {
      i := i - 1;
      r := SiftDown(r, i);
    }
  }

  /** Items are equal when their ordered fields are; the fingerprint is not compared. */
  predicate SameKey(a: Item, b: Item) {
    a.priority == b.priority && a.sequence == b.sequence
  }

  lemma WithoutOne(h: seq<Item>, i: nat)
    requires i < |h|
    ensures multiset(h[..i] + h[i + 1..]) + multiset{h[i]} == multiset(h)
  {
    assert h == h[..i] + [h[i]] + h[i + 1..];
  }

  method FindFirstEqual(h: seq<Item>, x: Item) returns (i: nat)
    requires x in h
    ensures i < |h| && SameKey(h[i], x)
    ensures forall j :: 0 <= j < i ==> !SameKey(h[j], x)
  {
    i := 0;
    while !SameKey(h[i], x)
      invariant i < |h| && x in h[i..]
      invariant forall j :: 0 <= j < i ==> !SameKey(h[j], x)
      decreases |h| - i
    {
      assert h[i..] == [h[i]] + h[i + 1..];
      i := i + 1;
    }
  }

  /** Removes the first item that compares equal to `x`, and keeps the order of the rest. */
  method RemoveFirstEqual(h: seq<Item>, x: Item) returns (r: seq<Item>)
    requires x in h
    ensures exists i :: && 0 <= i < |h| && SameKey(h[i], x) && r == h[..i] + h[i + 1..]
                        && forall j :: 0 <= j < i ==> !SameKey(h[j], x)
    ensures (forall y :: y in h && SameKey(y, x) ==> y == x) ==> multiset(r) + multiset{x} == multiset(h)
  {
    var i := FindFirstEqual(h, x);
    r := h[..i] + h[i + 1..];
    WithoutOne(h, i);
  }

  /** The item that comes last in queue order. */
  method LastInOrder(h: seq<Item>) returns (worst: Item)
    requires h != []
    ensures worst in h && forall y :: y in h ==> !Before(worst, y)
  {
    worst := h[0];
    for i := 1 to |h|
      invariant worst in h[..i] && forall y :: y in h[..i] ==> !Before(worst, y)
    {
      if Before(worst, h[i]) {
        worst := h[i];
      }
      assert h[..i + 1] == h[..i] + [h[i]];
    }
    assert h[..|h|] == h;
  }
}
