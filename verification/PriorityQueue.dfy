/** The pending queue: a binary heap in a slice, sifted as Go's container/heap does. */
module PriorityQueue {
  import opened Encoding
  import opened Types

  datatype Item = Item(tx: Transaction, priority: U64, addTime: int)

  /** Higher gas price first, then earlier arrival. */
  predicate Less(a: Item, b: Item) {
    if a.priority != b.priority then a.priority > b.priority else a.addTime < b.addTime
  }

  function Parent(k: nat): nat
    requires k > 0
  {
    (k - 1) / 2
  }

  /** Slot k ranks no earlier than its parent. */
  predicate Under(q: seq<Item>, k: nat)
    requires 0 < k < |q|
  {
    !Less(q[k], q[Parent(k)])
  }

  /** The first n slots form a heap. */
  ghost predicate IsHeap(q: seq<Item>, n: nat) {
    n <= |q| && forall k: nat :: 0 < k < n ==> Under(q, k)
  }

  function Swap(q: seq<Item>, i: nat, j: nat): (r: seq<Item>)
    requires i < |q| && j < |q|
    ensures |r| == |q|
  {
    q[i := q[j]][j := q[i]]
  }

  lemma SwapKeepsItems(q: seq<Item>, i: nat, j: nat)
    requires i < |q| && j < |q|
    ensures multiset(Swap(q, i, j)) == multiset(q)
  {}

  /** The root of a heap ranks first. */
  lemma {:induction false} RootRanksFirst(q: seq<Item>, n: nat, k: nat)
    requires IsHeap(q, n) && k < n
    ensures !Less(q[k], q[0])
    ensures q[0].priority > q[k].priority || (q[0].priority == q[k].priority && q[0].addTime <= q[k].addTime)
    decreases k
  {
    if k > 0 {
      RootRanksFirst(q, n, Parent(k));
      assert Under(q, k);
    }
  }

  // ---------- sift up ----------

  /** A heap except perhaps between slot j and its parent, which j's children respect. */
  ghost predicate UpInv(q: seq<Item>, j: nat) {
    && j < |q|
    && (forall k: nat :: 0 < k < |q| && k != j ==> Under(q, k))
    && (forall k: nat :: 0 < k < |q| && j > 0 && Parent(k) == j ==> !Less(q[k], q[Parent(j)]))
  }

  lemma UpStep(q: seq<Item>, j: nat)
    requires UpInv(q, j) && j > 0 && Less(q[j], q[Parent(j)])
    ensures UpInv(Swap(q, Parent(j), j), Parent(j))
  {
    var i := Parent(j);
    var r := Swap(q, i, j);
    forall k: nat | 0 < k < |r| && k != i ensures Under(r, k) {
      if k != j { assert Under(q, k); }
    }
    forall k: nat | 0 < k < |r| && i > 0 && Parent(k) == i ensures !Less(r[k], r[Parent(i)]) {
      assert Under(q, i);
      if k != j { assert Under(q, k); }
    }
  }

  lemma AppendUp(q: seq<Item>, item: Item)
    requires IsHeap(q, |q|)
    ensures UpInv(q + [item], |q|)
  {
    forall k: nat | 0 < k < |q| + 1 && k != |q| ensures Under(q + [item], k) {
      assert Under(q, k);
    }
  }

  /** An item that the parent of the next free slot does not rank behind. */
  predicate StaysBehind(q: seq<Item>, item: Item) {
    q == [] || !Less(item, q[Parent(|q|)])
  }

  /** Slot k lies between slot j and the root. */
  predicate OnPath(j: nat, k: nat) { j == k || (j > 0 && OnPath(Parent(j), k)) }

  lemma {:induction false} PathUp(j: nat, k: nat)
    requires OnPath(j, k) && k > 0
    ensures OnPath(j, Parent(k))
  {
    if j != k { PathUp(Parent(j), k); }
  }

  /** heap.Push: append, then sift the new slot up; no slot off its way to the root changes. */
  method Push(q0: seq<Item>, item: Item) returns (q: seq<Item>)
    requires IsHeap(q0, |q0|)
    ensures IsHeap(q, |q|) && multiset(q) == multiset(q0) + multiset{item} && |q| == |q0| + 1
    ensures StaysBehind(q0, item) ==> q == q0 + [item]
    ensures forall k :: 0 <= k < |q0| && !OnPath(|q0|, k) ==> q[k] == q0[k]
  {
    q := q0 + [item];
    var j: nat := |q0|;
    AppendUp(q0, item);
    while j > 0 && Less(q[j], q[Parent(j)])
      invariant UpInv(q, j) && |q| == |q0| + 1
      invariant multiset(q) == multiset(q0) + multiset{item}
      invariant OnPath(|q0|, j) && forall k :: 0 <= k < |q0| && !OnPath(|q0|, k) ==> q[k] == q0[k]
      invariant if j == |q0| then q == q0 + [item] else j < |q0| && Less(item, q0[Parent(|q0|)])
    {
      UpStep(q, j);
      PathUp(|q0|, j);
      SwapKeepsItems(q, Parent(j), j);
      q := Swap(q, Parent(j), j);
      j := Parent(j);
    }
    assert j > 0 ==> Under(q, j);
  }

  // ---------- sift down ----------

  /** The first n slots form a heap except perhaps below slot i, whose children respect i's parent. */
  ghost predicate DownInv(q: seq<Item>, n: nat, i: nat) {
    && n <= |q|
    && (forall k: nat :: 0 < k < n && Parent(k) != i ==> Under(q, k))
    && (forall k: nat :: 0 < k < n && i > 0 && Parent(k) == i ==> !Less(q[k], q[Parent(i)]))
  }

  lemma DownStep(q: seq<Item>, n: nat, i: nat, j: nat)
    requires DownInv(q, n, i) && 0 < j < n && Parent(j) == i && Less(q[j], q[i])
    requires forall k: nat :: 0 < k < n && Parent(k) == i ==> !Less(q[k], q[j])
    ensures DownInv(Swap(q, i, j), n, j)
  {
    var r := Swap(q, i, j);
    forall k: nat | 0 < k < n && Parent(k) != j ensures Under(r, k) {
      if Parent(k) != i { assert Under(q, k); }
    }
    forall k: nat | 0 < k < n && Parent(k) == j ensures !Less(r[k], r[Parent(j)]) {
      assert Under(q, k);
    }
  }

  lemma DownDone(q: seq<Item>, n: nat, i: nat)
    requires DownInv(q, n, i)
    requires forall k: nat :: 0 < k < n && Parent(k) == i ==> !Less(q[k], q[i])
    ensures IsHeap(q, n)
  {}

  /** The child of slot i that ranks first. */
  function FirstChild(q: seq<Item>, n: nat, i: nat): (j: nat)
    requires 2 * i + 1 < n <= |q|
    ensures 0 < j < n && Parent(j) == i && i < j
    ensures forall k: nat :: 0 < k < n && Parent(k) == i ==> !Less(q[k], q[j])
    ensures j == 2 * i + 1 || Less(q[j], q[2 * i + 1])
  {
    if 2 * i + 2 < n && Less(q[2 * i + 2], q[2 * i + 1]) then 2 * i + 2 else 2 * i + 1
  }

  /** heap's down(h, 0, n): the root sinks within the first n slots. */
  method Down(q0: seq<Item>, n: nat) returns (q: seq<Item>)
    requires DownInv(q0, n, 0)
    ensures IsHeap(q, n) && multiset(q) == multiset(q0) && |q| == |q0| && q[n..] == q0[n..]
  {
    q := q0;
    var i: nat := 0;
    while 2 * i + 1 < n
      invariant DownInv(q, n, i) && multiset(q) == multiset(q0) && |q| == |q0|
      invariant forall k :: n <= k < |q| ==> q[k] == q0[k]
      decreases n - i
    {
      var j := FirstChild(q, n, i);
      if !Less(q[j], q[i]) {
        ChildrenUnder(q, n, i, j);
        return;
      }
      DownStep(q, n, i, j);
      SwapKeepsItems(q, i, j);
      q := Swap(q, i, j);
      i := j;
    }
    DownDone(q, n, i);
  }

  lemma ChildrenUnder(q: seq<Item>, n: nat, i: nat, j: nat)
    requires DownInv(q, n, i) && i < j < n && !Less(q[j], q[i])
    requires forall k: nat :: 0 < k < n && Parent(k) == i ==> !Less(q[k], q[j])
    ensures IsHeap(q, n)
  {
    DownDone(q, n, i);
  }

  lemma SwappedRoot(q: seq<Item>)
    requires q != [] && IsHeap(q, |q|)
    ensures DownInv(Swap(q, 0, |q| - 1), |q| - 1, 0)
  {
    var n := |q| - 1;
    forall k: nat | 0 < k < n && Parent(k) != 0 ensures Under(Swap(q, 0, n), k) {
      assert Under(q, k);
    }
  }

  lemma HeapPrefix(q: seq<Item>, n: nat)
    requires IsHeap(q, n)
    ensures IsHeap(q[..n], n)
  {
    forall k: nat | 0 < k < n ensures Under(q[..n], k) {
      assert Under(q, k);
    }
  }

  /** heap.Pop: the root goes to the last slot, the replacement sinks, the last slot is cut off. */
  method Pop(q0: seq<Item>) returns (item: Item, q: seq<Item>)
    requires q0 != [] && IsHeap(q0, |q0|)
    ensures item == q0[0] && IsHeap(q, |q|) && |q| == |q0| - 1
    ensures multiset(q0) == multiset(q) + multiset{item}
  {
    hide IsHeap, DownInv;
    var n := |q0| - 1;
    SwappedRoot(q0);
    SwapKeepsItems(q0, 0, n);
    var sunk := Down(Swap(q0, 0, n), n);
    item := sunk[n];
    assert item == Swap(q0, 0, n)[n..][0];
    q := sunk[..n];
    HeapPrefix(sunk, n);
    assert sunk == q + [item];
  }
}
