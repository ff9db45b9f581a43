/** Heap sort on an array whose nodes are numbered from 0 although the children of node k are the
nodes 2k and 2k + 1: node 0 counts itself and node 1 as its children.
 */
module Heap {
  import opened Order
  import opened Cells
  import opened Sequences

  // ---------- Heaps ----------

  // Node c is not above its parent; the heap starts at d[lo].
  predicate UnderParent(d: seq<Elem>, lo: nat, c: nat)
    requires lo + c < |d|
  {
    d[lo + c].key <= d[lo + c / 2].key
  }

  // The nodes start..end form a heap: every node whose parent is among them is not above it.
  predicate HeapFrom(d: seq<Elem>, lo: nat, start: nat, end: nat) {
    && lo + end < |d|
    && forall c :: 0 <= c <= end && start <= c / 2 ==> UnderParent(d, lo, c)
  }

  // The same, except between root and its children; those are not above the parent of root.
  predicate HeapExcept(d: seq<Elem>, lo: nat, start: nat, end: nat, root: nat) {
    && lo + end < |d| && start <= root <= end
    && (forall c :: 0 <= c <= end && start <= c / 2 && c / 2 != root ==> UnderParent(d, lo, c))
    && (forall c :: 0 <= c <= end && c / 2 == root && start <= root / 2 && root / 2 != root ==>
          d[lo + c].key <= d[lo + root / 2].key)
  }

  // The root of a heap is its greatest element.
  lemma {:induction false} RootGreatest(d: seq<Elem>, lo: nat, end: nat, c: nat)
    requires HeapFrom(d, lo, 0, end) && c <= end
    ensures d[lo + c].key <= d[lo].key
  {
    if c > 0 {
      RootGreatest(d, lo, end, c / 2);
      assert UnderParent(d, lo, c);
    }
  }

  // The greater of the children is not above root: the heap is restored.
  lemma SiftEnds(d: seq<Elem>, lo: nat, start: nat, end: nat, root: nat, child: nat)
    requires HeapExcept(d, lo, start, end, root)
    requires 2 * root <= end ==> child <= end && (child == 2 * root || child == 2 * root + 1)
    requires 2 * root <= end ==> d[lo + 2 * root].key <= d[lo + child].key <= d[lo + root].key
    requires 2 * root + 1 <= end ==> d[lo + 2 * root + 1].key <= d[lo + child].key
    ensures HeapFrom(d, lo, start, end)
  {
    forall c | 0 <= c <= end && start <= c / 2 ensures UnderParent(d, lo, c) {
      if c / 2 == root {
        assert c == 2 * root || c == 2 * root + 1;
      }
    }
  }

  // Exchanging root with its greater child moves the exception down.
  lemma SiftMoves(d: seq<Elem>, e: seq<Elem>, lo: nat, start: nat, end: nat, root: nat, child: nat)
    requires HeapExcept(d, lo, start, end, root) && child <= end && (child == 2 * root || child == 2 * root + 1)
    requires d[lo + 2 * root].key <= d[lo + child].key && d[lo + root].key < d[lo + child].key
    requires 2 * root + 1 <= end ==> d[lo + 2 * root + 1].key <= d[lo + child].key
    requires e == d[lo + root := d[lo + child]][lo + child := d[lo + root]]
    ensures HeapExcept(e, lo, start, end, child) && root < child
  {
    assert child / 2 == root && root != child;
    forall c | 0 <= c <= end && start <= c / 2 && c / 2 != child ensures UnderParent(e, lo, c) {
      if c / 2 == root {
        assert c == 2 * root || c == 2 * root + 1;
      } else {
        assert UnderParent(d, lo, c);
      }
    }
    forall c | 0 <= c <= end && c / 2 == child && start <= child / 2 && child / 2 != child
      ensures e[lo + c].key <= e[lo + child / 2].key
    {
      assert UnderParent(d, lo, c);
    }
  }

  // The greater child of root.
  method GreaterChild(arr: array<Elem>, lo: nat, root: nat, end: nat) returns (child: nat)
    requires root * 2 <= end && lo + end < arr.Length
    ensures child <= end && (child == 2 * root || child == 2 * root + 1)
    ensures arr[lo + 2 * root].key <= arr[lo + child].key
    ensures 2 * root + 1 <= end ==> arr[lo + 2 * root + 1].key <= arr[lo + child].key
  {
    child := root * 2;
    if child < end && Cmp(arr[lo + child], arr[lo + (child + 1)]) < 0 {
      child := child + 1;
    }
  }

  // One round: exchanges root with its greater child, or finds that the heap is restored.
  method SiftOnce(arr: array<Elem>, lo: nat, start: nat, end: nat, root: nat, ghost hi: nat)
    returns (child: nat, done: bool)
    requires root * 2 <= end && hi == lo + end + 1 && HeapExcept(arr[..], lo, start, end, root)
    modifies arr
    ensures done ==> HeapFrom(arr[..], lo, start, end)
    ensures !done ==> root < child && HeapExcept(arr[..], lo, start, end, child)
    ensures Permuted(arr[..], old(arr[..]), lo, hi)
  {
    ghost var d := arr[..];
    child := GreaterChild(arr, lo, root, end);
    var i, j := lo + root, lo + child;
    if Cmp(arr[i], arr[j]) < 0 {
      SwapCells(arr, i, j);
      SiftMoves(d, arr[..], lo, start, end, root, child);
      PermutedSwap(d, i, j, lo, hi);
      done := false;
    } else {
      SiftEnds(d, lo, start, end, root, child);
      PermutedRefl(d, lo, hi);
      done := true;
    }
  }

  lemma SiftStarts(d: seq<Elem>, lo: nat, start: nat, end: nat)
    requires start <= end && HeapFrom(d, lo, start + 1, end)
    ensures HeapExcept(d, lo, start, end, start)
  {
    forall c | 0 <= c <= end && start <= c / 2 && c / 2 != start ensures UnderParent(d, lo, c) {
    }
  }

  /** HEAP_SIFT_DOWN on the heap at arr[lo]: given a heap below start, makes one from start on. */
  method SiftDown(arr: array<Elem>, lo: nat, start: nat, end: nat)
    requires start <= end && HeapFrom(arr[..], lo, start + 1, end)
    modifies arr
    ensures HeapFrom(arr[..], lo, start, end)
    ensures Permuted(arr[..], old(arr[..]), lo, lo + end + 1)
  {
    var root := start;
    ghost var d0, hi := arr[..], lo + end + 1;
    PermutedRefl(d0, lo, hi);
    SiftStarts(d0, lo, start, end);
    while root * 2 <= end
      invariant HeapExcept(arr[..], lo, start, end, root) && Permuted(arr[..], d0, lo, hi)
      decreases end - root
    {
      ghost var d := arr[..];
      var child, done := SiftOnce(arr, lo, start, end, root, hi);
      PermutedTrans(arr[..], d, d0, lo, hi);
      if done {
        return;
      }
      root := child;
    }
    SiftEnds(arr[..], lo, start, end, root, 0);
  }

  /** HEAPIFY: afterwards all nodes form a heap. */
  method Heapify(arr: array<Elem>, lo: nat, size: nat)
    requires 1 <= size && lo + size <= arr.Length
    modifies arr
    ensures HeapFrom(arr[..], lo, 0, size - 1)
    ensures Permuted(arr[..], old(arr[..]), lo, lo + size)
  {
    var start: nat, end: nat := size / 2, size - 1;
    ghost var d0, hi := arr[..], lo + size;
    PermutedRefl(d0, lo, hi);
    while true
      invariant start <= end && HeapFrom(arr[..], lo, start + 1, end) && Permuted(arr[..], d0, lo, hi)
      decreases start
    {
      ghost var d := arr[..];
      SiftDown(arr, lo, start, end);
      PermutedTrans(arr[..], d, d0, lo, hi);
      if start == 0 {
        break;
      }
      start := start - 1;
    }
  }

  // ---------- The sort ----------

  // The nodes before mid form a heap; the elements from mid on are in their final places.
  ghost predicate HeapState(d: seq<Elem>, d0: seq<Elem>, lo: nat, mid: nat, hi: nat) {
    && lo < mid <= hi && Permuted(d, d0, lo, hi) && HeapFrom(d, lo, 0, mid - lo - 1)
    && Sorted(d[mid..hi]) && Divided(d, lo, mid, hi)
  }

  lemma HeapWithoutRoot(d: seq<Elem>, e: seq<Elem>, lo: nat, end: nat)
    requires HeapFrom(d, lo, 0, end) && 0 < end && e == d[lo + end := d[lo]][lo := d[lo + end]]
    ensures HeapFrom(e, lo, 1, end - 1)
  {
    forall c {:trigger UnderParent(e, lo, c)} | 0 <= c <= end - 1 && 1 <= c / 2 ensures UnderParent(e, lo, c) {
      assert UnderParent(d, lo, c);
    }
  }

  // The root is the greatest of the heap, so that it may stand behind the rest of it.
  lemma RootLast(d: seq<Elem>, e: seq<Elem>, lo: nat, last: nat, hi: nat)
    requires lo < last < hi <= |d| && HeapFrom(d, lo, 0, last - lo) && Sorted(d[last + 1..hi])
    requires Divided(d, lo, last + 1, hi) && e == d[last := d[lo]][lo := d[last]]
    ensures Sorted(e[last..hi]) && Divided(e, lo, last, hi)
  {
    var v := d[last + 1..hi];
    assert e[last..hi] == [d[lo]] + v;
    forall i, j | 0 <= i < 1 && 0 <= j < |v| ensures [d[lo]][i].key <= v[j].key {
      assert InOrder(d, lo, last + 1 + j);
    }
    SortedConcat([d[lo]], v);
    forall i, j | lo <= i < last && last <= j < hi ensures InOrder(e, i, j) {
      var i' := if i == lo then last else i;
      RootGreatest(d, lo, last - lo, i' - lo);
      if last < j {
        assert InOrder(d, i', j);
      }
    }
  }

  // Moving the root behind the rest of the heap.
  lemma RootMoved(d: seq<Elem>, e: seq<Elem>, d0: seq<Elem>, lo: nat, last: nat, hi: nat)
    requires HeapState(d, d0, lo, last + 1, hi) && lo < last && e == d[last := d[lo]][lo := d[last]]
    ensures HeapFrom(e, lo, 1, last - lo - 1) && Permuted(e, d0, lo, hi)
    ensures Sorted(e[last..hi]) && Divided(e, lo, last, hi)
  {
    PermutedSwap(d, last, lo, lo, hi);
    PermutedTrans(e, d, d0, lo, hi);
    HeapWithoutRoot(d, e, lo, last - lo);
    RootLast(d, e, lo, last, hi);
  }

  lemma RestSifted(d: seq<Elem>, e: seq<Elem>, d0: seq<Elem>, lo: nat, last: nat, hi: nat)
    requires lo < last < hi && Permuted(d, d0, lo, hi) && Permuted(e, d, lo, last)
    requires Sorted(d[last..hi]) && Divided(d, lo, last, hi) && HeapFrom(e, lo, 0, last - lo - 1)
    ensures HeapState(e, d0, lo, last, hi)
  {
    PermutedWider(e, d, lo, last, lo, hi);
    PermutedTrans(e, d, d0, lo, hi);
    SameSlice(e, d, lo, last, last, hi);
    StillDivided(d, e, lo, last, hi, lo, last);
  }

  // One round: the greatest of the remaining elements goes to its final place, arr[last].
  method TakeRoot(arr: array<Elem>, lo: nat, end: nat, last: nat, ghost d0: seq<Elem>, ghost hi: nat)
    requires 0 < end && last == lo + end && HeapState(arr[..], d0, lo, last + 1, hi)
    modifies arr
    ensures HeapState(arr[..], d0, lo, last, hi)
  {
    ghost var d := arr[..];
    SwapCells(arr, last, lo);
    RootMoved(d, arr[..], d0, lo, last, hi);
    SiftRest(arr, lo, end - 1, last, d0, hi);
  }

  // Restores the heap before last.
  method SiftRest(arr: array<Elem>, lo: nat, end: nat, last: nat, ghost d0: seq<Elem>, ghost hi: nat)
    requires lo + end + 1 == last < hi && Permuted(arr[..], d0, lo, hi) && HeapFrom(arr[..], lo, 1, end)
    requires Sorted(arr[last..hi]) && Divided(arr[..], lo, last, hi)
    modifies arr
    ensures HeapState(arr[..], d0, lo, last, hi)
  {
    ghost var e := arr[..];
    SiftDown(arr, lo, 0, end);
    RestSifted(e, arr[..], d0, lo, last, hi);
  }

  /** HEAP_SORT */
  method HeapSort(arr: array<Elem>, lo: nat, size: nat)
    requires lo + size <= arr.Length
    modifies arr
    ensures Sorted(arr[lo..lo + size]) && Permuted(arr[..], old(arr[..]), lo, lo + size)
  {
    ghost var d0, hi := arr[..], lo + size;
    if size <= 1 {
      PermutedRefl(d0, lo, hi);
      return;
    }
    Heapify(arr, lo, size);
    var end: nat := size - 1;
    while end > 0
      invariant end < size && HeapState(arr[..], d0, lo, lo + end + 1, hi)
    {
      TakeRoot(arr, lo, end, lo + end, d0, hi);
      end := end - 1;
    }
    AllSorted(arr[..], d0, lo, lo + 1, hi);
  }

  lemma AllSorted(d: seq<Elem>, d0: seq<Elem>, lo: nat, mid: nat, hi: nat)
    requires HeapState(d, d0, lo, mid, hi) && mid == lo + 1
    ensures Sorted(d[lo..hi])
  {
    var s := d[lo..hi];
    forall i, j | 0 <= i <= j < |s| ensures InOrder(s, i, j) {
      if 0 == i < j {
        assert InOrder(d, lo, lo + j);
      } else if 0 < i {
        assert InOrder(d[mid..hi], i - 1, j - 1);
      }
    }
  }
}
