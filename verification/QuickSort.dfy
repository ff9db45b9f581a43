/** The hybrid quicksort: small ranges go to the small sort, too many rounds to heap sort. */
module QuickSort {
  import opened Order
  import opened Cells
  import opened Insertion
  import opened Minrun
  import opened SmallSort
  import opened Heap
  import opened Sequences

  // size_t: unsigned arithmetic wraps around.
  const SIZE_MAX := 0xFFFF_FFFF_FFFF_FFFF
  type Size = x: int | 0 <= x <= SIZE_MAX

  // The value of a sum or difference that leaves the range of size_t by at most its width.
  function Wrap(x: int): Size
    requires -SIZE_MAX <= x <= 2 * SIZE_MAX
  {
    if x < 0 then x + SIZE_MAX + 1 else if SIZE_MAX < x then x - SIZE_MAX - 1 else x
  }

  // x - 1U
  function WrappedPred(x: Size): Size {
    if x == 0 then SIZE_MAX else x - 1
  }

  // ---------- The choice of the pivot ----------

  /** MEDIAN: one of its three indices.  The second branch repeats the first comparison instead of
      comparing a with c. */
  function Median(d: seq<Elem>, a: nat, b: nat, c: nat): (r: nat)
    requires a < |d| && b < |d| && c < |d|
    ensures r == a || r == b || r == c
  {
    if Cmp(d[a], d[b]) < 0 then
      if Cmp(d[b], d[c]) < 0 then b
      else if Cmp(d[a], d[c]) < 0 then c
      else a
    else if Cmp(d[a], d[b]) < 0 then a
    else if Cmp(d[b], d[c]) < 0 then c
    else b
  }

  // Neither are two of x, y, z below w nor two of them above it.
  predicate IsMiddle(w: int, x: int, y: int, z: int) {
    && !(x < w && y < w) && !(x < w && z < w) && !(y < w && z < w)
    && !(w < x && w < y) && !(w < x && w < z) && !(w < y && w < z)
  }

  /** MEDIAN finds the median unless b <= a < c, when it picks the greatest of the three. */
  lemma MedianExact(d: seq<Elem>, a: nat, b: nat, c: nat)
    requires a < |d| && b < |d| && c < |d|
    ensures IsMiddle(d[Median(d, a, b, c)].key, d[a].key, d[b].key, d[c].key) <==> !(d[b].key <= d[a].key < d[c].key)
    ensures d[b].key <= d[a].key < d[c].key ==> Median(d, a, b, c) == c
  {
  }

  // ---------- Partition ----------

  predicate BelowValue(d: seq<Elem>, k: int, v: Elem)
    requires 0 <= k < |d|
  {
    d[k].key < v.key
  }

  predicate SameKey(d: seq<Elem>, k: int, v: Elem)
    requires 0 <= k < |d|
  {
    d[k].key == v.key
  }

  // The state of the partition loop: below the value, then not below it, then not yet looked at.
  predicate Parting(d: seq<Elem>, left: nat, index: nat, i: nat, right: nat, v: Elem) {
    && left <= index <= i <= right < |d| && d[right] == v
    && (forall k :: left <= k < index ==> BelowValue(d, k, v))
    && (forall k :: index <= k < i ==> !BelowValue(d, k, v))
  }

  predicate AllSame(d: seq<Elem>, from: nat, to: nat, v: Elem) {
    to <= |d| && forall k :: from <= k < to ==> SameKey(d, k, v)
  }

  // One round of the loop.
  lemma PartingStep(d: seq<Elem>, e: seq<Elem>, left: nat, index: nat, i: nat, right: nat, v: Elem)
    requires Parting(d, left, index, i, right, v) && i < right
    requires e == if d[i].key < v.key then d[i := d[index]][index := d[i]] else d
    ensures Parting(e, left, if d[i].key < v.key then index + 1 else index, i + 1, right, v)
    ensures AllSame(e, left, i + 1, v) <==> AllSame(d, left, i, v) && d[i].key == v.key
  {
    var index', i' := if d[i].key < v.key then index + 1 else index, i + 1;
    forall k | left <= k < index' ensures BelowValue(e, k, v) {
      assert k < index ==> BelowValue(d, k, v);
    }
    forall k | index' <= k < i' ensures !BelowValue(e, k, v) {
      assert k < i ==> !BelowValue(d, k, v);
      assert index < i ==> !BelowValue(d, index, v);
    }
    if d[i].key < v.key {
      assert !SameKey(e, index, v);
    } else {
      assert SameKey(d, i, v) <==> d[i].key == v.key;
    }
  }

  // Everything before r is below d[r], and nothing behind it is: r is the final place of d[r].
  predicate Pivoted(d: seq<Elem>, left: nat, r: nat, hi: nat) {
    r < hi <= |d| && Divided(d, left, r, hi) && Divided(d, left, r + 1, hi)
  }

  // Everything before r is strictly below d[r] and nothing behind it is.
  predicate PartedAt(d: seq<Elem>, left: nat, r: nat, hi: nat) {
    && r < hi <= |d|
    && (forall k :: left <= k < r ==> d[k].key < d[r].key)
    && (forall k :: r < k < hi ==> d[r].key <= d[k].key)
  }

  lemma PartingEnds(d: seq<Elem>, e: seq<Elem>, left: nat, index: nat, right: nat, v: Elem)
    requires Parting(d, left, index, right, right, v) && e == d[right := d[index]][index := d[right]]
    ensures Pivoted(e, left, index, right + 1) && PartedAt(e, left, index, right + 1)
    ensures AllSame(d, left, right, v) <==> AllSame(e, left, right + 1, v)
  {
    var i' := index + 1;
    forall k | left <= k < index ensures e[k].key < v.key {
      assert BelowValue(d, k, v);
    }
    forall k | index <= k <= right ensures v.key <= e[k].key {
      assert index < right ==> !BelowValue(d, index, v);
      assert k < right ==> !BelowValue(d, k, v);
    }
    if AllSame(d, left, right, v) {
      forall k | left <= k < right + 1 ensures SameKey(e, k, v) {
        assert index < right ==> SameKey(d, index, v);
        assert k < right ==> SameKey(d, k, v);
      }
    } else {
      var k :| left <= k < right && !SameKey(d, k, v);
      assert !SameKey(e, if k == index then right else k, v);
    }
  }

  // One round of the loop: an element below the value joins the others in front.
  method PartitionStep(arr: array<Elem>, left: nat, index0: nat, i: nat, right: nat, value: Elem, ghost d0: seq<Elem>)
    returns (index: nat, cmp: int)
    requires i < right && Permuted(arr[..], d0, left, right + 1) && Parting(arr[..], left, index0, i, right, value)
    modifies arr
    ensures Permuted(arr[..], d0, left, right + 1) && Parting(arr[..], left, index, i + 1, right, value)
    ensures AllSame(arr[..], left, i + 1, value) <==> AllSame(old(arr[..]), left, i, value) && cmp == 0
  {
    ghost var d, hi := arr[..], right + 1;
    cmp := Cmp(arr[i], value);
    index := index0;
    if cmp < 0 {
      SwapCells(arr, i, index);
      PermutedSwap(d, i, index, left, hi);
      PermutedTrans(arr[..], d, d0, left, hi);
      index := index + 1;
    }
    PartingStep(d, arr[..], left, index0, i, right, value);
  }

  /** QUICK_SORT_PARTITION: SIZE_MAX exactly when all keys of the range are equal, and otherwise the
      final place of the pivot. */
  method Partition(arr: array<Elem>, left: nat, right: nat, pivot: nat) returns (r: Size)
    requires left <= pivot <= right < arr.Length <= SIZE_MAX
    modifies arr
    ensures Permuted(arr[..], old(arr[..]), left, right + 1)
    ensures r == SIZE_MAX <==> AllSame(arr[..], left, right + 1, arr[left])
    ensures r != SIZE_MAX ==> left <= r <= right && Pivoted(arr[..], left, r, right + 1)
    ensures r != SIZE_MAX ==> arr[r] == old(arr[pivot]) && PartedAt(arr[..], left, r, right + 1)
  {
    var value, index: nat, notAllSame := arr[pivot], left, false;
    ghost var d0, hi := arr[..], right + 1;
    SwapCells(arr, pivot, right);
    PermutedSwap(d0, pivot, right, left, hi);
    for i := left to right
      invariant Permuted(arr[..], d0, left, hi) && Parting(arr[..], left, index, i, right, value)
      invariant notAllSame <==> !AllSame(arr[..], left, i, value)
    {
      var cmp;
      index, cmp := PartitionStep(arr, left, index, i, right, value, d0);
      notAllSame := notAllSame || cmp != 0;
    }
    r := PlacePivot(arr, left, index, right, value, notAllSame, d0);
  }

  // The end of the partition: the pivot goes to its place.
  method PlacePivot(arr: array<Elem>, left: nat, index: nat, right: nat, value: Elem, notAllSame: bool,
                    ghost d0: seq<Elem>)
    returns (r: Size)
    requires right < arr.Length <= SIZE_MAX && Permuted(arr[..], d0, left, right + 1)
    requires Parting(arr[..], left, index, right, right, value) && notAllSame == !AllSame(arr[..], left, right, value)
    modifies arr
    ensures Permuted(arr[..], d0, left, right + 1)
    ensures r == SIZE_MAX <==> AllSame(arr[..], left, right + 1, arr[left])
    ensures r != SIZE_MAX ==> left <= r <= right && Pivoted(arr[..], left, r, right + 1)
    ensures r != SIZE_MAX ==> arr[r] == value && PartedAt(arr[..], left, r, right + 1)
  {
    ghost var d, hi := arr[..], right + 1;
    SwapCells(arr, right, index);
    PermutedSwap(d, right, index, left, hi);
    PermutedTrans(arr[..], d, d0, left, hi);
    PartingEnds(d, arr[..], left, index, right, value);
    assert arr[..][index] == value;
    SameAsFirst(arr[..], left, hi, value);
    r := if notAllSame then index else SIZE_MAX;
  }

  lemma SameAsFirst(d: seq<Elem>, left: nat, hi: nat, v: Elem)
    requires left < hi <= |d| && exists k :: left <= k < hi && d[k] == v
    ensures AllSame(d, left, hi, v) <==> AllSame(d, left, hi, d[left])
  {
    var k :| left <= k < hi && d[k] == v;
    if AllSame(d, left, hi, v) {
      assert SameKey(d, left, v);
      forall j | left <= j < hi ensures SameKey(d, j, d[left]) {
        assert SameKey(d, j, v);
      }
    }
    if AllSame(d, left, hi, d[left]) {
      assert SameKey(d, k, d[left]);
      forall j | left <= j < hi ensures SameKey(d, j, v) {
        assert SameKey(d, j, d[left]);
      }
    }
  }

  // ---------- The sort ----------

  predicate InOrderFrom(d: seq<Elem>, lo: nat, hi: nat) {
    lo <= hi <= |d| && forall i, j :: lo <= i <= j < hi ==> InOrder(d, i, j)
  }

  lemma SortedSegment(d: seq<Elem>, lo: nat, hi: nat)
    requires lo <= hi <= |d|
    ensures Sorted(d[lo..hi]) <==> InOrderFrom(d, lo, hi)
  {
    var s := d[lo..hi];
    if Sorted(s) {
      forall i, j | lo <= i <= j < hi ensures InOrder(d, i, j) {
        assert InOrder(s, i - lo, j - lo);
      }
    }
    if InOrderFrom(d, lo, hi) {
      forall i, j | 0 <= i <= j < |s| ensures InOrder(s, i, j) {
        assert InOrder(d, lo + i, lo + j);
      }
    }
  }

  // What remains to be sorted of lo..hi is from..to.
  ghost predicate Remaining(d: seq<Elem>, d0: seq<Elem>, lo: nat, from: nat, to: nat, hi: nat) {
    && lo <= from <= to <= hi && Permuted(d, d0, lo, hi)
    && InOrderFrom(d, lo, from) && InOrderFrom(d, to, hi)
    && Divided(d, lo, from, hi) && Divided(d, lo, to, hi)
  }

  lemma StillRemaining(d: seq<Elem>, e: seq<Elem>, d0: seq<Elem>, lo: nat, from: nat, to: nat, hi: nat, a: nat, b: nat)
    requires Remaining(d, d0, lo, from, to, hi) && from <= a <= b <= to && Permuted(e, d, a, b)
    ensures Remaining(e, d0, lo, from, to, hi)
  {
    PermutedWider(e, d, a, b, lo, hi);
    PermutedTrans(e, d, d0, lo, hi);
    StillDivided(d, e, lo, from, hi, a, b);
    StillDivided(d, e, lo, to, hi, a, b);
    forall i, j | lo <= i <= j < from ensures InOrder(e, i, j) {
      assert InOrder(d, i, j) && SameAt(e, d, i) && SameAt(e, d, j);
    }
    forall i, j | to <= i <= j < hi ensures InOrder(e, i, j) {
      assert InOrder(d, i, j) && SameAt(e, d, i) && SameAt(e, d, j);
    }
  }

  lemma LeftPartDone(d: seq<Elem>, d0: seq<Elem>, lo: nat, from: nat, r: nat, to: nat, hi: nat)
    requires Remaining(d, d0, lo, from, to, hi) && from <= r && Pivoted(d, from, r, to) && InOrderFrom(d, from, r)
    ensures Remaining(d, d0, lo, r + 1, to, hi)
  {
    var next := r + 1;
    forall i, j | lo <= i <= j < next ensures InOrder(d, i, j) {
      assert i < from <= j ==> InOrder(d, i, j);
    }
    forall i, j | lo <= i < next && next <= j < hi ensures InOrder(d, i, j) {
    }
  }

  lemma RightPartDone(d: seq<Elem>, d0: seq<Elem>, lo: nat, from: nat, r: nat, to: nat, hi: nat)
    requires Remaining(d, d0, lo, from, to, hi) && from <= r && Pivoted(d, from, r, to) && InOrderFrom(d, r + 1, to)
    ensures Remaining(d, d0, lo, from, r, hi)
  {
    forall i, j | r <= i <= j < hi ensures InOrder(d, i, j) {
      assert i < to <= j ==> InOrder(d, i, j);
    }
    forall i, j | lo <= i < r && r <= j < hi ensures InOrder(d, i, j) {
    }
  }

  lemma NothingRemains(d: seq<Elem>, d0: seq<Elem>, lo: nat, from: nat, to: nat, hi: nat)
    requires Remaining(d, d0, lo, from, to, hi) && InOrderFrom(d, from, to)
    ensures Sorted(d[lo..hi])
  {
    forall i, j | lo <= i <= j < hi ensures InOrder(d, i, j) {
      if i < from <= j {
      } else if i < to <= j {
      }
    }
    SortedSegment(d, lo, hi);
  }

  lemma SameInOrder(d: seq<Elem>, from: nat, to: nat)
    requires from < to <= |d| && AllSame(d, from, to, d[from])
    ensures InOrderFrom(d, from, to)
  {
    forall i, j | from <= i <= j < to ensures InOrder(d, i, j) {
      assert SameKey(d, i, d[from]) && SameKey(d, j, d[from]);
    }
  }

  // The index of the pivot.
  function PivotIndex(d: seq<Elem>, left: nat, right: nat): (pivot: nat)
    requires left <= right < |d|
    ensures left <= pivot <= right
  {
    var middle := left + (right - left) / 2;
    Median(d, left + (middle - left) / 2, Median(d, left, middle, right), middle + (right - middle) / 2)
  }

  lemma Halfway(l: nat, r: nat)
    requires l <= r
    ensures (l + r) / 2 == l + (r - l) / 2
  {
  }

  /** The pivot is MEDIAN of three elements: the one a quarter in, MEDIAN of both ends and the middle, and the one
      a quarter before the end. */
  lemma PivotOfFive(d: seq<Elem>, left: nat, right: nat, middle: nat, x: nat, y: nat)
    requires left <= right < |d| && middle == (left + right) / 2
    requires x == (left + middle) / 2 && y == (middle + right) / 2
    ensures PivotIndex(d, left, right) == Median(d, x, Median(d, left, middle, right), y)
  {
    Halfway(left, right);
    Halfway(left, middle);
    Halfway(middle, right);
  }

  // The pivot of a range, chosen from five of its elements.
  method ChoosePivot(arr: array<Elem>, left: nat, right: nat) returns (pivot: nat)
    requires left <= right < arr.Length
    ensures pivot == PivotIndex(arr[..], left, right)
  {
    var middle := left + (right - left) / 2;
    pivot := Median(arr[..], left, middle, right);
    pivot := Median(arr[..], left + (middle - left) / 2, pivot, middle + (right - middle) / 2);
  }

  // The test by which the source finds the larger side, on unsigned numbers: an empty side counts as
  // the largest possible one.
  predicate LeftIsLarger(left: nat, r: nat, right: nat)
    requires left <= r <= right <= SIZE_MAX
  {
    Wrap(r - 1 - left) > Wrap(right - r - 1)
  }

  lemma LargerSide(left: nat, r: nat, right: nat)
    requires left <= r <= right <= SIZE_MAX && left < right
    ensures LeftIsLarger(left, r, right) <==> r == left || (r < right && right - r < r - left)
  {
  }

  // The recursive call sorted the part behind the pivot, or the part before it.
  lemma AfterRight(d: seq<Elem>, e: seq<Elem>, d0: seq<Elem>, lo: nat, from: nat, r: nat, to: nat, hi: nat)
    requires Remaining(d, d0, lo, from, to, hi) && from <= r && Pivoted(d, from, r, to)
    requires Permuted(e, d, r + 1, to) && Sorted(e[r + 1..to])
    ensures Remaining(e, d0, lo, from, r, hi)
  {
    var next := r + 1;
    StillRemaining(d, e, d0, lo, from, to, hi, next, to);
    StillDivided(d, e, from, r, to, next, to);
    StillDivided(d, e, from, next, to, next, to);
    SortedSegment(e, next, to);
    RightPartDone(e, d0, lo, from, r, to, hi);
  }

  lemma AfterLeft(d: seq<Elem>, e: seq<Elem>, d0: seq<Elem>, lo: nat, from: nat, r: nat, to: nat, hi: nat)
    requires Remaining(d, d0, lo, from, to, hi) && from <= r && Pivoted(d, from, r, to)
    requires Permuted(e, d, from, r) && Sorted(e[from..r])
    ensures Remaining(e, d0, lo, r + 1, to, hi)
  {
    StillRemaining(d, e, d0, lo, from, to, hi, from, r);
    StillDivided(d, e, from, r, to, from, r);
    StillDivided(d, e, from, r + 1, to, from, r);
    SortedSegment(e, from, r);
    LeftPartDone(e, d0, lo, from, r, to, hi);
  }

  // Partitions what remains; SIZE_MAX when nothing is left to do.
  method PartitionRemaining(arr: array<Elem>, left: nat, right: nat, ghost d0: seq<Elem>, ghost lo: nat, ghost to: nat,
                            ghost hi: nat)
    returns (r: Size)
    requires left < right < arr.Length <= SIZE_MAX && to == right + 1 && Remaining(arr[..], d0, lo, left, to, hi)
    modifies arr
    ensures r == SIZE_MAX ==> Sorted(arr[lo..hi]) && Permuted(arr[..], d0, lo, hi)
    ensures r != SIZE_MAX ==> left <= r <= right && Pivoted(arr[..], left, r, to)
    ensures r != SIZE_MAX ==> arr[r] == old(arr[PivotIndex(arr[..], left, right)])
    ensures Remaining(arr[..], d0, lo, left, to, hi)
  {
    ghost var d := arr[..];
    var pivot := ChoosePivot(arr, left, right);
    r := Partition(arr, left, right, pivot);
    StillRemaining(d, arr[..], d0, lo, left, to, hi, left, to);
    if r == SIZE_MAX {
      SameInOrder(arr[..], left, to);
      NothingRemains(arr[..], d0, lo, left, to, hi);
    }
  }

  // The two ways on from a partition: one side is sorted recursively, the other one remains.
  method SortRightSide(arr: array<Elem>, left: nat, r: nat, right: nat, ghost d0: seq<Elem>, ghost lo: nat,
                       ghost to: nat, ghost hi: nat)
    requires left <= r < right < arr.Length <= SIZE_MAX && to == right + 1
    requires Remaining(arr[..], d0, lo, left, to, hi) && Pivoted(arr[..], left, r, to)
    modifies arr
    ensures Remaining(arr[..], d0, lo, left, r, hi)
    decreases right - left, 0
  {
    ghost var d := arr[..];
    QuickSortRecursive(arr, r + 1, right);
    AfterRight(d, arr[..], d0, lo, left, r, to, hi);
  }

  method SortLeftSide(arr: array<Elem>, left: nat, r: nat, right: nat, ghost d0: seq<Elem>, ghost lo: nat,
                      ghost to: nat, ghost hi: nat)
    requires left < r <= right < arr.Length <= SIZE_MAX && to == right + 1
    requires Remaining(arr[..], d0, lo, left, to, hi) && Pivoted(arr[..], left, r, to)
    modifies arr
    ensures Remaining(arr[..], d0, lo, r + 1, to, hi)
    decreases right - left, 0
  {
    ghost var d := arr[..];
    QuickSortRecursive(arr, left, r - 1);
    AfterLeft(d, arr[..], d0, lo, left, r, to, hi);
  }

  // Recursion on one side; the other one remains.  The recursive call gets the side that is not the larger
  // one exactly when the pivot is not at an end of the range.
  method SortOneSide(arr: array<Elem>, left0: nat, r: nat, right0: nat, ghost d0: seq<Elem>, ghost lo: nat,
                         ghost to0: nat, ghost hi: nat)
    returns (left: nat, right: Size, ghost to: nat)
    requires left0 <= r <= right0 < arr.Length <= SIZE_MAX && left0 < right0 && to0 == right0 + 1
    requires Remaining(arr[..], d0, lo, left0, to0, hi) && Pivoted(arr[..], left0, r, to0)
    modifies arr
    ensures Remaining(arr[..], d0, lo, left, to, hi) && right == WrappedPred(to)
    ensures left <= to <= SIZE_MAX && to - left < to0 - left0
    ensures (left0, to) == (left, r) || (left, to) == (r + 1, to0)
    ensures (to0 - left0 - 1) - (to - left) <= to - left <==> left0 < r < right0
    decreases right0 - left0, 1
  {
    LargerSide(left0, r, right0);
    if LeftIsLarger(left0, r, right0) {
      SortRightSide(arr, left0, r, right0, d0, lo, to0, hi);
      left, right, to := left0, WrappedPred(r), r;
    } else {
      SortLeftSide(arr, left0, r, right0, d0, lo, to0, hi);
      left, right, to := r + 1, right0, to0;
    }
  }

  // The unsigned size of the remaining range is right even for the empty range 0..0.
  lemma RangeSize(left: nat, right: Size, to: nat)
    requires left <= to <= SIZE_MAX && right == WrappedPred(to) && !(right <= left)
    ensures left + Wrap(right - left + 1) == to
    ensures Wrap(right - left + 1) > 1 ==> right + 1 == to
  {
  }

  lemma SortedAtOnce(d: seq<Elem>, e: seq<Elem>, d0: seq<Elem>, lo: nat, from: nat, to: nat, hi: nat)
    requires Remaining(d, d0, lo, from, to, hi) && Permuted(e, d, from, to) && Sorted(e[from..to])
    ensures Sorted(e[lo..hi]) && Permuted(e, d0, lo, hi)
  {
    StillRemaining(d, e, d0, lo, from, to, hi, from, to);
    SortedSegment(e, from, to);
    NothingRemains(e, d0, lo, from, to, hi);
  }

  // The small sort of what remains, which may be nothing at all.
  method SortSmall(arr: array<Elem>, left: nat, n: nat, ghost d0: seq<Elem>, ghost lo: nat, ghost to: nat,
                   ghost hi: nat)
    requires left + n == to <= arr.Length && Remaining(arr[..], d0, lo, left, to, hi)
    modifies arr
    ensures Sorted(arr[lo..hi]) && Permuted(arr[..], d0, lo, hi)
  {
    ghost var d := arr[..];
    BitonicSort(arr, left, n);
    SmallSortCorrect(d[left..to]);
    SortedAtOnce(d, arr[..], d0, lo, left, to, hi);
  }

  // The heap sort of what remains.
  method SortByHeap(arr: array<Elem>, left: nat, n: nat, ghost d0: seq<Elem>, ghost lo: nat, ghost to: nat,
                    ghost hi: nat)
    requires left + n == to <= arr.Length && Remaining(arr[..], d0, lo, left, to, hi)
    modifies arr
    ensures Sorted(arr[lo..hi]) && Permuted(arr[..], d0, lo, hi)
  {
    ghost var d := arr[..];
    HeapSort(arr, left, n);
    SortedAtOnce(d, arr[..], d0, lo, left, to, hi);
  }

  /** QUICK_SORT_RECURSIVE sorts arr[left0..right0 + 1].  The variable `right` of the source holds the
      wrapped value of to - 1, so that it is SIZE_MAX once the empty range 0..0 remains. */
  method QuickSortRecursive(arr: array<Elem>, left0: nat, right0: nat)
    requires left0 <= right0 < arr.Length <= SIZE_MAX
    modifies arr
    ensures Sorted(arr[left0..right0 + 1]) && Permuted(arr[..], old(arr[..]), left0, right0 + 1)
    decreases right0 - left0, 2
  {
    var loopCount, maxLoops := 0, BitLength(right0 - left0);
    var left: nat, right: Size := left0, right0;
    ghost var d0, to: int, hi := arr[..], right0 + 1, right0 + 1;
    PermutedRefl(d0, left0, hi);
    while true
      invariant left <= to <= SIZE_MAX && Remaining(arr[..], d0, left0, left, to, hi) && right == WrappedPred(to)
      decreases hi + to - left
    {
      if right <= left {
        NothingRemains(arr[..], d0, left0, left, to, hi);
        return;
      }
      RangeSize(left, right, to);
      var size := Wrap(right - left + 1);
      if size <= SMALL_SORT_BND {
        SortSmall(arr, left, size, d0, left0, to, hi);
        return;
      }
      loopCount := loopCount + 1;
      if loopCount >= maxLoops {
        SortByHeap(arr, left, size, d0, left0, to, hi);
        return;
      }
      var newPivot := PartitionRemaining(arr, left, right, d0, left0, to, hi);
      if newPivot == SIZE_MAX {
        return;
      }
      left, right, to := SortOneSide(arr, left, newPivot, right, d0, left0, to, hi);
    }
  }

  /** QUICK_SORT */
  method QuickSort(arr: array<Elem>, size: nat)
    requires size <= arr.Length <= SIZE_MAX
    modifies arr
    ensures Sorted(arr[..size]) && Permuted(arr[..], old(arr[..]), 0, size)
  {
    PermutedRefl(arr[..], 0, size);
    if size <= 1 {
      return;
    }
    QuickSortRecursive(arr, 0, size - 1);
    assert arr[0..size] == arr[..size];
  }
}
