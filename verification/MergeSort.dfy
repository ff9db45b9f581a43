/** The standard top-down merge sort with a buffer. */
module MergeSort {
  import opened Order
  import opened Insertion
  import opened Sequences

  // The merge loop has put the first i elements of a and the first j of b into the buffer.
  ghost predicate Merged(buf: seq<Elem>, m: seq<Elem>, a: seq<Elem>, b: seq<Elem>, i: nat, j: nat) {
    && IsMerge(m, a, b) && IsCut(a, b, i, j) && |m| <= |buf| && buf[..i + j] == m[..i + j]
  }

  lemma TakenFromA(buf: seq<Elem>, m: seq<Elem>, a: seq<Elem>, b: seq<Elem>, i: nat, j: nat)
    requires Merged(buf, m, a, b, i, j) && i < |a| && (j < |b| ==> a[i].key <= b[j].key)
    ensures Merged(buf[i + j := a[i]], m, a, b, i + 1, j)
  {
    if i + 1 < |a| {
      assert InOrder(a, i, i + 1);
    }
    var n := i + j;
    MergeBetweenCutsA(m, a, b, i, j, 1);
    assert m[n] == a[n - j];
    assert buf[n := a[i]][..n + 1] == buf[..n] + [a[i]] && m[..n + 1] == m[..n] + [m[n]];
  }

  lemma TakenFromB(buf: seq<Elem>, m: seq<Elem>, a: seq<Elem>, b: seq<Elem>, i: nat, j: nat)
    requires Merged(buf, m, a, b, i, j) && j < |b| && (i < |a| ==> b[j].key < a[i].key)
    ensures Merged(buf[i + j := b[j]], m, a, b, i, j + 1)
  {
    if j + 1 < |b| {
      assert InOrder(b, j, j + 1);
    }
    var n := i + j;
    MergeBetweenCutsB(m, a, b, i, j, 1);
    assert m[n] == b[n - i];
    assert buf[n := b[j]][..n + 1] == buf[..n] + [b[j]] && m[..n + 1] == m[..n] + [m[n]];
  }

  // The merge loop, which reads the sorted halves a and b of the segment.
  method MergeHalves(newdst: array<Elem>, a: seq<Elem>, b: seq<Elem>, ghost m: seq<Elem>)
    requires IsMerge(m, a, b) && |a| + |b| <= newdst.Length
    modifies newdst
    ensures newdst[..|a| + |b|] == m
  {
    var out: nat, i: nat, j: nat := 0, 0, 0;
    while out != |a| + |b|
      invariant out == i + j <= |a| + |b| && Merged(newdst[..], m, a, b, i, j)
      decreases |a| + |b| - out
    {
      if i < |a| {
        if j < |b| {
          if Cmp(a[i], b[j]) <= 0 {
            TakenFromA(newdst[..], m, a, b, i, j);
            newdst[out], i := a[i], i + 1;
          } else {
            TakenFromB(newdst[..], m, a, b, i, j);
            newdst[out], j := b[j], j + 1;
          }
        } else {
          TakenFromA(newdst[..], m, a, b, i, j);
          newdst[out], i := a[i], i + 1;
        }
      } else {
        TakenFromB(newdst[..], m, a, b, i, j);
        newdst[out], j := b[j], j + 1;
      }
      out := out + 1;
    }
    assert newdst[..out] == newdst[..][..out];
  }

  /** Merging the sorted halves is the stable sort of the whole. */
  lemma SortedHalves(s: seq<Elem>, t: seq<Elem>)
    ensures IsMerge(StableSort(s + t), StableSort(s), StableSort(t))
  {
    StableSortCorrect(s);
    StableSortCorrect(t);
    StableSortCorrect(s + t);
    StableConcat(StableSort(s), StableSort(t), s, t);
    StableReversed(StableSort(s) + StableSort(t), s + t);
    StableTrans(StableSort(s + t), s + t, StableSort(s) + StableSort(t));
  }

  // SORT_TYPE_CPY of the buffer to the segment.
  method CopyBack(newdst: array<Elem>, dst: array<Elem>, lo: nat, size: nat)
    requires newdst != dst && size <= newdst.Length && lo + size <= dst.Length
    modifies dst
    ensures dst[lo..lo + size] == newdst[..size]
    ensures SameOutside(dst[..], old(dst[..]), lo, lo + size)
  {
    forall i | 0 <= i < size {
      dst[lo + i] := newdst[i];
    }
    forall i | 0 <= i < dst.Length && (i < lo || lo + size <= i) ensures SameAt(dst[..], old(dst[..]), i) {
    }
  }

  // The effect of the two recursive calls.
  lemma BothSorted(d0: seq<Elem>, d1: seq<Elem>, d2: seq<Elem>, lo: nat, mid: nat, hi: nat) returns (m: seq<Elem>)
    requires lo <= mid <= hi <= |d0| && SameOutside(d1, d0, lo, mid) && SameOutside(d2, d1, mid, hi)
    requires d1[lo..mid] == StableSort(d0[lo..mid]) && d2[mid..hi] == StableSort(d1[mid..hi])
    ensures m == StableSort(d0[lo..hi]) && IsMerge(m, d2[lo..mid], d2[mid..hi])
    ensures SameOutside(d2, d0, lo, hi)
  {
    m := StableSort(d0[lo..hi]);
    SameSlice(d1, d0, lo, mid, mid, hi);
    SameSlice(d2, d1, mid, hi, lo, mid);
    SortedHalves(d0[lo..mid], d0[mid..hi]);
    assert d0[lo..hi] == d0[lo..mid] + d0[mid..hi];
    SameOutsideWider(d1, d0, lo, mid, lo, hi);
    SameOutsideWider(d2, d1, mid, hi, lo, hi);
    SameOutsideTrans(d2, d1, d0, lo, hi);
  }

  // The merge loop and the copy behind it.
  method MergeBack(newdst: array<Elem>, dst: array<Elem>, lo: nat, mid: nat, hi: nat, ghost m: seq<Elem>,
                   ghost d0: seq<Elem>)
    requires newdst != dst && lo <= mid <= hi <= dst.Length && hi - lo <= newdst.Length
    requires IsMerge(m, dst[lo..mid], dst[mid..hi]) && SameOutside(dst[..], d0, lo, hi)
    modifies newdst, dst
    ensures dst[lo..hi] == m && SameOutside(dst[..], d0, lo, hi)
  {
    ghost var d2 := dst[..];
    MergeHalves(newdst, dst[lo..mid], dst[mid..hi], m);
    CopyBack(newdst, dst, lo, hi - lo);
    SameOutsideTrans(dst[..], d2, d0, lo, hi);
  }

  // The two recursive calls.
  method SortBoth(newdst: array<Elem>, dst: array<Elem>, lo: nat, mid: nat, hi: nat) returns (ghost m: seq<Elem>)
    requires newdst != dst && lo < mid < hi <= dst.Length && hi - lo <= newdst.Length
    modifies newdst, dst
    ensures m == StableSort(old(dst[lo..hi])) && IsMerge(m, dst[lo..mid], dst[mid..hi])
    ensures SameOutside(dst[..], old(dst[..]), lo, hi)
    decreases hi - lo, 0
  {
    ghost var d0 := dst[..];
    MergeSortRecursive(newdst, dst, lo, mid - lo);
    ghost var d1 := dst[..];
    MergeSortRecursive(newdst, dst, mid, hi - mid);
    m := BothSorted(d0, d1, dst[..], lo, mid, hi);
  }

  /** MERGE_SORT_RECURSIVE */
  method MergeSortRecursive(newdst: array<Elem>, dst: array<Elem>, lo: nat, size: nat)
    requires newdst != dst && size <= newdst.Length && lo + size <= dst.Length
    modifies newdst, dst
    ensures dst[lo..lo + size] == StableSort(old(dst[lo..lo + size]))
    ensures SameOutside(dst[..], old(dst[..]), lo, lo + size)
    decreases size, 1
  {
    if size <= SMALL_SORT_BND {
      BinaryInsertionSort(dst, lo, size);
      return;
    }
    var middle := size / 2;
    ghost var m := SortBoth(newdst, dst, lo, lo + middle, lo + size);
    MergeBack(newdst, dst, lo, lo + middle, lo + size, m, old(dst[..]));
  }

  /** MERGE_SORT is the reference stable sort. */
  method MergeSort(dst: array<Elem>, size: nat)
    requires size <= dst.Length
    modifies dst
    ensures dst[..size] == StableSort(old(dst[..size]))
    ensures SameOutside(dst[..], old(dst[..]), 0, size)
  {
    assert dst[0..size] == dst[..size];
    if size <= SMALL_SORT_BND {
      BinaryInsertionSort(dst, 0, size);
    } else {
      var newdst := new Elem[size];
      MergeSortRecursive(newdst, dst, 0, size);
    }
    assert dst[0..size] == dst[..size];
  }
}
