/** The two bottom-up merge sorts that need no scratch space.  They share their loops and differ in
the merge that they call.
 */
module BottomUp {
  import opened Arith
  import opened Order
  import opened Cells
  import opened Gallop
  import opened RotationMerge
  import opened RecursiveMerge
  import opened Sequences

  datatype Merger = ByRotation | ByRecursion

  // s consists of sorted runs of w elements and a sorted rest of at most w elements.
  predicate RunsOf(s: seq<Elem>, w: nat)
    requires 0 < w
  {
    if |s| <= w then Sorted(s) else Sorted(s[..w]) && RunsOf(s[w..], w)
  }

  // s consists of sorted runs of exactly w elements.
  predicate FullRuns(s: seq<Elem>, w: nat)
    requires 0 < w
  {
    s == [] || (w <= |s| && Sorted(s[..w]) && FullRuns(s[w..], w))
  }

  lemma {:induction false} FullRunsAppend(s: seq<Elem>, x: seq<Elem>, w: nat)
    requires 0 < w && FullRuns(s, w) && |x| == w && Sorted(x)
    ensures FullRuns(s + x, w)
  {
    if s == [] {
      assert s + x == x && x[..w] == x && x[w..] == [];
    } else {
      FullRunsAppend(s[w..], x, w);
      assert (s + x)[..w] == s[..w] && (s + x)[w..] == s[w..] + x;
    }
  }

  lemma {:induction false} FullRunsThenRest(s: seq<Elem>, x: seq<Elem>, w: nat)
    requires 0 < w && FullRuns(s, w) && |x| <= w && Sorted(x)
    ensures RunsOf(s + x, w)
  {
    if s == [] {
      assert s + x == x;
    } else {
      FullRunsThenRest(s[w..], x, w);
      assert (s + x)[..w] == s[..w] && (s + x)[w..] == s[w..] + x;
      if |s + x| <= w {
        assert s + x == s[..w];
      }
    }
  }

  // The first two runs of s.
  lemma TwoRuns(s: seq<Elem>, h: nat, n: nat)
    requires 0 < h < n <= 2 * h && n <= |s| && RunsOf(s, h) && (n == 2 * h || n == |s|)
    ensures Sorted(s[..h]) && Sorted(s[h..n]) && (n == 2 * h ==> RunsOf(s[n..], h))
  {
    var t := s[h..];
    if n == 2 * h && h < |t| {
      assert t[..h] == s[h..n] && t[h..] == s[n..];
    } else {
      assert t == s[h..n] && s[n..] == [];
    }
  }

  // How far a pass has come: runs of 2h elements before p0, runs of h elements from there on.
  ghost predicate PassState(d: seq<Elem>, d0: seq<Elem>, lo: nat, p0: nat, hi: nat, h: nat) {
    && 0 < h && lo <= p0 <= hi <= |d|
    && FullRuns(d[lo..p0], 2 * h) && RunsOf(d[p0..hi], h)
    && SameOutside(d, d0, lo, hi) && Stable(d[lo..hi], d0[lo..hi])
  }

  lemma Rearranged(d: seq<Elem>, e: seq<Elem>, d0: seq<Elem>, lo: nat, hi: nat, p: nat, q: nat)
    requires lo <= p <= q <= hi <= |d| && SameOutside(d, d0, lo, hi) && Stable(d[lo..hi], d0[lo..hi])
    requires SameOutside(e, d, p, q) && Stable(e[p..q], d[p..q])
    ensures SameOutside(e, d0, lo, hi) && Stable(e[lo..hi], d0[lo..hi])
  {
    StableWithin(e, d, lo, hi, p, q);
    StableTrans(e[lo..hi], d[lo..hi], d0[lo..hi]);
    SameOutsideWider(e, d, p, q, lo, hi);
    SameOutsideTrans(e, d, d0, lo, hi);
  }

  lemma PassStep(d: seq<Elem>, e: seq<Elem>, d0: seq<Elem>, lo: nat, p0: nat, hi: nat, h: nat, p1: nat)
    requires PassState(d, d0, lo, p0, hi, h) && p1 == p0 + 2 * h <= hi
    requires SameOutside(e, d, p0, p1) && Sorted(e[p0..p1]) && Stable(e[p0..p1], d[p0..p1])
    ensures PassState(e, d0, lo, p1, hi, h)
  {
    TwoRuns(d[p0..hi], h, 2 * h);
    assert d[p0..hi][2 * h..] == d[p1..hi];
    SameSlice(e, d, p0, p1, lo, p0);
    SameSlice(e, d, p0, p1, p1, hi);
    FullRunsAppend(d[lo..p0], e[p0..p1], 2 * h);
    assert e[lo..p1] == e[lo..p0] + e[p0..p1];
    Rearranged(d, e, d0, lo, hi, p0, p1);
  }

  lemma PassEnd(d: seq<Elem>, e: seq<Elem>, d0: seq<Elem>, lo: nat, p0: nat, hi: nat, h: nat)
    requires PassState(d, d0, lo, p0, hi, h) && hi - p0 <= 2 * h
    requires SameOutside(e, d, p0, hi) && Sorted(e[p0..hi]) && Stable(e[p0..hi], d[p0..hi])
    ensures RunsOf(e[lo..hi], 2 * h) && SameOutside(e, d0, lo, hi) && Stable(e[lo..hi], d0[lo..hi])
  {
    SameSlice(e, d, p0, hi, lo, p0);
    FullRunsThenRest(d[lo..p0], e[p0..hi], 2 * h);
    assert e[lo..hi] == e[lo..p0] + e[p0..hi];
    Rearranged(d, e, d0, lo, hi, p0, hi);
  }

  // Merges the run of h elements at arr[p] with the n2 elements of the run behind it.
  method MergeRuns(arr: array<Elem>, p: nat, h: nat, n2: nat, merger: Merger)
    requires p + h + n2 <= arr.Length && h + n2 < 0x7FFF_FFFF
    requires Sorted(arr[p..p + h]) && Sorted(arr[p + h..p + h + n2])
    modifies arr
    ensures Sorted(arr[p..p + h + n2]) && Stable(arr[p..p + h + n2], old(arr[p..p + h + n2]))
    ensures SameOutside(arr[..], old(arr[..]), p, p + h + n2)
  {
    ghost var d := arr[..];
    match merger {
      case ByRotation => MergeWithoutBuffer(arr, p, h, n2);
      case ByRecursion => RecMerge(arr, p, h, n2);
    }
    SliceJoin(d, p, p + h, p + h + n2);
  }

  lemma RunSlices(d: seq<Elem>, d0: seq<Elem>, lo: nat, p0: nat, hi: nat, h: nat, n: nat)
    requires PassState(d, d0, lo, p0, hi, h) && h < n <= 2 * h && p0 + n <= hi && (n == 2 * h || p0 + n == hi)
    ensures Sorted(d[p0..p0 + h]) && Sorted(d[p0 + h..p0 + n])
  {
    TwoRuns(d[p0..hi], h, n);
    SubSlice(d, p0, hi, p0, p0 + h);
    SubSlice(d, p0, hi, p0 + h, p0 + n);
  }

  // Merges two of the runs of h elements, the first of which starts at arr[p].
  method MergePair(arr: array<Elem>, lo: nat, p: nat, hi: nat, h: nat, merger: Merger, ghost d0: seq<Elem>)
    requires p + 2 * h <= hi < 0x7FFF_FFFF + lo && PassState(arr[..], d0, lo, p, hi, h)
    modifies arr
    ensures PassState(arr[..], d0, lo, p + 2 * h, hi, h)
  {
    ghost var d := arr[..];
    RunSlices(d, d0, lo, p, hi, h, 2 * h);
    MergeRuns(arr, p, h, h, merger);
    PassStep(d, arr[..], d0, lo, p, hi, h, p + 2 * h);
  }

  // Merges what is left after the last pair.
  method MergeRest(arr: array<Elem>, lo: nat, p: nat, hi: nat, h: nat, merger: Merger, ghost d0: seq<Elem>)
    requires hi < 0x7FFF_FFFF + lo && PassState(arr[..], d0, lo, p, hi, h) && hi - p < 2 * h
    modifies arr
    ensures RunsOf(arr[lo..hi], 2 * h) && SameOutside(arr[..], d0, lo, hi) && Stable(arr[lo..hi], d0[lo..hi])
  {
    ghost var d := arr[..];
    var rest := hi - p;
    if rest > h {
      RunSlices(d, d0, lo, p, hi, h, rest);
      MergeRuns(arr, p, h, rest - h, merger);
    } else {
      StableRefl(d[p..hi]);
    }
    PassEnd(d, arr[..], d0, lo, p, hi, h);
  }

  lemma PassStarts(d: seq<Elem>, lo: nat, hi: nat, h: nat)
    requires lo <= hi <= |d| && 0 < h && RunsOf(d[lo..hi], h)
    ensures PassState(d, d, lo, lo, hi, h)
  {
    StableRefl(d[lo..hi]);
    assert d[lo..lo] == [];
  }

  // One pass: runs of h elements become runs of 2h elements.
  method Pass(arr: array<Elem>, lo: nat, len: nat, h: nat, merger: Merger)
    requires lo + len <= arr.Length && 0 < h < len <= 0x4000_0000
    requires RunsOf(arr[lo..lo + len], h)
    modifies arr
    ensures RunsOf(arr[lo..lo + len], 2 * h) && Stable(arr[lo..lo + len], old(arr[lo..lo + len]))
    ensures SameOutside(arr[..], old(arr[..]), lo, lo + len)
  {
    ghost var d0 := arr[..];
    var p, hi := lo, lo + len;
    PassStarts(d0, lo, hi, h);
    var p0: nat, p1: Int32 := 0, len - 2 * h;
    while p0 <= p1
      invariant p0 <= len && p == lo + p0 && PassState(arr[..], d0, lo, p, hi, h)
    {
      MergePair(arr, lo, p, hi, h, merger, d0);
      p0, p := p0 + 2 * h, p + 2 * h;
    }
    MergeRest(arr, lo, p, hi, h, merger, d0);
  }

  lemma OrderedPair(d: seq<Elem>, e: seq<Elem>, p: nat)
    requires p + 2 <= |d|
    requires e == if d[p].key > d[p + 1].key then d[p := d[p + 1]][p + 1 := d[p]] else d
    ensures SameOutside(e, d, p, p + 2) && Sorted(e[p..p + 2]) && Stable(e[p..p + 2], d[p..p + 2])
  {
    forall i | 0 <= i < |d| && (i < p || p + 2 <= i) ensures SameAt(e, d, i) {
    }
    if d[p].key > d[p + 1].key {
      StableExchange([d[p + 1]], [d[p]]);
      assert e[p..p + 2] == [d[p + 1]] + [d[p]] && d[p..p + 2] == [d[p]] + [d[p + 1]];
    } else {
      StableRefl(d[p..p + 2]);
    }
  }

  lemma {:induction false} SingleRuns(s: seq<Elem>)
    ensures RunsOf(s, 1)
  {
    if 1 < |s| {
      SingleRuns(s[1..]);
    }
  }

  // Puts arr[p] and its successor in order.
  method OrderPair(arr: array<Elem>, lo: nat, p: nat, hi: nat, ghost d0: seq<Elem>)
    requires p + 2 <= hi && PassState(arr[..], d0, lo, p, hi, 1)
    modifies arr
    ensures PassState(arr[..], d0, lo, p + 2, hi, 1)
  {
    ghost var d := arr[..];
    if Cmp(arr[p], arr[p + 1]) > 0 {
      SwapCells(arr, p, p + 1);
    }
    OrderedPair(d, arr[..], p);
    PassStep(d, arr[..], d0, lo, p, hi, 1, p + 2);
  }

  // The first loop: puts neighbours in order, two at a time.
  method OrderPairs(arr: array<Elem>, lo: nat, len: nat)
    requires lo + len <= arr.Length
    modifies arr
    ensures RunsOf(arr[lo..lo + len], 2) && Stable(arr[lo..lo + len], old(arr[lo..lo + len]))
    ensures SameOutside(arr[..], old(arr[..]), lo, lo + len)
  {
    ghost var d0 := arr[..];
    var hi := lo + len;
    SingleRuns(d0[lo..hi]);
    PassStarts(d0, lo, hi, 1);
    var m: nat, p := 1, lo;
    while m < len
      invariant 1 <= m <= len + 1 && p + 1 == lo + m && PassState(arr[..], d0, lo, p, hi, 1)
    {
      OrderPair(arr, lo, p, hi, d0);
      m, p := m + 2, p + 2;
    }
    StableRefl(arr[p..hi]);
    PassEnd(arr[..], arr[..], d0, lo, p, hi, 1);
  }

  // The values that h takes, and their doubles as far as they are computed.
  ghost predicate DoublesFit(len: nat) {
    forall k: nat {:trigger Pow2(k)} :: 1 <= k && Pow2(k) < len ==> 2 * Pow2(k) < 0x8000_0000
  }

  /** The doubled int stays in range exactly for up to 2^30 elements. */
  lemma DoublingFits(len: nat)
    ensures DoublesFit(len) <==> len <= 0x4000_0000
  {
    var k: nat := 30;
    Pow2Thirty(k);
    assert 0x4000_0000 < len ==> Pow2(k) < len && !(2 * Pow2(k) < 0x8000_0000);
  }

  // The two loops; with more than 2^30 elements the doubling of the int h could overflow.
  method BottomUpSort(arr: array<Elem>, lo: nat, len: nat, merger: Merger)
    requires lo + len <= arr.Length && len <= 0x4000_0000
    modifies arr
    ensures arr[lo..lo + len] == StableSort(old(arr[lo..lo + len]))
    ensures SameOutside(arr[..], old(arr[..]), lo, lo + len)
  {
    ghost var d0, hi := arr[..], lo + len;
    OrderPairs(arr, lo, len);
    var h: Int32 := 2;
    while h < len
      invariant 0 < h && RunsOf(arr[lo..lo + len], h) && Stable(arr[lo..lo + len], d0[lo..hi])
      invariant SameOutside(arr[..], d0, lo, lo + len)
      decreases len - h
    {
      ghost var d := arr[..];
      Pass(arr, lo, len, h, merger);
      StableTrans(arr[lo..lo + len], d[lo..hi], d0[lo..hi]);
      SameOutsideTrans(arr[..], d, d0, lo, hi);
      h := h * 2;
    }
    StableSortUnique(d0[lo..hi], arr[lo..hi]);
  }

  /** GRAIL_LAZY_STABLE_SORT */
  method LazyStableSort(arr: array<Elem>, lo: nat, len: nat)
    requires lo + len <= arr.Length && len <= 0x4000_0000
    modifies arr
    ensures arr[lo..lo + len] == StableSort(old(arr[lo..lo + len]))
    ensures SameOutside(arr[..], old(arr[..]), lo, lo + len)
  {
    BottomUpSort(arr, lo, len, ByRotation);
  }

  /** REC_STABLE_SORT */
  method RecStableSort(arr: array<Elem>, lo: nat, len: nat)
    requires lo + len <= arr.Length && len <= 0x4000_0000
    modifies arr
    ensures arr[lo..lo + len] == StableSort(old(arr[lo..lo + len]))
    ensures SameOutside(arr[..], old(arr[..]), lo, lo + len)
  {
    BottomUpSort(arr, lo, len, ByRecursion);
  }
}
