/** Block exchange, block rotation, the two binary searches, and the stable merge built on them. */
module Rotation {
  import opened Order
  import opened Cells
  import opened Gallop
  import opened Sequences

  // ---------- Block exchange ----------

  // What cell p holds once the first k pairs of cells, counted from i and from j, have changed places.
  predicate SwappedAt(d: seq<Elem>, d0: seq<Elem>, i: nat, j: nat, k: nat, p: int)
    requires i < j && j + k <= |d| == |d0| && 0 <= p < |d|
  {
    if i <= p < i + k then d[p] == d0[p - i + j]
    else if j <= p < j + k then i + k <= j ==> d[p] == d0[p - j + i]
    else d[p] == d0[p]
  }

  ghost predicate Swapped(d: seq<Elem>, d0: seq<Elem>, i: nat, j: nat, k: nat) {
    && i < j && j + k <= |d| == |d0| && multiset(d) == multiset(d0)
    && forall p {:trigger SwappedAt(d, d0, i, j, k, p)} :: 0 <= p < |d| ==> SwappedAt(d, d0, i, j, k, p)
  }

  lemma SwapNext(d: seq<Elem>, d0: seq<Elem>, i: nat, j: nat, k: nat, a: nat, b: nat)
    requires Swapped(d, d0, i, j, k) && a == i + k && b == j + k && b < |d|
    ensures Swapped(d[a := d[b]][b := d[a]], d0, i, j, k + 1)
  {
    var e, k' := d[a := d[b]][b := d[a]], k + 1;
    assert SwappedAt(d, d0, i, j, k, a) && SwappedAt(d, d0, i, j, k, b);
    forall p | 0 <= p < |d| ensures SwappedAt(e, d0, i, j, k', p) {
      assert SwappedAt(d, d0, i, j, k, p);
    }
  }

  /** GRAIL_SWAP_N for the n cells from arr[i] and from arr[j].  The blocks may overlap: then the upper
      one moves down as a whole and the cells it displaces are only permuted. */
  method SwapBlocks(arr: array<Elem>, i: nat, j: nat, n: nat)
    requires i < j && j + n <= arr.Length
    modifies arr
    ensures Swapped(arr[..], old(arr[..]), i, j, n)
  {
    var a: nat, b: nat, left: nat := i, j, n;
    ghost var k: nat := 0;
    while left != 0
      invariant left + k == n && a == i + k && b == j + k
      invariant Swapped(arr[..], old(arr[..]), i, j, k)
    {
      left := left - 1;
      SwapNext(arr[..], old(arr[..]), i, j, k, a, b);
      SwapCells(arr, a, b);
      a, b, k := a + 1, b + 1, k + 1;
    }
  }

  // ---------- Rotation ----------

  lemma AdjacentSwapped(d: seq<Elem>, d0: seq<Elem>, p: seq<Elem>, x: seq<Elem>, y: seq<Elem>, s: seq<Elem>)
    requires d0 == p + x + y + s && |x| == |y| > 0
    requires Swapped(d, d0, |p|, |p| + |x|, |x|)
    ensures d == p + y + x + s
  {
    forall k | 0 <= k < |d| ensures d[k] == (p + y + x + s)[k] {
      assert SwappedAt(d, d0, |p|, |p| + |x|, |x|, k);
    }
  }

  // d still needs the blocks x and y exchanged to become the target.
  ghost predicate Rotating(d: seq<Elem>, target: seq<Elem>, p: seq<Elem>, x: seq<Elem>, y: seq<Elem>, s: seq<Elem>) {
    d == p + x + y + s && target == p + y + x + s
  }

  lemma RotateLow(d: seq<Elem>, e: seq<Elem>, t: seq<Elem>, p: seq<Elem>, x: seq<Elem>, y1: seq<Elem>, y2: seq<Elem>,
                  s: seq<Elem>)
    requires Rotating(d, t, p, x, y1 + y2, s) && 0 < |x| == |y1| && Swapped(e, d, |p|, |p| + |x|, |x|)
    ensures Rotating(e, t, p + y1, x, y2, s)
  {
    assert p + x + (y1 + y2) + s == p + x + y1 + (y2 + s);
    AdjacentSwapped(e, d, p, x, y1, y2 + s);
    assert p + y1 + x + (y2 + s) == (p + y1) + x + y2 + s;
    assert p + (y1 + y2) + x + s == (p + y1) + y2 + x + s;
  }

  lemma RotateHigh(d: seq<Elem>, e: seq<Elem>, t: seq<Elem>, p: seq<Elem>, x1: seq<Elem>, x2: seq<Elem>, y: seq<Elem>,
                   s: seq<Elem>)
    requires Rotating(d, t, p, x1 + x2, y, s) && 0 < |y| == |x2|
    requires Swapped(e, d, |p| + |x1|, |p| + |x1| + |x2|, |y|)
    ensures Rotating(e, t, p, x1, y, x2 + s)
  {
    assert p + (x1 + x2) + y + s == (p + x1) + x2 + y + s;
    AdjacentSwapped(e, d, p + x1, x2, y, s);
    assert (p + x1) + y + x2 + s == p + x1 + y + (x2 + s);
    assert p + y + (x1 + x2) + s == p + y + x1 + (x2 + s);
  }

  lemma RotationStarts(d: seq<Elem>, lo: nat, mid: nat, hi: nat)
    requires lo <= mid <= hi <= |d|
    ensures Rotating(d, d[..lo] + d[mid..hi] + d[lo..mid] + d[hi..], d[..lo], d[lo..mid], d[mid..hi], d[hi..])
  {
  }

  lemma RotationEnds(d: seq<Elem>, d0: seq<Elem>, lo: nat, mid: nat, hi: nat,
                     p: seq<Elem>, x: seq<Elem>, y: seq<Elem>, s: seq<Elem>)
    requires lo <= mid <= hi <= |d0|
    requires Rotating(d, d0[..lo] + d0[mid..hi] + d0[lo..mid] + d0[hi..], p, x, y, s) && (x == [] || y == [])
    ensures SameOutside(d, d0, lo, hi) && d[lo..hi] == d0[mid..hi] + d0[lo..mid]
  {
    assert d == d0[..lo] + d0[mid..hi] + d0[lo..mid] + d0[hi..];
    forall i | 0 <= i < |d| && (i < lo || hi <= i) ensures SameAt(d, d0, i) {
    }
  }

  // The two branches of the loop.
  method ExchangeLow(arr: array<Elem>, a: nat, l1: nat, l2: nat, ghost t: seq<Elem>, ghost p: seq<Elem>,
                     ghost x: seq<Elem>, ghost y1: seq<Elem>, ghost y2: seq<Elem>, ghost s: seq<Elem>)
    requires |p| == a && |x| == |y1| == l1 && 0 < l1 && |y2| == l2 - l1 && Rotating(arr[..], t, p, x, y1 + y2, s)
    modifies arr
    ensures Rotating(arr[..], t, p + y1, x, y2, s)
  {
    ghost var d := arr[..];
    SwapBlocks(arr, a, a + l1, l1);
    RotateLow(d, arr[..], t, p, x, y1, y2, s);
  }

  method ExchangeHigh(arr: array<Elem>, a: nat, l1: nat, l2: nat, ghost t: seq<Elem>, ghost p: seq<Elem>,
                      ghost x1: seq<Elem>, ghost x2: seq<Elem>, ghost y: seq<Elem>, ghost s: seq<Elem>)
    requires |p| == a && |x1| == l1 - l2 && |x2| == |y| == l2 && 0 < l2 && Rotating(arr[..], t, p, x1 + x2, y, s)
    modifies arr
    ensures Rotating(arr[..], t, p, x1, y, x2 + s)
  {
    ghost var d := arr[..];
    SwapBlocks(arr, a + (l1 - l2), a + l1, l2);
    RotateHigh(d, arr[..], t, p, x1, x2, y, s);
  }

  // The loop of GRAIL_ROTATE, on an array that holds p + x + y + s.
  method ExchangeParts(arr: array<Elem>, lo: nat, l10: nat, l20: nat, ghost t: seq<Elem>,
                       ghost p0: seq<Elem>, ghost x0: seq<Elem>, ghost y0: seq<Elem>, ghost s0: seq<Elem>)
    returns (ghost p: seq<Elem>, ghost x: seq<Elem>, ghost y: seq<Elem>, ghost s: seq<Elem>)
    requires |p0| == lo && |x0| == l10 && |y0| == l20 && Rotating(arr[..], t, p0, x0, y0, s0)
    modifies arr
    ensures Rotating(arr[..], t, p, x, y, s) && (x == [] || y == [])
  {
    var a: nat, l1: nat, l2: nat := lo, l10, l20;
    p, x, y, s := p0, x0, y0, s0;
    while l1 != 0 && l2 != 0
      invariant |p| == a && |x| == l1 && |y| == l2
      invariant Rotating(arr[..], t, p, x, y, s)
      decreases l1 + l2
    {
      if l1 <= l2 {
        Cut(y, l1);
        ExchangeLow(arr, a, l1, l2, t, p, x, y[..l1], y[l1..], s);
        p, y := p + y[..l1], y[l1..];
        a := a + l1;
        l2 := l2 - l1;
      } else {
        Cut(x, l1 - l2);
        ExchangeHigh(arr, a, l1, l2, t, p, x[..l1 - l2], x[l1 - l2..], y, s);
        x, s := x[..l1 - l2], x[l1 - l2..] + s;
        l1 := l1 - l2;
      }
    }
  }

  /** GRAIL_ROTATE: exchanges two adjacent blocks by exchanging equal parts of them. */
  method Rotate(arr: array<Elem>, lo: nat, l1: nat, l2: nat)
    requires lo + l1 + l2 <= arr.Length
    modifies arr
    ensures arr[lo..lo + l1 + l2] == old(arr[lo + l1..lo + l1 + l2]) + old(arr[lo..lo + l1])
    ensures SameOutside(arr[..], old(arr[..]), lo, lo + l1 + l2)
  {
    ghost var d, mid, hi := arr[..], lo + l1, lo + l1 + l2;
    RotationStarts(d, lo, mid, hi);
    ghost var t := d[..lo] + d[mid..hi] + d[lo..mid] + d[hi..];
    ghost var p, x, y, s := ExchangeParts(arr, lo, l1, l2, t, d[..lo], d[lo..mid], d[mid..hi], d[hi..]);
    RotationEnds(arr[..], d, lo, mid, hi, p, x, y, s);
  }

  // ---------- Binary search ----------

  /** GRAIL_BIN_SEARCH_LEFT: the lower bound. */
  method BinSearchLeft(s: seq<Elem>, key: Elem) returns (k: nat)
    requires Sorted(s) && |s| < 0x7FFF_FFFF
    ensures IsBound(s, key, k, false)
  {
    var a: Int32, b: Int32 := -1, |s|;
    while a < b - 1
      invariant -1 <= a < b <= |s|
      invariant 0 <= a ==> s[a].key < key.key
      invariant b < |s| ==> key.key <= s[b].key
    {
      var width: Int32 := b - a;
      var c := a + width / 2;
      if Cmp(s[c], key) >= 0 {
        b := c;
      } else {
        a := c;
      }
    }
    BoundFromNeighbours(s, key, b, false);
    return b;
  }

  /** GRAIL_BIN_SEARCH_RIGHT: the upper bound. */
  method BinSearchRight(s: seq<Elem>, key: Elem) returns (k: nat)
    requires Sorted(s) && |s| < 0x7FFF_FFFF
    ensures IsBound(s, key, k, true)
  {
    var a: Int32, b: Int32 := -1, |s|;
    while a < b - 1
      invariant -1 <= a < b <= |s|
      invariant 0 <= a ==> s[a].key <= key.key
      invariant b < |s| ==> key.key < s[b].key
    {
      var width: Int32 := b - a;
      var c := a + width / 2;
      if Cmp(s[c], key) > 0 {
        b := c;
      } else {
        a := c;
      }
    }
    BoundFromNeighbours(s, key, b, true);
    return b;
  }
}
