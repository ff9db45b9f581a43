/** The divide-and-conquer merge in place: a three-way split around a pivot, one or two rotations,
and two recursive calls that exclude the elements equal to the pivot.
 */
module RecursiveMerge {
  import opened Order
  import opened Gallop
  import opened Rotation
  import opened RotationMerge
  import opened Sequences

  // Both bounds of key, found as the source finds them.
  method EqualRange(s: seq<Elem>, key: Elem) returns (k1: nat, k2: nat)
    requires Sorted(s) && |s| < 0x7FFF_FFFF
    ensures k1 <= k2 && IsBound(s, key, k1, false) && IsBound(s, key, k2, true)
  {
    k1 := BinSearchLeft(s, key);
    k2 := k1;
    if k2 < |s| && Cmp(s[k2], key) == 0 {
      SortedRest(s, k1);
      var k := BinSearchRight(s[k1..], key);
      k2 := k + k1;
      assert Before(s[k1..][0], key, true);
      assert Before(s[k1..][k - 1], key, true);
      if k < |s[k1..]| {
        assert !Before(s[k1..][k], key, true);
      }
      BoundFromNeighbours(s, key, k2, true);
    } else {
      if k2 > 0 {
        assert Before(s[k2 - 1], key, false);
      }
      if k2 < |s| {
        assert !Before(s[k2], key, false);
      }
      BoundFromNeighbours(s, key, k2, true);
    }
  }

  // The pivot itself lies between its bounds, so that it takes part in neither recursive call.
  lemma PivotBetween(s: seq<Elem>, key: Elem, k1: nat, k2: nat, i: nat)
    requires i < |s| && s[i] == key && IsBound(s, key, k1, false) && IsBound(s, key, k2, true)
    ensures k1 <= i < k2
  {
    assert !Before(s[i], key, false) && Before(s[i], key, true);
  }

  lemma BoundsCut(x: seq<Elem>, y: seq<Elem>, key: Elem, k: nat, m: nat, right: bool)
    requires IsBound(x, key, k, right) && IsBound(y, key, m, right)
    ensures right ==> (0 < k && m < |y| ==> x[k - 1].key < y[m].key) && (0 < m && k < |x| ==> y[m - 1].key < x[k].key)
    ensures IsCut(x, y, k, m)
  {
    if k < |x| {
      assert !Before(x[k], key, right);
    }
    if 0 < k {
      assert Before(x[k - 1], key, right);
    }
    if m < |y| {
      assert !Before(y[m], key, right);
    }
    if 0 < m {
      assert Before(y[m - 1], key, right);
    }
  }

  lemma EqualBlock(s: seq<Elem>, key: Elem, k1: nat, k2: nat)
    requires k1 <= k2 && IsBound(s, key, k1, false) && IsBound(s, key, k2, true)
    ensures forall i :: 0 <= i < k2 - k1 ==> s[k1..k2][i].key == key.key
  {
    forall i | 0 <= i < k2 - k1 ensures s[k1..k2][i].key == key.key {
      assert !Before(s[k1 + i], key, false) && Before(s[k1 + i], key, true);
    }
  }

  lemma MergeInOrder(m: seq<Elem>, x: seq<Elem>, y: seq<Elem>)
    requires IsMerge(m, x, y) && AllLe(x, y)
    ensures m == x + y
  {
    SortedConcat(x, y);
    SortedStableUnique(m, x + y);
  }

  /** The merge falls apart around the elements equal to the pivot. */
  lemma PivotSplit(m: seq<Elem>, x1: seq<Elem>, xe: seq<Elem>, x2: seq<Elem>,
                   y1: seq<Elem>, ye: seq<Elem>, y2: seq<Elem>)
    returns (m1: seq<Elem>, m2: seq<Elem>)
    requires IsMerge(m, x1 + (xe + x2), y1 + (ye + y2)) && AllLe(xe, ye)
    requires IsCut(x1 + (xe + x2), y1 + (ye + y2), |x1|, |y1|)
    requires IsCut(x1 + (xe + x2), y1 + (ye + y2), |x1| + |xe|, |y1| + |ye|)
    ensures IsMerge(m1, x1, y1) && IsMerge(m2, x2, y2) && m == m1 + ((xe + ye) + m2)
  {
    var r, e;
    m1, r := FallsApart(m, x1, xe + x2, y1, ye + y2);
    CutOfRest(x1, xe + x2, y1, ye + y2, |xe|, |ye|);
    e, m2 := FallsApart(r, xe, x2, ye, y2);
    MergeInOrder(e, xe, ye);
  }

  lemma MakePending(p: seq<Elem>, x: seq<Elem>, y: seq<Elem>, s: seq<Elem>, m: seq<Elem>)
    requires IsMerge(m, x, y)
    ensures Pending(p + x + y + s, p + m + s, p, x, y, s)
  {
  }

  // What the two recursive calls have to do once the parts stand in their order.
  lemma PivotPending(d: seq<Elem>, t: seq<Elem>, p: seq<Elem>, x1: seq<Elem>, xe: seq<Elem>, x2: seq<Elem>,
                     y1: seq<Elem>, ye: seq<Elem>, y2: seq<Elem>, s: seq<Elem>)
    returns (u: seq<Elem>, s': seq<Elem>)
    requires Pending(d, t, p, x1 + (xe + x2), y1 + (ye + y2), s) && AllLe(xe, ye)
    requires IsCut(x1 + (xe + x2), y1 + (ye + y2), |x1|, |y1|)
    requires IsCut(x1 + (xe + x2), y1 + (ye + y2), |x1| + |xe|, |y1| + |ye|)
    ensures Pending(p + x1 + y1 + (xe + ye) + x2 + y2 + s, u, p + x1 + y1 + (xe + ye), x2, y2, s)
    ensures Pending(u, t, p, x1, y1, s')
  {
    var x, y := x1 + (xe + x2), y1 + (ye + y2);
    var r :| IsMerge(r, x, y) && t == p + r + s;
    var m1, m2 := PivotSplit(r, x1, xe, x2, y1, ye, y2);
    u, s' := PivotCalls(t, p, x1, x2, xe + ye, y1, y2, s, m1, m2);
  }

  lemma PivotCalls(t: seq<Elem>, p: seq<Elem>, x1: seq<Elem>, x2: seq<Elem>, q: seq<Elem>, y1: seq<Elem>, y2: seq<Elem>,
                   s: seq<Elem>, m1: seq<Elem>, m2: seq<Elem>)
    returns (u: seq<Elem>, s': seq<Elem>)
    requires IsMerge(m1, x1, y1) && IsMerge(m2, x2, y2) && t == p + (m1 + (q + m2)) + s
    ensures Pending(p + x1 + y1 + q + x2 + y2 + s, u, p + x1 + y1 + q, x2, y2, s)
    ensures Pending(u, t, p, x1, y1, s')
  {
    u, s' := p + x1 + y1 + q + m2 + s, q + m2 + s;
    MakePending(p + x1 + y1 + q, x2, y2, s, m2);
    Assoc(p + x1 + y1 + q, m2, s);
    Assoc(p + x1 + y1, q, m2 + s);
    Assoc(q, m2, s);
    Assoc(p, m1, q + m2);
    Assoc(p + m1, q + m2, s);
    MakePending(p, x1, y1, s', m1);
  }

  lemma WithoutEqual(p: seq<Elem>, x1: seq<Elem>, x2: seq<Elem>, v: seq<Elem>, y2: seq<Elem>, s: seq<Elem>)
    ensures p + (x1 + x2) + (v + y2) + s == (p + x1) + x2 + v + (y2 + s)
    ensures (p + x1) + v + x2 + (y2 + s) == p + x1 + v + x2 + y2 + s
  {
  }

  lemma FirstRotation(p: seq<Elem>, x1: seq<Elem>, u: seq<Elem>, y1: seq<Elem>, w: seq<Elem>, s: seq<Elem>)
    ensures p + (x1 + u) + (y1 + w) + s == (p + x1) + u + y1 + (w + s)
  {
  }

  lemma SecondRotation(p: seq<Elem>, xe: seq<Elem>, x2: seq<Elem>, ye: seq<Elem>, y2: seq<Elem>, s: seq<Elem>)
    ensures p + (xe + x2) + (ye + y2 + s) == (p + xe) + x2 + ye + (y2 + s)
    ensures (p + xe) + ye + x2 + (y2 + s) == p + (xe + ye) + x2 + y2 + s
    ensures ye == [] ==> (p + xe) + x2 + ye + (y2 + s) == p + (xe + ye) + x2 + y2 + s
  {
  }

  // The rotations: x1 xe x2 y1 ye y2 becomes x1 y1 xe ye x2 y2.
  method GatherPivots(arr: array<Elem>, lo: nat, len1: nat, k1: nat, k2: nat, m1: nat, m2: nat,
                      ghost p: seq<Elem>, ghost x1: seq<Elem>, ghost xe: seq<Elem>, ghost x2: seq<Elem>,
                      ghost y1: seq<Elem>, ghost ye: seq<Elem>, ghost y2: seq<Elem>, ghost s: seq<Elem>)
    requires |p| == lo && |x1| == k1 && |xe| == k2 - k1 && |x2| == len1 - k2 && |y1| == m1 && |ye| == m2 - m1
    requires arr[..] == p + (x1 + (xe + x2)) + (y1 + (ye + y2)) + s
    modifies arr
    ensures arr[..] == p + x1 + y1 + (xe + ye) + x2 + y2 + s
  {
    if k1 == k2 {
      assert xe + x2 == x2 && y1 + (ye + y2) == (y1 + ye) + y2 && xe + ye == ye;
      WithoutEqual(p, x1, x2, y1 + ye, y2, s);
      RotateParts(arr, lo + k2, len1 - k2, m2, p + x1, x2, y1 + ye, y2 + s);
      assert p + x1 + (y1 + ye) == p + x1 + y1 + ye;
    } else {
      FirstRotation(p, x1, xe + x2, y1, ye + y2, s);
      RotateParts(arr, lo + k1, len1 - k1, m1, p + x1, xe + x2, y1, ye + y2 + s);
      SecondRotation(p + x1 + y1, xe, x2, ye, y2, s);
      if m2 != m1 {
        RotateParts(arr, lo + k2 + m1, len1 - k2, m2 - m1, p + x1 + y1 + xe, x2, ye, y2 + s);
      }
    }
  }

  // The elements equal to some pivot are x[k1..k2] and y[m1..m2], and there are some.
  predicate PivotCuts(x: seq<Elem>, y: seq<Elem>, k1: nat, k2: nat, m1: nat, m2: nat) {
    && k1 <= k2 <= |x| && m1 <= m2 <= |y| && k1 + m1 < k2 + m2
    && IsCut(x, y, k1, m1) && IsCut(x, y, k2, m2) && AllLe(x[k1..k2], y[m1..m2])
  }

  lemma PivotFacts(x: seq<Elem>, y: seq<Elem>, pivot: Elem, k: nat, k1: nat, k2: nat, m1: nat, m2: nat)
    requires k < |x| + |y| && pivot == (if k < |x| then x[k] else y[k - |x|])
    requires k1 <= k2 && IsBound(x, pivot, k1, false) && IsBound(x, pivot, k2, true)
    requires m1 <= m2 && IsBound(y, pivot, m1, false) && IsBound(y, pivot, m2, true)
    ensures PivotCuts(x, y, k1, k2, m1, m2)
  {
    if k < |x| {
      PivotBetween(x, pivot, k1, k2, k);
    } else {
      PivotBetween(y, pivot, m1, m2, k - |x|);
    }
    BoundsCut(x, y, pivot, k1, m1, false);
    BoundsCut(x, y, pivot, k2, m2, true);
    EqualBlock(x, pivot, k1, k2);
    EqualBlock(y, pivot, m1, m2);
  }

  // The choice of the pivot and the four searches for it.
  method FindPivot(arr: array<Elem>, lo: nat, len1: nat, len2: nat,
                   ghost p: seq<Elem>, ghost x: seq<Elem>, ghost y: seq<Elem>, ghost s: seq<Elem>)
    returns (k1: nat, k2: nat, m1: nat, m2: nat)
    requires |p| == lo && |x| == len1 && |y| == len2 && len1 + len2 < 0x8000_0000 && 3 <= len1 && 3 <= len2
    requires arr[..] == p + x + y + s && Sorted(x) && Sorted(y)
    ensures PivotCuts(x, y, k1, k2, m1, m2)
  {
    var k := if len1 < len2 then len1 + len2 / 2 else len1 / 2;
    Places(arr[..], p, x, y, s, lo, lo + len1, lo + len1 + len2);
    var pivot := arr[lo + k];
    k1, k2 := EqualRange(arr[lo..lo + len1], pivot);
    m1, m2 := EqualRange(arr[lo + len1..lo + len1 + len2], pivot);
    PivotFacts(x, y, pivot, k, k1, k2, m1, m2);
  }

  // The rotations, and what they leave to the two recursive calls.
  method ArrangePivots(arr: array<Elem>, lo: nat, len1: nat, k1: nat, k2: nat, m1: nat, m2: nat, ghost t: seq<Elem>,
                       ghost p: seq<Elem>, ghost x1: seq<Elem>, ghost xe: seq<Elem>, ghost x2: seq<Elem>,
                       ghost y1: seq<Elem>, ghost ye: seq<Elem>, ghost y2: seq<Elem>, ghost s: seq<Elem>)
    returns (ghost u: seq<Elem>, ghost q: seq<Elem>, ghost s': seq<Elem>)
    requires |p| == lo && |x1| == k1 && |xe| == k2 - k1 && |x2| == len1 - k2 && |y1| == m1 && |ye| == m2 - m1
    requires Pending(arr[..], t, p, x1 + (xe + x2), y1 + (ye + y2), s) && AllLe(xe, ye)
    requires IsCut(x1 + (xe + x2), y1 + (ye + y2), |x1|, |y1|)
    requires IsCut(x1 + (xe + x2), y1 + (ye + y2), |x1| + |xe|, |y1| + |ye|)
    modifies arr
    ensures |q| == lo + k2 + m2 && Pending(arr[..], u, q, x2, y2, s) && Pending(u, t, p, x1, y1, s')
  {
    u, s' := PivotPending(arr[..], t, p, x1, xe, x2, y1, ye, y2, s);
    q := p + x1 + y1 + (xe + ye);
    GatherPivots(arr, lo, len1, k1, k2, m1, m2, p, x1, xe, x2, y1, ye, y2, s);
  }

  lemma PartsAround(s: seq<Elem>, i: nat, j: nat)
    requires i <= j <= |s|
    ensures s == s[..i] + (s[i..j] + s[j..])
  {
    ThreeParts(s, i, j);
    Assoc(s[..i], s[i..j], s[j..]);
  }

  // The three-way split: what is left of x and of y on either side is smaller.
  method SplitAroundPivot(arr: array<Elem>, lo: nat, len1: nat, len2: nat, ghost t: seq<Elem>,
                          ghost p: seq<Elem>, ghost x: seq<Elem>, ghost y: seq<Elem>, ghost s: seq<Elem>)
    returns (k1: nat, k2: nat, m1: nat, m2: nat, ghost u: seq<Elem>, ghost q: seq<Elem>, ghost s': seq<Elem>)
    requires |p| == lo && |x| == len1 && |y| == len2 && len1 + len2 < 0x8000_0000 && 3 <= len1 && 3 <= len2
    requires Pending(arr[..], t, p, x, y, s)
    modifies arr
    ensures k1 <= k2 <= |x| && m1 <= m2 <= |y| && k1 + m1 < k2 + m2
    ensures |q| == lo + k2 + m2 && Pending(arr[..], u, q, x[k2..], y[m2..], s)
    ensures Pending(u, t, p, x[..k1], y[..m1], s')
  {
    k1, k2, m1, m2 := FindPivot(arr, lo, len1, len2, p, x, y, s);
    PartsAround(x, k1, k2);
    PartsAround(y, m1, m2);
    u, q, s' := ArrangePivots(arr, lo, len1, k1, k2, m1, m2, t,
                              p, x[..k1], x[k1..k2], x[k2..], y[..m1], y[m1..m2], y[m2..], s);
  }

  // GRAIL_REC_MERGE on an array that holds p + x + y + s.
  method RecMergeParts(arr: array<Elem>, lo: nat, len1: nat, len2: nat, ghost t: seq<Elem>,
                       ghost p: seq<Elem>, ghost x: seq<Elem>, ghost y: seq<Elem>, ghost s: seq<Elem>)
    requires |p| == lo && |x| == len1 && |y| == len2 && len1 + len2 < 0x8000_0000
    requires Pending(arr[..], t, p, x, y, s)
    modifies arr
    ensures arr[..] == t
    decreases len1 + len2
  {
    if len1 < 3 || len2 < 3 {
      MergeWithoutBufferParts(arr, lo, len1, len2, t, p, x, y, s);
      return;
    }
    var k1, k2, m1, m2;
    ghost var u, q, s';
    k1, k2, m1, m2, u, q, s' := SplitAroundPivot(arr, lo, len1, len2, t, p, x, y, s);
    RecMergeParts(arr, lo + (k2 + m2), len1 - k2, len2 - m2, u, q, x[k2..], y[m2..], s);
    RecMergeParts(arr, lo, k1, m1, t, p, x[..k1], y[..m1], s');
  }

  /** GRAIL_REC_MERGE: the stable merge of two adjacent runs. */
  method RecMerge(arr: array<Elem>, lo: nat, len1: nat, len2: nat)
    requires lo + len1 + len2 <= arr.Length && len1 + len2 < 0x8000_0000
    requires Sorted(arr[lo..lo + len1]) && Sorted(arr[lo + len1..lo + len1 + len2])
    modifies arr
    ensures IsMerge(arr[lo..lo + len1 + len2], old(arr[lo..lo + len1]), old(arr[lo + len1..lo + len1 + len2]))
    ensures SameOutside(arr[..], old(arr[..]), lo, lo + len1 + len2)
  {
    ghost var d, mid, hi := arr[..], lo + len1, lo + len1 + len2;
    ghost var t := MergePending(d, lo, mid, hi);
    RecMergeParts(arr, lo, len1, len2, t, d[..lo], d[lo..mid], d[mid..hi], d[hi..]);
  }
}
