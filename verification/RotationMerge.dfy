/** The stable merge of two adjacent runs by rotations alone, without any scratch space. */
module RotationMerge {
  import opened Order
  import opened Gallop
  import opened Rotation
  import opened Sequences

  // The array is p + x + y + s, and merging x with y in place would turn it into the target.
  ghost predicate Pending(d: seq<Elem>, target: seq<Elem>, p: seq<Elem>, x: seq<Elem>, y: seq<Elem>, s: seq<Elem>) {
    && d == p + x + y + s && Sorted(x) && Sorted(y)
    && exists r {:trigger IsMerge(r, x, y)} :: IsMerge(r, x, y) && target == p + r + s
  }

  /** A prefix of y that lies below all of x is merged once it stands before x. */
  lemma BelowX(d: seq<Elem>, e: seq<Elem>, t: seq<Elem>, p: seq<Elem>, x: seq<Elem>, y1: seq<Elem>, y2: seq<Elem>,
               s: seq<Elem>)
    requires Pending(d, t, p, x, y1 + y2, s) && IsCut(x, y1 + y2, 0, |y1|) && e == p + y1 + x + y2 + s
    ensures Pending(e, t, p + y1, x, y2, s)
  {
    var m :| IsMerge(m, x, y1 + y2) && t == p + m + s;
    var r := StartsInB(m, x, y1, y2);
    Regrouped(p, y1, r, s);
  }

  /** A prefix of x that lies below all of y is merged where it is. */
  lemma XBelow(d: seq<Elem>, t: seq<Elem>, p: seq<Elem>, x1: seq<Elem>, x2: seq<Elem>, y: seq<Elem>, s: seq<Elem>)
    requires Pending(d, t, p, x1 + x2, y, s) && IsCut(x1 + x2, y, |x1|, 0)
    ensures Pending(d, t, p + x1, x2, y, s)
  {
    var m :| IsMerge(m, x1 + x2, y) && t == p + m + s;
    var r := StartsInA(m, x1, x2, y);
    Regrouped(p, x1, r, s);
    Assoc(p, x1, x2);
  }

  /** A suffix of x that lies above all of y is merged once it stands behind y. */
  lemma AboveY(d: seq<Elem>, e: seq<Elem>, t: seq<Elem>, p: seq<Elem>, x1: seq<Elem>, x2: seq<Elem>, y: seq<Elem>,
               s: seq<Elem>)
    requires Pending(d, t, p, x1 + x2, y, s) && IsCut(x1 + x2, y, |x1|, |y|) && e == p + x1 + y + x2 + s
    ensures Pending(e, t, p, x1, y, x2 + s)
  {
    var m :| IsMerge(m, x1 + x2, y) && t == p + m + s;
    var r := EndsInA(m, x1, x2, y);
    Regrouped(p, r, x2, s);
    Assoc(p + x1 + y, x2, s);
  }

  /** A suffix of y that lies above all of x is merged where it is. */
  lemma YAbove(d: seq<Elem>, t: seq<Elem>, p: seq<Elem>, x: seq<Elem>, y1: seq<Elem>, y2: seq<Elem>, s: seq<Elem>)
    requires Pending(d, t, p, x, y1 + y2, s) && IsCut(x, y1 + y2, |x|, |y1|)
    ensures Pending(d, t, p, x, y1, y2 + s)
  {
    var m :| IsMerge(m, x, y1 + y2) && t == p + m + s;
    var r := EndsInB(m, x, y1, y2);
    Regrouped(p, r, y2, s);
    Regrouped(p + x, y1, y2, s);
  }

  lemma NothingPending(d: seq<Elem>, t: seq<Elem>, p: seq<Elem>, x: seq<Elem>, y: seq<Elem>, s: seq<Elem>)
    requires Pending(d, t, p, x, y, s) && (x == [] || y == [])
    ensures d == t
  {
    var m :| IsMerge(m, x, y) && t == p + m + s;
    EmptySide(m, x, y);
    Assoc(p, x, y);
  }

  // Where the parts of p + x + y + s are.
  lemma Places(d: seq<Elem>, p: seq<Elem>, x: seq<Elem>, y: seq<Elem>, s: seq<Elem>, i: nat, j: nat, k: nat)
    requires d == p + x + y + s && i == |p| && j == i + |x| && k == j + |y|
    ensures d[..i] == p && d[i..j] == x && d[j..k] == y && d[k..] == s
    ensures x != [] ==> d[i] == x[0]
    ensures y != [] ==> d[j] == y[0] && d[k - 1] == y[|y| - 1]
  {
  }

  lemma RotatedPlaces(d: seq<Elem>, e: seq<Elem>, p: seq<Elem>, x: seq<Elem>, y: seq<Elem>, s: seq<Elem>,
                      i: nat, j: nat, k: nat)
    requires d == p + x + y + s && i == |p| && j == i + |x| && k == j + |y|
    requires SameOutside(e, d, i, k) && e[i..k] == d[j..k] + d[i..j]
    ensures e == p + y + x + s
  {
    Places(d, p, x, y, s, i, j, k);
    SameEnds(e, d, i, k);
    ThreeParts(e, i, k);
    Regrouped(p, y, x, s);
  }

  lemma SameEnds(e: seq<Elem>, d: seq<Elem>, i: nat, k: nat)
    requires SameOutside(e, d, i, k) && i <= k <= |d|
    ensures e[..i] == d[..i] && e[k..] == d[k..]
  {
    SameSlice(e, d, i, k, 0, i);
    SameSlice(e, d, i, k, k, |d|);
  }

  // GRAIL_ROTATE of the blocks x and y of an array that holds p + x + y + s.
  method RotateParts(arr: array<Elem>, lo: nat, l1: nat, l2: nat,
                     ghost p: seq<Elem>, ghost x: seq<Elem>, ghost y: seq<Elem>, ghost s: seq<Elem>)
    requires arr[..] == p + x + y + s && |p| == lo && |x| == l1 && |y| == l2
    modifies arr
    ensures arr[..] == p + y + x + s
  {
    ghost var d := arr[..];
    Rotate(arr, lo, l1, l2);
    RotatedPlaces(d, arr[..], p, x, y, s, lo, lo + l1, lo + l1 + l2);
  }

  // ---------- From the front ----------

  lemma CutBelow(x: seq<Elem>, y: seq<Elem>, h: nat)
    requires x != [] && Sorted(y) && IsBound(y, x[0], h, false)
    ensures IsCut(x, y, 0, h)
    ensures h < |y| ==> x[0].key <= y[h].key
  {
    if 0 < h {
      assert Before(y[h - 1], x[0], false);
    }
    if h < |y| {
      assert !Before(y[h], x[0], false);
    }
  }

  // The do-while loop that leaves elements where they are: at least one, and all that do not exceed z.
  method CountNotAbove(s: seq<Elem>, z: Elem) returns (k: nat)
    requires s != [] && s[0].key <= z.key
    ensures 0 < k <= |s| && s[k - 1].key <= z.key
    ensures k < |s| ==> z.key < s[k].key
  {
    k := 1;
    while k < |s| && Cmp(s[k], z) <= 0
      invariant 0 < k <= |s| && s[k - 1].key <= z.key
    {
      k := k + 1;
    }
  }

  // Exchanges x with the elements of y that are below it, if there are any.
  method RotateBelow(arr: array<Elem>, lo: nat, len1: nat, h: nat, ghost t: seq<Elem>, ghost p: seq<Elem>,
                     ghost x: seq<Elem>, ghost y1: seq<Elem>, ghost y2: seq<Elem>, ghost s: seq<Elem>)
    requires |p| == lo && |x| == len1 && |y1| == h
    requires Pending(arr[..], t, p, x, y1 + y2, s) && IsCut(x, y1 + y2, 0, |y1|)
    modifies arr
    ensures Pending(arr[..], t, p + y1, x, y2, s)
  {
    ghost var d := arr[..];
    Regrouped(p + x, y1, y2, s);
    if h != 0 {
      RotateParts(arr, lo, len1, h, p, x, y1, y2 + s);
    } else {
      Units(p + x);
      Units(p);
    }
    Assoc(p + y1 + x, y2, s);
    BelowX(d, arr[..], t, p, x, y1, y2, s);
  }

  // Brings the elements of y that are below x[0] to the front.
  method PullBelow(arr: array<Elem>, lo: nat, len1: nat, len2: nat, ghost t: seq<Elem>,
                   ghost p: seq<Elem>, ghost x: seq<Elem>, ghost y: seq<Elem>, ghost s: seq<Elem>)
    returns (h: nat)
    requires |p| == lo && 0 < |x| == len1 && |y| == len2 < 0x7FFF_FFFF && Pending(arr[..], t, p, x, y, s)
    modifies arr
    ensures h <= |y| && Pending(arr[..], t, p + y[..h], x, y[h..], s)
    ensures h < |y| ==> x[0].key <= y[h].key
  {
    ghost var d := arr[..];
    Places(d, p, x, y, s, lo, lo + len1, lo + len1 + len2);
    h := BinSearchLeft(arr[lo + len1..lo + len1 + len2], arr[lo]);
    CutBelow(x, y, h);
    Cut(y, h);
    RotateBelow(arr, lo, len1, h, t, p, x, y[..h], y[h..], s);
  }

  // Steps over the elements of x that do not exceed y[0].
  method SkipBelow(arr: array<Elem>, lo: nat, len1: nat, len2: nat, ghost t: seq<Elem>,
                   ghost p: seq<Elem>, ghost x: seq<Elem>, ghost y: seq<Elem>, ghost s: seq<Elem>)
    returns (k: nat)
    requires |p| == lo && 0 < |x| == len1 && 0 < |y| == len2 && Pending(arr[..], t, p, x, y, s)
    requires x[0].key <= y[0].key
    ensures 0 < k <= |x| && Pending(arr[..], t, p + x[..k], x[k..], y, s)
  {
    Places(arr[..], p, x, y, s, lo, lo + len1, lo + len1 + len2);
    k := CountNotAbove(arr[lo..lo + len1], arr[lo + len1]);
    Cut(x, k);
    XBelow(arr[..], t, p, x[..k], x[k..], y, s);
  }

  // The first branch of GRAIL_MERGE_WITHOUT_BUFFER, on an array that holds p + x + y + s.
  method MergeFromFront(arr: array<Elem>, lo0: nat, len10: nat, len20: nat, ghost t: seq<Elem>,
                        ghost p0: seq<Elem>, ghost x0: seq<Elem>, ghost y0: seq<Elem>, ghost s: seq<Elem>)
    requires |p0| == lo0 && |x0| == len10 && |y0| == len20 && (len10 == 0 || len20 < 0x7FFF_FFFF)
    requires Pending(arr[..], t, p0, x0, y0, s)
    modifies arr
    ensures arr[..] == t
  {
    ghost var p, x, y := p0, x0, y0;
    var lo: nat, len1: nat, len2: nat := lo0, len10, len20;
    while len1 != 0
      invariant |p| == lo && |x| == len1 <= len10 && |y| == len2 <= len20
      invariant Pending(arr[..], t, p, x, y, s)
      decreases len1
    {
      var h := PullBelow(arr, lo, len1, len2, t, p, x, y, s);
      p, y := p + y[..h], y[h..];
      lo, len2 := lo + h, len2 - h;
      if len2 == 0 {
        break;
      }
      var k := SkipBelow(arr, lo, len1, len2, t, p, x, y, s);
      p, x := p + x[..k], x[k..];
      lo, len1 := lo + k, len1 - k;
    }
    NothingPending(arr[..], t, p, x, y, s);
  }

  // ---------- From the back ----------

  lemma CutAbove(x: seq<Elem>, y: seq<Elem>, h: nat)
    requires y != [] && Sorted(x) && IsBound(x, y[|y| - 1], h, true)
    ensures IsCut(x, y, h, |y|)
    ensures 0 < h ==> x[h - 1].key <= y[|y| - 1].key
  {
    if h < |x| {
      assert !Before(x[h], y[|y| - 1], true);
    }
    if 0 < h {
      assert Before(x[h - 1], y[|y| - 1], true);
    }
  }

  // The do-while loop that leaves elements where they are, from the end: the elements after the
  // first k are not below z.
  method CountBelow(s: seq<Elem>, z: Elem) returns (k: nat)
    requires s != [] && z.key <= s[|s| - 1].key
    ensures k < |s| && z.key <= s[k].key
    ensures 0 < k ==> s[k - 1].key < z.key
  {
    k := |s| - 1;
    while k != 0 && Cmp(z, s[k - 1]) <= 0
      invariant k < |s| && z.key <= s[k].key
    {
      k := k - 1;
    }
  }

  // Exchanges y with the elements of x that are above it, if there are any.
  method RotateAbove(arr: array<Elem>, lo: nat, h: nat, len1: nat, len2: nat, ghost t: seq<Elem>, ghost p: seq<Elem>,
                     ghost x1: seq<Elem>, ghost x2: seq<Elem>, ghost y: seq<Elem>, ghost s: seq<Elem>)
    requires |p| == lo && |x1| == h && |x2| == len1 - h && |y| == len2
    requires Pending(arr[..], t, p, x1 + x2, y, s) && IsCut(x1 + x2, y, |x1|, |y|)
    modifies arr
    ensures Pending(arr[..], t, p, x1, y, x2 + s)
  {
    ghost var d := arr[..];
    Assoc(p, x1, x2);
    if h != len1 {
      RotateParts(arr, lo + h, len1 - h, len2, p + x1, x2, y, s);
    } else {
      Units(p + x1);
      Units(p + x1 + y);
    }
    AboveY(d, arr[..], t, p, x1, x2, y, s);
  }

  // Brings the elements of x that are above the last of y to the end.
  method PushAbove(arr: array<Elem>, lo: nat, len1: nat, len2: nat, ghost t: seq<Elem>,
                   ghost p: seq<Elem>, ghost x: seq<Elem>, ghost y: seq<Elem>, ghost s: seq<Elem>)
    returns (h: nat)
    requires |p| == lo && |x| == len1 < 0x7FFF_FFFF && 0 < |y| == len2 && len1 + len2 < 0x8000_0000
    requires Pending(arr[..], t, p, x, y, s)
    modifies arr
    ensures h <= |x| && Pending(arr[..], t, p, x[..h], y, x[h..] + s)
    ensures 0 < h ==> x[h - 1].key <= y[|y| - 1].key
  {
    ghost var d := arr[..];
    Places(d, p, x, y, s, lo, lo + len1, lo + len1 + len2);
    var both: Int32 := len1 + len2;
    h := BinSearchRight(arr[lo..lo + len1], arr[lo + (both - 1)]);
    CutAbove(x, y, h);
    Cut(x, h);
    RotateAbove(arr, lo, h, len1, len2, t, p, x[..h], x[h..], y, s);
  }

  // Steps over the elements at the end of y that are not below the last of x.
  method SkipAbove(arr: array<Elem>, lo: nat, len1: nat, len2: nat, ghost t: seq<Elem>,
                   ghost p: seq<Elem>, ghost x: seq<Elem>, ghost y: seq<Elem>, ghost s: seq<Elem>)
    returns (k: nat)
    requires |p| == lo && 0 < |x| == len1 && 0 < |y| == len2 && Pending(arr[..], t, p, x, y, s)
    requires x[|x| - 1].key <= y[|y| - 1].key
    ensures k < |y| && Pending(arr[..], t, p, x, y[..k], y[k..] + s)
  {
    Places(arr[..], p, x, y, s, lo, lo + len1, lo + len1 + len2);
    k := CountBelow(arr[lo + len1..lo + len1 + len2], arr[lo + len1 - 1]);
    Cut(y, k);
    YAbove(arr[..], t, p, x, y[..k], y[k..], s);
  }

  // The second branch of GRAIL_MERGE_WITHOUT_BUFFER.
  method MergeFromBack(arr: array<Elem>, lo: nat, len10: nat, len20: nat, ghost t: seq<Elem>,
                       ghost p: seq<Elem>, ghost x0: seq<Elem>, ghost y0: seq<Elem>, ghost s0: seq<Elem>)
    requires |p| == lo && |x0| == len10 && |y0| == len20
    requires len20 == 0 || (len10 < 0x7FFF_FFFF && len10 + len20 < 0x8000_0000)
    requires Pending(arr[..], t, p, x0, y0, s0)
    modifies arr
    ensures arr[..] == t
  {
    ghost var x, y, s := x0, y0, s0;
    var len1: nat, len2: nat := len10, len20;
    while len2 != 0
      invariant |x| == len1 <= len10 && |y| == len2 <= len20
      invariant Pending(arr[..], t, p, x, y, s)
      decreases len2
    {
      var h := PushAbove(arr, lo, len1, len2, t, p, x, y, s);
      x, s := x[..h], x[h..] + s;
      len1 := h;
      if len1 == 0 {
        break;
      }
      var k := SkipAbove(arr, lo, len1, len2, t, p, x, y, s);
      y, s := y[..k], y[k..] + s;
      len2 := k;
    }
    NothingPending(arr[..], t, p, x, y, s);
  }

  // ---------- The merge ----------

  lemma MergePending(d: seq<Elem>, lo: nat, mid: nat, hi: nat) returns (t: seq<Elem>)
    requires lo <= mid <= hi <= |d| && Sorted(d[lo..mid]) && Sorted(d[mid..hi])
    ensures Pending(d, t, d[..lo], d[lo..mid], d[mid..hi], d[hi..])
    ensures IsMerge(t[lo..hi], d[lo..mid], d[mid..hi]) && SameOutside(t, d, lo, hi)
  {
    var m := SomeMerge(d[lo..mid], d[mid..hi]);
    t := d[..lo] + m + d[hi..];
    assert d == d[..lo] + d[lo..mid] + d[mid..hi] + d[hi..];
    assert t[lo..hi] == m;
    forall i | 0 <= i < |d| && (i < lo || hi <= i) ensures SameAt(t, d, i) {
    }
  }

  // The int arithmetic of the branch that is taken stays in range.
  predicate IntsFit(len1: nat, len2: nat) {
    if len1 < len2 then len1 == 0 || len2 < 0x7FFF_FFFF
    else len2 == 0 || (len1 < 0x7FFF_FFFF && len1 + len2 < 0x8000_0000)
  }

  // GRAIL_MERGE_WITHOUT_BUFFER on an array that holds p + x + y + s.
  method MergeWithoutBufferParts(arr: array<Elem>, lo: nat, len1: nat, len2: nat, ghost t: seq<Elem>,
                                 ghost p: seq<Elem>, ghost x: seq<Elem>, ghost y: seq<Elem>, ghost s: seq<Elem>)
    requires |p| == lo && |x| == len1 && |y| == len2 && IntsFit(len1, len2)
    requires Pending(arr[..], t, p, x, y, s)
    modifies arr
    ensures arr[..] == t
  {
    if len1 < len2 {
      MergeFromFront(arr, lo, len1, len2, t, p, x, y, s);
    } else {
      MergeFromBack(arr, lo, len1, len2, t, p, x, y, s);
    }
  }

  /** GRAIL_MERGE_WITHOUT_BUFFER: the stable merge of two adjacent runs, whichever of them is longer. */
  method MergeWithoutBuffer(arr: array<Elem>, lo: nat, len1: nat, len2: nat)
    requires lo + len1 + len2 <= arr.Length && IntsFit(len1, len2)
    requires Sorted(arr[lo..lo + len1]) && Sorted(arr[lo + len1..lo + len1 + len2])
    modifies arr
    ensures IsMerge(arr[lo..lo + len1 + len2], old(arr[lo..lo + len1]), old(arr[lo + len1..lo + len1 + len2]))
    ensures SameOutside(arr[..], old(arr[..]), lo, lo + len1 + len2)
  {
    ghost var d, mid, hi := arr[..], lo + len1, lo + len1 + len2;
    ghost var t := MergePending(d, lo, mid, hi);
    MergeWithoutBufferParts(arr, lo, len1, len2, t, d[..lo], d[lo..mid], d[mid..hi], d[hi..]);
  }
}
