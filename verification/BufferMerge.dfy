/** Merging two runs into a swap buffer that lies before or behind them.

Every move exchanges an element with a cell of the buffer, so the buffer elements are never lost:
they end up on the other side of the merged run, in some order.
 */
module BufferMerge {
  import opened Order
  import opened Cells
  import opened Gallop
  import opened Rotation
  import opened Sequences

  // ---------- What is still to be merged ----------

  // done, followed by the merge of x and y, is m.
  ghost predicate OwedBehind(m: seq<Elem>, done: seq<Elem>, x: seq<Elem>, y: seq<Elem>) {
    Sorted(x) && Sorted(y) && exists r {:trigger IsMerge(r, x, y)} :: IsMerge(r, x, y) && m == done + r
  }

  // The merge of x and y, followed by done, is m.
  ghost predicate OwedInFront(m: seq<Elem>, x: seq<Elem>, y: seq<Elem>, done: seq<Elem>) {
    Sorted(x) && Sorted(y) && exists r {:trigger IsMerge(r, x, y)} :: IsMerge(r, x, y) && m == r + done
  }

  lemma Uncons(s: seq<Elem>)
    requires s != []
    ensures s == [s[0]] + s[1..]
  {
  }

  lemma Unsnoc(s: seq<Elem>)
    requires s != []
    ensures s == s[..|s| - 1] + [s[|s| - 1]]
  {
  }

  lemma FirstFromY(m: seq<Elem>, done: seq<Elem>, x: seq<Elem>, y: seq<Elem>)
    requires OwedBehind(m, done, x, y) && y != [] && (x == [] || y[0].key < x[0].key)
    ensures OwedBehind(m, done + [y[0]], x, y[1..])
  {
    var q :| IsMerge(q, x, y) && m == done + q;
    Uncons(y);
    var r := StartsInB(q, x, [y[0]], y[1..]);
    Assoc(done, [y[0]], r);
  }

  lemma FirstFromX(m: seq<Elem>, done: seq<Elem>, x: seq<Elem>, y: seq<Elem>)
    requires OwedBehind(m, done, x, y) && x != [] && (y == [] || x[0].key <= y[0].key)
    ensures OwedBehind(m, done + [x[0]], x[1..], y)
  {
    var q :| IsMerge(q, x, y) && m == done + q;
    Uncons(x);
    var r := StartsInA(q, [x[0]], x[1..], y);
    Assoc(done, [x[0]], r);
  }

  lemma LastFromX(m: seq<Elem>, x: seq<Elem>, y: seq<Elem>, done: seq<Elem>)
    requires OwedInFront(m, x, y, done) && x != [] && (y == [] || y[|y| - 1].key < x[|x| - 1].key)
    ensures OwedInFront(m, x[..|x| - 1], y, [x[|x| - 1]] + done)
  {
    var q :| IsMerge(q, x, y) && m == q + done;
    Unsnoc(x);
    var r := EndsInA(q, x[..|x| - 1], [x[|x| - 1]], y);
    Assoc(r, [x[|x| - 1]], done);
  }

  lemma LastFromY(m: seq<Elem>, x: seq<Elem>, y: seq<Elem>, done: seq<Elem>)
    requires OwedInFront(m, x, y, done) && y != [] && (x == [] || x[|x| - 1].key <= y[|y| - 1].key)
    ensures OwedInFront(m, x, y[..|y| - 1], [y[|y| - 1]] + done)
  {
    var q :| IsMerge(q, x, y) && m == q + done;
    Unsnoc(y);
    var r := EndsInB(q, x, y[..|y| - 1], [y[|y| - 1]]);
    Assoc(r, [y[|y| - 1]], done);
  }

  // ---------- To the left ----------

  // The array: p, the merged part, buffer cells g1, the rest of the first run, buffer cells g2, the
  // rest of the second run, s.
  ghost predicate LeftState(d: seq<Elem>, m: seq<Elem>, g: multiset<Elem>, p: seq<Elem>, done: seq<Elem>, g1: seq<Elem>,
                            x: seq<Elem>, g2: seq<Elem>, y: seq<Elem>, s: seq<Elem>) {
    && d == p + done + g1 + x + g2 + y + s
    && multiset(g1 + g2) == g && OwedBehind(m, done, x, y)
  }

  lemma LeftCells(d: seq<Elem>, p: seq<Elem>, done: seq<Elem>, g1: seq<Elem>, x: seq<Elem>, g2: seq<Elem>, y: seq<Elem>,
                  s: seq<Elem>, i: nat, j: nat, k: nat)
    requires d == p + done + g1 + x + g2 + y + s
    requires i == |p| + |done| && j == i + |g1| && k == j + |x| + |g2|
    ensures k + |y| <= |d| && (g1 != [] ==> d[i] == g1[0]) && (x != [] ==> d[j] == x[0]) && (y != [] ==> d[k] == y[0])
  {
  }

  lemma LeftMovesY(d: seq<Elem>, p: seq<Elem>, done: seq<Elem>, c: Elem, g1: seq<Elem>, x: seq<Elem>, g2: seq<Elem>,
                   b: Elem, y: seq<Elem>, s: seq<Elem>, i: nat, k: nat)
    requires d == p + done + ([c] + g1) + x + g2 + ([b] + y) + s
    requires i == |p| + |done| && k == i + 1 + |g1| + |x| + |g2|
    ensures d[i := b][k := c] == p + (done + [b]) + g1 + x + (g2 + [c]) + y + s
  {
  }

  lemma LeftMovesX(d: seq<Elem>, p: seq<Elem>, done: seq<Elem>, c: Elem, g1: seq<Elem>, a: Elem, x: seq<Elem>,
                   z: seq<Elem>, i: nat, j: nat)
    requires d == p + done + ([c] + g1) + ([a] + x) + z
    requires i == |p| + |done| && j == i + 1 + |g1|
    ensures d[i := a][j := c] == p + (done + [a]) + (g1 + [c]) + x + z
  {
  }

  lemma FirstToLast(g1: seq<Elem>, g2: seq<Elem>)
    requires g1 != []
    ensures multiset(g1[1..] + (g2 + [g1[0]])) == multiset(g1 + g2)
    ensures multiset(g1[1..] + [g1[0]] + g2) == multiset(g1 + g2)
  {
    assert g1 == [g1[0]] + g1[1..];
  }

  // Moves the first of y to the end of the merged part.
  method LeftTakeY(arr: array<Elem>, i: nat, k: nat, ghost m: seq<Elem>, ghost g: multiset<Elem>, ghost p: seq<Elem>,
                   ghost done: seq<Elem>, ghost g1: seq<Elem>, ghost x: seq<Elem>, ghost g2: seq<Elem>,
                   ghost y: seq<Elem>, ghost s: seq<Elem>)
    requires LeftState(arr[..], m, g, p, done, g1, x, g2, y, s) && g1 != [] && y != []
    requires x == [] || y[0].key < x[0].key
    requires i == |p| + |done| && k == i + |g1| + |x| + |g2|
    modifies arr
    ensures LeftState(arr[..], m, g, p, done + [y[0]], g1[1..], x, g2 + [g1[0]], y[1..], s)
  {
    ghost var d := arr[..];
    LeftCells(d, p, done, g1, x, g2, y, s, i, i + |g1|, k);
    assert g1 == [g1[0]] + g1[1..] && y == [y[0]] + y[1..];
    LeftMovesY(d, p, done, g1[0], g1[1..], x, g2, y[0], y[1..], s, i, k);
    FirstFromY(m, done, x, y);
    FirstToLast(g1, g2);
    SwapCells(arr, i, k);
  }

  lemma LeftAfterX(d: seq<Elem>, p: seq<Elem>, done: seq<Elem>, g1: seq<Elem>, x: seq<Elem>, z: seq<Elem>, i: nat,
                   j: nat)
    returns (g1': seq<Elem>)
    requires d == p + done + g1 + x + z && x != [] && i == |p| + |done| && j == i + |g1|
    ensures d[i := d[j]][j := d[i]] == p + (done + [x[0]]) + g1' + x[1..] + z
    ensures |g1'| == |g1| && multiset(g1') == multiset(g1)
  {
    assert x == [x[0]] + x[1..] && d[j] == x[0];
    if g1 == [] {
      g1' := [];
      assert p + done + [] + ([x[0]] + x[1..]) + z == p + (done + [x[0]]) + [] + x[1..] + z;
    } else {
      assert g1 == [g1[0]] + g1[1..] && d[i] == g1[0];
      LeftMovesX(d, p, done, g1[0], g1[1..], x[0], x[1..], z, i, j);
      g1' := g1[1..] + [g1[0]];
    }
  }

  lemma Regroup7(p: seq<Elem>, a: seq<Elem>, b: seq<Elem>, c: seq<Elem>, x: seq<Elem>, y: seq<Elem>, s: seq<Elem>)
    ensures p + a + b + c + x + y + s == p + a + b + c + (x + y + s)
  {
  }

  // Moves the first of x to the end of the merged part; with no buffer cell in between it stays.
  method LeftTakeX(arr: array<Elem>, i: nat, j: nat, ghost m: seq<Elem>, ghost g: multiset<Elem>, ghost p: seq<Elem>,
                   ghost done: seq<Elem>, ghost g1: seq<Elem>, ghost x: seq<Elem>, ghost g2: seq<Elem>,
                   ghost y: seq<Elem>, ghost s: seq<Elem>)
    returns (ghost g1': seq<Elem>)
    requires LeftState(arr[..], m, g, p, done, g1, x, g2, y, s) && x != []
    requires y == [] || x[0].key <= y[0].key
    requires i == |p| + |done| && j == i + |g1|
    modifies arr
    ensures |g1'| == |g1| && LeftState(arr[..], m, g, p, done + [x[0]], g1', x[1..], g2, y, s)
  {
    Regroup7(p, done, g1, x, g2, y, s);
    FirstFromX(m, done, x, y);
    g1' := LeftAfterX(arr[..], p, done, g1, x, g2 + y + s, i, j);
    SwapCells(arr, i, j);
    Regroup7(p, done + [x[0]], g1', x[1..], g2, y, s);
  }

  lemma MultisetOfParts(p: seq<Elem>, a: seq<Elem>, b: seq<Elem>, z: seq<Elem>)
    ensures multiset(p + a + b + z) == multiset(p) + multiset(a) + multiset(b) + multiset(z)
  {
  }

  lemma CommonParts(p: multiset<Elem>, a: multiset<Elem>, b: multiset<Elem>, c: multiset<Elem>, z: multiset<Elem>)
    requires p + a + b + z == p + b + c + z
    ensures a == c
  {
    forall v: Elem ensures a[v] == c[v] {
      assert (p + a + b + z)[v] == (p + b + c + z)[v];
    }
  }

  // The last move of GRAIL_MERGE_LEFT, when only elements of x are left.
  lemma LeftShifted(d: seq<Elem>, e: seq<Elem>, p: seq<Elem>, g1: seq<Elem>, x: seq<Elem>, z: seq<Elem>)
    returns (g1': seq<Elem>)
    requires d == p + g1 + x + z && g1 != [] && Swapped(e, d, |p|, |p| + |g1|, |x|)
    ensures e == p + x + g1' + z && multiset(g1') == multiset(g1) && |g1'| == |g1|
  {
    var i, j, n, w := |p|, |p| + |g1|, |x|, |g1| + |x|;
    g1' := e[i + n..i + w];
    var f := p + x + g1' + z;
    forall k | 0 <= k < |e| ensures e[k] == f[k] {
      assert SwappedAt(e, d, i, j, n, k);
    }
    assert e == f;
    MultisetOfParts(p, g1, x, z);
    MultisetOfParts(p, x, g1', z);
    CommonParts(multiset(p), multiset(g1), multiset(x), multiset(g1'), multiset(z));
  }

  // The loop of GRAIL_MERGE_LEFT and the move behind it.
  method MergeIntoLeft(arr: array<Elem>, o: nat, len1: nat, len20: nat, shift0: Int32, ghost m: seq<Elem>,
                       ghost p: seq<Elem>, ghost buf: seq<Elem>, ghost a: seq<Elem>, ghost b: seq<Elem>,
                       ghost s: seq<Elem>)
    returns (ghost buf': seq<Elem>)
    requires |p| == o + shift0 && |buf| == 0 - shift0 && |a| == len1 && |b| == len20 <= |buf|
    requires len1 + len20 < 0x8000_0000
    requires LeftState(arr[..], m, multiset(buf), p, [], buf, a, [], b, s)
    modifies arr
    ensures arr[..] == p + m + buf' + s && multiset(buf') == multiset(buf)
  {
    var len2: Int32 := len20 + len1;  // no other variable exceeds it
    var p0: nat, p1: nat, shift: int := 0, len1, shift0;
    ghost var done, g1, x, g2, y := [], buf, a, [], b;
    while p1 < len2
      invariant shift0 <= shift <= p0 <= len1 <= p1 <= len2 && shift == shift0 + p0 + (p1 - len1)
      invariant |done| == shift - shift0 && |g1| == p0 - shift && |x| == len1 - p0
      invariant |g2| == p1 - len1 && |y| == len2 - p1
      invariant LeftState(arr[..], m, multiset(buf), p, done, g1, x, g2, y, s)
      decreases len1 - p0 + (len2 - p1)
    {
      var i, j, k := o + shift, o + p0, o + p1;
      LeftCells(arr[..], p, done, g1, x, g2, y, s, i, j, k);
      if p0 == len1 || Cmp(arr[j], arr[k]) > 0 {
        LeftTakeY(arr, i, k, m, multiset(buf), p, done, g1, x, g2, y, s);
        done, g1, g2, y := done + [y[0]], g1[1..], g2 + [g1[0]], y[1..];
        shift, p1 := shift + 1, p1 + 1;
      } else {
        g1 := LeftTakeX(arr, i, j, m, multiset(buf), p, done, g1, x, g2, y, s);
        done, x := done + [x[0]], x[1..];
        shift, p0 := shift + 1, p0 + 1;
      }
    }
    ghost var d := arr[..];
    if shift != p0 {
      SwapBlocks(arr, o + shift, o + p0, len1 - p0);
    }
    buf' := LeftEnds(d, arr[..], m, multiset(buf), p, done, g1, x, g2, y, s);
  }

  lemma LeftEnds(d: seq<Elem>, e: seq<Elem>, m: seq<Elem>, g: multiset<Elem>, p: seq<Elem>, done: seq<Elem>,
                 g1: seq<Elem>, x: seq<Elem>, g2: seq<Elem>, y: seq<Elem>, s: seq<Elem>)
    returns (buf': seq<Elem>)
    requires y == [] && LeftState(d, m, g, p, done, g1, x, g2, y, s)
    requires if g1 == [] then e == d else Swapped(e, d, |p| + |done|, |p| + |done| + |g1|, |x|)
    ensures e == p + m + buf' + s && multiset(buf') == g
  {
    var r :| IsMerge(r, x, []) && m == done + r;
    EmptySide(r, x, []);
    Units(x);
    NothingBehind(p + done + g1 + x, g2, s);
    var g1' := RestMoved(d, e, p + done, g1, x, g2 + s);
    buf' := g1' + g2;
    Assoc(p, done, x);
    Regrouped(p + m, g1', g2, s);
  }

  lemma NothingBehind(u: seq<Elem>, g2: seq<Elem>, s: seq<Elem>)
    ensures u + g2 + [] + s == u + (g2 + s)
  {
    Units(u + g2);
    Assoc(u, g2, s);
  }

  lemma RestMoved(d: seq<Elem>, e: seq<Elem>, p: seq<Elem>, g1: seq<Elem>, x: seq<Elem>, z: seq<Elem>)
    returns (g1': seq<Elem>)
    requires d == p + g1 + x + z
    requires if g1 == [] then e == d else Swapped(e, d, |p|, |p| + |g1|, |x|)
    ensures e == p + x + g1' + z && multiset(g1') == multiset(g1)
  {
    if g1 == [] {
      g1' := [];
      Units(p);
      Units(p + x);
    } else {
      g1' := LeftShifted(d, e, p, g1, x, z);
    }
  }

  // What the merge to the left makes of an array d: the merged run stands -shift cells before the runs,
  // and the buffer that was there stands behind it, in some order.
  ghost predicate MergedLeft(e: seq<Elem>, d: seq<Elem>, o: nat, len1: nat, len2: nat, shift: int)
    requires 0 <= o + shift <= o && o + len1 + len2 <= |d| == |e|
  {
    && IsMerge(e[o + shift..o + shift + len1 + len2], d[o..o + len1], d[o + len1..o + len1 + len2])
    && multiset(e[o + shift + len1 + len2..o + len1 + len2]) == multiset(d[o + shift..o])
    && SameOutside(e, d, o + shift, o + len1 + len2)
  }

  lemma MovedLeft(e: seq<Elem>, d: seq<Elem>, o: nat, len1: nat, len2: nat, shift: int, m: seq<Elem>, buf: seq<Elem>,
                  lo: nat, mid: nat, hi: nat)
    requires lo == o + shift <= o && mid == o + len1 && hi == mid + len2 <= |d| == |e|
    requires IsMerge(m, d[o..mid], d[mid..hi]) && multiset(buf) == multiset(d[lo..o])
    requires e == d[..lo] + m + buf + d[hi..]
    ensures MergedLeft(e, d, o, len1, len2, shift)
  {
    var end := lo + len1 + len2;
    assert end == o + shift + len1 + len2 && hi == o + len1 + len2;
    MovedLayout(e, d, d[..lo], m, buf, d[hi..], lo, end, hi);
  }

  /** GRAIL_MERGE_LEFT on the runs of len1 and len2 elements at arr[o]; the buffer is in front of them. */
  method GrailMergeLeft(arr: array<Elem>, o: nat, len1: nat, len2: nat, shift: Int32)
    requires 0 <= o + shift && len2 <= 0 - shift && o + len1 + len2 <= arr.Length && len1 + len2 < 0x8000_0000
    requires Sorted(arr[o..o + len1]) && Sorted(arr[o + len1..o + len1 + len2])
    modifies arr
    ensures MergedLeft(arr[..], old(arr[..]), o, len1, len2, shift)
  {
    ghost var d, lo, mid, hi := arr[..], o + shift, o + len1, o + len1 + len2;
    ghost var m := LeftStarts(d, o, lo, mid, hi);
    ghost var buf := MergeIntoLeft(arr, o, len1, len2, shift, m, d[..lo], d[lo..o], d[o..mid], d[mid..hi], d[hi..]);
    MovedLeft(arr[..], d, o, len1, len2, shift, m, buf, lo, mid, hi);
  }

  lemma MovedLayout(e: seq<Elem>, d: seq<Elem>, p: seq<Elem>, u: seq<Elem>, v: seq<Elem>, s: seq<Elem>,
                    lo: nat, mid: nat, hi: nat)
    requires lo <= mid <= hi <= |d| && p == d[..lo] && s == d[hi..] && e == p + u + v + s
    requires |u| == mid - lo && |e| == |d|
    ensures e[lo..mid] == u && e[mid..hi] == v && SameOutside(e, d, lo, hi)
  {
    forall i | 0 <= i < |e| && (i < lo || hi <= i) ensures SameAt(e, d, i) {
    }
  }

  lemma LeftStarts(d: seq<Elem>, o: nat, lo: nat, mid: nat, hi: nat) returns (m: seq<Elem>)
    requires lo <= o <= mid <= hi <= |d| && Sorted(d[o..mid]) && Sorted(d[mid..hi])
    ensures IsMerge(m, d[o..mid], d[mid..hi])
    ensures LeftState(d, m, multiset(d[lo..o]), d[..lo], [], d[lo..o], d[o..mid], [], d[mid..hi], d[hi..])
  {
    m := SomeMerge(d[o..mid], d[mid..hi]);
    Units(m);
    Units(d[lo..o]);
    Units(d[..lo]);
    FiveParts(d, lo, o, mid, hi);
    Units(d[..lo] + d[lo..o] + d[o..mid]);
  }

  // ---------- To the right ----------

  // The array: p, the rest of the first run, buffer cells g1, the rest of the second run, buffer
  // cells g2, the merged part, s.
  ghost predicate RightState(d: seq<Elem>, m: seq<Elem>, g: multiset<Elem>, p: seq<Elem>, x: seq<Elem>, g1: seq<Elem>,
                             y: seq<Elem>, g2: seq<Elem>, done: seq<Elem>, s: seq<Elem>) {
    && d == p + x + g1 + y + g2 + done + s
    && multiset(g1 + g2) == g && OwedInFront(m, x, y, done)
  }

  lemma RightCells(d: seq<Elem>, p: seq<Elem>, x: seq<Elem>, g1: seq<Elem>, y: seq<Elem>, g2: seq<Elem>, z: seq<Elem>,
                   i: int, j: int, k: int)
    requires d == p + x + g1 + y + g2 + z
    requires i == |p| + |x| - 1 && j == i + |g1| + |y| && k == j + |g2|
    ensures k < |d| && (x != [] ==> d[i] == x[|x| - 1]) && (y != [] ==> d[j] == y[|y| - 1])
    ensures g2 != [] ==> d[k] == g2[|g2| - 1]
  {
  }

  lemma RightMovesX(d: seq<Elem>, p: seq<Elem>, x: seq<Elem>, a: Elem, g1: seq<Elem>, y: seq<Elem>, g2: seq<Elem>,
                    c: Elem, done: seq<Elem>, s: seq<Elem>, i: nat, k: nat)
    requires d == p + (x + [a]) + g1 + y + (g2 + [c]) + done + s
    requires i == |p| + |x| && k == i + 1 + |g1| + |y| + |g2|
    ensures d[k := a][i := c] == p + x + ([c] + g1) + y + g2 + ([a] + done) + s
  {
  }

  lemma RightMovesY(d: seq<Elem>, p: seq<Elem>, y: seq<Elem>, b: Elem, g2: seq<Elem>, c: Elem, done: seq<Elem>,
                    s: seq<Elem>, j: nat, k: nat)
    requires d == p + (y + [b]) + (g2 + [c]) + done + s
    requires j == |p| + |y| && k == j + 1 + |g2|
    ensures d[k := b][j := c] == p + y + ([c] + g2) + ([b] + done) + s
  {
  }

  lemma RightAfterY(d: seq<Elem>, p: seq<Elem>, y: seq<Elem>, g2: seq<Elem>, done: seq<Elem>, s: seq<Elem>, j: nat,
                    k: nat)
    returns (g2': seq<Elem>)
    requires d == p + y + g2 + done + s && y != [] && j == |p| + |y| - 1 && k == j + |g2|
    ensures d[k := d[j]][j := d[k]] == p + y[..|y| - 1] + g2' + ([y[|y| - 1]] + done) + s
    ensures |g2'| == |g2| && multiset(g2') == multiset(g2)
  {
    var y', b := y[..|y| - 1], y[|y| - 1];
    assert y == y' + [b] && d[j] == b;
    if g2 == [] {
      g2' := [];
      assert p + (y' + [b]) + [] + done + s == p + y' + [] + ([b] + done) + s;
    } else {
      var h, c := g2[..|g2| - 1], g2[|g2| - 1];
      assert g2 == h + [c] && d[k] == c;
      RightMovesY(d, p, y', b, h, c, done, s, j, k);
      g2' := [c] + h;
    }
  }

  lemma LastToFirst(g1: seq<Elem>, g2: seq<Elem>)
    requires g2 != []
    ensures multiset([g2[|g2| - 1]] + g1 + g2[..|g2| - 1]) == multiset(g1 + g2)
  {
    assert g2 == g2[..|g2| - 1] + [g2[|g2| - 1]];
  }

  // Moves the last of x to the front of the merged part.
  method RightTakeX(arr: array<Elem>, i: nat, k: nat, ghost m: seq<Elem>, ghost g: multiset<Elem>, ghost p: seq<Elem>,
                    ghost x: seq<Elem>, ghost g1: seq<Elem>, ghost y: seq<Elem>, ghost g2: seq<Elem>,
                    ghost done: seq<Elem>, ghost s: seq<Elem>)
    requires RightState(arr[..], m, g, p, x, g1, y, g2, done, s) && g2 != [] && x != []
    requires y == [] || y[|y| - 1].key < x[|x| - 1].key
    requires i == |p| + |x| - 1 && k == i + |g1| + |y| + |g2|
    modifies arr
    ensures RightState(arr[..], m, g, p, x[..|x| - 1], [g2[|g2| - 1]] + g1, y, g2[..|g2| - 1], [x[|x| - 1]] + done, s)
  {
    ghost var d, x', a, h, c := arr[..], x[..|x| - 1], x[|x| - 1], g2[..|g2| - 1], g2[|g2| - 1];
    assert x == x' + [a] && g2 == h + [c];
    RightCells(d, p, x, g1, y, g2, done + s, i, i + |g1| + |y|, k) by {
      assert d == p + x + g1 + y + g2 + (done + s);
    }
    RightMovesX(d, p, x', a, g1, y, h, c, done, s, i, k);
    LastFromX(m, x, y, done);
    LastToFirst(g1, g2);
    SwapCells(arr, k, i);
  }

  // Moves the last of y to the front of the merged part; with no buffer cell in between it stays.
  method RightTakeY(arr: array<Elem>, j: nat, k: nat, ghost m: seq<Elem>, ghost g: multiset<Elem>, ghost p: seq<Elem>,
                    ghost x: seq<Elem>, ghost g1: seq<Elem>, ghost y: seq<Elem>, ghost g2: seq<Elem>,
                    ghost done: seq<Elem>, ghost s: seq<Elem>)
    returns (ghost g2': seq<Elem>)
    requires RightState(arr[..], m, g, p, x, g1, y, g2, done, s) && y != []
    requires x == [] || x[|x| - 1].key <= y[|y| - 1].key
    requires j == |p| + |x| + |g1| + |y| - 1 && k == j + |g2|
    modifies arr
    ensures |g2'| == |g2| && RightState(arr[..], m, g, p, x, g1, y[..|y| - 1], g2', [y[|y| - 1]] + done, s)
  {
    LastFromY(m, x, y, done);
    g2' := RightAfterY(arr[..], p + x + g1, y, g2, done, s, j, k);
    SwapCells(arr, k, j);
  }

  // The two loops of GRAIL_MERGE_RIGHT.
  method MergeIntoRight(arr: array<Elem>, o: nat, len1: nat, len2: nat, shift: nat, ghost m: seq<Elem>,
                        ghost p: seq<Elem>, ghost a: seq<Elem>, ghost b: seq<Elem>, ghost buf: seq<Elem>,
                        ghost s: seq<Elem>)
    returns (ghost buf': seq<Elem>)
    requires |p| == o && |a| == len1 <= shift && |b| == len2 && |buf| == shift && len1 + len2 + shift < 0x8000_0000
    requires RightState(arr[..], m, multiset(buf), p, a, [], b, buf, [], s)
    modifies arr
    ensures arr[..] == p + buf' + m + s && multiset(buf') == multiset(buf)
  {
    var end: Int32, all: Int32 := len1 + len2, len1 + len2 + shift;  // no other variable exceeds all
    var p0: int, p2: int, p1: int := all - 1, end - 1, len1 - 1;
    ghost var x, g1, y, g2, done := a, [], b, buf, [];
    while p1 >= 0
      invariant -1 <= p1 < len1 <= p2 + 1 && p2 <= p0
      invariant |x| == p1 + 1 && |g1| == len1 - 1 - p1 && |y| == p2 + 1 - len1
      invariant |g2| == p0 - p2 == shift - (len1 - 1 - p1)
      invariant RightState(arr[..], m, multiset(buf), p, x, g1, y, g2, done, s)
      decreases p1 + p2
    {
      var i, j, k := o + p1, o + p2, o + p0;
      RightReads(arr[..], p, x, g1, y, g2, done, s, i, j, k);
      if p2 < len1 || Cmp(arr[i], arr[j]) > 0 {
        RightTakeX(arr, i, k, m, multiset(buf), p, x, g1, y, g2, done, s);
        x, g1, g2, done := x[..|x| - 1], [g2[|g2| - 1]] + g1, g2[..|g2| - 1], [x[|x| - 1]] + done;
        p0, p1 := p0 - 1, p1 - 1;
      } else {
        g2 := RightTakeY(arr, j, k, m, multiset(buf), p, x, g1, y, g2, done, s);
        y, done := y[..|y| - 1], [y[|y| - 1]] + done;
        p0, p2 := p0 - 1, p2 - 1;
      }
    }
    if p2 != p0 {
      while p2 >= len1
        invariant len1 <= p2 + 1 && p2 < p0 && x == []
        invariant |g1| == len1 && |y| == p2 + 1 - len1 && |g2| == p0 - p2
        invariant RightState(arr[..], m, multiset(buf), p, x, g1, y, g2, done, s)
        decreases p2
      {
        g2 := RightTakeY(arr, o + p2, o + p0, m, multiset(buf), p, x, g1, y, g2, done, s);
        y, done := y[..|y| - 1], [y[|y| - 1]] + done;
        p0, p2 := p0 - 1, p2 - 1;
      }
    }
    RightEnds(arr[..], m, multiset(buf), p, g1, y, g2, done, s);
    buf' := g1 + g2;
  }

  lemma RightReads(d: seq<Elem>, p: seq<Elem>, x: seq<Elem>, g1: seq<Elem>, y: seq<Elem>, g2: seq<Elem>,
                   done: seq<Elem>, s: seq<Elem>, i: int, j: int, k: int)
    requires d == p + x + g1 + y + g2 + done + s
    requires i == |p| + |x| - 1 && j == i + |g1| + |y| && k == j + |g2|
    ensures k < |d| && (x != [] ==> d[i] == x[|x| - 1]) && (y != [] ==> d[j] == y[|y| - 1])
  {
    assert d == p + x + g1 + y + g2 + (done + s);
    RightCells(d, p, x, g1, y, g2, done + s, i, j, k);
  }

  lemma RightEnds(d: seq<Elem>, m: seq<Elem>, g: multiset<Elem>, p: seq<Elem>, g1: seq<Elem>, y: seq<Elem>,
                  g2: seq<Elem>, done: seq<Elem>, s: seq<Elem>)
    requires RightState(d, m, g, p, [], g1, y, g2, done, s) && (y == [] || g2 == [])
    ensures d == p + (g1 + g2) + m + s
  {
    var r :| IsMerge(r, [], y) && m == r + done;
    EmptySide(r, [], y);
    Units(y);
    Units(p);
    Assoc(p, g1, g2);
    if y == [] {
      Units(p + g1);
      Units(done);
    } else {
      Units(g1);
      Units(p + g1 + y);
      Assoc(p + g1, y, done);
    }
  }

  lemma RightStarts(d: seq<Elem>, o: nat, mid: nat, end: nat, hi: nat) returns (m: seq<Elem>)
    requires o <= mid <= end <= hi <= |d| && Sorted(d[o..mid]) && Sorted(d[mid..end])
    ensures IsMerge(m, d[o..mid], d[mid..end])
    ensures RightState(d, m, multiset(d[end..hi]), d[..o], d[o..mid], [], d[mid..end], d[end..hi], [], d[hi..])
  {
    m := SomeMerge(d[o..mid], d[mid..end]);
    Units(m);
    Units(d[end..hi]);
    FiveParts(d, o, mid, end, hi);
    Units(d[..o] + d[o..mid]);
    Units(d[..o] + d[o..mid] + d[mid..end] + d[end..hi]);
  }

  // What the merge to the right makes of an array d: the merged run stands shift cells behind the runs,
  // and the buffer that was behind them stands in front of it, in some order.
  ghost predicate MergedRight(e: seq<Elem>, d: seq<Elem>, o: nat, len1: nat, len2: nat, shift: nat)
    requires o + shift + len1 + len2 <= |d| == |e|
  {
    && IsMerge(e[o + shift..o + shift + len1 + len2], d[o..o + len1], d[o + len1..o + len1 + len2])
    && multiset(e[o..o + shift]) == multiset(d[o + len1 + len2..o + shift + len1 + len2])
    && SameOutside(e, d, o, o + shift + len1 + len2)
  }

  lemma MovedRight(e: seq<Elem>, d: seq<Elem>, o: nat, len1: nat, len2: nat, shift: nat, m: seq<Elem>, buf: seq<Elem>,
                   mid: nat, end: nat, hi: nat)
    requires mid == o + len1 && end == mid + len2 && hi == end + shift <= |d| == |e|
    requires IsMerge(m, d[o..mid], d[mid..end]) && multiset(buf) == multiset(d[end..hi])
    requires e == d[..o] + buf + m + d[hi..]
    ensures MergedRight(e, d, o, len1, len2, shift)
  {
    var to := o + shift;
    assert hi == o + shift + len1 + len2;
    MovedLayout(e, d, d[..o], buf, m, d[hi..], o, to, hi);
  }

  /** GRAIL_MERGE_RIGHT on the runs of len1 and len2 elements at arr[o]; the buffer is behind them. */
  method GrailMergeRight(arr: array<Elem>, o: nat, len1: nat, len2: nat, shift: nat)
    requires len1 <= shift && o + len1 + len2 + shift <= arr.Length && len1 + len2 + shift < 0x8000_0000
    requires Sorted(arr[o..o + len1]) && Sorted(arr[o + len1..o + len1 + len2])
    modifies arr
    ensures MergedRight(arr[..], old(arr[..]), o, len1, len2, shift)
  {
    ghost var d, mid, end, hi := arr[..], o + len1, o + len1 + len2, o + shift + len1 + len2;
    ghost var m := RightStarts(d, o, mid, end, hi);
    ghost var buf :=
      MergeIntoRight(arr, o, len1, len2, shift, m, d[..o], d[o..mid], d[mid..end], d[end..hi], d[hi..]);
    MovedRight(arr[..], d, o, len1, len2, shift, m, buf, mid, end, hi);
  }
}
