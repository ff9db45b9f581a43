/** The two galloping merges of TimSort and the trimming in front of them.

A pointer into the array is modelled as an offset.  The run that is shorter is copied to the
scratch buffer `storage`; source and destination overlap in the array.
 */
module TimMerge {
  import opened Order
  import opened Gallop
  import opened Sequences

  const TIM_SORT_MIN_GALLOP := 7

  // The most elements that two runs may have together.
  const MAX_SIZE := 0x8000_0000

  // The conversions of size_t to int that the merge from the back makes, and the largest of those that the
  // gallops through its runs make, keep the numbers.
  predicate CastExact(lenA: nat, lenB: nat)
    requires 0 < lenA && 0 < lenB
  {
    && ToInt(lenA - 1) == lenA - 1 && ToInt(lenB - 1) == lenB - 1
    && ToInt(lenA + lenB - 1) == lenA + lenB - 1
  }

  ghost predicate CastsExact(n: nat) {
    forall lenA: nat, lenB: nat :: 0 < lenA && 0 < lenB && lenA + lenB <= n ==> CastExact(lenA, lenB)
  }

  /** The conversions are exact for all pairs of runs of together at most n elements exactly up to 2^31. */
  lemma CastsFit(n: nat)
    ensures CastsExact(n) <==> n <= MAX_SIZE
  {
    if MAX_SIZE < n {
      assert !CastExact(1, MAX_SIZE);
    }
  }

  // The n cells of e from `to` on are those of s from `from` on.
  ghost predicate Copied(e: seq<Elem>, to: nat, s: seq<Elem>, from: nat, n: nat) {
    && to + n <= |e| && from + n <= |s|
    && forall i :: to <= i < to + n ==> e[i] == s[i - to + from]
  }

  // memcpy between two arrays.
  method CopyCells(src: array<Elem>, from: nat, dst: array<Elem>, to: nat, n: nat)
    requires src != dst && from + n <= src.Length && to + n <= dst.Length
    modifies dst
    ensures SameOutside(dst[..], old(dst[..]), to, to + n)
    ensures Copied(dst[..], to, src[..], from, n)
  {
    forall i | 0 <= i < n {
      dst[to + i] := src[from + i];
    }
    assert forall i :: 0 <= i < dst.Length && (i < to || to + n <= i) ==> dst[..][i] == old(dst[..])[i];
  }

  // A whole run in front of the scratch buffer.
  lemma CopiedRun(e: seq<Elem>, s: seq<Elem>, from: nat, to: nat)
    requires from <= to <= |s| && Copied(e, 0, s, from, to - from)
    ensures s[from..to] <= e
  {
    var n, r := to - from, s[from..to];
    forall i | 0 <= i < n ensures e[i] == r[i] {
    }
  }

  // memmove inside one array.
  method MoveCells(arr: array<Elem>, from: nat, to: nat, n: nat)
    requires from + n <= arr.Length && to + n <= arr.Length
    modifies arr
    ensures SameOutside(arr[..], old(arr[..]), to, to + n)
    ensures Copied(arr[..], to, old(arr[..]), from, n)
  {
    forall i | 0 <= i < n {
      arr[to + i] := arr[from + i];
    }
    assert forall i :: 0 <= i < arr.Length && (i < to || to + n <= i) ==> arr[..][i] == old(arr[..])[i];
  }

  // ---------- The state of a merge ----------

  predicate AgreeAt(d: seq<Elem>, lo: nat, m: seq<Elem>, i: nat)
    requires i < |m| && lo + i < |d|
  {
    d[lo + i] == m[i]
  }

  // d holds m[p..q], shifted by lo.
  ghost predicate Agree(d: seq<Elem>, lo: nat, m: seq<Elem>, p: int, q: int)
    requires lo + |m| <= |d| && 0 <= p && q <= |m|
  {
    forall i :: p <= i < q ==> AgreeAt(d, lo, m, i)
  }

  // Cells that are not written keep what they hold.
  lemma StillAgree(d: seq<Elem>, e: seq<Elem>, lo: nat, x: seq<Elem>, p: int, q: int, from: int, to: int)
    requires lo + |x| <= |d| && 0 <= p && q <= |x| && Agree(d, lo, x, p, q)
    requires SameOutside(e, d, from, to) && (lo + q <= from || to <= lo + p)
    ensures Agree(e, lo, x, p, q)
  {
    forall i | p <= i < q ensures AgreeAt(e, lo, x, i) {
      assert AgreeAt(d, lo, x, i) && SameAt(e, d, lo + i);
    }
  }

  lemma AgreeJoined(d: seq<Elem>, lo: nat, x: seq<Elem>, p: int, q: int, r: int)
    requires lo + |x| <= |d| && 0 <= p <= q <= r <= |x| && Agree(d, lo, x, p, q) && Agree(d, lo, x, q, r)
    ensures Agree(d, lo, x, p, r)
  {
    forall i | p <= i < r ensures AgreeAt(d, lo, x, i) {
    }
  }

  // Merging from the front: d is the array once pa elements of a and pb elements of b have been
  // merged; the rest of b is still in its old place behind the place of a.
  ghost predicate FrontMerged(d: seq<Elem>, lo: nat, pa: int, pb: int, d0: seq<Elem>, a: seq<Elem>, b: seq<Elem>,
                              m: seq<Elem>) {
    && IsMerge(m, a, b) && IsCut(a, b, pa, pb)
    && lo + |m| <= |d| && SameOutside(d, d0, lo, lo + |m|)
    && Agree(d, lo, m, 0, pa + pb)
    && Agree(d, lo + |a|, b, pb, |b|)
  }

  // Merging from the back: na elements of a and nb elements of b are still to be merged; the
  // former are still in their old place.
  ghost predicate BackMerged(d: seq<Elem>, lo: nat, na: int, nb: int, d0: seq<Elem>, a: seq<Elem>, b: seq<Elem>,
                             m: seq<Elem>) {
    && IsMerge(m, a, b) && IsCut(a, b, na, nb)
    && lo + |m| <= |d| && SameOutside(d, d0, lo, lo + |m|)
    && Agree(d, lo, m, na + nb, |m|)
    && Agree(d, lo, a, 0, na)
  }

  // ---------- Winning in a row ----------

  // How often the run x, true for the first one, has given the next element.
  function Wins(trace: seq<bool>, x: bool): nat {
    if trace == [] then 0 else Wins(trace[..|trace| - 1], x) + if trace[|trace| - 1] == x then 1 else 0
  }

  // How often in a row the last winner has won.
  function Streak(trace: seq<bool>): nat {
    var n := |trace|;
    if n <= 1 then n else if trace[n - 1] == trace[n - 2] then Streak(trace[..n - 1]) + 1 else 1
  }

  // The place n elements behind i, or before it.
  function Away(i: int, n: nat, forward: bool): int {
    if forward then i + n else i - n
  }

  // The first t elements of the trace lead from the cut i0, j0 to another one.
  predicate CutOnTrace(a: seq<Elem>, b: seq<Elem>, trace: seq<bool>, t: int, i0: nat, j0: nat, forward: bool)
    requires 0 <= t <= |trace|
  {
    IsCut(a, b, Away(i0, Wins(trace[..t], true), forward), Away(j0, Wins(trace[..t], false), forward))
  }

  /** The elements have been moved one at a time, in the order of the merge, from the cut i0, j0 to the cut i, j.
      The two counters hold how often in a row the last winner has won, and no run has won limit times in a row
      before the last move. */
  ghost predicate Contest(a: seq<Elem>, b: seq<Elem>, trace: seq<bool>, i0: nat, j0: nat, i: int, j: int,
                          forward: bool, aCount: int, bCount: int, limit: nat) {
    && i == Away(i0, Wins(trace, true), forward) && j == Away(j0, Wins(trace, false), forward)
    && (forall t :: 0 <= t <= |trace| ==> CutOnTrace(a, b, trace, t, i0, j0, forward))
    && (forall t :: 0 <= t < |trace| ==> NoStreak(trace, t, limit))
    && aCount == (if trace != [] && trace[|trace| - 1] then Streak(trace) else 0)
    && bCount == (if trace != [] && !trace[|trace| - 1] then Streak(trace) else 0)
  }

  predicate NoStreak(trace: seq<bool>, t: int, limit: nat)
    requires 0 <= t <= |trace|
  {
    t != 0 ==> Streak(trace[..t]) < limit
  }

  lemma ContestStarts(a: seq<Elem>, b: seq<Elem>, i0: nat, j0: nat, forward: bool, limit: nat)
    requires IsCut(a, b, i0, j0)
    ensures Contest(a, b, [], i0, j0, i0, j0, forward, 0, 0, limit)
  {
    var trace: seq<bool> := [];
    assert trace[..0] == [];
  }

  lemma TraceGoesOn(a: seq<Elem>, b: seq<Elem>, trace: seq<bool>, x: bool, i0: nat, j0: nat, i: int, j: int,
                    forward: bool)
    requires i == Away(i0, Wins(trace, true), forward) && j == Away(j0, Wins(trace, false), forward)
    requires forall t :: 0 <= t <= |trace| ==> CutOnTrace(a, b, trace, t, i0, j0, forward)
    requires IsCut(a, b, NextPlace(i, x, forward), NextPlace(j, !x, forward))
    ensures forall t :: 0 <= t <= |trace| + 1 ==> CutOnTrace(a, b, trace + [x], t, i0, j0, forward)
    ensures NextPlace(i, x, forward) == Away(i0, Wins(trace + [x], true), forward)
    ensures NextPlace(j, !x, forward) == Away(j0, Wins(trace + [x], false), forward)
  {
    var n, longer := |trace|, trace + [x];
    assert longer[..n] == trace;
    assert longer[..n + 1] == longer;
    forall t | 0 <= t <= n + 1 ensures CutOnTrace(a, b, longer, t, i0, j0, forward) {
      if t <= n {
        assert longer[..t] == trace[..t] && CutOnTrace(a, b, trace, t, i0, j0, forward);
      }
    }
  }

  lemma StreaksGoOn(trace: seq<bool>, x: bool, limit: nat)
    requires forall t :: 0 <= t < |trace| ==> NoStreak(trace, t, limit)
    requires trace != [] ==> Streak(trace) < limit
    ensures forall t :: 0 <= t < |trace| + 1 ==> NoStreak(trace + [x], t, limit)
    ensures Streak(trace + [x]) == if trace != [] && trace[|trace| - 1] == x then Streak(trace) + 1 else 1
  {
    var n, longer := |trace|, trace + [x];
    assert longer[..n] == trace;
    forall t | 0 <= t < n + 1 ensures NoStreak(longer, t, limit) {
      assert longer[..t] == trace[..t];
      assert if t < n then NoStreak(trace, t, limit) else trace[..t] == trace;
    }
  }

  // The place after one more move, if this run moves.
  function NextPlace(i: int, moves: bool, forward: bool): int {
    if moves then Away(i, 1, forward) else i
  }

  // One more move, from the first run if x.
  lemma ContestStep(a: seq<Elem>, b: seq<Elem>, trace: seq<bool>, i0: nat, j0: nat, i: int, j: int, forward: bool,
                    aCount: int, bCount: int, limit: nat, x: bool)
    requires Contest(a, b, trace, i0, j0, i, j, forward, aCount, bCount, limit)
    requires trace != [] ==> aCount < limit && bCount < limit
    requires IsCut(a, b, NextPlace(i, x, forward), NextPlace(j, !x, forward))
    ensures Contest(a, b, trace + [x], i0, j0, NextPlace(i, x, forward), NextPlace(j, !x, forward), forward,
                    if x then aCount + 1 else 0, if x then 0 else bCount + 1, limit)
  {
    TraceGoesOn(a, b, trace, x, i0, j0, i, j, forward);
    StreaksGoOn(trace, x, limit);
  }

  // ---------- Single moves ----------

  lemma FrontStepA(d: seq<Elem>, e: seq<Elem>, src: seq<Elem>, lo: nat, pa: nat, pb: nat, k: nat, to: nat,
                   d0: seq<Elem>, a: seq<Elem>, b: seq<Elem>, m: seq<Elem>)
    requires FrontMerged(d, lo, pa, pb, d0, a, b, m) && IsCut(a, b, pa + k, pb) && a <= src
    requires to == lo + pa + pb && SameOutside(e, d, to, to + k) && Copied(e, to, src, pa, k)
    ensures FrontMerged(e, lo, pa + k, pb, d0, a, b, m)
  {
    MergeBetweenCutsA(m, a, b, pa, pb, k);
    forall i | pa + pb <= i < pa + pb + k ensures AgreeAt(e, lo, m, i) {
      assert e[lo + i] == src[i - pb] == a[i - pb];
    }
    FrontFrame(d, e, lo, pa, pb, pa + k, pb, d0, a, b, m);
  }

  lemma FrontStepB(d: seq<Elem>, e: seq<Elem>, lo: nat, pa: nat, pb: nat, k: nat, from: nat, to: nat,
                   d0: seq<Elem>, a: seq<Elem>, b: seq<Elem>, m: seq<Elem>)
    requires FrontMerged(d, lo, pa, pb, d0, a, b, m) && IsCut(a, b, pa, pb + k)
    requires from == lo + |a| + pb && to == lo + pa + pb
    requires SameOutside(e, d, to, to + k) && Copied(e, to, d, from, k)
    ensures FrontMerged(e, lo, pa, pb + k, d0, a, b, m)
  {
    MergeBetweenCutsB(m, a, b, pa, pb, k);
    forall i | pa + pb <= i < pa + pb + k ensures AgreeAt(e, lo, m, i) {
      assert AgreeAt(d, lo + |a|, b, i - pa);
    }
    FrontFrame(d, e, lo, pa, pb, pa, pb + k, d0, a, b, m);
  }

  // What a move to the front leaves alone.
  lemma FrontFrame(d: seq<Elem>, e: seq<Elem>, lo: nat, pa: nat, pb: nat, pa': nat, pb': nat,
                   d0: seq<Elem>, a: seq<Elem>, b: seq<Elem>, m: seq<Elem>)
    requires FrontMerged(d, lo, pa, pb, d0, a, b, m) && IsCut(a, b, pa', pb') && pa <= pa' && pb <= pb'
    requires SameOutside(e, d, lo + pa + pb, lo + pa' + pb')
    requires Agree(e, lo, m, pa + pb, pa' + pb')
    ensures FrontMerged(e, lo, pa', pb', d0, a, b, m)
  {
    StillAgree(d, e, lo, m, 0, pa + pb, lo + pa + pb, lo + pa' + pb');
    AgreeJoined(e, lo, m, 0, pa + pb, pa' + pb');
    StillAgree(d, e, lo + |a|, b, pb', |b|, lo + pa + pb, lo + pa' + pb');
    SameOutsideWider(e, d, lo + pa + pb, lo + pa' + pb', lo, lo + |m|);
    SameOutsideTrans(e, d, d0, lo, lo + |m|);
  }

  lemma BackStepA(d: seq<Elem>, e: seq<Elem>, lo: nat, na: nat, nb: nat, k: nat, from: nat, to: nat,
                  d0: seq<Elem>, a: seq<Elem>, b: seq<Elem>, m: seq<Elem>)
    requires BackMerged(d, lo, na, nb, d0, a, b, m) && k <= na && IsCut(a, b, na - k, nb)
    requires from == lo + na - k && to == lo + na + nb - k
    requires SameOutside(e, d, to, to + k) && Copied(e, to, d, from, k)
    ensures BackMerged(e, lo, na - k, nb, d0, a, b, m)
  {
    MergeBetweenCutsA(m, a, b, na - k, nb, k);
    forall i | na + nb - k <= i < na + nb ensures AgreeAt(e, lo, m, i) {
      assert AgreeAt(d, lo, a, i - nb);
    }
    BackFrame(d, e, lo, na, nb, na - k, nb, d0, a, b, m);
  }

  lemma BackStepB(d: seq<Elem>, e: seq<Elem>, src: seq<Elem>, lo: nat, na: nat, nb: nat, k: nat, to: nat,
                  d0: seq<Elem>, a: seq<Elem>, b: seq<Elem>, m: seq<Elem>)
    requires BackMerged(d, lo, na, nb, d0, a, b, m) && k <= nb && IsCut(a, b, na, nb - k) && b <= src
    requires to == lo + na + nb - k && SameOutside(e, d, to, to + k) && Copied(e, to, src, nb - k, k)
    ensures BackMerged(e, lo, na, nb - k, d0, a, b, m)
  {
    MergeBetweenCutsB(m, a, b, na, nb - k, k);
    forall i | na + nb - k <= i < na + nb ensures AgreeAt(e, lo, m, i) {
      assert e[lo + i] == src[i - na] == b[i - na];
    }
    BackFrame(d, e, lo, na, nb, na, nb - k, d0, a, b, m);
  }

  // What a move to the back leaves alone.
  lemma BackFrame(d: seq<Elem>, e: seq<Elem>, lo: nat, na: nat, nb: nat, na': nat, nb': nat,
                  d0: seq<Elem>, a: seq<Elem>, b: seq<Elem>, m: seq<Elem>)
    requires BackMerged(d, lo, na, nb, d0, a, b, m) && IsCut(a, b, na', nb') && na' <= na && nb' <= nb
    requires SameOutside(e, d, lo + na' + nb', lo + na + nb)
    requires Agree(e, lo, m, na' + nb', na + nb)
    ensures BackMerged(e, lo, na', nb', d0, a, b, m)
  {
    StillAgree(d, e, lo, m, na + nb, |m|, lo + na' + nb', lo + na + nb);
    AgreeJoined(e, lo, m, na' + nb', na + nb, |m|);
    StillAgree(d, e, lo, a, 0, na', lo + na' + nb', lo + na + nb);
    SameOutsideWider(e, d, lo + na' + nb', lo + na + nb, lo, lo + |m|);
    SameOutsideTrans(e, d, d0, lo, lo + |m|);
  }

  // dst[pdst .. pdst + k] = A_src[pa .. pa + k], from the copy of a in the scratch buffer.
  method FrontFromA(dst: array<Elem>, lo: nat, storage: array<Elem>, pa: nat, pb: nat, k: nat,
                    ghost d0: seq<Elem>, ghost a: seq<Elem>, ghost b: seq<Elem>, ghost m: seq<Elem>)
    requires storage != dst && a <= storage[..]
    requires FrontMerged(dst[..], lo, pa, pb, d0, a, b, m) && IsCut(a, b, pa + k, pb)
    modifies dst
    ensures FrontMerged(dst[..], lo, pa + k, pb, d0, a, b, m)
  {
    var to := lo + pa + pb;
    CopyCells(storage, pa, dst, to, k);
    FrontStepA(old(dst[..]), dst[..], storage[..], lo, pa, pb, k, to, d0, a, b, m);
  }

  // dst[pdst .. pdst + k] = B_src[pb .. pb + k], inside the array.
  method FrontFromB(dst: array<Elem>, lo: nat, lenA: nat, pa: nat, pb: nat, k: nat,
                    ghost d0: seq<Elem>, ghost a: seq<Elem>, ghost b: seq<Elem>, ghost m: seq<Elem>)
    requires |a| == lenA
    requires FrontMerged(dst[..], lo, pa, pb, d0, a, b, m) && IsCut(a, b, pa, pb + k)
    modifies dst
    ensures FrontMerged(dst[..], lo, pa, pb + k, d0, a, b, m)
  {
    var from, to := lo + lenA + pb, lo + pa + pb;
    MoveCells(dst, from, to, k);
    FrontStepB(old(dst[..]), dst[..], lo, pa, pb, k, from, to, d0, a, b, m);
  }

  // The last k of the remaining na elements of a go to the back, inside the array.
  method BackFromA(dst: array<Elem>, lo: nat, na: nat, nb: nat, k: nat,
                   ghost d0: seq<Elem>, ghost a: seq<Elem>, ghost b: seq<Elem>, ghost m: seq<Elem>)
    requires k <= na
    requires BackMerged(dst[..], lo, na, nb, d0, a, b, m) && IsCut(a, b, na - k, nb)
    modifies dst
    ensures BackMerged(dst[..], lo, na - k, nb, d0, a, b, m)
  {
    var from, to := lo + na - k, lo + na + nb - k;
    MoveCells(dst, from, to, k);
    BackStepA(old(dst[..]), dst[..], lo, na, nb, k, from, to, d0, a, b, m);
  }

  // The last k of the remaining nb elements of b go to the back, from the scratch buffer.
  method BackFromB(dst: array<Elem>, lo: nat, storage: array<Elem>, na: nat, nb: nat, k: nat,
                   ghost d0: seq<Elem>, ghost a: seq<Elem>, ghost b: seq<Elem>, ghost m: seq<Elem>)
    requires storage != dst && b <= storage[..] && k <= nb
    requires BackMerged(dst[..], lo, na, nb, d0, a, b, m) && IsCut(a, b, na, nb - k)
    modifies dst
    ensures BackMerged(dst[..], lo, na, nb - k, d0, a, b, m)
  {
    var to := lo + na + nb - k;
    CopyCells(storage, nb - k, dst, to, k);
    BackStepB(old(dst[..]), dst[..], storage[..], lo, na, nb, k, to, d0, a, b, m);
  }

  // ---------- Moving a cut ----------

  lemma CutAfterOne(a: seq<Elem>, b: seq<Elem>, pa: nat, pb: nat)
    requires Sorted(a) && Sorted(b) && IsCut(a, b, pa, pb) && pa < |a| && pb < |b|
    ensures if Cmp(a[pa], b[pb]) <= 0 then IsCut(a, b, pa + 1, pb) else IsCut(a, b, pa, pb + 1)
  {
    if 0 < pb {
      assert InOrder(b, pb - 1, pb);
    }
    if 0 < pa {
      assert InOrder(a, pa - 1, pa);
    }
    if pa + 1 < |a| {
      assert InOrder(a, pa, pa + 1);
    }
    if pb + 1 < |b| {
      assert InOrder(b, pb, pb + 1);
    }
  }

  lemma CutBeforeOne(a: seq<Elem>, b: seq<Elem>, na: nat, nb: nat)
    requires Sorted(a) && Sorted(b) && IsCut(a, b, na, nb) && 0 < na && 0 < nb
    ensures if Cmp(a[na - 1], b[nb - 1]) <= 0 then IsCut(a, b, na, nb - 1) else IsCut(a, b, na - 1, nb)
  {
    if nb < |b| {
      assert InOrder(b, nb - 1, nb);
    }
    if na < |a| {
      assert InOrder(a, na - 1, na);
    }
    if 1 < na {
      assert InOrder(a, na - 2, na - 1);
    }
    if 1 < nb {
      assert InOrder(b, nb - 2, nb - 1);
    }
  }

  // Before the elements of a that exceed the last element of b, that element comes last.
  lemma CutBeforeGallopA(a: seq<Elem>, b: seq<Elem>, na: nat, nb: nat, k: nat)
    requires Sorted(a) && Sorted(b) && IsCut(a, b, na, nb) && 0 < na && 0 < nb
    requires IsBound(a[..na], b[nb - 1], k, true)
    ensures IsCut(a, b, k, nb) && IsCut(a, b, k, nb - 1)
    ensures 0 < k ==> a[k - 1].key <= b[nb - 1].key
  {
    if 0 < k {
      assert Before(a[..na][k - 1], b[nb - 1], true);
    }
    if k < na {
      assert !Before(a[..na][k], b[nb - 1], true);
    }
    if nb < |b| {
      assert InOrder(b, nb - 1, nb);
    }
    if 1 < nb {
      assert InOrder(b, nb - 2, nb - 1);
    }
  }

  // Before the elements of b that are at least the last element of a, that element comes last.
  lemma CutBeforeGallopB(a: seq<Elem>, b: seq<Elem>, na: nat, nb: nat, k: nat)
    requires Sorted(a) && Sorted(b) && IsCut(a, b, na, nb) && 0 < na && 0 < nb
    requires IsBound(b[..nb], a[na - 1], k, false)
    ensures IsCut(a, b, na, k) && IsCut(a, b, na - 1, k)
    ensures k == 0 ==> a[na - 1].key <= b[0].key
  {
    if 0 < k {
      assert Before(b[..nb][k - 1], a[na - 1], false);
    }
    if k < nb {
      assert !Before(b[..nb][k], a[na - 1], false);
    }
    if na < |a| {
      assert InOrder(a, na - 1, na);
    }
    if 1 < na {
      assert InOrder(a, na - 2, na - 1);
    }
  }

  // After the elements of a that are at most b[pb], b[pb] is next.
  lemma CutAfterGallopA(a: seq<Elem>, b: seq<Elem>, pa: nat, pb: nat, k: nat)
    requires Sorted(a) && Sorted(b) && IsCut(a, b, pa, pb) && pa < |a| && pb < |b|
    requires IsBound(a[pa..], b[pb], k, true)
    ensures IsCut(a, b, pa + k, pb) && IsCut(a, b, pa + k, pb + 1)
    ensures pa + k == |a| ==> a[|a| - 1].key <= b[pb].key
  {
    assert forall i :: 0 <= i < |a| - pa ==> a[pa..][i] == a[pa + i];
    if 0 < k {
      assert Before(a[pa..][k - 1], b[pb], true);
    }
    if pa + k < |a| {
      assert !Before(a[pa..][k], b[pb], true);
    }
    if 0 < pb {
      assert InOrder(b, pb - 1, pb);
    }
    if pb + 1 < |b| {
      assert InOrder(b, pb, pb + 1);
    }
    if 0 < pa {
      assert InOrder(a, pa - 1, pa);
    }
  }

  // After the elements of b that are less than a[pa], a[pa] is next.
  lemma CutAfterGallopB(a: seq<Elem>, b: seq<Elem>, pa: nat, pb: nat, k: nat)
    requires Sorted(a) && Sorted(b) && IsCut(a, b, pa, pb) && pa < |a| && pb < |b|
    requires IsBound(b[pb..], a[pa], k, false)
    ensures IsCut(a, b, pa, pb + k) && IsCut(a, b, pa + 1, pb + k)
  {
    assert forall i :: 0 <= i < |b| - pb ==> b[pb..][i] == b[pb + i];
    if 0 < k {
      assert Before(b[pb..][k - 1], a[pa], false);
    }
    if pb + k < |b| {
      assert !Before(b[pb..][k], a[pa], false);
    }
    if 0 < pa {
      assert InOrder(a, pa - 1, pa);
    }
    if pa + 1 < |a| {
      assert InOrder(a, pa, pa + 1);
    }
    if 0 < pb {
      assert InOrder(b, pb - 1, pb);
    }
  }

  lemma AgreeSlice(d: seq<Elem>, lo: nat, m: seq<Elem>)
    requires lo + |m| <= |d| && Agree(d, lo, m, 0, |m|)
    ensures d[lo..lo + |m|] == m
  {
    var t := d[lo..lo + |m|];
    forall i | 0 <= i < |m| ensures t[i] == m[i] {
      assert AgreeAt(d, lo, m, i);
    }
  }

  // ---------- The merges ----------

  // What the caller's trimming guarantees: the first element of b comes first in the merge and
  // the last element of a comes last, so neither run is exhausted too early.
  predicate Trimmed(a: seq<Elem>, b: seq<Elem>) {
    && 0 < |a| < 0x8000_0000 && 0 < |b| < 0x8000_0000 && Sorted(a) && Sorted(b)
    && b[0].key < a[0].key && b[|b| - 1].key < a[|a| - 1].key
  }

  lemma TrimmedBounds(a: seq<Elem>, b: seq<Elem>, i: nat)
    requires Trimmed(a, b)
    ensures i < |b| ==> b[i].key < a[|a| - 1].key
    ensures i < |a| ==> b[0].key < a[i].key
  {
    if i < |b| {
      assert InOrder(b, i, |b| - 1);
    }
    if i < |a| {
      assert InOrder(a, 0, i);
    }
  }

  lemma FrontStart(d0: seq<Elem>, lo: nat, mid: nat, hi: nat, m: seq<Elem>)
    requires lo <= mid <= hi <= |d0| && IsMerge(m, d0[lo..mid], d0[mid..hi])
    ensures FrontMerged(d0, lo, 0, 0, d0, d0[lo..mid], d0[mid..hi], m)
  {
    var b := d0[mid..hi];
    forall i | 0 <= i < |b| ensures AgreeAt(d0, mid, b, i) {
    }
  }

  lemma FrontDone(d: seq<Elem>, d0: seq<Elem>, lo: nat, mid: nat, hi: nat, m: seq<Elem>)
    requires lo <= mid <= hi <= |d0| && FrontMerged(d, lo, mid - lo, hi - mid, d0, d0[lo..mid], d0[mid..hi], m)
    ensures IsMerge(d[lo..hi], d0[lo..mid], d0[mid..hi]) && SameOutside(d, d0, lo, hi)
  {
    AgreeSlice(d, lo, m);
  }

  // What the code reads while it merges from the front.
  lemma FrontReads(d: seq<Elem>, src: seq<Elem>, lo: nat, pa: nat, pb: nat, d0: seq<Elem>, a: seq<Elem>, b: seq<Elem>,
                   m: seq<Elem>)
    requires FrontMerged(d, lo, pa, pb, d0, a, b, m) && a <= src && pa < |a| && pb < |b|
    ensures src[pa] == a[pa] && src[pa..|a|] == a[pa..] && Sorted(a[pa..])
    ensures d[lo + |a| + pb] == b[pb] && d[lo + |a| + pb..lo + |a| + |b|] == b[pb..] && Sorted(b[pb..])
  {
    SortedRest(a, pa);
    SortedRest(b, pb);
    forall i | pb <= i < |b| ensures d[lo + |a| + i] == b[i] {
      assert AgreeAt(d, lo + |a|, b, i);
    }
  }

  // One comparison of the first inner loop.
  lemma FrontTurn(d: seq<Elem>, src: seq<Elem>, lo: nat, pa: nat, pb: nat, d0: seq<Elem>, a: seq<Elem>, b: seq<Elem>,
                  m: seq<Elem>)
    requires FrontMerged(d, lo, pa, pb, d0, a, b, m) && a <= src && Trimmed(a, b) && pa < |a| && pb < |b|
    ensures src[pa] == a[pa] && d[lo + |a| + pb] == b[pb]
    ensures if Cmp(a[pa], b[pb]) <= 0 then pa + 1 < |a| && IsCut(a, b, pa + 1, pb) else IsCut(a, b, pa, pb + 1)
  {
    FrontReads(d, src, lo, pa, pb, d0, a, b, m);
    CutAfterOne(a, b, pa, pb);
    TrimmedBounds(a, b, pb);
  }

  // One move of the first inner loop.
  method TakeFront(dst: array<Elem>, lo: nat, lenA: nat, storage: array<Elem>, pa0: nat, pb0: nat,
                   ghost d0: seq<Elem>, ghost a: seq<Elem>, ghost b: seq<Elem>, ghost m: seq<Elem>)
    returns (fromA: bool, pa: nat, pb: nat)
    requires storage != dst && a <= storage[..] && |a| == lenA && Trimmed(a, b)
    requires FrontMerged(dst[..], lo, pa0, pb0, d0, a, b, m) && pa0 < lenA && pb0 < |b|
    modifies dst
    ensures FrontMerged(dst[..], lo, pa, pb, d0, a, b, m) && pa < lenA && IsCut(a, b, pa, pb)
    ensures pa == NextPlace(pa0, fromA, true) && pb == NextPlace(pb0, !fromA, true)
  {
    FrontTurn(dst[..], storage[..], lo, pa0, pb0, d0, a, b, m);
    pa, pb := pa0, pb0;
    fromA := Cmp(storage[pa], dst[lo + lenA + pb]) <= 0;
    if fromA {
      FrontFromA(dst, lo, storage, pa, pb, 1, d0, a, b, m);
      pa := pa + 1;
    } else {
      FrontFromB(dst, lo, lenA, pa, pb, 1, d0, a, b, m);
      pb := pb + 1;
    }
  }

  // The first inner loop of TIM_SORT_MERGE_LEFT: one element at a time, until one side has won
  // minGallop times in a row or b is used up.
  method MergeLeftOneByOne(dst: array<Elem>, lo: nat, lenA: nat, lenB: nat, storage: array<Elem>,
                           pa0: nat, pb0: nat, minGallop: Counter,
                           ghost d0: seq<Elem>, ghost a: seq<Elem>, ghost b: seq<Elem>, ghost m: seq<Elem>)
    returns (pa: nat, pb: nat, aCount: Counter, bCount: Counter, ghost trace: seq<bool>)
    requires storage != dst && a <= storage[..] && |a| == lenA && |b| == lenB && Trimmed(a, b)
    requires FrontMerged(dst[..], lo, pa0, pb0, d0, a, b, m) && pa0 < lenA && pb0 < lenB
    modifies dst
    ensures FrontMerged(dst[..], lo, pa, pb, d0, a, b, m)
    ensures pa < lenA && pb <= lenB && pa0 + pb0 < pa + pb && pb0 <= pb
    ensures pb < lenB ==> minGallop <= pa - pa0 || minGallop <= pb - pb0
    ensures var limit := if minGallop == 0 then 1 else minGallop;
      && Contest(a, b, trace, pa0, pb0, pa, pb, true, aCount, bCount, limit)
      && (aCount == limit || bCount == limit || pb == lenB)
  {
    ghost var limit := if minGallop == 0 then 1 else minGallop;
    pa, pb, aCount, bCount, trace := pa0, pb0, 0, 0, [];
    ContestStarts(a, b, pa0, pb0, true, limit);
    while true
      invariant FrontMerged(dst[..], lo, pa, pb, d0, a, b, m)
      invariant Contest(a, b, trace, pa0, pb0, pa, pb, true, aCount, bCount, limit)
      invariant pa < lenA && pb < lenB && pa0 + pb0 <= pa + pb
      invariant aCount <= pa - pa0 && bCount <= pb - pb0
      invariant aCount < limit && bCount < limit
      decreases lenA - pa + lenB - pb
    {
      ghost var i, j := pa, pb;
      var fromA;
      fromA, pa, pb := TakeFront(dst, lo, lenA, storage, pa, pb, d0, a, b, m);
      ContestStep(a, b, trace, pa0, pb0, i, j, true, aCount, bCount, limit, fromA);
      trace := trace + [fromA];
      if fromA {
        aCount := aCount + 1;
        bCount := 0;
        if minGallop <= aCount {
          break;
        }
      } else {
        bCount := bCount + 1;
        aCount := 0;
        if pb == lenB {
          break;
        }
        if minGallop <= bCount {
          break;
        }
      }
    }
  }

  // Half a round of the second inner loop: the elements of a up to the next element of b, and that.
  method StretchFromA(dst: array<Elem>, lo: nat, lenA: nat, storage: array<Elem>, pa0: nat, pb0: nat,
                      ghost d0: seq<Elem>, ghost a: seq<Elem>, ghost b: seq<Elem>, ghost m: seq<Elem>)
    returns (pa: nat, pb: nat, k: nat)
    requires storage != dst && a <= storage[..] && |a| == lenA && Trimmed(a, b)
    requires FrontMerged(dst[..], lo, pa0, pb0, d0, a, b, m) && pa0 < lenA && pb0 < |b|
    modifies dst
    ensures FrontMerged(dst[..], lo, pa, pb, d0, a, b, m)
    ensures pa == pa0 + k < lenA && pb == pb0 + 1
  {
    FrontReads(dst[..], storage[..], lo, pa0, pb0, d0, a, b, m);
    k := TimSortGallop(storage[pa0..lenA], dst[lo + lenA + pb0], 0, true);
    TrimmedBounds(a, b, pb0);
    CutAfterGallopA(a, b, pa0, pb0, k);
    FrontFromA(dst, lo, storage, pa0, pb0, k, d0, a, b, m);
    pa := pa0 + k;
    FrontFromB(dst, lo, lenA, pa, pb0, 1, d0, a, b, m);
    pb := pb0 + 1;
  }

  // The other half: the elements of b below the next element of a, and, unless b is used up, that.
  method StretchFromB(dst: array<Elem>, lo: nat, lenA: nat, lenB: nat, storage: array<Elem>, pa0: nat, pb0: nat,
                      ghost d0: seq<Elem>, ghost a: seq<Elem>, ghost b: seq<Elem>, ghost m: seq<Elem>)
    returns (pa: nat, pb: nat, k: nat)
    requires storage != dst && a <= storage[..] && |a| == lenA && |b| == lenB && Trimmed(a, b)
    requires FrontMerged(dst[..], lo, pa0, pb0, d0, a, b, m) && pa0 < lenA && pb0 < lenB
    modifies dst
    ensures FrontMerged(dst[..], lo, pa, pb, d0, a, b, m)
    ensures pb == pb0 + k <= lenB && pa == (if pb == lenB then pa0 else pa0 + 1) < lenA
  {
    FrontReads(dst[..], storage[..], lo, pa0, pb0, d0, a, b, m);
    k := TimSortGallop(dst[lo + lenA + pb0..lo + lenA + lenB], storage[pa0], 0, false);
    CutAfterGallopB(a, b, pa0, pb0, k);
    FrontFromB(dst, lo, lenA, pa0, pb0, k, d0, a, b, m);
    pa, pb := pa0, pb0 + k;
    if pb != lenB {
      TrimmedBounds(a, b, pb);
      FrontFromA(dst, lo, storage, pa, pb, 1, d0, a, b, m);
      pa := pa + 1;
    }
  }

  function Total(stretches: seq<nat>): nat {
    if stretches == [] then 0 else Total(stretches[..|stretches| - 1]) + stretches[|stretches| - 1]
  }

  lemma OneMore(stretches: seq<nat>, k: nat)
    ensures Total(stretches + [k]) == Total(stretches) + k
  {
    assert (stretches + [k])[..|stretches|] == stretches;
  }

  // If the run has won the last round of the one-by-one loop, its first n stretches have 7 elements or more.
  predicate Paid(stretches: seq<nat>, n: int, count: int) {
    n <= |stretches| && (count != 0 ==> forall r :: 0 <= r < n ==> 7 <= stretches[r])
  }

  // The last stretch is one of the run that has won, and shorter than 7 elements.
  predicate GaveUp(fromA: seq<nat>, fromB: seq<nat>, aCount: int, bCount: int) {
    if |fromB| < |fromA| then aCount != 0 && fromA[|fromA| - 1] < 7
    else fromB != [] && bCount != 0 && fromB[|fromB| - 1] < 7
  }

  // Whole rounds of galloping from pa0, pb0 to pa, pb, each with a stretch and one element of either run; the
  // stretches of the run that has won before were all long enough.
  predicate Galloped(fromA: seq<nat>, fromB: seq<nat>, pa0: int, pb0: int, pa: int, pb: int, aCount: int, bCount: int) {
    && |fromA| == |fromB| && pa - pa0 == Total(fromA) + |fromB| && pb - pb0 == |fromA| + Total(fromB)
    && Paid(fromA, |fromA|, aCount) && Paid(fromB, |fromB|, bCount)
  }

  // The same with the last round broken off: b is used up, or the last stretch of the run that has won before
  // was too short.
  predicate GallopEnded(fromA: seq<nat>, fromB: seq<nat>, pa0: int, pb0: int, pa: int, pb: int, lenB: int,
                        aCount: int, bCount: int) {
    && |fromB| <= |fromA| <= |fromB| + 1 && 0 < |fromA| && pb - pb0 == |fromA| + Total(fromB)
    && Paid(fromA, |fromB|, aCount) && Paid(fromB, |fromA| - 1, bCount)
    && (pb < lenB ==> GaveUp(fromA, fromB, aCount, bCount) && pa - pa0 == Total(fromA) + |fromB|)
  }

  // One round: a stretch of k elements of a and one of b, then, unless that was the end, a stretch of b, if ks
  // is not empty, and one element of a.
  predicate RoundDone(pa0: int, pb0: int, pa: int, pb: int, lenB: int, aCount: int, bCount: int, k: nat, ks: seq<nat>,
                      more: bool) {
    if ks == [] then
      !more && pa == pa0 + k && pb == pb0 + 1 && (pb == lenB || (aCount != 0 && k < 7))
    else
      && |ks| == 1 && pb == pb0 + 1 + ks[0] && (aCount != 0 ==> 7 <= k)
      && (if more then pb < lenB && pa == pa0 + k + 1 && (bCount != 0 ==> 7 <= ks[0])
          else pb == lenB || (pa == pa0 + k + 1 && bCount != 0 && ks[0] < 7))
  }

  lemma AfterRound(fromA: seq<nat>, fromB: seq<nat>, pa0: int, pb0: int, i: int, j: int, pa: int, pb: int, lenB: int,
                   aCount: int, bCount: int, k: nat, ks: seq<nat>, more: bool)
    requires Galloped(fromA, fromB, pa0, pb0, i, j, aCount, bCount)
    requires RoundDone(i, j, pa, pb, lenB, aCount, bCount, k, ks, more)
    ensures more ==> Galloped(fromA + [k], fromB + ks, pa0, pb0, pa, pb, aCount, bCount)
    ensures !more ==> GallopEnded(fromA + [k], fromB + ks, pa0, pb0, pa, pb, lenB, aCount, bCount)
  {
    OneMore(fromA, k);
    if ks == [] {
      Units(fromB);
    } else {
      assert ks == [ks[0]];
      OneMore(fromB, ks[0]);
    }
  }

  // One round of the second inner loop; tired says that galloping no longer pays.
  method GallopFront(dst: array<Elem>, lo: nat, lenA: nat, lenB: nat, storage: array<Elem>,
                     pa0: nat, pb0: nat, aCount: Counter, bCount: Counter,
                     ghost d0: seq<Elem>, ghost a: seq<Elem>, ghost b: seq<Elem>, ghost m: seq<Elem>)
    returns (pa: nat, pb: nat, tired: bool, ghost k0: nat, ghost ks: seq<nat>)
    requires storage != dst && a <= storage[..] && |a| == lenA && |b| == lenB && Trimmed(a, b)
    requires FrontMerged(dst[..], lo, pa0, pb0, d0, a, b, m) && pa0 < lenA && pb0 < lenB
    modifies dst
    ensures FrontMerged(dst[..], lo, pa, pb, d0, a, b, m)
    ensures pa0 <= pa < lenA && pb0 < pb <= lenB && (tired ==> pb < lenB)
    ensures RoundDone(pa0, pb0, pa, pb, lenB, aCount, bCount, k0, ks, !tired && pb != lenB)
  {
    tired, ks := false, [];
    var k;
    pa, pb, k := StretchFromA(dst, lo, lenA, storage, pa0, pb0, d0, a, b, m);
    k0 := k;
    if pb == lenB {
      return;
    }
    if aCount != 0 && k < TIM_SORT_MIN_GALLOP {
      tired := true;
      return;
    }
    pa, pb, k := StretchFromB(dst, lo, lenA, lenB, storage, pa, pb, d0, a, b, m);
    ks := [k];
    tired := pb != lenB && bCount != 0 && k < TIM_SORT_MIN_GALLOP;
  }

  // The second inner loop: whole stretches at a time, until galloping no longer pays or b is used up.
  method MergeLeftGalloping(dst: array<Elem>, lo: nat, lenA: nat, lenB: nat, storage: array<Elem>,
                            pa0: nat, pb0: nat, aCount: Counter, bCount: Counter, minGallop0: Counter,
                            ghost d0: seq<Elem>, ghost a: seq<Elem>, ghost b: seq<Elem>, ghost m: seq<Elem>)
    returns (pa: nat, pb: nat, minGallop: Counter, ghost fromA: seq<nat>, ghost fromB: seq<nat>)
    requires storage != dst && a <= storage[..] && |a| == lenA && |b| == lenB && Trimmed(a, b)
    requires FrontMerged(dst[..], lo, pa0, pb0, d0, a, b, m) && pa0 < lenA && pb0 < lenB && 0 < minGallop0
    modifies dst
    ensures FrontMerged(dst[..], lo, pa, pb, d0, a, b, m)
    ensures pa < lenA && pb <= lenB && pa0 + pb0 < pa + pb && pb0 <= pb
    ensures GallopEnded(fromA, fromB, pa0, pb0, pa, pb, lenB, aCount, bCount)
    ensures minGallop ==
      (if minGallop0 < |fromA| then 0 else minGallop0 - |fromA|) + if pb < lenB then 1 else 0
  {
    pa, pb, minGallop, fromA, fromB := pa0, pb0, minGallop0, [], [];
    while true
      invariant FrontMerged(dst[..], lo, pa, pb, d0, a, b, m)
      invariant pa < lenA && pb < lenB && pa0 <= pa && pb0 <= pb
      invariant Galloped(fromA, fromB, pa0, pb0, pa, pb, aCount, bCount)
      invariant minGallop == if minGallop0 < |fromA| then 0 else minGallop0 - |fromA|
      decreases lenB - pb
    {
      if minGallop != 0 {
        minGallop := minGallop - 1;
      }
      ghost var i, j := pa, pb;
      var tired;
      ghost var k, ks;
      pa, pb, tired, k, ks := GallopFront(dst, lo, lenA, lenB, storage, pa, pb, aCount, bCount, d0, a, b, m);
      AfterRound(fromA, fromB, pa0, pb0, i, j, pa, pb, lenB, aCount, bCount, k, ks, !tired && pb != lenB);
      fromA, fromB := fromA + [k], fromB + ks;
      if pb == lenB {
        break;
      }
      if tired {
        minGallop := minGallop + 1;
        break;
      }
    }
  }

  // The threshold of the one-by-one loop has not grown beyond the length of the longer run: a round that
  // ends with that many wins in a row has moved that many elements of one run.
  predicate LevelKept(minGallop: int, minGallop0: int, lenA: nat, lenB: nat) {
    minGallop <= minGallop0 || minGallop <= lenA || minGallop <= lenB
  }

  // TIM_SORT_MERGE_LEFT once a is in the scratch buffer.
  method MergeLeftBody(dst: array<Elem>, lo: nat, lenA: nat, lenB: nat, storage: array<Elem>, minGallop0: Counter,
                       ghost d0: seq<Elem>, ghost a: seq<Elem>, ghost b: seq<Elem>, ghost m: seq<Elem>)
    returns (minGallop: Counter)
    requires storage != dst && a <= storage[..] && |a| == lenA && |b| == lenB && Trimmed(a, b)
    requires FrontMerged(dst[..], lo, 0, 0, d0, a, b, m)
    modifies dst
    ensures FrontMerged(dst[..], lo, lenA, lenB, d0, a, b, m) && LevelKept(minGallop, minGallop0, lenA, lenB)
  {
    minGallop := minGallop0;
    // The first element comes from b.
    FrontFromB(dst, lo, lenA, 0, 0, 1, d0, a, b, m);
    var pa, pb, aCount, bCount := 0, 1, 0, 0;
    while pb != lenB
      invariant pa < lenA && 0 < pb <= lenB && LevelKept(minGallop, minGallop0, lenA, lenB)
      invariant FrontMerged(dst[..], lo, pa, pb, d0, a, b, m)
      decreases lenA - pa + lenB - pb
    {
      ghost var trace;
      pa, pb, aCount, bCount, trace := MergeLeftOneByOne(dst, lo, lenA, lenB, storage, pa, pb, minGallop, d0, a, b, m);
      if pb == lenB {
        break;
      }
      minGallop := minGallop + 1;
      ghost var fromA, fromB;
      pa, pb, minGallop, fromA, fromB :=
        MergeLeftGalloping(dst, lo, lenA, lenB, storage, pa, pb, aCount, bCount, minGallop, d0, a, b, m);
    }
    FrontFromA(dst, lo, storage, pa, lenB, lenA - pa, d0, a, b, m);
  }

  /** TIM_SORT_MERGE_LEFT: merges two adjacent trimmed runs with scratch space for the first. */
  method TimSortMergeLeft(dst: array<Elem>, lo: nat, lenA: nat, lenB: nat, storage: array<Elem>, minGallop0: Counter)
    returns (minGallop: Counter)
    requires lo + lenA + lenB <= dst.Length && storage != dst && lenA <= storage.Length
    requires Trimmed(dst[lo..lo + lenA], dst[lo + lenA..lo + lenA + lenB])
    modifies dst, storage
    ensures IsMerge(dst[lo..lo + lenA + lenB], old(dst[lo..lo + lenA]), old(dst[lo + lenA..lo + lenA + lenB]))
    ensures SameOutside(dst[..], old(dst[..]), lo, lo + lenA + lenB) && LevelKept(minGallop, minGallop0, lenA, lenB)
  {
    ghost var d0, mid, hi := dst[..], lo + lenA, lo + lenA + lenB;
    ghost var a, b := d0[lo..mid], d0[mid..hi];
    ghost var m := SomeMerge(a, b);
    CopyCells(dst, lo, storage, 0, lenA);
    CopiedRun(storage[..], d0, lo, mid);
    FrontStart(d0, lo, mid, hi, m);
    minGallop := MergeLeftBody(dst, lo, lenA, lenB, storage, minGallop0, d0, a, b, m);
    FrontDone(dst[..], d0, lo, mid, hi, m);
  }

  lemma BackStart(d0: seq<Elem>, lo: nat, mid: nat, hi: nat, m: seq<Elem>)
    requires lo <= mid <= hi <= |d0| && IsMerge(m, d0[lo..mid], d0[mid..hi])
    ensures BackMerged(d0, lo, mid - lo, hi - mid, d0, d0[lo..mid], d0[mid..hi], m)
  {
    var a := d0[lo..mid];
    forall i | 0 <= i < |a| ensures AgreeAt(d0, lo, a, i) {
    }
  }

  lemma BackDone(d: seq<Elem>, d0: seq<Elem>, lo: nat, mid: nat, hi: nat, m: seq<Elem>)
    requires lo <= mid <= hi <= |d0| && BackMerged(d, lo, 0, 0, d0, d0[lo..mid], d0[mid..hi], m)
    ensures IsMerge(d[lo..hi], d0[lo..mid], d0[mid..hi]) && SameOutside(d, d0, lo, hi)
  {
    AgreeSlice(d, lo, m);
  }

  // What the code reads while it merges from the back.
  lemma BackReads(d: seq<Elem>, src: seq<Elem>, lo: nat, na: nat, nb: nat, d0: seq<Elem>, a: seq<Elem>, b: seq<Elem>,
                  m: seq<Elem>)
    requires BackMerged(d, lo, na, nb, d0, a, b, m) && b <= src && 0 < na && 0 < nb
    ensures d[lo + na - 1] == a[na - 1] && d[lo..lo + na] == a[..na] && Sorted(a[..na])
    ensures src[nb - 1] == b[nb - 1] && src[..nb] == b[..nb] && Sorted(b[..nb])
  {
    SortedSlice(a, 0, na);
    SortedSlice(b, 0, nb);
    forall i | 0 <= i < na ensures d[lo + i] == a[i] {
      assert AgreeAt(d, lo, a, i);
    }
  }

  // In TIM_SORT_MERGE_RIGHT, na is pa + 1 and nb is pb + 1; pdst is always na + nb - 1.

  // One comparison of the first inner loop.
  lemma BackTurn(d: seq<Elem>, src: seq<Elem>, lo: nat, na: nat, nb: nat, d0: seq<Elem>, a: seq<Elem>, b: seq<Elem>,
                 m: seq<Elem>)
    requires BackMerged(d, lo, na, nb, d0, a, b, m) && b <= src && Trimmed(a, b) && 0 < na && 0 < nb
    ensures d[lo + na - 1] == a[na - 1] && src[nb - 1] == b[nb - 1]
    ensures if Cmp(a[na - 1], b[nb - 1]) <= 0 then 1 < nb && IsCut(a, b, na, nb - 1) else IsCut(a, b, na - 1, nb)
  {
    BackReads(d, src, lo, na, nb, d0, a, b, m);
    CutBeforeOne(a, b, na, nb);
    TrimmedBounds(a, b, na - 1);
  }

  // One move of the first inner loop.
  method TakeBack(dst: array<Elem>, lo: nat, storage: array<Elem>, na0: nat, nb0: nat,
                  ghost d0: seq<Elem>, ghost a: seq<Elem>, ghost b: seq<Elem>, ghost m: seq<Elem>)
    returns (fromA: bool, na: nat, nb: nat)
    requires storage != dst && b <= storage[..] && Trimmed(a, b)
    requires BackMerged(dst[..], lo, na0, nb0, d0, a, b, m) && 0 < na0 && 0 < nb0
    modifies dst
    ensures BackMerged(dst[..], lo, na, nb, d0, a, b, m) && 0 < nb && IsCut(a, b, na, nb)
    ensures na == NextPlace(na0, fromA, false) && nb == NextPlace(nb0, !fromA, false)
  {
    BackTurn(dst[..], storage[..], lo, na0, nb0, d0, a, b, m);
    na, nb := na0, nb0;
    fromA := !(Cmp(dst[lo + na - 1], storage[nb - 1]) <= 0);
    if fromA {
      BackFromA(dst, lo, na, nb, 1, d0, a, b, m);
      na := na - 1;
    } else {
      BackFromB(dst, lo, storage, na, nb, 1, d0, a, b, m);
      nb := nb - 1;
    }
  }

  // The first inner loop of TIM_SORT_MERGE_RIGHT: one element at a time, until one side has won
  // minGallop times in a row or a is used up.
  method MergeRightOneByOne(dst: array<Elem>, lo: nat, storage: array<Elem>, na0: nat, nb0: nat, minGallop: Counter,
                            ghost d0: seq<Elem>, ghost a: seq<Elem>, ghost b: seq<Elem>, ghost m: seq<Elem>)
    returns (na: nat, nb: nat, aCount: Counter, bCount: Counter, ghost trace: seq<bool>)
    requires storage != dst && b <= storage[..] && Trimmed(a, b)
    requires BackMerged(dst[..], lo, na0, nb0, d0, a, b, m) && 0 < na0 && 0 < nb0
    modifies dst
    ensures BackMerged(dst[..], lo, na, nb, d0, a, b, m)
    ensures 0 < nb <= nb0 && na <= na0 && na + nb < na0 + nb0
    ensures 0 < na ==> minGallop <= na0 - na || minGallop <= nb0 - nb
    ensures var limit := if minGallop == 0 then 1 else minGallop;
      && Contest(a, b, trace, na0, nb0, na, nb, false, aCount, bCount, limit)
      && (aCount == limit || bCount == limit || na == 0)
  {
    ghost var limit := if minGallop == 0 then 1 else minGallop;
    na, nb, aCount, bCount, trace := na0, nb0, 0, 0, [];
    ContestStarts(a, b, na0, nb0, false, limit);
    while true
      invariant BackMerged(dst[..], lo, na, nb, d0, a, b, m)
      invariant Contest(a, b, trace, na0, nb0, na, nb, false, aCount, bCount, limit)
      invariant 0 < na && 0 < nb && aCount <= na0 - na && bCount <= nb0 - nb
      invariant aCount < limit && bCount < limit
      decreases na + nb
    {
      ghost var i, j := na, nb;
      var fromA;
      fromA, na, nb := TakeBack(dst, lo, storage, na, nb, d0, a, b, m);
      ContestStep(a, b, trace, na0, nb0, i, j, false, aCount, bCount, limit, fromA);
      trace := trace + [fromA];
      if !fromA {
        bCount := bCount + 1;
        aCount := 0;
        if minGallop <= bCount {
          break;
        }
      } else {
        aCount := aCount + 1;
        bCount := 0;
        if na == 0 {
          break;
        }
        if minGallop <= aCount {
          break;
        }
      }
    }
  }

  // Half a round of the second inner loop: the elements of a that exceed the last element of b,
  // and, unless a is used up, that element.
  method StretchBackA(dst: array<Elem>, lo: nat, storage: array<Elem>, na0: nat, nb0: nat,
                      ghost d0: seq<Elem>, ghost a: seq<Elem>, ghost b: seq<Elem>, ghost m: seq<Elem>)
    returns (na: nat, nb: nat, k: nat)
    requires storage != dst && b <= storage[..] && Trimmed(a, b)
    requires BackMerged(dst[..], lo, na0, nb0, d0, a, b, m) && 0 < na0 && 0 < nb0
    modifies dst
    ensures BackMerged(dst[..], lo, na, nb, d0, a, b, m)
    ensures na == k <= na0 && 0 < nb == if na == 0 then nb0 else nb0 - 1
  {
    BackReads(dst[..], storage[..], lo, na0, nb0, d0, a, b, m);
    k := TimSortGallop(dst[lo..lo + na0], storage[nb0 - 1], na0 - 1, true);
    CutBeforeGallopA(a, b, na0, nb0, k);
    BackFromA(dst, lo, na0, nb0, na0 - k, d0, a, b, m);
    na, nb := k, nb0;
    if na != 0 {
      TrimmedBounds(a, b, na - 1);
      BackFromB(dst, lo, storage, na, nb, 1, d0, a, b, m);
      nb := nb - 1;
    }
  }

  // The other half: the elements of b that are not below the last element of a, and that element.
  method StretchBackB(dst: array<Elem>, lo: nat, storage: array<Elem>, na0: nat, nb0: nat,
                      ghost d0: seq<Elem>, ghost a: seq<Elem>, ghost b: seq<Elem>, ghost m: seq<Elem>)
    returns (na: nat, nb: nat, k: nat)
    requires storage != dst && b <= storage[..] && Trimmed(a, b)
    requires BackMerged(dst[..], lo, na0, nb0, d0, a, b, m) && 0 < na0 && 0 < nb0
    modifies dst
    ensures BackMerged(dst[..], lo, na, nb, d0, a, b, m)
    ensures na == na0 - 1 && 0 < nb == k <= nb0
  {
    BackReads(dst[..], storage[..], lo, na0, nb0, d0, a, b, m);
    k := TimSortGallop(storage[..nb0], dst[lo + na0 - 1], nb0 - 1, false);
    CutBeforeGallopB(a, b, na0, nb0, k);
    TrimmedBounds(a, b, na0 - 1);
    BackFromB(dst, lo, storage, na0, nb0, nb0 - k, d0, a, b, m);
    nb := k;
    BackFromA(dst, lo, na0, nb, 1, d0, a, b, m);
    na := na0 - 1;
  }

  // The second inner loop.  Its exit tests are made after pa and pb were set from k, so the length
  // of the stretch that they compare with TIM_SORT_MIN_GALLOP is 0.
  method MergeRightGalloping(dst: array<Elem>, lo: nat, storage: array<Elem>, na0: nat, nb0: nat,
                             aCount: Counter, bCount: Counter, minGallop0: Counter,
                             ghost d0: seq<Elem>, ghost a: seq<Elem>, ghost b: seq<Elem>, ghost m: seq<Elem>)
    returns (na: nat, nb: nat, minGallop: Counter, ghost rounds: nat)
    requires storage != dst && b <= storage[..] && Trimmed(a, b)
    requires BackMerged(dst[..], lo, na0, nb0, d0, a, b, m) && 0 < na0 && 0 < nb0 && 0 < minGallop0
    modifies dst
    ensures BackMerged(dst[..], lo, na, nb, d0, a, b, m)
    ensures 0 < nb <= nb0 && na <= na0 && na + nb < na0 + nb0
    ensures 0 < rounds <= na0 - na + nb0 - nb
    ensures minGallop == (if minGallop0 < rounds then 0 else minGallop0 - rounds) + if 0 < na then 1 else 0
    ensures aCount != 0 || bCount != 0 ==> rounds == 1
    ensures aCount != 0 && 0 < na ==> nb == nb0 - 1
    ensures aCount == 0 && 0 < na ==> bCount != 0 && na < na0
  {
    na, nb, minGallop, rounds := na0, nb0, minGallop0, 0;
    var k;
    while true
      invariant BackMerged(dst[..], lo, na, nb, d0, a, b, m)
      invariant 0 < na <= na0 && 0 < nb <= nb0
      invariant rounds <= na0 - na + nb0 - nb
      invariant minGallop == if minGallop0 < rounds then 0 else minGallop0 - rounds
      invariant aCount != 0 || bCount != 0 ==> rounds == 0 && (na, nb) == (na0, nb0)
      decreases na + nb
    {
      if minGallop != 0 {
        minGallop := minGallop - 1;
      }
      rounds := rounds + 1;
      na, nb, k := StretchBackA(dst, lo, storage, na, nb, d0, a, b, m);
      if na == 0 {
        break;
      }
      if aCount != 0 && na - k < TIM_SORT_MIN_GALLOP {
        minGallop := minGallop + 1;
        break;
      }
      na, nb, k := StretchBackB(dst, lo, storage, na, nb, d0, a, b, m);
      if na == 0 {
        break;
      }
      if bCount != 0 && nb - k < TIM_SORT_MIN_GALLOP {
        minGallop := minGallop + 1;
        break;
      }
    }
  }

  // TIM_SORT_MERGE_RIGHT once b is in the scratch buffer.
  method MergeRightBody(dst: array<Elem>, lo: nat, lenA: nat, lenB: nat, storage: array<Elem>, minGallop0: Counter,
                        ghost d0: seq<Elem>, ghost a: seq<Elem>, ghost b: seq<Elem>, ghost m: seq<Elem>)
    returns (minGallop: Counter)
    requires storage != dst && b <= storage[..] && |a| == lenA && |b| == lenB && Trimmed(a, b)
    requires BackMerged(dst[..], lo, lenA, lenB, d0, a, b, m)
    modifies dst
    ensures BackMerged(dst[..], lo, 0, 0, d0, a, b, m) && LevelKept(minGallop, minGallop0, lenA, lenB)
  {
    minGallop := minGallop0;
    // The last element comes from a.
    CutBeforeOne(a, b, lenA, lenB);
    BackFromA(dst, lo, lenA, lenB, 1, d0, a, b, m);
    var na, nb, aCount, bCount := lenA - 1, lenB, 0, 0;
    while na != 0
      invariant 0 < nb <= lenB && 0 <= na < lenA && LevelKept(minGallop, minGallop0, lenA, lenB)
      invariant BackMerged(dst[..], lo, na, nb, d0, a, b, m)
      decreases na + nb
    {
      ghost var trace;
      na, nb, aCount, bCount, trace := MergeRightOneByOne(dst, lo, storage, na, nb, minGallop, d0, a, b, m);
      if na == 0 {
        break;
      }
      minGallop := minGallop + 1;
      ghost var rounds;
      na, nb, minGallop, rounds :=
        MergeRightGalloping(dst, lo, storage, na, nb, aCount, bCount, minGallop, d0, a, b, m);
    }
    BackFromB(dst, lo, storage, 0, nb, nb, d0, a, b, m);
  }

  /** TIM_SORT_MERGE_RIGHT: merges two adjacent trimmed runs with scratch space for the second. */
  method TimSortMergeRight(dst: array<Elem>, lo: nat, lenA: nat, lenB: nat, storage: array<Elem>, minGallop0: Counter)
    returns (minGallop: Counter)
    requires lo + lenA + lenB <= dst.Length && storage != dst && lenB <= storage.Length && lenA + lenB <= MAX_SIZE
    requires Trimmed(dst[lo..lo + lenA], dst[lo + lenA..lo + lenA + lenB])
    modifies dst, storage
    ensures IsMerge(dst[lo..lo + lenA + lenB], old(dst[lo..lo + lenA]), old(dst[lo + lenA..lo + lenA + lenB]))
    ensures SameOutside(dst[..], old(dst[..]), lo, lo + lenA + lenB) && LevelKept(minGallop, minGallop0, lenA, lenB)
  {
    var mid := lo + lenA;
    ghost var d0, hi := dst[..], lo + lenA + lenB;
    ghost var a, b := d0[lo..mid], d0[mid..hi];
    ghost var m := SomeMerge(a, b);
    CopyCells(dst, mid, storage, 0, lenB);
    CopiedRun(storage[..], d0, mid, hi);
    BackStart(d0, lo, mid, hi, m);
    var pa, pb, pdst := ToInt(lenA - 1), ToInt(lenB - 1), ToInt(lenA + lenB - 1);
    assert pdst == pa + pb + 1;
    minGallop := MergeRightBody(dst, lo, pa + 1, pb + 1, storage, minGallop0, d0, a, b, m);
    BackDone(dst[..], d0, lo, mid, hi, m);
  }

  // ---------- Trimming ----------

  /** Skipping the elements of a that are at most b[0], and those of b that are at least the last
      of a, loses nothing and leaves runs that satisfy the precondition of both merges. */
  lemma TrimSound(a: seq<Elem>, b: seq<Elem>, k1: nat, k2: nat)
    requires Sorted(a) && Sorted(b) && 0 < |a| < 0x8000_0000 && 0 < |b| < 0x8000_0000
    requires IsBound(a, b[0], k1, true) && k1 < |a|
    requires IsBound(b, a[|a| - 1], k2, false)
    ensures Trimmed(a[k1..], b[..k2])
    ensures Merge(a, b) == a[..k1] + Merge(a[k1..], b[..k2]) + b[k2..]
  {
    TrimCuts(a, b, k1, k2);
    SortedRest(a, k1);
    SortedSlice(b, 0, k2);
    assert b[0..k2] == b[..k2];
    Cut(a, k1);
    Cut(b, k2);
    TrimmedMerge(a, b, a[..k1], a[k1..], b[..k2], b[k2..]);
  }

  lemma TrimmedMerge(a: seq<Elem>, b: seq<Elem>, a1: seq<Elem>, a2: seq<Elem>, b1: seq<Elem>, b2: seq<Elem>)
    requires a == a1 + a2 && b == b1 + b2 && Sorted(a) && Sorted(b)
    requires IsCut(a, b, |a1|, 0) && IsCut(a2, b, |a2|, |b1|)
    ensures Merge(a, b) == a1 + Merge(a2, b1) + b2
  {
    var m := MergeOf(a, b);
    var r := StartsInA(m, a1, a2, b);
    var e := EndsInB(r, a2, b1, b2);
    MergeUnique(a2, b1, e);
    Assoc(a1, e, b2);
  }

  lemma TrimCuts(a: seq<Elem>, b: seq<Elem>, k1: nat, k2: nat)
    requires Sorted(a) && Sorted(b) && 0 < |a| && 0 < |b|
    requires IsBound(a, b[0], k1, true) && k1 < |a|
    requires IsBound(b, a[|a| - 1], k2, false)
    ensures 0 < k2 && b[0].key < a[k1].key && b[k2 - 1].key < a[|a| - 1].key
    ensures IsCut(a, b, k1, 0) && IsCut(a[k1..], b, |a| - k1, k2)
  {
    assert !Before(a[k1], b[0], true);
    assert InOrder(a, k1, |a| - 1);
    assert k2 != 0 by {
      assert Before(b[0], a[|a| - 1], false);
    }
    assert Before(b[k2 - 1], a[|a| - 1], false);
    if 0 < k1 {
      assert Before(a[k1 - 1], b[0], true);
    }
    if k2 < |b| {
      assert !Before(b[k2], a[|a| - 1], false);
    }
  }

  // If all of a is at most b[0], the two runs are merged already.
  lemma NothingToMerge(a: seq<Elem>, b: seq<Elem>)
    requires Sorted(a) && Sorted(b) && b != [] && IsBound(a, b[0], |a|, true)
    ensures Merge(a, b) == a + b
  {
    if a != [] {
      assert Before(a[|a| - 1], b[0], true);
    }
    MergeHeadA(a, b, |a|);
    Ends(a);
    MergeNil(b, a[|a|..]);
  }
}
