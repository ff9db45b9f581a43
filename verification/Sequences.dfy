/** Identities of slices and concatenations, proved away from everything else, and reversal. */
module Sequences {

  lemma Assoc<T>(a: seq<T>, b: seq<T>, c: seq<T>)
    ensures (a + b) + c == a + (b + c)
  {
  }

  lemma Units<T>(s: seq<T>)
    ensures s + [] == s && [] + s == s
  {
  }

  lemma Regrouped<T>(p: seq<T>, x: seq<T>, y: seq<T>, s: seq<T>)
    ensures p + (x + y) + s == (p + x) + y + s == p + x + (y + s)
  {
  }

  lemma Cut<T>(s: seq<T>, i: nat)
    requires i <= |s|
    ensures s == s[..i] + s[i..]
  {
  }

  lemma Ends<T>(s: seq<T>)
    ensures s[..0] == [] && s[0..] == s && s[..|s|] == s && s[|s|..] == []
  {
  }

  lemma SliceOfRest<T>(s: seq<T>, p: nat, k: nat)
    requires p + k <= |s|
    ensures s[p..][..k] == s[p..p + k] && s[p..][k..] == s[p + k..]
  {
  }

  lemma SubSlice<T>(s: seq<T>, lo: nat, hi: nat, a: nat, b: nat)
    requires lo <= a <= b <= hi <= |s|
    ensures s[lo..hi][a - lo..b - lo] == s[a..b]
  {
    var u, v := s[lo..hi][a - lo..b - lo], s[a..b];
    assert forall i :: 0 <= i < b - a ==> u[i] == s[lo..hi][a - lo + i] == s[a + i] == v[i];
  }

  lemma SliceJoin<T>(s: seq<T>, p: nat, q: nat, r: nat)
    requires p <= q <= r <= |s|
    ensures s[p..r] == s[p..q] + s[q..r]
  {
  }

  lemma ThreeParts<T>(s: seq<T>, i: nat, j: nat)
    requires i <= j <= |s|
    ensures s == s[..i] + s[i..j] + s[j..]
  {
  }

  lemma FiveParts<T>(s: seq<T>, i: nat, j: nat, k: nat, l: nat)
    requires i <= j <= k <= l <= |s|
    ensures s == s[..i] + s[i..j] + s[j..k] + s[k..l] + s[l..]
  {
  }

  lemma Middle<T>(m: seq<T>, p: seq<T>, s: seq<T>, rest: seq<T>, i: nat, n: nat, k: nat)
    requires |p| == n && i <= n && i + k <= |s| && m == p + (s[i..i + k] + rest)
    ensures forall q :: n <= q < n + k ==> m[q] == s[q - (n - i)]
  {
  }

  // ---------- Sequences that agree outside a range ----------

  ghost predicate SameAt<T>(s: seq<T>, t: seq<T>, i: int)
    requires 0 <= i < |s| == |t|
  {
    s[i] == t[i]
  }

  // The two sequences agree at every index outside lo..hi.
  ghost predicate SameOutside<T>(s: seq<T>, t: seq<T>, lo: int, hi: int) {
    |s| == |t| && forall i :: 0 <= i < |s| && (i < lo || hi <= i) ==> SameAt(s, t, i)
  }

  lemma SameSlice<T>(s: seq<T>, t: seq<T>, lo: int, hi: int, p: nat, q: nat)
    requires SameOutside(s, t, lo, hi) && p <= q <= |s| && (q <= lo || hi <= p)
    ensures s[p..q] == t[p..q]
  {
    forall i | p <= i < q ensures s[i] == t[i] {
      assert SameAt(s, t, i);
    }
  }

  lemma SameOutsideTrans<T>(s: seq<T>, t: seq<T>, u: seq<T>, lo: int, hi: int)
    requires SameOutside(s, t, lo, hi) && SameOutside(t, u, lo, hi)
    ensures SameOutside(s, u, lo, hi)
  {
    forall i | 0 <= i < |s| && (i < lo || hi <= i) ensures SameAt(s, u, i) {
      assert SameAt(s, t, i) && SameAt(t, u, i);
    }
  }

  lemma SameOutsideWider<T>(s: seq<T>, t: seq<T>, lo: int, hi: int, lo': int, hi': int)
    requires SameOutside(s, t, lo, hi) && lo' <= lo && hi <= hi'
    ensures SameOutside(s, t, lo', hi')
  {
    forall i | 0 <= i < |s| && (i < lo' || hi' <= i) ensures SameAt(s, t, i) {
    }
  }

  lemma OneCell<T>(s: seq<T>, i: nat, x: T)
    requires i < |s|
    ensures SameOutside(s[i := x], s, i, i + 1)
  {
    var t := s[i := x];
    forall k | 0 <= k < |s| && (k < i || i + 1 <= k) ensures SameAt(t, s, k) {
    }
  }

  // Two changes, one after the other.
  lemma SameOutsideBoth<T>(s: seq<T>, t: seq<T>, u: seq<T>, lo: int, hi: int, lo': int, hi': int, from: int, to: int)
    requires SameOutside(s, t, lo, hi) && SameOutside(t, u, lo', hi')
    requires from <= lo && from <= lo' && hi <= to && hi' <= to
    ensures SameOutside(s, u, from, to)
  {
    SameOutsideWider(s, t, lo, hi, from, to);
    SameOutsideWider(t, u, lo', hi', from, to);
    SameOutsideTrans(s, t, u, from, to);
  }

  // ---------- Reversal ----------

  function Reversed<T>(s: seq<T>): seq<T> {
    if s == [] then [] else Reversed(s[1..]) + [s[0]]
  }

  lemma {:induction false} ReversedAt<T>(s: seq<T>)
    ensures |Reversed(s)| == |s|
    ensures forall k :: 0 <= k < |s| ==> Reversed(s)[k] == s[|s| - 1 - k]
  {
    if s != [] {
      ReversedAt(s[1..]);
    }
  }

  // Where the element at k comes from once the cells of lo..hi outside i..j have changed places.
  ghost predicate MirroredAt<T>(d: seq<T>, d0: seq<T>, lo: int, hi: int, i: int, j: int, k: int)
    requires 0 <= lo <= k < hi <= |d| == |d0|
  {
    d[k] == d0[if i <= k <= j then k else lo + hi - 1 - k]
  }

  // The state of a reversal in place that works from both ends of lo..hi inwards.
  ghost predicate PartlyReversed<T>(d: seq<T>, d0: seq<T>, lo: int, hi: int, i: int, j: int) {
    && 0 <= lo <= hi <= |d| && SameOutside(d, d0, lo, hi)
    && forall k :: lo <= k < hi ==> MirroredAt(d, d0, lo, hi, i, j, k)
  }

  lemma ReversalStep<T>(d: seq<T>, d0: seq<T>, lo: nat, hi: nat, i: nat, j: nat)
    requires PartlyReversed(d, d0, lo, hi, i, j) && lo <= i < j < hi && i + j == lo + hi - 1
    ensures PartlyReversed(d[i := d[j]][j := d[i]], d0, lo, hi, i + 1, j - 1)
  {
    var e, i', j' := d[i := d[j]][j := d[i]], i + 1, j - 1;
    assert MirroredAt(d, d0, lo, hi, i, j, i) && MirroredAt(d, d0, lo, hi, i, j, j);
    forall k | lo <= k < hi ensures MirroredAt(e, d0, lo, hi, i', j', k) {
      assert MirroredAt(d, d0, lo, hi, i, j, k);
    }
    forall k | 0 <= k < |d| && (k < lo || hi <= k) ensures SameAt(e, d0, k) {
      assert SameAt(d, d0, k);
    }
  }

  lemma ReversalDone<T>(d: seq<T>, d0: seq<T>, lo: nat, hi: nat, i: int, j: int)
    requires PartlyReversed(d, d0, lo, hi, i, j) && j <= i && i + j == lo + hi - 1
    ensures d[lo..hi] == Reversed(d0[lo..hi])
  {
    var s, t := d[lo..hi], d0[lo..hi];
    ReversedAt(t);
    forall k | 0 <= k < |s| ensures s[k] == Reversed(t)[k] {
      assert MirroredAt(d, d0, lo, hi, i, j, lo + k);
    }
  }
}
