/** Exchanging two cells of an array, and what it means that only a segment was permuted. */
module Cells {
  import opened Order
  import opened Sequences

  /** SORT_SWAP, GRAIL_SWAP1 */
  method SwapCells(arr: array<Elem>, i: nat, j: nat)
    requires i < arr.Length && j < arr.Length
    modifies arr
    ensures arr[..] == old(arr[..])[i := old(arr[j])][j := old(arr[i])]
  {
    arr[i], arr[j] := arr[j], arr[i];
  }

  // ---------- Permutation of a segment ----------

  ghost predicate Permuted(e: seq<Elem>, d: seq<Elem>, lo: nat, hi: nat) {
    lo <= hi <= |d| && SameOutside(e, d, lo, hi) && multiset(e[lo..hi]) == multiset(d[lo..hi])
  }

  lemma PermutedRefl(d: seq<Elem>, lo: nat, hi: nat)
    requires lo <= hi <= |d|
    ensures Permuted(d, d, lo, hi)
  {
  }

  lemma PermutedTrans(f: seq<Elem>, e: seq<Elem>, d: seq<Elem>, lo: nat, hi: nat)
    requires Permuted(f, e, lo, hi) && Permuted(e, d, lo, hi)
    ensures Permuted(f, d, lo, hi)
  {
    SameOutsideTrans(f, e, d, lo, hi);
  }

  lemma PermutedWider(e: seq<Elem>, d: seq<Elem>, lo: nat, hi: nat, lo': nat, hi': nat)
    requires Permuted(e, d, lo, hi) && lo' <= lo && hi <= hi' <= |d|
    ensures Permuted(e, d, lo', hi')
  {
    SameOutsideWider(e, d, lo, hi, lo', hi');
    SameSlice(e, d, lo, hi, lo', lo);
    SameSlice(e, d, lo, hi, hi, hi');
    assert e[lo'..hi'] == e[lo'..lo] + e[lo..hi] + e[hi..hi'];
    assert d[lo'..hi'] == d[lo'..lo] + d[lo..hi] + d[hi..hi'];
  }

  lemma PermutedSwap(d: seq<Elem>, i: nat, j: nat, lo: nat, hi: nat)
    requires lo <= i < hi <= |d| && lo <= j < hi
    ensures Permuted(d[i := d[j]][j := d[i]], d, lo, hi)
  {
    var e := d[i := d[j]][j := d[i]];
    forall k | 0 <= k < |d| && (k < lo || hi <= k) ensures SameAt(e, d, k) {
    }
    var u, i', j' := d[lo..hi], i - lo, j - lo;
    assert e[lo..hi] == u[i' := u[j']][j' := u[i']];
  }

  // No element of lo..mid is above one of mid..hi.
  predicate Divided(d: seq<Elem>, lo: nat, mid: nat, hi: nat) {
    mid <= hi <= |d| && forall i, j :: lo <= i < mid && mid <= j < hi ==> InOrder(d, i, j)
  }

  // Permuting one side, or a part of it, leaves the segment divided.
  lemma StillDivided(d: seq<Elem>, e: seq<Elem>, lo: nat, mid: nat, hi: nat, a: nat, b: nat)
    requires lo <= mid && Divided(d, lo, mid, hi) && Permuted(e, d, a, b)
    requires (lo <= a && b <= mid) || (mid <= a && b <= hi)
    ensures Divided(e, lo, mid, hi)
  {
    if lo <= a && b <= mid {
      PermutedWider(e, d, a, b, lo, mid);
    } else {
      PermutedWider(e, d, a, b, mid, hi);
    }
    var u, v, w, x := d[lo..mid], e[lo..mid], d[mid..hi], e[mid..hi];
    if lo <= a && b <= mid {
      SameSlice(e, d, lo, mid, mid, hi);
    } else {
      SameSlice(e, d, mid, hi, lo, mid);
    }
    forall i, j | 0 <= i < |u| && 0 <= j < |w| ensures u[i].key <= w[j].key {
      assert InOrder(d, lo + i, mid + j);
    }
    PermutedBounds(u, v, w);
    PermutedBounds(w, x, v);
    forall i, j | lo <= i < mid && mid <= j < hi ensures InOrder(e, i, j) {
      assert v[i - lo].key <= x[j - mid].key;
    }
  }
}
