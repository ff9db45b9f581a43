/** Finding and extending the natural runs that TimSort merges. */
module Runs {
  import opened Order
  import opened Sequences

  // ---------- Reversal ----------

  predicate Above(s: seq<Elem>, i: int, j: int)
    requires 0 <= i < |s| && 0 <= j < |s|
  {
    s[j].key < s[i].key
  }

  predicate StrictlyDecreasing(s: seq<Elem>) {
    forall i, j :: 0 <= i < j < |s| ==> Above(s, i, j)
  }

  /** Reversing a strictly decreasing run sorts it, and stably: no two keys are equal. */
  lemma {:induction false} ReversedRun(s: seq<Elem>)
    requires StrictlyDecreasing(s)
    ensures Sorted(Reversed(s)) && Stable(Reversed(s), s)
  {
    if s == [] {
    } else {
      var t := s[1..];
      forall i, j | 0 <= i < j < |t| ensures Above(t, i, j) {
        assert Above(s, i + 1, j + 1);
      }
      ReversedRun(t);
      ReversedAt(t);
      forall i | 0 <= i < |t| ensures Reversed(t)[i].key < s[0].key {
        assert Above(s, 0, |t| - i);
      }
      SortedConcat(Reversed(t), [s[0]]);
      StableRefl([s[0]]);
      StableConcat(Reversed(t), [s[0]], t, [s[0]]);
      assert AllLt(t, [s[0]]) by {
        assert forall i :: 0 <= i < |t| ==> t[i] == Reversed(t)[|t| - 1 - i];
      }
      StableExchange(t, [s[0]]);
      StableTrans(Reversed(s), t + [s[0]], [s[0]] + t);
      assert [s[0]] + t == s;
    }
  }

  /** REVERSE_ELEMENTS: end is the index of the last element. */
  method ReverseElements(arr: array<Elem>, start: nat, end: nat)
    requires start <= end < arr.Length
    modifies arr
    ensures arr[start..end + 1] == Reversed(old(arr[start..end + 1]))
    ensures SameOutside(arr[..], old(arr[..]), start, end + 1)
  {
    var i, j := start, end as int;
    while true
      invariant start <= i <= j + 1 && i + j == start + end
      invariant PartlyReversed(arr[..], old(arr[..]), start, end + 1, i, j)
      decreases j - i
    {
      if i >= j {
        break;
      }
      ReversalStep(arr[..], old(arr[..]), start, end + 1, i, j);
      arr[i], arr[j] := arr[j], arr[i];
      i, j := i + 1, j - 1;
    }
    ReversalDone(arr[..], old(arr[..]), start, end + 1, i, j);
  }

  // ---------- Finding a run ----------

  // The run that starts at dst[start] so far is in order, or strictly decreasing.
  lemma RunGrows(s: seq<Elem>, t: seq<Elem>)
    requires s != [] && |t| == |s| + 1 && t == s + [t[|s|]]
    ensures Sorted(s) && s[|s| - 1].key <= t[|s|].key ==> Sorted(t)
    ensures StrictlyDecreasing(s) && t[|s|].key < s[|s| - 1].key ==> StrictlyDecreasing(t)
  {
    var n := |s|;
    if Sorted(s) && s[n - 1].key <= t[n].key {
      forall i, j | 0 <= i <= j < n + 1 ensures InOrder(t, i, j) {
        if j < n {
          assert InOrder(s, i, j);
        } else if i < n {
          assert InOrder(s, i, n - 1);
        }
      }
    }
    if StrictlyDecreasing(s) && t[n].key < s[n - 1].key {
      forall i, j | 0 <= i < j < n + 1 ensures Above(t, i, j) {
        if j < n {
          assert Above(s, i, j);
        } else if i < n - 1 {
          assert Above(s, i, n - 1);
        }
      }
    }
  }

  lemma SliceGrows(d: seq<Elem>, start: nat, curr: nat)
    requires start < curr < |d|
    ensures d[start..curr + 1] == d[start..curr] + [d[curr]]
    ensures d[start..curr][curr - start - 1] == d[curr - 1]
  {
  }

  lemma PairRuns(d: seq<Elem>, start: nat)
    requires start + 2 <= |d|
    ensures d[start].key <= d[start + 1].key ==> Sorted(d[start..start + 2])
    ensures d[start + 1].key < d[start].key ==> StrictlyDecreasing(d[start..start + 2])
  {
    var t := d[start..start + 2];
    assert t[0] == d[start] && t[1] == d[start + 1];
  }

  // The scan for an increasing run.
  method ScanUp(dst: array<Elem>, start: nat, size: nat) returns (curr: nat)
    requires start + 2 < size <= dst.Length && Sorted(dst[start..start + 2])
    ensures start + 2 <= curr < size && Sorted(dst[start..curr])
    ensures curr == size - 1 || dst[curr].key < dst[curr - 1].key
  {
    curr := start + 2;
    while true
      invariant start + 2 <= curr < size && Sorted(dst[start..curr])
      decreases size - curr
    {
      if curr == size - 1 {
        break;
      }
      if Cmp(dst[curr - 1], dst[curr]) > 0 {
        break;
      }
      SliceGrows(dst[..], start, curr);
      RunGrows(dst[start..curr], dst[start..curr + 1]);
      curr := curr + 1;
    }
  }

  // The scan for a decreasing run.
  method ScanDown(dst: array<Elem>, start: nat, size: nat) returns (curr: nat)
    requires start + 2 < size <= dst.Length && StrictlyDecreasing(dst[start..start + 2])
    ensures start + 2 <= curr < size && StrictlyDecreasing(dst[start..curr])
    ensures curr == size - 1 || dst[curr - 1].key <= dst[curr].key
  {
    curr := start + 2;
    while true
      invariant start + 2 <= curr < size && StrictlyDecreasing(dst[start..curr])
      decreases size - curr
    {
      if curr == size - 1 {
        break;
      }
      if Cmp(dst[curr - 1], dst[curr]) <= 0 {
        break;
      }
      SliceGrows(dst[..], start, curr);
      RunGrows(dst[start..curr], dst[start..curr + 1]);
      curr := curr + 1;
    }
  }

  // The run of d at start starts with a descent.
  predicate Descends(d: seq<Elem>, start: nat, size: nat) {
    start + 2 <= size <= |d| && d[start + 1].key < d[start].key
  }

  // The run of d at start has len elements: it goes on to the element that breaks its direction, or to
  // the last element of the array, which only a run of two elements takes in.
  predicate RunLength(d: seq<Elem>, start: nat, size: nat, len: nat) {
    && start < size <= |d| && 1 <= len <= size - start
    && (size - start <= 2 ==> len == size - start)
    && (2 < size - start ==>
          var end := start + len;
          && 2 <= len && end < size
          && (if Descends(d, start, size) then StrictlyDecreasing(d[start..end]) else Sorted(d[start..end]))
          && (end == size - 1 || (d[end].key < d[end - 1].key <==> !Descends(d, start, size))))
  }

  // Inside a run no element breaks its direction.
  lemma InsideRun(d: seq<Elem>, start: nat, size: nat, len: nat, i: nat)
    requires RunLength(d, start, size, len) && 2 < size - start && 1 <= i < len
    ensures d[start + i].key < d[start + i - 1].key <==> Descends(d, start, size)
  {
    var s := d[start..start + len];
    assert s[i] == d[start + i] && s[i - 1] == d[start + i - 1];
    if Descends(d, start, size) {
      assert Above(s, i - 1, i);
    } else {
      assert InOrder(s, i - 1, i);
    }
  }

  /** There is one such length. */
  lemma RunLengthUnique(d: seq<Elem>, start: nat, size: nat, len: nat, len': nat)
    requires RunLength(d, start, size, len) && RunLength(d, start, size, len')
    ensures len == len'
  {
    if 2 < size - start {
      if len < len' {
        InsideRun(d, start, size, len', len);
      } else if len' < len {
        InsideRun(d, start, size, len, len');
      }
    }
  }

  // The length depends only on the array from start on.
  lemma RunLengthElsewhere(d: seq<Elem>, e: seq<Elem>, start: nat, size: nat, len: nat)
    requires RunLength(d, start, size, len) && SameOutside(d, e, 0, start)
    ensures RunLength(e, start, size, len)
  {
    SameSlice(d, e, 0, start, start, start + len);
    forall i | start <= i < size ensures d[i] == e[i] {
      assert SameAt(d, e, i);
    }
  }

  // What the run becomes.
  function Ascending(d: seq<Elem>, start: nat, size: nat, len: nat): seq<Elem>
    requires start + len <= |d|
  {
    if Descends(d, start, size) then Reversed(d[start..start + len]) else d[start..start + len]
  }

  lemma AscendingRun(d: seq<Elem>, start: nat, size: nat, len: nat)
    requires RunLength(d, start, size, len)
    ensures Sorted(Ascending(d, start, size, len)) && Stable(Ascending(d, start, size, len), d[start..start + len])
  {
    var s := d[start..start + len];
    if Descends(d, start, size) {
      assert StrictlyDecreasing(s) by {
        PairRuns(d, start);
      }
      ReversedRun(s);
    } else {
      StableRefl(s);
      if 2 <= len {
        PairRuns(d, start);
      }
    }
  }

  lemma ReversedPair(d: seq<Elem>, e: seq<Elem>, start: nat)
    requires start + 2 <= |d| && e == d[start := d[start + 1]][start + 1 := d[start]]
    ensures e[start..start + 2] == Reversed(d[start..start + 2]) && SameOutside(e, d, start, start + 2)
  {
    ReversedAt(d[start..start + 2]);
    forall k | 0 <= k < |d| && (k < start || start + 2 <= k) ensures SameAt(e, d, k) {
    }
  }

  // The last two elements of the array.
  method OrderLastPair(dst: array<Elem>, start: nat, size: nat)
    requires start + 2 == size <= dst.Length
    modifies dst
    ensures dst[start..start + 2] == Ascending(old(dst[..]), start, size, 2)
    ensures SameOutside(dst[..], old(dst[..]), start, start + 2)
  {
    ghost var d := dst[..];
    if Cmp(dst[size - 2], dst[size - 1]) > 0 {
      dst[size - 2], dst[size - 1] := dst[size - 1], dst[size - 2];
      ReversedPair(d, dst[..], start);
    }
  }

  // A run of more than one element with at least one more behind it.
  method ScanRun(dst: array<Elem>, start: nat, size: nat) returns (curr: nat)
    requires start + 2 < size <= dst.Length
    modifies dst
    ensures start + 2 <= curr && RunLength(old(dst[..]), start, size, curr - start)
    ensures dst[start..curr] == Ascending(old(dst[..]), start, size, curr - start)
    ensures SameOutside(dst[..], old(dst[..]), start, curr)
  {
    PairRuns(dst[..], start);
    if Cmp(dst[start], dst[start + 1]) <= 0 {
      curr := ScanUp(dst, start, size);
    } else {
      curr := ScanDown(dst, start, size);
      ReverseElements(dst, start, curr - 1);
    }
  }

  /** COUNT_RUN: finds the run that starts at dst[start]; a strictly decreasing one is reversed. */
  method CountRun(dst: array<Elem>, start: nat, size: nat) returns (len: nat)
    requires start < size <= dst.Length
    modifies dst
    ensures RunLength(old(dst[..]), start, size, len)
    ensures dst[start..start + len] == Ascending(old(dst[..]), start, size, len)
    ensures SameOutside(dst[..], old(dst[..]), start, start + len)
  {
    if size - start == 1 {
      return 1;
    }
    if start >= size - 2 {
      OrderLastPair(dst, start, size);
      return 2;
    }
    var curr := ScanRun(dst, start, size);
    len := curr - start;
    assert start + len == curr;
  }
}
