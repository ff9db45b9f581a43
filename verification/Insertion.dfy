/** Binary insertion sort, used for short inputs and to extend the runs of TimSort. */
module Insertion {
  import opened Order
  import opened Gallop
  import opened Sequences

  // The size up to which the other sorts leave a range to a simple one.
  const SMALL_SORT_BND := 16

  /** BINARY_INSERTION_FIND on the range s.  It never looks past the last element, so it finds the
      insertion point of x exactly when x is below the last element; the one other input it gets
      right is a single element that equals x. */
  method BinaryInsertionFind(s: seq<Elem>, x: Elem) returns (k: nat)
    requires s != [] && Sorted(s)
    ensures k <= |s|
    ensures IsBound(s, x, k, true) <==> x.key < s[|s| - 1].key || (|s| == 1 && x.key == s[0].key)
    ensures k == |s| - 1 || IsBound(s, x, k, true)
  {
    var l, r := 0, |s| - 1;
    var c := r / 2;
    if Cmp(x, s[0]) < 0 {
      assert InOrder(s, 0, r);
      BoundFromNeighbours(s, x, 0, true);
      return 0;
    } else if Cmp(x, s[r]) > 0 {
      return r;
    }
    var cx := s[c];
    while true
      invariant 0 <= l <= c <= r < |s| && c == l + (r - l) / 2 && cx == s[c]
      invariant l == r ==> |s| == 1
      invariant s[l].key <= x.key && (x.key < s[r].key || (r == |s| - 1 && x.key == s[r].key))
      decreases r - l
    {
      var val := Cmp(x, cx);
      if val < 0 {
        if c - l <= 1 {
          BoundFromNeighbours(s, x, c, true);
          return c;
        }
        r := c;
      } else {
        if r - c <= 1 {
          if x.key < s[r].key || |s| == 1 {
            BoundFromNeighbours(s, x, c + 1, true);
          }
          return c + 1;
        }
        l := c;
      }
      c := l + (r - l) / 2;
      cx := s[c];
    }
  }

  // Inserting x at its upper bound in a sorted range keeps the range sorted and moves x only past
  // elements with larger keys.
  lemma InsertStable(p: seq<Elem>, x: Elem, k: nat)
    requires Sorted(p) && IsBound(p, x, k, true)
    ensures Sorted(p[..k] + [x] + p[k..])
    ensures Stable(p[..k] + [x] + p[k..], p + [x])
  {
    SortedSlice(p, 0, k);
    SortedRest(p, k);
    forall i, j | 0 <= i < k && k <= j < |p| ensures p[i].key <= p[j].key {
      assert InOrder(p, i, j);
    }
    SortedConcat([x], p[k..]);
    SortedConcat(p[..k], [x] + p[k..]);
    StableExchange([x], p[k..]);
    StableRefl(p[..k]);
    StableConcat(p[..k], [x] + p[k..], p[..k], p[k..] + [x]);
    assert p[..k] + ([x] + p[k..]) == p[..k] + [x] + p[k..];
    assert p[..k] + (p[k..] + [x]) == p + [x];
  }

  // s with the elements at p..q moved up by one; the one at q is lost and the one at p doubled.
  function ShiftedUp(s: seq<Elem>, p: nat, q: nat): seq<Elem>
    requires p <= q < |s|
  {
    s[..p + 1] + s[p..q] + s[q + 1..]
  }

  lemma ShiftStep(s: seq<Elem>, p: nat, q: nat)
    requires 0 < p <= q < |s|
    ensures ShiftedUp(s, p, q)[p - 1] == s[p - 1]
    ensures ShiftedUp(s, p, q)[p := s[p - 1]] == ShiftedUp(s, p - 1, q)
  {
  }

  // The loop that shifts arr[p..q] up by one cell; j stops at 0 because it is unsigned in the source.
  method ShiftUp(arr: array<Elem>, lo: nat, location: nat, i: nat)
    requires location < i && lo + i < arr.Length
    modifies arr
    ensures arr[..] == ShiftedUp(old(arr[..]), lo + location, lo + i)
  {
    var j := i - 1;
    ghost var m := i;
    assert arr[..] == ShiftedUp(arr[..], lo + i, lo + i);
    while j >= location
      invariant m == j + 1 && location <= m <= i
      invariant arr[..] == ShiftedUp(old(arr[..]), lo + m, lo + i)
    {
      ShiftStep(old(arr[..]), lo + m, lo + i);
      arr[lo + j + 1] := arr[lo + j];
      m := j;
      if j == 0 {
        break;
      }
      j := j - 1;
    }
  }

  // One round of the sort: puts arr[lo + i] in its place among the i sorted elements before it.
  method InsertElement(arr: array<Elem>, lo: nat, i: nat)
    requires 1 <= i && lo + i < arr.Length && Sorted(arr[lo..lo + i])
    modifies arr
    ensures SameOutside(arr[..], old(arr[..]), lo, lo + i + 1)
    ensures Sorted(arr[lo..lo + i + 1])
    ensures Stable(arr[lo..lo + i + 1], old(arr[lo..lo + i + 1]))
  {
    ghost var p := arr[lo..lo + i];
    if Cmp(arr[lo + i - 1], arr[lo + i]) <= 0 {
      ghost var q := arr[lo..lo + i + 1];
      assert q == p + [q[i]] && q[i - 1] == p[i - 1];
      forall j | 0 <= j < i ensures p[j].key <= q[i].key {
        assert InOrder(p, j, i - 1);
      }
      SortedConcat(p, [q[i]]);
      StableRefl(q);
      return;
    }
    var x := arr[lo + i];
    assert arr[lo..lo + i + 1] == p + [x];
    var location := BinaryInsertionFind(arr[lo..lo + i], x);
    InsertStable(p, x, location);
    ShiftUp(arr, lo, location, i);
    arr[lo + location] := x;
    ShiftedSlice(old(arr[..]), arr[..], lo, location, i);
  }

  // What the array holds after arr[lo + i] was moved down to arr[lo + k].
  lemma ShiftedSlice(s: seq<Elem>, t: seq<Elem>, lo: nat, k: nat, i: nat)
    requires k <= i && lo + i < |s| && t == ShiftedUp(s, lo + k, lo + i)[lo + k := s[lo + i]]
    ensures SameOutside(t, s, lo, lo + i + 1)
    ensures t[lo..lo + i + 1] == s[lo..lo + i][..k] + [s[lo + i]] + s[lo..lo + i][k..]
  {
    forall j | 0 <= j < |s| && (j < lo || lo + i + 1 <= j) ensures SameAt(t, s, j) {
    }
  }

  /** BINARY_INSERTION_SORT_START: sorts size elements from arr[lo], the first start of which are sorted. */
  method BinaryInsertionSortStart(arr: array<Elem>, lo: nat, start: nat, size: nat)
    requires 1 <= start && lo + size <= arr.Length && start <= size
    requires Sorted(arr[lo..lo + start])
    modifies arr
    ensures arr[lo..lo + size] == StableSort(old(arr[lo..lo + size]))
    ensures SameOutside(arr[..], old(arr[..]), lo, lo + size)
  {
    ghost var s := arr[lo..lo + size];
    StableRefl(s);
    for i := start to size
      invariant SameOutside(arr[..], old(arr[..]), lo, lo + size)
      invariant Sorted(arr[lo..lo + i]) && Stable(arr[lo..lo + size], s)
    {
      ghost var before := arr[..];
      InsertElement(arr, lo, i);
      StableWithin(arr[..], before, lo, lo + size, lo, lo + i + 1);
      StableTrans(arr[lo..lo + size], before[lo..lo + size], s);
      SameOutsideWider(arr[..], before, lo, lo + i + 1, lo, lo + size);
      SameOutsideTrans(arr[..], before, old(arr[..]), lo, lo + size);
    }
    StableSortUnique(s, arr[lo..lo + size]);
  }

  /** BINARY_INSERTION_SORT is the reference stable sort. */
  method BinaryInsertionSort(arr: array<Elem>, lo: nat, size: nat)
    requires lo + size <= arr.Length
    modifies arr
    ensures arr[lo..lo + size] == StableSort(old(arr[lo..lo + size]))
    ensures SameOutside(arr[..], old(arr[..]), lo, lo + size)
  {
    if size <= 1 {
      StableRefl(arr[lo..lo + size]);
      StableSortUnique(arr[lo..lo + size], arr[lo..lo + size]);
      return;
    }
    BinaryInsertionSortStart(arr, lo, 1, size);
  }
}
