/** Elements, the order they are compared in, and what it means to sort them stably.

The C library is instantiated with a comparison that subtracts two integer keys, so an element
here is an integer key together with the rest of the record (`id`).  Elements with equal keys
are still told apart by `id`, which is what makes stability observable.
 */
module Order {
  import opened Sequences

  datatype Elem = Elem(key: int, id: int)

  // SORT_CMP: only the sign of the result is ever used.
  function Cmp(x: Elem, y: Elem): int {
    x.key - y.key
  }

  predicate InOrder(s: seq<Elem>, i: int, j: int)
    requires 0 <= i < |s| && 0 <= j < |s|
  {
    s[i].key <= s[j].key
  }

  predicate Sorted(s: seq<Elem>) {
    forall i, j :: 0 <= i <= j < |s| ==> InOrder(s, i, j)
  }

  // The elements of s that have key k, in the order in which s holds them.
  function Class(s: seq<Elem>, k: int): seq<Elem> {
    if s == [] then [] else (if s[0].key == k then [s[0]] else []) + Class(s[1..], k)
  }

  predicate SameClass(s: seq<Elem>, t: seq<Elem>, k: int) {
    Class(s, k) == Class(t, k)
  }

  // t is a rearrangement of s in which elements with equal keys keep their order.
  ghost predicate Stable(s: seq<Elem>, t: seq<Elem>) {
    forall k {:trigger SameClass(s, t, k)} :: SameClass(s, t, k)
  }

  // Every key of s is at most (or: is less than) every key of t.
  predicate AllLe(s: seq<Elem>, t: seq<Elem>) {
    forall i, j :: 0 <= i < |s| && 0 <= j < |t| ==> s[i].key <= t[j].key
  }

  predicate AllLt(s: seq<Elem>, t: seq<Elem>) {
    forall i, j :: 0 <= i < |s| && 0 <= j < |t| ==> s[i].key < t[j].key
  }

  /** The reference merge: takes from a when the keys are equal. */
  function Merge(a: seq<Elem>, b: seq<Elem>): seq<Elem> {
    if a == [] then b
    else if b == [] then a
    else if Cmp(a[0], b[0]) <= 0 then [a[0]] + Merge(a[1..], b)
    else [b[0]] + Merge(a, b[1..])
  }

  /** The reference stable sort: insertion from the right. */
  function StableSort(s: seq<Elem>): seq<Elem> {
    if s == [] then [] else Merge([s[0]], StableSort(s[1..]))
  }

  lemma SortedSlice(s: seq<Elem>, i: nat, j: nat)
    requires Sorted(s) && i <= j <= |s|
    ensures Sorted(s[i..j])
  {
    var t := s[i..j];
    forall p, q | 0 <= p <= q < |t| ensures InOrder(t, p, q) {
      assert InOrder(s, i + p, i + q);
    }
  }

  lemma SortedRest(s: seq<Elem>, i: nat)
    requires Sorted(s) && i <= |s|
    ensures Sorted(s[i..])
  {
    var t := s[i..];
    forall p, q | 0 <= p <= q < |t| ensures InOrder(t, p, q) {
      assert InOrder(s, i + p, i + q);
    }
  }

  lemma SortedConcat(s: seq<Elem>, t: seq<Elem>)
    requires Sorted(s) && Sorted(t) && AllLe(s, t)
    ensures Sorted(s + t)
  {
    var u := s + t;
    forall p, q | 0 <= p <= q < |u| ensures InOrder(u, p, q) {
      if q < |s| {
        assert InOrder(s, p, q);
      } else if |s| <= p {
        assert InOrder(t, p - |s|, q - |s|);
      }
    }
  }

  lemma SortedParts(s: seq<Elem>, t: seq<Elem>)
    requires Sorted(s + t)
    ensures Sorted(s) && Sorted(t) && AllLe(s, t)
  {
    var u := s + t;
    forall p, q | 0 <= p <= q < |s| ensures InOrder(s, p, q) {
      assert InOrder(u, p, q);
    }
    forall p, q | 0 <= p <= q < |t| ensures InOrder(t, p, q) {
      assert InOrder(u, |s| + p, |s| + q);
    }
    forall p, q | 0 <= p < |s| && 0 <= q < |t| ensures s[p].key <= t[q].key {
      assert InOrder(u, p, |s| + q);
    }
  }

  // ---------- Classes ----------

  lemma ConcatHead(a: seq<Elem>, b: seq<Elem>)
    requires a != []
    ensures (a + b)[0] == a[0] && (a + b)[1..] == a[1..] + b
  {
  }

  lemma {:induction false} ClassConcat(a: seq<Elem>, b: seq<Elem>, k: int)
    ensures Class(a + b, k) == Class(a, k) + Class(b, k)
  {
    if a == [] {
      Units(b);
      Units(Class(b, k));
    } else {
      var head := if a[0].key == k then [a[0]] else [];
      ConcatHead(a, b);
      ClassConcat(a[1..], b, k);
      Assoc(head, Class(a[1..], k), Class(b, k));
    }
  }

  lemma {:induction false} ClassAbsent(s: seq<Elem>, k: int)
    requires forall i :: 0 <= i < |s| ==> s[i].key != k
    ensures Class(s, k) == []
  {
    if s != [] {
      ClassAbsent(s[1..], k);
    }
  }

  lemma {:induction false} ClassCounts(s: seq<Elem>, x: Elem)
    ensures multiset(Class(s, x.key))[x] == multiset(s)[x]
  {
    if s != [] {
      ClassCounts(s[1..], x);
      assert s == [s[0]] + s[1..];
    }
  }

  lemma FirstOfClass(s: seq<Elem>, k: int, f: nat)
    requires f < |s| && s[f].key == k && forall m :: 0 <= m < f ==> s[m].key != k
    ensures Class(s, k) != [] && Class(s, k)[0] == s[f]
  {
    assert s == s[..f] + s[f..];
    ClassConcat(s[..f], s[f..], k);
    ClassAbsent(s[..f], k);
  }

  lemma LastOfClass(s: seq<Elem>, k: int, f: nat)
    requires f < |s| && s[f].key == k && forall m :: f < m < |s| ==> s[m].key != k
    ensures var c := Class(s, k); c != [] && c[|c| - 1] == s[f]
  {
    assert s == (s[..f] + [s[f]]) + s[f + 1..];
    ClassConcat(s[..f] + [s[f]], s[f + 1..], k);
    ClassConcat(s[..f], [s[f]], k);
    ClassAbsent(s[f + 1..], k);
  }

  // ---------- Stable rearrangement ----------

  lemma StableRefl(s: seq<Elem>)
    ensures Stable(s, s)
  {
  }

  lemma StableTrans(s: seq<Elem>, t: seq<Elem>, u: seq<Elem>)
    requires Stable(s, t) && Stable(t, u)
    ensures Stable(s, u)
  {
    forall k ensures SameClass(s, u, k) {
      assert SameClass(s, t, k) && SameClass(t, u, k);
    }
  }

  lemma StableReversed(s: seq<Elem>, t: seq<Elem>)
    requires Stable(s, t)
    ensures Stable(t, s)
  {
    forall k ensures SameClass(t, s, k) {
      assert SameClass(s, t, k);
    }
  }

  lemma StableConcat(a: seq<Elem>, b: seq<Elem>, c: seq<Elem>, d: seq<Elem>)
    requires Stable(a, c) && Stable(b, d)
    ensures Stable(a + b, c + d)
  {
    forall k ensures SameClass(a + b, c + d, k) {
      assert SameClass(a, c, k) && SameClass(b, d, k);
      ClassConcat(a, b, k);
      ClassConcat(c, d, k);
    }
  }

  // Blocks without a common key may change places.
  lemma StableExchange(a: seq<Elem>, b: seq<Elem>)
    requires AllLt(a, b) || AllLt(b, a)
    ensures Stable(a + b, b + a)
  {
    forall k ensures SameClass(a + b, b + a, k) {
      ClassConcat(a, b, k);
      ClassConcat(b, a, k);
      if AllLt(a, b) {
        DisjointClass(a, b, k);
      } else {
        DisjointClass(b, a, k);
      }
    }
  }

  lemma StablePermutes(s: seq<Elem>, t: seq<Elem>)
    requires Stable(s, t)
    ensures multiset(s) == multiset(t) && |s| == |t|
  {
    forall x: Elem ensures multiset(s)[x] == multiset(t)[x] {
      assert SameClass(s, t, x.key);
      ClassCounts(s, x);
      ClassCounts(t, x);
    }
    assert multiset(s) == multiset(t);
    assert |multiset(s)| == |s| && |multiset(t)| == |t|;
  }

  // Only the part lo..hi changed, and it was rearranged stably: so was the whole.
  lemma StableSplice(s: seq<Elem>, t: seq<Elem>, lo: nat, hi: nat)
    requires lo <= hi <= |s| && SameOutside(s, t, lo, hi)
    requires Stable(s[lo..hi], t[lo..hi])
    ensures Stable(s, t)
  {
    assert s == s[..lo] + s[lo..hi] + s[hi..] && t == t[..lo] + t[lo..hi] + t[hi..];
    SameSlice(s, t, lo, hi, 0, lo);
    SameSlice(s, t, lo, hi, hi, |s|);
    assert s[..lo] == t[..lo] && s[hi..] == t[hi..];
    StableConcat(s[..lo], s[lo..hi], t[..lo], t[lo..hi]);
    StableConcat(s[..lo] + s[lo..hi], s[hi..], t[..lo] + t[lo..hi], t[hi..]);
  }

  // The same within a segment: lo..hi is rearranged stably if the only change is such a one in a..b.
  lemma StableWithin(s: seq<Elem>, t: seq<Elem>, lo: nat, hi: nat, a: nat, b: nat)
    requires lo <= a <= b <= hi <= |s| && SameOutside(s, t, a, b)
    requires Stable(s[a..b], t[a..b])
    ensures Stable(s[lo..hi], t[lo..hi])
  {
    var u, v := s[lo..hi], t[lo..hi];
    forall i | 0 <= i < |u| && (i < a - lo || b - lo <= i) ensures SameAt(u, v, i) {
      assert SameAt(s, t, lo + i);
    }
    SubSlice(s, lo, hi, a, b);
    SubSlice(t, lo, hi, a, b);
    StableSplice(u, v, a - lo, b - lo);
  }

  // Bounds on the keys of a sequence survive permutation.
  lemma PermutedBounds(s: seq<Elem>, t: seq<Elem>, u: seq<Elem>)
    requires multiset(s) == multiset(t)
    ensures AllLe(s, u) ==> AllLe(t, u)
    ensures AllLe(u, s) ==> AllLe(u, t)
  {
    forall x | x in t ensures x in s {
      assert multiset(t)[x] > 0;
      assert multiset(s)[x] > 0;
    }
    assert forall i :: 0 <= i < |t| ==> t[i] in s;
  }

  lemma FirstIsLeast(s: seq<Elem>, t: seq<Elem>)
    requires Sorted(s) && s != [] && multiset(s) == multiset(t)
    ensures t != [] && s[0].key <= t[0].key
  {
    assert |multiset(s)| == |s| && |multiset(t)| == |t|;
    assert t != [];
    assert t[0] in multiset(t);
    assert t[0] in multiset(s);
    var i :| 0 <= i < |s| && s[i] == t[0];
    assert InOrder(s, 0, i);
  }

  /** A sorted stable rearrangement is unique: "sorted and stable" determines the result. */
  lemma {:induction false} SortedStableUnique(s: seq<Elem>, t: seq<Elem>)
    requires Sorted(s) && Sorted(t) && Stable(s, t)
    ensures s == t
  {
    StablePermutes(s, t);
    if s != [] {
      FirstIsLeast(s, t);
      FirstIsLeast(t, s);
      var k := s[0].key;
      SortedRest(s, 1);
      SortedRest(t, 1);
      assert SameClass(s, t, k);
      assert Class(s, k)[0] == s[0] && Class(t, k)[0] == t[0];
      forall j ensures SameClass(s[1..], t[1..], j) {
        assert SameClass(s, t, j);
        var head := if j == k then [s[0]] else [];
        assert Class(s, j) == head + Class(s[1..], j) && Class(t, j) == head + Class(t[1..], j);
        assert Class(s[1..], j) == Class(s, j)[|head|..];
      }
      SortedStableUnique(s[1..], t[1..]);
      assert s == [s[0]] + s[1..] && t == [t[0]] + t[1..];
    }
  }

  // ---------- Merging ----------

  lemma ClassBelow(s: seq<Elem>, k: int)
    requires Sorted(s) && s != [] && k < s[0].key
    ensures Class(s, k) == []
  {
    forall i | 0 <= i < |s| ensures s[i].key != k {
      assert InOrder(s, 0, i);
    }
    ClassAbsent(s, k);
  }

  // m is the stable merge of a and b, said without computing it.
  ghost predicate IsMerge(m: seq<Elem>, a: seq<Elem>, b: seq<Elem>) {
    Sorted(a) && Sorted(b) && Sorted(m) && Stable(m, a + b) && |m| == |a| + |b|
  }

  lemma {:induction false} MergeClass(a: seq<Elem>, b: seq<Elem>, k: int)
    requires Sorted(a)
    ensures Class(Merge(a, b), k) == Class(a, k) + Class(b, k)
    decreases |a| + |b|
  {
    if a != [] && b != [] {
      if Cmp(a[0], b[0]) <= 0 {
        SortedRest(a, 1);
        MergeClass(a[1..], b, k);
        ClassConcat([a[0]], Merge(a[1..], b), k);
      } else {
        MergeClass(a, b[1..], k);
        ClassConcat([b[0]], Merge(a, b[1..]), k);
        if b[0].key == k {
          ClassBelow(a, k);
        }
      }
    }
  }

  lemma MergeStable(a: seq<Elem>, b: seq<Elem>)
    requires Sorted(a)
    ensures Stable(Merge(a, b), a + b)
    ensures multiset(Merge(a, b)) == multiset(a) + multiset(b) && |Merge(a, b)| == |a| + |b|
  {
    forall k ensures SameClass(Merge(a, b), a + b, k) {
      MergeClass(a, b, k);
      ClassConcat(a, b, k);
    }
    StablePermutes(Merge(a, b), a + b);
  }

  lemma HeadAndTail(s: seq<Elem>, x: Elem)
    requires Sorted(s) && s != [] && x.key <= s[0].key
    ensures Sorted(s[1..]) && AllLe([x], s) && AllLe([x], s[1..])
  {
    SortedRest(s, 1);
    forall i | 0 <= i < |s| ensures x.key <= s[i].key {
      assert InOrder(s, 0, i);
    }
  }

  lemma {:induction false} MergeSorted(a: seq<Elem>, b: seq<Elem>)
    requires Sorted(a) && Sorted(b)
    ensures Sorted(Merge(a, b))
    decreases |a| + |b|
  {
    if a != [] && b != [] {
      if Cmp(a[0], b[0]) <= 0 {
        HeadAndTail(a, a[0]);
        HeadAndTail(b, a[0]);
        MergeSorted(a[1..], b);
        BoundedMerge([a[0]], a[1..], b);
        SortedConcat([a[0]], Merge(a[1..], b));
      } else {
        HeadAndTail(a, b[0]);
        HeadAndTail(b, b[0]);
        MergeSorted(a, b[1..]);
        BoundedMerge([b[0]], a, b[1..]);
        SortedConcat([b[0]], Merge(a, b[1..]));
      }
    }
  }

  // A bound that holds for both inputs holds for their merge.
  lemma BoundedMerge(u: seq<Elem>, a: seq<Elem>, b: seq<Elem>)
    requires Sorted(a)
    ensures AllLe(u, a) && AllLe(u, b) ==> AllLe(u, Merge(a, b))
    ensures AllLe(a, u) && AllLe(b, u) ==> AllLe(Merge(a, b), u)
  {
    MergeStable(a, b);
    assert multiset(a + b) == multiset(Merge(a, b));
    PermutedBounds(a + b, Merge(a, b), u);
  }

  /** Sorted stable rearrangements of a + b are exactly the merge. */
  lemma MergeUnique(a: seq<Elem>, b: seq<Elem>, m: seq<Elem>)
    requires Sorted(a) && Sorted(b)
    ensures IsMerge(m, a, b) <==> m == Merge(a, b)
  {
    MergeSorted(a, b);
    MergeStable(a, b);
    if IsMerge(m, a, b) {
      StableReversed(Merge(a, b), a + b);
      StableTrans(m, a + b, Merge(a, b));
      SortedStableUnique(m, Merge(a, b));
    }
  }

  /** A merge falls apart where both inputs can be cut so that the left parts precede the right parts. */
  lemma MergeSplit(a1: seq<Elem>, a2: seq<Elem>, b1: seq<Elem>, b2: seq<Elem>)
    requires Sorted(a1 + a2) && Sorted(b1 + b2)
    requires AllLe(a1, b2) && AllLt(b1, a2)
    ensures Merge(a1 + a2, b1 + b2) == Merge(a1, b1) + Merge(a2, b2)
  {
    var a, b := a1 + a2, b1 + b2;
    SortedParts(a1, a2);
    SortedParts(b1, b2);
    var m1, m2 := Merge(a1, b1), Merge(a2, b2);
    MergeSorted(a1, b1);
    MergeSorted(a2, b2);
    MergeStable(a1, b1);
    MergeStable(a2, b2);
    BoundedMerge(a2, a1, b1);
    BoundedMerge(b2, a1, b1);
    BoundedMerge(m1, a2, b2);
    SortedConcat(m1, m2);
    forall k ensures SameClass(m1 + m2, a + b, k) {
      SplitClass(a1, a2, b1, b2, k);
    }
    StablePermutes(m1 + m2, a + b);
    MergeUnique(a, b, m1 + m2);
  }

  // i elements of a and j elements of b are exactly the first i + j elements of the merge.
  predicate IsCut(a: seq<Elem>, b: seq<Elem>, i: int, j: int) {
    && 0 <= i <= |a| && 0 <= j <= |b|
    && (0 < i && j < |b| ==> a[i - 1].key <= b[j].key)
    && (0 < j && i < |a| ==> b[j - 1].key < a[i].key)
  }

  lemma MergeSplitAt(a: seq<Elem>, b: seq<Elem>, i: nat, j: nat)
    requires Sorted(a) && Sorted(b) && IsCut(a, b, i, j)
    ensures Merge(a, b) == Merge(a[..i], b[..j]) + Merge(a[i..], b[j..])
  {
    var a1, a2, b1, b2 := a[..i], a[i..], b[..j], b[j..];
    CutsOrdered(a, b, i, j);
    Cut(a, i);
    Cut(b, j);
    MergeSplitJoined(a, b, a1, a2, b1, b2);
  }

  lemma CutsOrdered(a: seq<Elem>, b: seq<Elem>, i: nat, j: nat)
    requires Sorted(a) && Sorted(b) && IsCut(a, b, i, j)
    ensures AllLe(a[..i], b[j..]) && AllLt(b[..j], a[i..])
  {
    forall m, n | 0 <= m < i && j <= n < |b| ensures a[m].key <= b[n].key {
      assert InOrder(a, m, i - 1) && InOrder(b, j, n);
    }
    forall m, n | 0 <= m < j && i <= n < |a| ensures b[m].key < a[n].key {
      assert InOrder(b, m, j - 1) && InOrder(a, i, n);
    }
  }

  lemma MergeSplitJoined(a: seq<Elem>, b: seq<Elem>, a1: seq<Elem>, a2: seq<Elem>, b1: seq<Elem>, b2: seq<Elem>)
    requires a == a1 + a2 && b == b1 + b2
    requires Sorted(a) && Sorted(b) && AllLe(a1, b2) && AllLt(b1, a2)
    ensures Merge(a, b) == Merge(a1, b1) + Merge(a2, b2)
  {
    MergeSplit(a1, a2, b1, b2);
  }

  lemma MergeNil(s: seq<Elem>, e: seq<Elem>)
    requires e == []
    ensures Merge(s, e) == s && Merge(e, s) == s
  {
  }

  lemma MergeHeadA(a: seq<Elem>, b: seq<Elem>, k: nat)
    requires Sorted(a) && Sorted(b) && IsCut(a, b, k, 0)
    ensures Merge(a, b) == a[..k] + Merge(a[k..], b)
  {
    Ends(b);
    MergeSplitAt(a, b, k, 0);
    MergeNil(a[..k], b[..0]);
  }

  lemma MergeHeadB(a: seq<Elem>, b: seq<Elem>, k: nat)
    requires Sorted(a) && Sorted(b) && IsCut(a, b, 0, k)
    ensures Merge(a, b) == b[..k] + Merge(a, b[k..])
  {
    Ends(a);
    MergeSplitAt(a, b, 0, k);
    MergeNil(b[..k], a[..0]);
  }

  lemma {:induction false} MergeLength(a: seq<Elem>, b: seq<Elem>)
    ensures |Merge(a, b)| == |a| + |b|
    decreases |a| + |b|
  {
    if a != [] && b != [] {
      if Cmp(a[0], b[0]) <= 0 {
        MergeLength(a[1..], b);
      } else {
        MergeLength(a, b[1..]);
      }
    }
  }

  lemma MergeTailB(a: seq<Elem>, b: seq<Elem>, k: nat)
    requires Sorted(a) && Sorted(b) && IsCut(a, b, |a|, k)
    ensures Merge(a, b) == Merge(a, b[..k]) + b[k..]
  {
    Ends(a);
    MergeSplitAt(a, b, |a|, k);
    MergeNil(b[k..], a[|a|..]);
  }

  lemma MergeTailA(a: seq<Elem>, b: seq<Elem>, k: nat)
    requires Sorted(a) && Sorted(b) && IsCut(a, b, k, |b|)
    ensures Merge(a, b) == Merge(a[..k], b) + a[k..]
  {
    Ends(b);
    MergeSplitAt(a, b, k, |b|);
    MergeNil(a[k..], b[|b|..]);
  }

  // ---------- Taking a merge apart from its ends ----------

  lemma MergeOf(a: seq<Elem>, b: seq<Elem>) returns (m: seq<Elem>)
    requires Sorted(a) && Sorted(b)
    ensures m == Merge(a, b) && IsMerge(m, a, b)
  {
    m := Merge(a, b);
    MergeUnique(a, b, m);
  }

  // The same where the definition of Merge is not wanted.
  lemma SomeMerge(a: seq<Elem>, b: seq<Elem>) returns (m: seq<Elem>)
    requires Sorted(a) && Sorted(b)
    ensures IsMerge(m, a, b)
  {
    m := MergeOf(a, b);
  }

  lemma TwoParts(a: seq<Elem>, a1: seq<Elem>, a2: seq<Elem>)
    requires a == a1 + a2 && Sorted(a)
    ensures Sorted(a1) && Sorted(a2) && a[..|a1|] == a1 && a[|a1|..] == a2
  {
    SortedParts(a1, a2);
  }

  /** A prefix of b below all of a starts the merge, and so does a prefix of a not above any of b;
      likewise at the end. */
  lemma StartsInB(m: seq<Elem>, a: seq<Elem>, b1: seq<Elem>, b2: seq<Elem>) returns (r: seq<Elem>)
    requires IsMerge(m, a, b1 + b2) && IsCut(a, b1 + b2, 0, |b1|)
    ensures IsMerge(r, a, b2) && m == b1 + r
  {
    TwoParts(b1 + b2, b1, b2);
    MergeUnique(a, b1 + b2, m);
    MergeHeadB(a, b1 + b2, |b1|);
    r := MergeOf(a, b2);
  }

  lemma StartsInA(m: seq<Elem>, a1: seq<Elem>, a2: seq<Elem>, b: seq<Elem>) returns (r: seq<Elem>)
    requires IsMerge(m, a1 + a2, b) && IsCut(a1 + a2, b, |a1|, 0)
    ensures IsMerge(r, a2, b) && m == a1 + r
  {
    TwoParts(a1 + a2, a1, a2);
    MergeUnique(a1 + a2, b, m);
    MergeHeadA(a1 + a2, b, |a1|);
    r := MergeOf(a2, b);
  }

  lemma EndsInA(m: seq<Elem>, a1: seq<Elem>, a2: seq<Elem>, b: seq<Elem>) returns (r: seq<Elem>)
    requires IsMerge(m, a1 + a2, b) && IsCut(a1 + a2, b, |a1|, |b|)
    ensures IsMerge(r, a1, b) && m == r + a2
  {
    TwoParts(a1 + a2, a1, a2);
    MergeUnique(a1 + a2, b, m);
    MergeTailA(a1 + a2, b, |a1|);
    r := MergeOf(a1, b);
  }

  lemma EndsInB(m: seq<Elem>, a: seq<Elem>, b1: seq<Elem>, b2: seq<Elem>) returns (r: seq<Elem>)
    requires IsMerge(m, a, b1 + b2) && IsCut(a, b1 + b2, |a|, |b1|)
    ensures IsMerge(r, a, b1) && m == r + b2
  {
    TwoParts(b1 + b2, b1, b2);
    MergeUnique(a, b1 + b2, m);
    MergeTailB(a, b1 + b2, |b1|);
    r := MergeOf(a, b1);
  }

  lemma CutOfRest(a1: seq<Elem>, a2: seq<Elem>, b1: seq<Elem>, b2: seq<Elem>, i: nat, j: nat)
    requires IsCut(a1 + a2, b1 + b2, |a1| + i, |b1| + j)
    ensures IsCut(a2, b2, i, j)
  {
    var a, b := a1 + a2, b1 + b2;
    assert forall k :: 0 <= k < |a2| ==> a2[k] == a[|a1| + k];
    assert forall k :: 0 <= k < |b2| ==> b2[k] == b[|b1| + k];
  }

  lemma FallsApart(m: seq<Elem>, a1: seq<Elem>, a2: seq<Elem>, b1: seq<Elem>, b2: seq<Elem>)
    returns (m1: seq<Elem>, m2: seq<Elem>)
    requires IsMerge(m, a1 + a2, b1 + b2) && IsCut(a1 + a2, b1 + b2, |a1|, |b1|)
    ensures IsMerge(m1, a1, b1) && IsMerge(m2, a2, b2) && m == m1 + m2
  {
    TwoParts(a1 + a2, a1, a2);
    TwoParts(b1 + b2, b1, b2);
    MergeUnique(a1 + a2, b1 + b2, m);
    MergeSplitAt(a1 + a2, b1 + b2, |a1|, |b1|);
    m1 := MergeOf(a1, b1);
    m2 := MergeOf(a2, b2);
  }

  lemma EmptySide(m: seq<Elem>, a: seq<Elem>, b: seq<Elem>)
    requires IsMerge(m, a, b) && (a == [] || b == [])
    ensures m == a + b
  {
    MergeUnique(a, b, m);
    if a == [] {
      MergeNil(b, a);
      Units(b);
    } else {
      MergeNil(a, b);
      Units(a);
    }
  }

  lemma MergeCutA(m: seq<Elem>, a: seq<Elem>, b: seq<Elem>, i: nat, j: nat, k: nat)
    returns (p: seq<Elem>, rest: seq<Elem>)
    requires IsMerge(m, a, b) && IsCut(a, b, i, j) && IsCut(a, b, i + k, j)
    ensures |p| == i + j && m == p + (a[i..i + k] + rest)
  {
    MergeUnique(a, b, m);
    p := Merge(a[..i], b[..j]);
    MergeLength(a[..i], b[..j]);
    MergeSplitAt(a, b, i, j);
    SortedRest(a, i);
    SortedRest(b, j);
    MergeHeadA(a[i..], b[j..], k);
    SliceOfRest(a, i, k);
    rest := Merge(a[i..][k..], b[j..]);
  }

  /** Between two cuts that differ only in a, the merge holds the elements of a. */
  lemma MergeBetweenCutsA(m: seq<Elem>, a: seq<Elem>, b: seq<Elem>, i: nat, j: nat, k: nat)
    requires IsMerge(m, a, b) && IsCut(a, b, i, j) && IsCut(a, b, i + k, j)
    ensures forall n :: i + j <= n < i + j + k ==> m[n] == a[n - j]
  {
    var p, rest := MergeCutA(m, a, b, i, j, k);
    Middle(m, p, a, rest, i, i + j, k);
  }

  lemma MergeCutB(m: seq<Elem>, a: seq<Elem>, b: seq<Elem>, i: nat, j: nat, k: nat)
    returns (p: seq<Elem>, rest: seq<Elem>)
    requires IsMerge(m, a, b) && IsCut(a, b, i, j) && IsCut(a, b, i, j + k)
    ensures |p| == i + j && m == p + (b[j..j + k] + rest)
  {
    MergeUnique(a, b, m);
    p := Merge(a[..i], b[..j]);
    MergeLength(a[..i], b[..j]);
    MergeSplitAt(a, b, i, j);
    SortedRest(a, i);
    SortedRest(b, j);
    MergeHeadB(a[i..], b[j..], k);
    SliceOfRest(b, j, k);
    rest := Merge(a[i..], b[j..][k..]);
  }

  /** Between two cuts that differ only in b, the merge holds the elements of b. */
  lemma MergeBetweenCutsB(m: seq<Elem>, a: seq<Elem>, b: seq<Elem>, i: nat, j: nat, k: nat)
    requires IsMerge(m, a, b) && IsCut(a, b, i, j) && IsCut(a, b, i, j + k)
    ensures forall n :: i + j <= n < i + j + k ==> m[n] == b[n - i]
  {
    var p, rest := MergeCutB(m, a, b, i, j, k);
    Middle(m, p, b, rest, j, i + j, k);
  }

  lemma SplitClass(a1: seq<Elem>, a2: seq<Elem>, b1: seq<Elem>, b2: seq<Elem>, k: int)
    requires Sorted(a1) && Sorted(a2) && AllLt(b1, a2)
    ensures Class(Merge(a1, b1) + Merge(a2, b2), k) == Class((a1 + a2) + (b1 + b2), k)
  {
    MergeClass(a1, b1, k);
    MergeClass(a2, b2, k);
    ClassConcat(Merge(a1, b1), Merge(a2, b2), k);
    ClassConcat(a1, a2, k);
    ClassConcat(b1, b2, k);
    ClassConcat(a1 + a2, b1 + b2, k);
    DisjointClass(b1, a2, k);
    Regroup(Class(a1, k), Class(b1, k), Class(a2, k), Class(b2, k));
  }

  lemma DisjointClass(s: seq<Elem>, t: seq<Elem>, k: int)
    requires AllLt(s, t)
    ensures Class(s, k) == [] || Class(t, k) == []
  {
    if i :| 0 <= i < |t| && t[i].key == k {
      ClassAbsent(s, k);
    } else {
      ClassAbsent(t, k);
    }
  }

  lemma Regroup(p: seq<Elem>, q: seq<Elem>, r: seq<Elem>, t: seq<Elem>)
    requires q == [] || r == []
    ensures (p + q) + (r + t) == (p + r) + (q + t)
  {
  }

  // ---------- The reference sort ----------

  /** The reference sort is a sorted stable rearrangement of its input. */
  lemma {:induction false} StableSortCorrect(s: seq<Elem>)
    ensures Sorted(StableSort(s)) && Stable(StableSort(s), s)
    ensures multiset(StableSort(s)) == multiset(s) && |StableSort(s)| == |s|
  {
    if s != [] {
      StableSortCorrect(s[1..]);
      var t := StableSort(s[1..]);
      MergeSorted([s[0]], t);
      MergeStable([s[0]], t);
      StableConcat([s[0]], t, [s[0]], s[1..]);
      assert [s[0]] + s[1..] == s;
      StableTrans(Merge([s[0]], t), [s[0]] + t, s);
      StablePermutes(StableSort(s), s);
    }
  }

  /** Every sorted stable rearrangement of s is the reference sort of s. */
  lemma StableSortUnique(s: seq<Elem>, t: seq<Elem>)
    requires Sorted(t) && Stable(t, s)
    ensures t == StableSort(s)
  {
    StableSortCorrect(s);
    StableReversed(StableSort(s), s);
    StableTrans(t, s, StableSort(s));
    SortedStableUnique(t, StableSort(s));
  }
}
