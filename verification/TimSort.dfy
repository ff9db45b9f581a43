/** TimSort: run detection, the run stack with its collapse rule, and the sort itself. */
module TimSort {
  import opened Order
  import opened Gallop
  import opened Insertion
  import opened TimMerge
  import opened RunStack
  import opened Runs
  import opened SmallSort
  import opened Minrun
  import opened Sequences

  const TIM_SORT_STACK_SIZE := 128

  // TEMP_STORAGE_T: the scratch buffer of the merges.
  class TempStorage {
    var alloc: nat
    var storage: array?<Elem>

    constructor ()
      ensures Valid() && storage == null
    {
      alloc, storage := 0, null;
    }

    ghost predicate Valid()
      reads this
    {
      storage != null ==> storage.Length == alloc
    }

    // TIM_SORT_RESIZE; the merges never rely on what the buffer held before.
    method Resize(newSize: nat)
      requires Valid()
      modifies this
      ensures Valid() && storage != null && newSize <= storage.Length
      ensures old(storage) != null && newSize <= old(alloc) ==> storage == old(storage) && alloc == old(alloc)
      ensures old(storage) == null || old(alloc) < newSize ==> fresh(storage) && storage.Length == alloc == newSize
    {
      if storage == null || alloc < newSize {
        storage := new Elem[newSize];
        alloc := newSize;
      }
    }
  }

  // ---------- Merging the two top runs ----------

  lemma MergedSlices(d0: seq<Elem>, d: seq<Elem>, lo: nat, lenA: nat, lenB: nat, k1: nat, k2: nat, l: nat, p: nat)
    requires lo + lenA + lenB <= |d0| == |d| && k1 <= lenA && k2 <= lenB && l == lo + k1 && p == lenA - k1
    requires SameOutside(d, d0, l, l + p + k2)
    ensures d[lo..lo + lenA + lenB]
         == d0[lo..lo + lenA][..k1] + d[l..l + p + k2] + d0[lo + lenA..lo + lenA + lenB][k2..]
  {
    var h, e := l + p + k2, lo + lenA + lenB;
    SameSlice(d, d0, l, h, lo, l);
    SameSlice(d, d0, l, h, h, e);
    assert d[lo..e] == d[lo..l] + d[l..h] + d[h..e];
    assert d0[lo..lo + lenA][..k1] == d0[lo..l];
    assert d0[lo + lenA..e][k2..] == d0[h..e];
  }

  // A scratch buffer that was not there before is no longer than the shorter of two runs.
  ghost predicate ScratchFits(store: TempStorage, before: array?<Elem>, lenA: nat, lenB: nat)
    reads store
  {
    store.storage != null && store.storage != before ==> store.storage.Length <= lenA && store.storage.Length <= lenB
  }

  // The last part of TIM_SORT_MERGE: provides the scratch space and merges with the shorter run in it.
  method MergeTrimmed(dst: array<Elem>, lo: nat, lenA: nat, lenB: nat, store: TempStorage, minGallop0: Counter)
    returns (minGallop: Counter)
    requires lo + lenA + lenB <= dst.Length && lenA + lenB <= MAX_SIZE
    requires store.Valid() && store.storage != dst
    requires Trimmed(dst[lo..lo + lenA], dst[lo + lenA..lo + lenA + lenB])
    modifies dst, store, store.storage
    ensures store.Valid() && store.storage != dst && (store.storage == old(store.storage) || fresh(store.storage))
    ensures ScratchFits(store, old(store.storage), lenA, lenB)
    ensures IsMerge(dst[lo..lo + lenA + lenB], old(dst[lo..lo + lenA]), old(dst[lo + lenA..lo + lenA + lenB]))
    ensures SameOutside(dst[..], old(dst[..]), lo, lo + lenA + lenB) && LevelKept(minGallop, minGallop0, lenA, lenB)
  {
    store.Resize(if lenA < lenB then lenA else lenB);
    if lenA < lenB {
      minGallop := TimSortMergeLeft(dst, lo, lenA, lenB, store.storage, minGallop0);
    } else {
      minGallop := TimSortMergeRight(dst, lo, lenA, lenB, store.storage, minGallop0);
    }
  }

  // TIM_SORT_MERGE on the two adjacent runs dst[lo..lo + lenA] and dst[lo + lenA..lo + lenA + lenB].
  method MergeAdjacent(dst: array<Elem>, lo: nat, lenA: nat, lenB: nat, store: TempStorage, minGallop0: Counter)
    returns (minGallop: Counter)
    requires 0 < lenA && 0 < lenB && lo + lenA + lenB <= dst.Length && lenA + lenB <= MAX_SIZE
    requires store.Valid() && store.storage != dst
    requires Sorted(dst[lo..lo + lenA]) && Sorted(dst[lo + lenA..lo + lenA + lenB])
    modifies dst, store, store.storage
    ensures store.Valid() && store.storage != dst && (store.storage == old(store.storage) || fresh(store.storage))
    ensures ScratchFits(store, old(store.storage), lenA, lenB)
    ensures dst[lo..lo + lenA + lenB] == Merge(old(dst[lo..lo + lenA]), old(dst[lo + lenA..lo + lenA + lenB]))
    ensures SameOutside(dst[..], old(dst[..]), lo, lo + lenA + lenB) && LevelKept(minGallop, minGallop0, lenA, lenB)
    ensures old(dst[lo + lenA - 1]).key <= old(dst[lo + lenA]).key ==>
      dst[..] == old(dst[..]) && 2 * minGallop <= minGallop0 <= 2 * minGallop + 1
  {
    var k := TimSortGallop(dst[lo..lo + lenA], dst[lo + lenA], 0, true);
    AllSkipped(dst[..], lo, lenA, k);
    if k == lenA {
      MergedAlready(dst[..], lo, lenA, lenB);
      return Quotient(minGallop0, 2);
    }
    var k2 := TimSortGallop(dst[lo + lenA..lo + lenA + lenB], dst[lo + lenA - 1], lenB - 1, false);
    var trimmedLo, trimmedA := lo + k, lenA - k;
    TrimReady(dst[..], lo, lenA, lenB, k, k2, trimmedLo, trimmedA);
    minGallop := MergeTrimmed(dst, trimmedLo, trimmedA, k2, store, minGallop0);
    MergedWhole(old(dst[..]), dst[..], lo, lenA, lenB, k, k2, trimmedLo, trimmedA);
  }

  // The first gallop skips all of the first run exactly when its last element is not above the second run.
  lemma AllSkipped(d: seq<Elem>, lo: nat, lenA: nat, k: nat)
    requires 0 < lenA && lo + lenA < |d| && IsBound(d[lo..lo + lenA], d[lo + lenA], k, true)
    ensures k == lenA <==> d[lo + lenA - 1].key <= d[lo + lenA].key
  {
    var s := d[lo..lo + lenA];
    assert s[lenA - 1] == d[lo + lenA - 1];
    assert k < lenA ==> !Before(s[lenA - 1], d[lo + lenA], true);
    assert k == lenA ==> Before(s[lenA - 1], d[lo + lenA], true);
  }

  // The two runs that d holds from lo on, and what was found about them.
  predicate Searched(d: seq<Elem>, lo: nat, lenA: nat, lenB: nat, k1: nat, k2: nat) {
    && 0 < lenA && 0 < lenB && lo + lenA + lenB <= |d| && lenA + lenB <= MAX_SIZE && k1 < lenA && k2 <= lenB
    && Sorted(d[lo..lo + lenA]) && Sorted(d[lo + lenA..lo + lenA + lenB])
    && IsBound(d[lo..lo + lenA], d[lo + lenA], k1, true)
    && IsBound(d[lo + lenA..lo + lenA + lenB], d[lo + lenA - 1], k2, false)
  }

  lemma MergedAlready(d: seq<Elem>, lo: nat, lenA: nat, lenB: nat)
    requires 0 < lenB && lo + lenA + lenB <= |d|
    requires Sorted(d[lo..lo + lenA]) && Sorted(d[lo + lenA..lo + lenA + lenB])
    requires IsBound(d[lo..lo + lenA], d[lo + lenA], lenA, true)
    ensures d[lo..lo + lenA + lenB] == Merge(d[lo..lo + lenA], d[lo + lenA..lo + lenA + lenB])
  {
    NothingToMerge(d[lo..lo + lenA], d[lo + lenA..lo + lenA + lenB]);
    assert d[lo..lo + lenA + lenB] == d[lo..lo + lenA] + d[lo + lenA..lo + lenA + lenB];
  }

  lemma TrimReady(d: seq<Elem>, lo: nat, lenA: nat, lenB: nat, k1: nat, k2: nat, l: nat, p: nat)
    requires Searched(d, lo, lenA, lenB, k1, k2) && l == lo + k1 && p == lenA - k1
    ensures Trimmed(d[l..l + p], d[l + p..l + p + k2])
  {
    TrimSound(d[lo..lo + lenA], d[lo + lenA..lo + lenA + lenB], k1, k2);
    TrimmedSlices(d, lo, lenA, lenB, k1, k2, l, p);
  }

  lemma MergedWhole(d0: seq<Elem>, d: seq<Elem>, lo: nat, lenA: nat, lenB: nat, k1: nat, k2: nat, l: nat, p: nat)
    requires Searched(d0, lo, lenA, lenB, k1, k2) && l == lo + k1 && p == lenA - k1
    requires SameOutside(d, d0, l, l + p + k2)
    requires IsMerge(d[l..l + p + k2], d0[l..l + p], d0[l + p..l + p + k2])
    ensures d[lo..lo + lenA + lenB] == Merge(d0[lo..lo + lenA], d0[lo + lenA..lo + lenA + lenB])
    ensures SameOutside(d, d0, lo, lo + lenA + lenB)
  {
    TrimSound(d0[lo..lo + lenA], d0[lo + lenA..lo + lenA + lenB], k1, k2);
    TrimmedSlices(d0, lo, lenA, lenB, k1, k2, l, p);
    MergedSlices(d0, d, lo, lenA, lenB, k1, k2, l, p);
    SameOutsideWider(d, d0, lo + k1, lo + lenA + k2, lo, lo + lenA + lenB);
    MergeUnique(d0[l..l + p], d0[l + p..l + p + k2], d[l..l + p + k2]);
  }

  lemma TrimmedSlices(d: seq<Elem>, lo: nat, lenA: nat, lenB: nat, k1: nat, k2: nat, l: nat, p: nat)
    requires lo + lenA + lenB <= |d| && k1 <= lenA && k2 <= lenB && l == lo + k1 && p == lenA - k1
    ensures d[l..l + p] == d[lo..lo + lenA][k1..]
    ensures d[l + p..l + p + k2] == d[lo + lenA..lo + lenA + lenB][..k2]
  {
  }

  // The runs on top of the stack, as TIM_SORT_MERGE needs them.
  predicate Mergeable(d: seq<Elem>, ra: Run, rb: Run) {
    && 0 < ra.length && 0 < rb.length && ra.start + ra.length == rb.start
    && rb.start + rb.length <= |d| && ra.length + rb.length <= MAX_SIZE
    && Sorted(d[ra.start..rb.start]) && Sorted(d[rb.start..rb.start + rb.length])
  }

  // In e the runs of d are merged and nothing else differs.
  ghost predicate RunsMerged(e: seq<Elem>, d: seq<Elem>, ra: Run, rb: Run) {
    var p, q, r := ra.start, rb.start, rb.start + rb.length;
    && p <= q <= r <= |d| == |e| && SameOutside(e, d, p, r) && e[p..r] == Merge(d[p..q], d[q..r])
  }

  /** TIM_SORT_MERGE: the two top runs of the stack become their stable merge. */
  method TimSortMerge(dst: array<Elem>, stack: array<Run>, stackCurr: nat, store: TempStorage, minGallop0: Counter)
    returns (minGallop: Counter)
    requires 2 <= stackCurr <= stack.Length && Mergeable(dst[..], stack[stackCurr - 2], stack[stackCurr - 1])
    requires store.Valid() && store.storage != dst
    modifies dst, store, store.storage
    ensures store.Valid() && store.storage != dst && (store.storage == old(store.storage) || fresh(store.storage))
    ensures RunsMerged(dst[..], old(dst[..]), stack[stackCurr - 2], stack[stackCurr - 1])
    ensures LevelKept(minGallop, minGallop0, stack[stackCurr - 2].length, stack[stackCurr - 1].length)
    ensures ScratchFits(store, old(store.storage), stack[stackCurr - 2].length, stack[stackCurr - 1].length)
  {
    var ra, rb := stack[stackCurr - 2], stack[stackCurr - 1];
    minGallop := MergeAdjacent(dst, ra.start, ra.length, rb.length, store, minGallop0);
  }

  // ---------- Merging on the stack ----------

  lemma StackMergeable(d: seq<Elem>, s: seq<Run>, curr: nat, i: nat)
    requires Partition(d, s, curr) && i + 1 < |s| && curr <= MAX_SIZE
    ensures Mergeable(d, s[i], s[i + 1])
  {
    assert RunAt(d, s, i) && RunAt(d, s, i + 1);
    EndsIncrease(d, s, curr, i + 2, |s|);
  }

  lemma StackMerged(d: seq<Elem>, e: seq<Elem>, s: seq<Run>, curr: nat, i: nat)
    requires Partition(d, s, curr) && i + 1 < |s| && Mergeable(d, s[i], s[i + 1]) && RunsMerged(e, d, s[i], s[i + 1])
    ensures Partition(e, Joined(s, i), curr) && Stable(e, d) && SameOutside(e, d, 0, curr)
    ensures RunsKept(e, d, Joined(s, i))
  {
    JoinedKept(d, e, s, curr, i, s[i].start, s[i + 1].start, s[i + 1].start + s[i + 1].length);
    JoinedPartition(d, e, s, curr, i);
    JoinedStable(d, e, s[i].start, s[i + 1].start, s[i + 1].start + s[i + 1].length);
    EndsIncrease(d, s, curr, i + 2, |s|);
    SameOutsideWider(e, d, s[i].start, s[i + 1].start + s[i + 1].length, 0, curr);
  }

  // What the assignments to the stack come to.

  lemma TopJoined(t: seq<Run>, n: nat)
    requires 2 <= n <= |t|
    ensures t[n - 2 := t[n - 2].(length := t[n - 2].length + t[n - 1].length)][..n - 1] == Joined(t[..n], n - 2)
  {
  }

  lemma BelowTopJoined(t: seq<Run>, n: nat)
    requires 3 <= n <= |t|
    ensures t[n - 3 := t[n - 3].(length := t[n - 3].length + t[n - 2].length)][n - 2 := t[n - 1]][..n - 1]
         == Joined(t[..n], n - 3)
  {
  }

  // The bookkeeping of the two merges.
  method JoinTop(runStack: array<Run>, stackCurr: nat)
    requires 2 <= stackCurr <= runStack.Length
    modifies runStack
    ensures runStack[..stackCurr - 1] == Joined(old(runStack[..stackCurr]), stackCurr - 2)
  {
    runStack[stackCurr - 2] :=
      runStack[stackCurr - 2].(length := runStack[stackCurr - 2].length + runStack[stackCurr - 1].length);
    TopJoined(old(runStack[..]), stackCurr);
  }

  method JoinBelowTop(runStack: array<Run>, stackCurr: nat)
    requires 3 <= stackCurr <= runStack.Length
    modifies runStack
    ensures runStack[..stackCurr - 1] == Joined(old(runStack[..stackCurr]), stackCurr - 3)
  {
    runStack[stackCurr - 3] :=
      runStack[stackCurr - 3].(length := runStack[stackCurr - 3].length + runStack[stackCurr - 2].length);
    runStack[stackCurr - 2] := runStack[stackCurr - 1];
    BelowTopJoined(old(runStack[..]), stackCurr);
  }

  // Merges the two runs below top without touching the stack.
  method MergeOnStack(dst: array<Elem>, runStack: array<Run>, top: nat, store: TempStorage, minGallop0: Counter,
                      ghost s: seq<Run>, ghost curr: nat)
    returns (minGallop: Counter)
    requires 2 <= top <= |s| <= runStack.Length && runStack[..|s|] == s && store.Valid() && store.storage != dst
    requires Partition(dst[..], s, curr) && curr <= MAX_SIZE
    modifies dst, store, store.storage
    ensures store.Valid() && store.storage != dst && (store.storage == old(store.storage) || fresh(store.storage))
    ensures Partition(dst[..], Joined(s, top - 2), curr) && RunsKept(dst[..], old(dst[..]), Joined(s, top - 2))
    ensures Stable(dst[..], old(dst[..])) && SameOutside(dst[..], old(dst[..]), 0, curr)
  {
    ghost var d := dst[..];
    assert runStack[top - 2] == s[top - 2] && runStack[top - 1] == s[top - 1];
    StackMergeable(d, s, curr, top - 2);
    minGallop := TimSortMerge(dst, runStack, top, store, minGallop0);
    StackMerged(d, dst[..], s, curr, top - 2);
  }

  // The two top runs become one.
  method MergeTop(dst: array<Elem>, runStack: array<Run>, stackCurr: nat, store: TempStorage, minGallop0: Counter,
                  ghost curr: nat)
    returns (minGallop: Counter)
    requires 2 <= stackCurr <= runStack.Length && store.Valid() && store.storage != dst
    requires Partition(dst[..], runStack[..stackCurr], curr) && curr <= MAX_SIZE
    modifies dst, runStack, store, store.storage
    ensures store.Valid() && store.storage != dst && (store.storage == old(store.storage) || fresh(store.storage))
    ensures runStack[..stackCurr - 1] == Joined(old(runStack[..stackCurr]), stackCurr - 2)
    ensures Partition(dst[..], runStack[..stackCurr - 1], curr)
    ensures RunsKept(dst[..], old(dst[..]), runStack[..stackCurr - 1])
    ensures Stable(dst[..], old(dst[..])) && SameOutside(dst[..], old(dst[..]), 0, curr)
  {
    minGallop := MergeOnStack(dst, runStack, stackCurr, store, minGallop0, runStack[..stackCurr], curr);
    JoinTop(runStack, stackCurr);
  }

  // The two runs below the top become one and the top run moves down.
  method MergeBelowTop(dst: array<Elem>, runStack: array<Run>, stackCurr: nat, store: TempStorage, minGallop0: Counter,
                       ghost curr: nat)
    returns (minGallop: Counter)
    requires 3 <= stackCurr <= runStack.Length && store.Valid() && store.storage != dst
    requires Partition(dst[..], runStack[..stackCurr], curr) && curr <= MAX_SIZE
    modifies dst, runStack, store, store.storage
    ensures store.Valid() && store.storage != dst && (store.storage == old(store.storage) || fresh(store.storage))
    ensures runStack[..stackCurr - 1] == Joined(old(runStack[..stackCurr]), stackCurr - 3)
    ensures Partition(dst[..], runStack[..stackCurr - 1], curr)
    ensures RunsKept(dst[..], old(dst[..]), runStack[..stackCurr - 1])
    ensures Stable(dst[..], old(dst[..])) && SameOutside(dst[..], old(dst[..]), 0, curr)
  {
    minGallop := MergeOnStack(dst, runStack, stackCurr - 1, store, minGallop0, runStack[..stackCurr], curr);
    JoinBelowTop(runStack, stackCurr);
  }

  /** CHECK_INVARIANT inspects the top of the stack only. */
  method CheckInvariant(stack: array<Run>, stackCurr: nat) returns (ok: bool)
    requires stackCurr <= stack.Length
    ensures ok == TopOk(stack[..stackCurr])
    ensures ok <==>
      && (2 <= stackCurr ==> stack[stackCurr - 1].length < stack[stackCurr - 2].length)
      && (3 <= stackCurr ==>
            stack[stackCurr - 2].length + stack[stackCurr - 1].length < stack[stackCurr - 3].length)
  {
    if stackCurr < 2 {
      return true;
    }
    if stackCurr == 2 {
      var a1, b1 := stack[stackCurr - 2].length, stack[stackCurr - 1].length;
      return !(a1 <= b1);
    }
    var a, b, c := stack[stackCurr - 3].length, stack[stackCurr - 2].length, stack[stackCurr - 1].length;
    ok := !(a <= b + c || b <= c);
  }

  // Two runs are the whole processed prefix, which is not yet the whole array.
  lemma LastTwo(d: seq<Elem>, s: seq<Run>, curr: nat)
    requires Partition(d, s, curr) && |s| == 2
    ensures s[0].length + s[1].length == curr
  {
    assert RunAt(d, s, 0) && RunAt(d, s, 1);
  }

  // The tests of one round of the collapse, on the four top runs.
  method CompareTop(stack: array<Run>, stackCurr: nat) returns (bcd: bool, cd: bool)
    requires 3 <= stackCurr <= stack.Length
    ensures NextMove(stack[..stackCurr]) == if !bcd && !cd then Stop else if bcd && !cd then Left else Right
  {
    var b, c, d := stack[stackCurr - 3].length, stack[stackCurr - 2].length, stack[stackCurr - 1].length;
    var abc := false;
    if stackCurr >= 4 {
      var a := stack[stackCurr - 4].length;
      abc := a <= b + c;
    }
    bcd := b <= c + d || abc;
    cd := c <= d;
  }

  // What one round of the collapse makes of the stack s and the array d: the move that the lengths call for,
  // or nothing once the whole stack is in order.
  ghost predicate RoundMade(d: seq<Elem>, e: seq<Elem>, s: seq<Run>, t: seq<Run>, curr: nat)
    requires 2 <= |s|
  {
    && t == Moved(s, NextMove(s)) && Partition(e, t, curr)
    && Stable(e, d) && SameOutside(e, d, 0, curr) && RunsKept(e, d, t)
    && (NextMove(s) == Stop ==> e == d && RunInvariant(s))
  }

  lemma NothingMade(d: seq<Elem>, s: seq<Run>, curr: nat)
    requires Partition(d, s, curr) && 2 <= |s| && Collapsing(s) && NextMove(s) == Stop
    ensures RoundMade(d, d, s, s, curr)
  {
    StopMeansInvariant(s);
    StableRefl(d);
    RunsKeptRefl(d, s, curr);
  }

  // A round on at least three runs.
  method CollapseRound(dst: array<Elem>, stack: array<Run>, stackCurr0: nat, store: TempStorage, minGallop0: Counter,
                       ghost s: seq<Run>, ghost curr: nat)
    returns (stackCurr: nat, minGallop: Counter)
    requires 3 <= stackCurr0 <= stack.Length && s == stack[..stackCurr0] && store.Valid() && store.storage != dst
    requires Partition(dst[..], s, curr) && curr <= MAX_SIZE && Collapsing(s)
    modifies dst, stack, store, store.storage
    ensures store.Valid() && store.storage != dst && (store.storage == old(store.storage) || fresh(store.storage))
    ensures stackCurr == (if NextMove(s) == Stop then stackCurr0 else stackCurr0 - 1)
    ensures RoundMade(old(dst[..]), dst[..], s, stack[..stackCurr], curr)
  {
    var bcd, cd := CompareTop(stack, stackCurr0);
    stackCurr, minGallop := stackCurr0, minGallop0;
    if !bcd && !cd {
      NothingMade(dst[..], s, curr);
      return;
    }
    if bcd && !cd {
      minGallop := MergeBelowTop(dst, stack, stackCurr, store, minGallop, curr);
    } else {
      minGallop := MergeTop(dst, stack, stackCurr, store, minGallop, curr);
    }
    stackCurr := stackCurr - 1;
  }

  // The round on the last two runs, which are not yet the whole array.
  method CollapsePair(dst: array<Elem>, stack: array<Run>, store: TempStorage, size: nat, minGallop0: Counter,
                      ghost s: seq<Run>, ghost curr: nat)
    returns (stackCurr: nat, minGallop: Counter)
    requires 2 <= stack.Length && s == stack[..2] && store.Valid() && store.storage != dst
    requires Partition(dst[..], s, curr) && curr < size && curr <= MAX_SIZE && Collapsing(s)
    modifies dst, stack, store, store.storage
    ensures store.Valid() && store.storage != dst && (store.storage == old(store.storage) || fresh(store.storage))
    ensures stackCurr == if NextMove(s) == Stop then 2 else 1
    ensures RoundMade(old(dst[..]), dst[..], s, stack[..stackCurr], curr)
  {
    LastTwo(dst[..], s, curr);
    stackCurr, minGallop := 2, minGallop0;
    if stack[0].length + stack[1].length == size || stack[0].length <= stack[1].length {
      minGallop := MergeTop(dst, stack, stackCurr, store, minGallop, curr);
      stackCurr := stackCurr - 1;
    } else {
      NothingMade(dst[..], s, curr);
    }
  }

  // The state of a collapse that began with the array d0 and the stack s0, after some moves.
  ghost predicate Collapse(d: seq<Elem>, s: seq<Run>, moves: seq<Move>, d0: seq<Elem>, s0: seq<Run>, curr: nat) {
    && Partition(d, s, curr) && Collapsing(s)
    && Stable(d, d0) && SameOutside(d, d0, 0, curr) && RunsKept(d, d0, s)
    && s == AfterMoves(s0, moves) && moves + Moves(s) == Moves(s0)
    && MadeWhileBroken(s0, moves) && (moves == [] ==> d == d0)
  }

  lemma CollapseStarts(d0: seq<Elem>, s0: seq<Run>, curr: nat)
    requires Partition(d0, s0, curr) && Collapsing(s0)
    ensures Collapse(d0, s0, [], d0, s0, curr)
  {
    StableRefl(d0);
    RunsKeptRefl(d0, s0, curr);
    Units(Moves(s0));
  }

  lemma CollapseGoesOn(d: seq<Elem>, e: seq<Elem>, s: seq<Run>, t: seq<Run>, moves: seq<Move>, d0: seq<Elem>,
                       s0: seq<Run>, curr: nat)
    returns (longer: seq<Move>)
    requires Collapse(d, s, moves, d0, s0, curr) && 2 <= |s| && RoundMade(d, e, s, t, curr)
    ensures Collapse(e, t, longer, d0, s0, curr)
  {
    var move := NextMove(s);
    if move == Stop {
      longer := moves;
    } else {
      var next := FirstMove(s);
      longer := moves + [move];
      OneMoreNeeded(s0, moves, s);
      OneMoreMove(s0, moves, move);
      Assoc(moves, [move], Moves(t));
      StableTrans(e, d, d0);
      SameOutsideTrans(e, d, d0, 0, curr);
      KeptOnward(e, d, d0, s, curr, if move == Left then |s| - 3 else |s| - 2);
    }
  }

  lemma CollapseEnds(d: seq<Elem>, s: seq<Run>, moves: seq<Move>, d0: seq<Elem>, s0: seq<Run>, curr: nat)
    requires Collapse(d, s, moves, d0, s0, curr) && Collapsing(s0) && (|s| < 2 || NextMove(s) == Stop)
    ensures moves == Moves(s0) && RightsFirst(moves) && RunInvariant(s)
    ensures RunInvariant(s0) ==> s == s0 && d == d0
  {
    if moves != [] {
      FirstMoveNeeded(s0, moves);
    }
    Units(moves);
    RightsBeforeLefts(s0);
    if 2 <= |s| {
      StopMeansInvariant(s);
    }
  }

  // The body of the loop.
  method CollapseStep(dst: array<Elem>, stack: array<Run>, stackCurr0: nat, store: TempStorage, size: nat,
                      minGallop0: Counter, ghost moves0: seq<Move>, ghost d0: seq<Elem>, ghost s0: seq<Run>,
                      ghost curr: nat)
    returns (stackCurr: nat, minGallop: Counter, ghost moves: seq<Move>)
    requires 2 <= stackCurr0 <= stack.Length && store.Valid() && store.storage != dst && curr < size <= MAX_SIZE
    requires Collapse(dst[..], stack[..stackCurr0], moves0, d0, s0, curr)
    modifies dst, stack, store, store.storage
    ensures store.Valid() && store.storage != dst && (store.storage == old(store.storage) || fresh(store.storage))
    ensures stackCurr == stackCurr0 || stackCurr == stackCurr0 - 1
    ensures stackCurr == stackCurr0 ==>
      NextMove(stack[..stackCurr]) == Stop && stack[..stackCurr] == old(stack[..stackCurr0])
    ensures Collapse(dst[..], stack[..stackCurr], moves, d0, s0, curr)
  {
    ghost var d, s := dst[..], stack[..stackCurr0];
    if stackCurr0 == 2 {
      stackCurr, minGallop := CollapsePair(dst, stack, store, size, minGallop0, s, curr);
    } else {
      stackCurr, minGallop := CollapseRound(dst, stack, stackCurr0, store, minGallop0, s, curr);
    }
    moves := CollapseGoesOn(d, dst[..], s, stack[..stackCurr], moves0, d0, s0, curr);
  }

  /** TIM_SORT_COLLAPSE: merges until the invariant holds on the whole stack; if the top of the stack violated
      it, at least one run disappears.  The moves are those of Moves, the stack that is left is the one after
      them, and every run of it holds its own cells in stable order. */
  method TimSortCollapse(dst: array<Elem>, stack: array<Run>, stackCurr0: nat, store: TempStorage, size: nat,
                         minGallop0: Counter, ghost curr: nat)
    returns (stackCurr: nat, minGallop: Counter, ghost moves: seq<Move>)
    requires stackCurr0 <= stack.Length && store.Valid() && store.storage != dst
    requires Partition(dst[..], stack[..stackCurr0], curr) && curr < size <= MAX_SIZE
    requires Triples(stack[..stackCurr0], stackCurr0 - 1)
    modifies dst, stack, store, store.storage
    ensures store.Valid() && store.storage != dst && (store.storage == old(store.storage) || fresh(store.storage))
    ensures moves == Moves(old(stack[..stackCurr0])) && RightsFirst(moves)
    ensures MadeWhileBroken(old(stack[..stackCurr0]), moves)
    ensures RunInvariant(old(stack[..stackCurr0])) ==> stackCurr == stackCurr0 && dst[..] == old(dst[..])
    ensures stackCurr <= stackCurr0 && (!TopOk(old(stack[..stackCurr0])) ==> stackCurr < stackCurr0)
    ensures stack[..stackCurr] == AfterMoves(old(stack[..stackCurr0]), moves) && RunInvariant(stack[..stackCurr])
    ensures Partition(dst[..], stack[..stackCurr], curr) && RunsKept(dst[..], old(dst[..]), stack[..stackCurr])
    ensures Stable(dst[..], old(dst[..])) && SameOutside(dst[..], old(dst[..]), 0, curr)
  {
    stackCurr, minGallop, moves := stackCurr0, minGallop0, [];
    ghost var s0, d0 := stack[..stackCurr0], dst[..];
    CollapseStarts(d0, s0, curr);
    while true
      invariant store.Valid() && store.storage != dst && (store.storage == old(store.storage) || fresh(store.storage))
      invariant stackCurr <= stackCurr0 && (stackCurr == stackCurr0 ==> stack[..stackCurr] == s0)
      invariant Collapse(dst[..], stack[..stackCurr], moves, d0, s0, curr)
      decreases stackCurr
    {
      if stackCurr <= 1 {
        break;
      }
      var before := stackCurr;
      stackCurr, minGallop, moves :=
        CollapseStep(dst, stack, stackCurr, store, size, minGallop, moves, d0, s0, curr);
      if before == 2 || stackCurr == before {
        break;
      }
    }
    CollapseEnds(dst[..], stack[..stackCurr], moves, d0, s0, curr);
  }

  // ---------- Pushing the next run ----------

  // Extends the sorted run of len elements at dst[curr] to run elements.
  method ExtendRun(dst: array<Elem>, curr: nat, len: nat, run: nat)
    requires 1 <= len <= run && curr + run <= dst.Length && Sorted(dst[curr..curr + len])
    modifies dst
    ensures Sorted(dst[curr..curr + run])
    ensures Stable(dst[..], old(dst[..])) && SameOutside(dst[..], old(dst[..]), curr, curr + run)
  {
    BinaryInsertionSortStart(dst, curr, len, run);
    StableSortCorrect(old(dst[curr..curr + run]));
    StableSplice(dst[..], old(dst[..]), curr, curr + run);
  }

  // The next run has len elements: as many as the natural run, and at least minrun or all that are left.
  ghost predicate RunToPush(d: seq<Elem>, curr: nat, size: nat, minrun: nat, len: nat)
    requires curr < size
  {
    exists c: nat :: RunLength(d, curr, size, c) &&
      var least := if minrun < size - curr then minrun else size - curr;
      len == if c < least then least else c
  }

  // Finds or makes the next run: COUNT_RUN, extended to minrun elements by binary insertion.
  method NextRun(dst: array<Elem>, size: nat, minrun: nat, curr: nat) returns (len: nat)
    requires curr < size <= dst.Length
    modifies dst
    ensures RunToPush(old(dst[..]), curr, size, minrun, len)
    ensures 1 <= len <= size - curr && (minrun <= len || curr + len == size)
    ensures Sorted(dst[curr..curr + len])
    ensures Stable(dst[..], old(dst[..])) && SameOutside(dst[..], old(dst[..]), curr, curr + len)
  {
    len := CountRun(dst, curr, size);
    ghost var before := dst[..];
    AscendingRun(old(dst[..]), curr, size, len);
    StableSplice(before, old(dst[..]), curr, curr + len);
    var run := minrun;
    if run > size - curr {
      run := size - curr;
    }
    if run > len {
      ExtendRun(dst, curr, len, run);
      StableTrans(dst[..], before, old(dst[..]));
      SameOutsideWider(before, old(dst[..]), curr, curr + len, curr, curr + run);
      SameOutsideTrans(dst[..], before, old(dst[..]), curr, curr + run);
      len := run;
    }
  }

  // The loop that finishes up: merges the two top runs until one is left.
  method MergeAll(dst: array<Elem>, runStack: array<Run>, stackCurr0: nat, store: TempStorage, minGallop0: Counter,
                  ghost curr: nat)
    returns (stackCurr: nat, minGallop: Counter)
    requires 0 < stackCurr0 <= runStack.Length && store.Valid() && store.storage != dst
    requires Partition(dst[..], runStack[..stackCurr0], curr) && curr <= dst.Length && curr <= MAX_SIZE
    modifies dst, runStack, store, store.storage
    ensures stackCurr == 1 && Sorted(dst[..curr])
    ensures store.storage == old(store.storage) || fresh(store.storage)
    ensures Stable(dst[..], old(dst[..])) && SameOutside(dst[..], old(dst[..]), 0, curr)
  {
    stackCurr, minGallop := stackCurr0, minGallop0;
    StableRefl(dst[..]);
    while stackCurr > 1
      invariant store.Valid() && store.storage != dst && (store.storage == old(store.storage) || fresh(store.storage))
      invariant 0 < stackCurr <= stackCurr0 && Partition(dst[..], runStack[..stackCurr], curr)
      invariant Stable(dst[..], old(dst[..])) && SameOutside(dst[..], old(dst[..]), 0, curr)
    {
      ghost var before := dst[..];
      minGallop := MergeTop(dst, runStack, stackCurr, store, minGallop, curr);
      StableTrans(dst[..], before, old(dst[..]));
      SameOutsideTrans(dst[..], before, old(dst[..]), 0, curr);
      stackCurr := stackCurr - 1;
    }
    assert RunAt(dst[..], runStack[..stackCurr], 0);
  }

  /** PUSH_NEXT: pushes the next run.  At the end of the array it merges everything and frees the buffer. */
  method PushNext(dst: array<Elem>, size: nat, store: TempStorage, minrun: nat, runStack: array<Run>,
                  stackCurr0: nat, curr0: nat, minGallop0: Counter)
    returns (more: bool, stackCurr: nat, curr: nat, minGallop: Counter)
    requires curr0 < size <= dst.Length && size <= MAX_SIZE
    requires stackCurr0 < runStack.Length && store.Valid() && store.storage != dst
    requires Partition(dst[..], runStack[..stackCurr0], curr0)
    modifies dst, runStack, store, store.storage
    ensures store.Valid() && store.storage != dst
    ensures store.storage == old(store.storage) || store.storage == null || fresh(store.storage)
    ensures Stable(dst[..], old(dst[..])) && SameOutside(dst[..], old(dst[..]), 0, size)
    ensures curr0 < curr <= size && RunToPush(old(dst[..]), curr0, size, minrun, curr - curr0)
    ensures more <==> curr < size
    ensures !more ==> Sorted(dst[..size]) && stackCurr == 1 && store.storage == null
    ensures more ==> stackCurr == stackCurr0 + 1 && runStack[stackCurr0] == Run(curr0, curr - curr0)
    ensures more ==> SameOutside(dst[..], old(dst[..]), curr0, curr)
    ensures more ==> Partition(dst[..], runStack[..stackCurr], curr)
    ensures more ==> runStack[..stackCurr0] == old(runStack[..stackCurr0])
  {
    var len := NextRun(dst, size, minrun, curr0);
    minGallop := minGallop0;
    PushedPartition(old(dst[..]), dst[..], runStack[..stackCurr0], curr0, len);
    SameOutsideWider(dst[..], old(dst[..]), curr0, curr0 + len, 0, size);
    runStack[stackCurr0] := Run(curr0, len);
    stackCurr := stackCurr0 + 1;
    assert runStack[..stackCurr] == old(runStack[..stackCurr0]) + [Run(curr0, len)];
    curr := curr0 + len;
    more := true;
    if curr == size {
      ghost var before := dst[..];
      stackCurr, minGallop := MergeAll(dst, runStack, stackCurr, store, minGallop, curr);
      StableTrans(dst[..], before, old(dst[..]));
      SameOutsideTrans(dst[..], before, old(dst[..]), 0, size);
      store.storage := null;
      more := false;
    }
  }

  // ---------- The sort ----------

  lemma StableSegment(d: seq<Elem>, e: seq<Elem>, n: nat)
    requires n <= |d| == |e| && Stable(d, e) && SameOutside(d, e, 0, n)
    ensures Stable(d[..n], e[..n])
  {
    SameSlice(d, e, 0, n, n, |d|);
    assert d[n..|d|] == d[n..] && e[n..|d|] == e[n..];
    Cut(d, n);
    Cut(e, n);
    forall k ensures SameClass(d[..n], e[..n], k) {
      assert SameClass(d, e, k);
      ClassConcat(d[..n], d[n..], k);
      ClassConcat(e[..n], e[n..], k);
      CommonEnd(Class(d[..n], k), Class(e[..n], k), Class(d[n..], k));
    }
  }

  lemma CommonEnd<T>(p: seq<T>, q: seq<T>, r: seq<T>)
    requires p + r == q + r
    ensures p == q
  {
    assert |p| == |q|;
    assert p == (p + r)[..|p|] && q == (q + r)[..|q|];
  }

  // The runs that the array d falls into, up to curr: one behind the other, and each as long as the next run
  // to push has to be.
  ghost predicate Decomposed(d: seq<Elem>, runs: seq<Run>, curr: nat, size: nat, minrun: nat) {
    curr == End(runs, |runs|) && forall k :: 0 <= k < |runs| ==> DecomposedAt(d, runs, k, size, minrun)
  }

  ghost predicate DecomposedAt(d: seq<Elem>, runs: seq<Run>, k: int, size: nat, minrun: nat)
    requires 0 <= k < |runs|
  {
    runs[k].start == End(runs, k) && runs[k].start < size && RunToPush(d, runs[k].start, size, minrun, runs[k].length)
  }

  lemma DecomposedNext(d: seq<Elem>, d0: seq<Elem>, runs: seq<Run>, curr: nat, size: nat, minrun: nat, len: nat)
    requires Decomposed(d0, runs, curr, size, minrun) && curr < size && SameOutside(d, d0, 0, curr)
    requires RunToPush(d, curr, size, minrun, len)
    ensures Decomposed(d0, runs + [Run(curr, len)], curr + len, size, minrun)
  {
    var next := runs + [Run(curr, len)];
    forall c: nat | RunLength(d, curr, size, c) ensures RunLength(d0, curr, size, c) {
      RunLengthElsewhere(d, d0, curr, size, c);
    }
    forall k | 0 <= k < |next| ensures DecomposedAt(d0, next, k, size, minrun) {
      assert k < |runs| ==> DecomposedAt(d0, runs, k, size, minrun);
    }
  }

  // What the sort has reached: everything before curr is in the runs of the stack, and came there by the pushes of
  // the runs that the original array falls into.
  ghost predicate Progress(d: seq<Elem>, d0: seq<Elem>, s: seq<Run>, pushed: seq<Run>, curr: nat, size: nat,
                           minrun: nat) {
    && curr < size <= |d| && Partition(d, s, curr) && Stable(d, d0) && SameOutside(d, d0, 0, curr)
    && Decomposed(d0, pushed, curr, size, minrun)
  }

  // What the sort leaves.
  ghost predicate Finished(d: seq<Elem>, d0: seq<Elem>, pushed: seq<Run>, size: nat, minrun: nat) {
    && size <= |d| && Sorted(d[..size]) && Stable(d, d0) && SameOutside(d, d0, 0, size)
    && Decomposed(d0, pushed, size, size, minrun)
  }

  lemma ProgressByCollapse(d: seq<Elem>, e: seq<Elem>, d0: seq<Elem>, s: seq<Run>, pushed: seq<Run>, curr: nat,
                           s': seq<Run>, size: nat, minrun: nat)
    requires Progress(d, d0, s, pushed, curr, size, minrun) && Partition(e, s', curr)
    requires Stable(e, d) && SameOutside(e, d, 0, curr)
    ensures Progress(e, d0, s', pushed, curr, size, minrun)
  {
    StableTrans(e, d, d0);
    SameOutsideTrans(e, d, d0, 0, curr);
  }

  lemma ProgressByPush(d: seq<Elem>, e: seq<Elem>, d0: seq<Elem>, s: seq<Run>, pushed: seq<Run>, curr: nat,
                       s': seq<Run>, len: nat, next: nat, size: nat, minrun: nat)
    requires Progress(d, d0, s, pushed, curr, size, minrun) && RunToPush(d, curr, size, minrun, len)
    requires next == curr + len < size && Partition(e, s', next) && Stable(e, d) && SameOutside(e, d, curr, next)
    ensures Progress(e, d0, s', pushed + [Run(curr, len)], next, size, minrun)
  {
    DecomposedNext(d, d0, pushed, curr, size, minrun, len);
    StableTrans(e, d, d0);
    SameOutsideBoth(e, d, d0, curr, next, 0, curr, 0, next);
  }

  // The last push ends the sort.
  lemma SortedByPush(d: seq<Elem>, e: seq<Elem>, d0: seq<Elem>, s: seq<Run>, pushed: seq<Run>, curr: nat, len: nat,
                     size: nat, minrun: nat)
    requires Progress(d, d0, s, pushed, curr, size, minrun) && RunToPush(d, curr, size, minrun, len)
    requires curr + len == size && Stable(e, d) && SameOutside(e, d, 0, size) && Sorted(e[..size])
    ensures Finished(e, d0, pushed + [Run(curr, len)], size, minrun)
  {
    DecomposedNext(d, d0, pushed, curr, size, minrun, len);
    StableTrans(e, d, d0);
    SameOutsideBoth(e, d, d0, 0, size, 0, curr, 0, size);
  }

  // One push of the sort.
  method PushRun(dst: array<Elem>, size: nat, store: TempStorage, minrun: nat, runStack: array<Run>,
                 stackCurr0: nat, curr0: nat, minGallop0: Counter, ghost d0: seq<Elem>, ghost pushed0: seq<Run>)
    returns (more: bool, stackCurr: nat, curr: nat, minGallop: Counter, ghost pushed: seq<Run>)
    requires size <= MAX_SIZE && stackCurr0 < runStack.Length && store.Valid() && store.storage != dst
    requires Progress(dst[..], d0, runStack[..stackCurr0], pushed0, curr0, size, minrun)
    modifies dst, runStack, store, store.storage
    ensures store.Valid() && store.storage != dst
    ensures store.storage == old(store.storage) || store.storage == null || fresh(store.storage)
    ensures !more ==> Finished(dst[..], d0, pushed, size, minrun)
    ensures more ==> curr0 < curr && stackCurr == stackCurr0 + 1
    ensures more ==> runStack[..stackCurr0] == old(runStack[..stackCurr0])
    ensures more ==> Progress(dst[..], d0, runStack[..stackCurr], pushed, curr, size, minrun)
  {
    ghost var d, s := dst[..], runStack[..stackCurr0];
    more, stackCurr, curr, minGallop := PushNext(dst, size, store, minrun, runStack, stackCurr0, curr0, minGallop0);
    ghost var len := curr - curr0;
    pushed := pushed0 + [Run(curr0, len)];
    if more {
      ProgressByPush(d, dst[..], d0, s, pushed0, curr0, runStack[..stackCurr], len, curr, size, minrun);
    } else {
      SortedByPush(d, dst[..], d0, s, pushed0, curr0, len, size, minrun);
    }
  }

  // One collapse of the sort.
  method CollapseRuns(dst: array<Elem>, size: nat, store: TempStorage, ghost minrun: nat, runStack: array<Run>,
                      stackCurr0: nat, ghost curr: nat, minGallop0: Counter, ghost d0: seq<Elem>,
                      ghost pushed: seq<Run>)
    returns (stackCurr: nat, minGallop: Counter)
    requires size <= MAX_SIZE && stackCurr0 <= runStack.Length && store.Valid() && store.storage != dst
    requires Progress(dst[..], d0, runStack[..stackCurr0], pushed, curr, size, minrun)
    requires Triples(runStack[..stackCurr0], stackCurr0 - 1) && !TopOk(runStack[..stackCurr0])
    modifies dst, runStack, store, store.storage
    ensures store.Valid() && store.storage != dst && (store.storage == old(store.storage) || fresh(store.storage))
    ensures stackCurr < stackCurr0 && Triples(runStack[..stackCurr], stackCurr - 1)
    ensures Progress(dst[..], d0, runStack[..stackCurr], pushed, curr, size, minrun)
  {
    ghost var d, s := dst[..], runStack[..stackCurr0];
    ghost var moves;
    stackCurr, minGallop, moves := TimSortCollapse(dst, runStack, stackCurr0, store, size, minGallop0, curr);
    ProgressByCollapse(d, dst[..], d0, s, pushed, curr, runStack[..stackCurr], size, minrun);
    InvariantIsTriples(runStack[..stackCurr]);
  }

  // The main loop, entered with at most three runs on the stack; its variant is the rest of the
  // array, then the height of the stack.
  method MainLoop(dst: array<Elem>, size: nat, store: TempStorage, minrun: nat, runStack: array<Run>,
                  stackCurr0: nat, curr0: nat, minGallop0: Counter, ghost d0: seq<Elem>, ghost pushed0: seq<Run>)
    returns (ghost pushed: seq<Run>)
    requires size <= MAX_SIZE && runStack.Length == TIM_SORT_STACK_SIZE
    requires stackCurr0 <= 3 && store.Valid() && store.storage != dst
    requires Progress(dst[..], d0, runStack[..stackCurr0], pushed0, curr0, size, minrun)
    modifies dst, runStack, store, store.storage
    ensures Finished(dst[..], d0, pushed, size, minrun)
  {
    var stackCurr: nat, curr: nat, minGallop: Counter := stackCurr0, curr0, minGallop0;
    pushed := pushed0;
    while true
      invariant store.Valid() && store.storage != dst
      invariant store.storage == old(store.storage) || store.storage == null || fresh(store.storage)
      invariant stackCurr <= TIM_SORT_STACK_SIZE && curr < size
      invariant Progress(dst[..], d0, runStack[..stackCurr], pushed, curr, size, minrun)
      invariant Triples(runStack[..stackCurr], stackCurr - 1)
      decreases size - curr, stackCurr
    {
      var ok := CheckInvariant(runStack, stackCurr);
      if !ok {
        stackCurr, minGallop :=
          CollapseRuns(dst, size, store, minrun, runStack, stackCurr, curr, minGallop, d0, pushed);
        continue;
      }
      ghost var s := runStack[..stackCurr];
      CheckSettlesAll(s);
      StackHeight(dst[..], s, curr);
      assert RunInvariant(s) && stackCurr <= 91;  // before every push of this loop
      var more;
      more, stackCurr, curr, minGallop, pushed :=
        PushRun(dst, size, store, minrun, runStack, stackCurr, curr, minGallop, d0, pushed);
      if !more {
        return;
      }
      TopPushed(runStack[..stackCurr], s);
    }
  }

  lemma TopPushed(t: seq<Run>, s: seq<Run>)
    requires |t| == |s| + 1 && t[..|s|] == s && RunInvariant(s)
    ensures Triples(t, |t| - 1)
  {
    assert t == s + [t[|s|]];
    PushCollapses(s, t[|s|]);
  }

  lemma InvariantIsTriples(s: seq<Run>)
    requires RunInvariant(s)
    ensures Triples(s, |s| - 1)
  {
  }

  // TIM_SORT on at least 64 elements: three unconditional pushes, then the main loop.  The runs that are pushed
  // are those that the array falls into for the minimum that compute_minrun gives.
  method SortByRuns(dst: array<Elem>, size: nat) returns (ghost pushed: seq<Run>)
    requires 64 <= size <= dst.Length && size <= MAX_SIZE
    modifies dst
    ensures dst[..size] == StableSort(old(dst[..size]))
    ensures SameOutside(dst[..], old(dst[..]), 0, size)
    ensures Decomposed(old(dst[..]), pushed, size, size, ComputeMinrun(size))
  {
    var minrun := ComputeMinrun(size);
    var store := new TempStorage();
    var runStack := new Run[TIM_SORT_STACK_SIZE];
    var stackCurr: nat, curr: nat, minGallop: Counter := 0, 0, TIM_SORT_MIN_GALLOP;
    ghost var d0 := dst[..];
    pushed := [];
    StableRefl(d0);
    var more := true;
    for i := 0 to 3
      invariant store.Valid() && store.storage != dst && (store.storage == null || fresh(store.storage))
      invariant stackCurr == i && Progress(dst[..], d0, runStack[..stackCurr], pushed, curr, size, minrun)
    {
      more, stackCurr, curr, minGallop, pushed :=
        PushRun(dst, size, store, minrun, runStack, stackCurr, curr, minGallop, d0, pushed);
      if !more {
        break;
      }
    }
    if more {
      pushed := MainLoop(dst, size, store, minrun, runStack, stackCurr, curr, minGallop, d0, pushed);
    }
    StableSegment(dst[..], d0, size);
    StableSortUnique(d0[..size], dst[..size]);
  }

  /** TIM_SORT always sorts.  Up to 16 elements the outcome is that of the sorting network, which is in
      general not stable; beyond that it is the stable sort. */
  method TimSort(dst: array<Elem>, size: nat)
    requires size <= dst.Length && size <= MAX_SIZE
    modifies dst
    ensures dst[..size] == SmallSorted(old(dst[..size]))
    ensures Sorted(dst[..size]) && multiset(dst[..size]) == multiset(old(dst[..size]))
    ensures 16 < size ==> Stable(dst[..size], old(dst[..size]))
    ensures SameOutside(dst[..], old(dst[..]), 0, size)
  {
    ghost var s := dst[..size];
    SmallSortCorrect(s);
    StableSortCorrect(s);
    if size <= 1 {
      SmallSortTiny(s);
    } else if size < 64 {
      assert dst[0..size] == dst[..size];
      BitonicSort(dst, 0, size);
      assert dst[0..size] == dst[..size];
    } else {
      ghost var pushed := SortByRuns(dst, size);
    }
  }
}
