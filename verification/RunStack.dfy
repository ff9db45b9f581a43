/** The run stack of TimSort: what it says about the array, and the invariant on run lengths. */
module RunStack {
  import opened Order
  import opened Sequences

  datatype Run = Run(start: nat, length: nat)

  // ---------- The stack partitions the processed prefix into sorted runs ----------

  // Where run i must start: at the end of the run before it.
  function End(s: seq<Run>, i: int): nat
    requires 0 <= i <= |s|
  {
    if i == 0 then 0 else s[i - 1].start + s[i - 1].length
  }

  ghost predicate RunAt(d: seq<Elem>, s: seq<Run>, i: int)
    requires 0 <= i < |s|
  {
    && 0 < s[i].length && s[i].start == End(s, i) && s[i].start + s[i].length <= |d|
    && Sorted(d[s[i].start..s[i].start + s[i].length])
  }

  ghost predicate Partition(d: seq<Elem>, s: seq<Run>, curr: nat) {
    curr == End(s, |s|) && forall i :: 0 <= i < |s| ==> RunAt(d, s, i)
  }

  lemma {:induction false} EndsIncrease(d: seq<Elem>, s: seq<Run>, curr: nat, i: nat, j: nat)
    requires Partition(d, s, curr) && i <= j <= |s|
    ensures End(s, i) <= End(s, j) <= |d|
    decreases j
  {
    if j == 0 {
    } else {
      assert RunAt(d, s, j - 1);
      if i < j {
        EndsIncrease(d, s, curr, i, j - 1);
      }
    }
  }

  // The stack after runs i and i + 1 became one.
  function Joined(s: seq<Run>, i: nat): seq<Run>
    requires i + 1 < |s|
  {
    s[..i] + [Run(s[i].start, s[i].length + s[i + 1].length)] + s[i + 2..]
  }

  lemma JoinedAt(s: seq<Run>, i: nat, k: nat)
    requires i + 1 < |s| && k + 1 < |s|
    requires s[i + 1].start == s[i].start + s[i].length
    ensures |Joined(s, i)| == |s| - 1
    ensures k < i ==> Joined(s, i)[k] == s[k]
    ensures k == i ==> Joined(s, i)[k] == Run(s[i].start, s[i].length + s[i + 1].length)
    ensures i < k ==> Joined(s, i)[k] == s[k + 1]
    ensures k <= i ==> End(Joined(s, i), k) == End(s, k)
    ensures i <= k ==> End(Joined(s, i), k + 1) == End(s, k + 2)
  {
  }

  // The runs of the joined stack, given a sorted stretch in place of runs i and i + 1.
  lemma JoinedRun(d: seq<Elem>, e: seq<Elem>, s: seq<Run>, curr: nat, i: nat, p: nat, r: nat, k: nat)
    requires Partition(d, s, curr) && i + 1 < |s| && p == s[i].start && r == s[i + 1].start + s[i + 1].length
    requires SameOutside(e, d, p, r) && p <= r <= |d| && Sorted(e[p..r]) && k < |Joined(s, i)|
    ensures RunAt(e, Joined(s, i), k)
  {
    assert RunAt(d, s, i) && RunAt(d, s, i + 1);
    JoinedAt(s, i, k);
    if k < i {
      EndsIncrease(d, s, curr, k + 1, i);
      RunUntouched(d, e, s, k, p, r);
    } else if i < k {
      var k' := k + 1;
      JoinedAt(s, i, k - 1);
      EndsIncrease(d, s, curr, i + 2, k');
      RunUntouched(d, e, s, k', p, r);
    }
  }

  lemma JoinedRuns(d: seq<Elem>, e: seq<Elem>, s: seq<Run>, curr: nat, i: nat, p: nat, r: nat)
    requires Partition(d, s, curr) && i + 1 < |s| && p == s[i].start && r == s[i + 1].start + s[i + 1].length
    requires SameOutside(e, d, p, r) && p <= r <= |d| && Sorted(e[p..r])
    ensures Partition(e, Joined(s, i), curr)
  {
    assert RunAt(d, s, i) && RunAt(d, s, i + 1);
    JoinedAt(s, i, |s| - 2);
    forall k | 0 <= k < |Joined(s, i)| ensures RunAt(e, Joined(s, i), k) {
      JoinedRun(d, e, s, curr, i, p, r, k);
    }
  }

  /** Merging two neighbouring runs keeps the partition. */
  lemma JoinedPartition(d: seq<Elem>, e: seq<Elem>, s: seq<Run>, curr: nat, i: nat)
    requires Partition(d, s, curr) && i + 1 < |s|
    requires var p, q, r := s[i].start, s[i + 1].start, s[i + 1].start + s[i + 1].length;
      p <= q <= r <= |d| == |e| && SameOutside(e, d, p, r) && e[p..r] == Merge(d[p..q], d[q..r])
    ensures Partition(e, Joined(s, i), curr)
  {
    assert RunAt(d, s, i) && RunAt(d, s, i + 1);
    var p, q, r := s[i].start, s[i + 1].start, s[i + 1].start + s[i + 1].length;
    assert s[i].start + s[i].length == q;
    MergeSorted(d[p..q], d[q..r]);
    JoinedRuns(d, e, s, curr, i, p, r);
  }

  lemma RunUntouched(d: seq<Elem>, e: seq<Elem>, s: seq<Run>, k: nat, p: nat, r: nat)
    requires k < |s| && RunAt(d, s, k) && SameOutside(e, d, p, r)
    requires s[k].start + s[k].length <= p || r <= s[k].start
    ensures RunAt(e, s, k)
  {
    SameSlice(e, d, p, r, s[k].start, s[k].start + s[k].length);
  }

  /** Merging two neighbouring runs rearranges the array stably. */
  lemma JoinedStable(d: seq<Elem>, e: seq<Elem>, p: nat, q: nat, r: nat)
    requires p <= q <= r <= |d| == |e| && SameOutside(e, d, p, r) && e[p..r] == Merge(d[p..q], d[q..r])
    requires Sorted(d[p..q])
    ensures Stable(e, d)
  {
    MergeStable(d[p..q], d[q..r]);
    SliceJoin(d, p, q, r);
    StableSplice(e, d, p, r);
  }

  /** Pushing a sorted run that starts where the last one ends. */
  lemma PushedPartition(d: seq<Elem>, e: seq<Elem>, s: seq<Run>, curr: nat, length: nat)
    requires Partition(d, s, curr) && 0 < length && curr + length <= |d|
    requires SameOutside(e, d, curr, curr + length) && Sorted(e[curr..curr + length])
    ensures Partition(e, s + [Run(curr, length)], curr + length)
  {
    var t := s + [Run(curr, length)];
    forall k | 0 <= k < |t| ensures RunAt(e, t, k) {
      if k < |s| {
        EndsIncrease(d, s, curr, k + 1, |s|);
        RunUntouched(d, e, s, k, curr, curr + length);
      }
    }
  }

  // ---------- What the runs hold ----------

  // The cells of run i hold a stable rearrangement of what they hold in d.
  ghost predicate KeptAt(e: seq<Elem>, d: seq<Elem>, s: seq<Run>, i: int)
    requires 0 <= i < |s|
  {
    var p, r := s[i].start, s[i].start + s[i].length;
    r <= |d| == |e| && Stable(e[p..r], d[p..r])
  }

  ghost predicate RunsKept(e: seq<Elem>, d: seq<Elem>, s: seq<Run>) {
    forall i :: 0 <= i < |s| ==> KeptAt(e, d, s, i)
  }

  lemma RunsKeptRefl(d: seq<Elem>, s: seq<Run>, curr: nat)
    requires Partition(d, s, curr)
    ensures RunsKept(d, d, s)
  {
    forall i | 0 <= i < |s| ensures KeptAt(d, d, s, i) {
      assert RunAt(d, s, i);
      StableRefl(d[s[i].start..s[i].start + s[i].length]);
    }
  }

  lemma KeptUntouched(d: seq<Elem>, e: seq<Elem>, s: seq<Run>, k: nat, p: nat, r: nat)
    requires k < |s| && RunAt(d, s, k) && SameOutside(e, d, p, r)
    requires s[k].start + s[k].length <= p || r <= s[k].start
    ensures KeptAt(e, d, s, k)
  {
    SameSlice(e, d, p, r, s[k].start, s[k].start + s[k].length);
    StableRefl(d[s[k].start..s[k].start + s[k].length]);
  }

  lemma JoinedRunKept(d: seq<Elem>, e: seq<Elem>, s: seq<Run>, curr: nat, i: nat, p: nat, r: nat, k: nat)
    requires Partition(d, s, curr) && i + 1 < |s| && p == s[i].start && r == s[i + 1].start + s[i + 1].length
    requires SameOutside(e, d, p, r) && p <= r <= |d| && Stable(e[p..r], d[p..r]) && k < |Joined(s, i)|
    ensures KeptAt(e, d, Joined(s, i), k)
  {
    assert RunAt(d, s, i) && RunAt(d, s, i + 1);
    JoinedAt(s, i, k);
    if k < i {
      EndsIncrease(d, s, curr, k + 1, i);
      KeptUntouched(d, e, s, k, p, r);
    } else if i < k {
      var k' := k + 1;
      JoinedAt(s, i, k - 1);
      EndsIncrease(d, s, curr, i + 2, k');
      KeptUntouched(d, e, s, k', p, r);
    }
  }

  /** Merging two neighbouring runs moves elements inside the joined run only. */
  lemma JoinedKept(d: seq<Elem>, e: seq<Elem>, s: seq<Run>, curr: nat, i: nat, p: nat, q: nat, r: nat)
    requires Partition(d, s, curr) && i + 1 < |s|
    requires p == s[i].start && q == s[i + 1].start && r == s[i + 1].start + s[i + 1].length
    requires p <= q <= r <= |d| && SameOutside(e, d, p, r) && e[p..r] == Merge(d[p..q], d[q..r])
    ensures RunsKept(e, d, Joined(s, i))
  {
    assert RunAt(d, s, i) && RunAt(d, s, i + 1);
    assert Stable(e[p..r], d[p..r]) by {
      MergeStable(d[p..q], d[q..r]);
      SliceJoin(d, p, q, r);
    }
    forall k | 0 <= k < |Joined(s, i)| ensures KeptAt(e, d, Joined(s, i), k) {
      JoinedRunKept(d, e, s, curr, i, p, r, k);
    }
  }

  // One merge after others.
  lemma KeptOnward(e: seq<Elem>, d: seq<Elem>, d0: seq<Elem>, s: seq<Run>, curr: nat, i: nat)
    requires Partition(d, s, curr) && i + 1 < |s| && RunsKept(d, d0, s) && RunsKept(e, d, Joined(s, i))
    ensures RunsKept(e, d0, Joined(s, i))
  {
    var t := Joined(s, i);
    forall k | 0 <= k < |t| ensures KeptAt(e, d0, t, k) {
      assert KeptAt(e, d, t, k);
      var p, r := t[k].start, t[k].start + t[k].length;
      JoinedKeptAt(d, d0, s, curr, i, k, p, r);
      StableTrans(e[p..r], d[p..r], d0[p..r]);
    }
  }

  lemma JoinedKeptAt(d: seq<Elem>, d0: seq<Elem>, s: seq<Run>, curr: nat, i: nat, k: nat, p: nat, r: nat)
    requires Partition(d, s, curr) && i + 1 < |s| && RunsKept(d, d0, s) && k < |Joined(s, i)|
    requires p == Joined(s, i)[k].start && r == p + Joined(s, i)[k].length
    ensures r <= |d| == |d0| && Stable(d[p..r], d0[p..r])
  {
    assert RunAt(d, s, i) && RunAt(d, s, i + 1);
    JoinedAt(s, i, k);
    if k == i {
      var q := s[i + 1].start;
      assert KeptAt(d, d0, s, i) && KeptAt(d, d0, s, i + 1);
      StableConcat(d[p..q], d[q..r], d0[p..q], d0[q..r]);
      SliceJoin(d, p, q, r);
      SliceJoin(d0, p, q, r);
    } else {
      assert KeptAt(d, d0, s, if k < i then k else k + 1);
    }
  }

  // ---------- The invariant on run lengths ----------

  predicate TripleAt(s: seq<Run>, i: int)
    requires 0 <= i && i + 2 < |s|
  {
    s[i + 1].length + s[i + 2].length < s[i].length
  }

  // The length condition holds for every three neighbouring runs among the first n.
  predicate Triples(s: seq<Run>, n: int)
    requires n <= |s|
  {
    forall i :: 0 <= i < n - 2 ==> TripleAt(s, i)
  }

  predicate TopDecreases(s: seq<Run>) {
    2 <= |s| ==> s[|s| - 1].length < s[|s| - 2].length
  }

  // The invariant of the whole stack.
  predicate RunInvariant(s: seq<Run>) {
    Triples(s, |s|) && TopDecreases(s)
  }

  /** In numbers: every run is longer than each run above it, and than any two runs above it together. */
  lemma InvariantInNumbers(s: seq<Run>)
    ensures RunInvariant(s) <==>
      && (forall i, j :: 0 <= i < j < |s| ==> s[j].length < s[i].length)
      && (forall i, j, k :: 0 <= i < j < k < |s| ==> s[j].length + s[k].length < s[i].length)
  {
    if RunInvariant(s) {
      forall i, j | 0 <= i < j < |s| ensures s[j].length < s[i].length {
        RunsShrink(s, i, j);
      }
      forall i, j, k | 0 <= i < j < k < |s| ensures s[j].length + s[k].length < s[i].length {
        assert TripleAt(s, i);
        RunsShrink(s, i + 1, j);
        RunsShrink(s, i + 2, k);
      }
    }
  }

  lemma {:induction false} RunsShrink(s: seq<Run>, i: nat, j: nat)
    requires RunInvariant(s) && i <= j < |s|
    ensures i < j ==> s[j].length < s[i].length
    decreases j - i
  {
    if i < j {
      RunsShrink(s, i + 1, j);
      assert i + 2 < |s| ==> TripleAt(s, i);
    }
  }

  // What CHECK_INVARIANT looks at.
  predicate TopOk(s: seq<Run>) {
    TopDecreases(s) && (3 <= |s| ==> TripleAt(s, |s| - 3))
  }

  /** The collapse loop merges right (the two top runs) while the top pair is out of order, and left
      (the two runs below the top) after that.  This holds before every round. */
  predicate Collapsing(s: seq<Run>) {
    Triples(s, |s| - 2) && (Triples(s, |s| - 1) || TopDecreases(s))
  }

  // One round of the collapse loop on at least two runs, as far as lengths decide it.
  datatype Move = Stop | Left | Right

  function NextMove(s: seq<Run>): Move
    requires 2 <= |s|
  {
    var n := |s|;
    var abc := 4 <= n && s[n - 4].length <= s[n - 3].length + s[n - 2].length;
    var bcd := 3 <= n && (s[n - 3].length <= s[n - 2].length + s[n - 1].length || abc);
    var cd := s[n - 2].length <= s[n - 1].length;
    if !bcd && !cd then Stop else if bcd && !cd then Left else Right
  }

  // The stack after a move; a move that has no runs to join changes nothing.
  function Moved(s: seq<Run>, move: Move): seq<Run> {
    if move == Left && 3 <= |s| then Joined(s, |s| - 3)
    else if move == Right && 2 <= |s| then Joined(s, |s| - 2)
    else s
  }

  // The stack after several moves.
  function AfterMoves(s: seq<Run>, moves: seq<Move>): seq<Run> {
    if moves == [] then s else Moved(AfterMoves(s, moves[..|moves| - 1]), moves[|moves| - 1])
  }

  lemma OneMoreMove(s: seq<Run>, moves: seq<Move>, move: Move)
    ensures AfterMoves(s, moves + [move]) == Moved(AfterMoves(s, moves), move)
  {
    assert (moves + [move])[..|moves|] == moves;
  }

  /** The loop stops only when the invariant holds on the whole stack, although it compares at most
      the four top runs. */
  lemma StopMeansInvariant(s: seq<Run>)
    requires 2 <= |s| && Collapsing(s) && NextMove(s) == Stop
    ensures RunInvariant(s)
  {
    forall i | 0 <= i < |s| - 2 ensures TripleAt(s, i) {
    }
  }

  /** The loop goes on exactly while the invariant is broken, and merges the two top runs exactly while they
      are out of order. */
  lemma MovesWhileBroken(s: seq<Run>)
    requires 2 <= |s| && Collapsing(s)
    ensures NextMove(s) == Stop <==> RunInvariant(s)
    ensures NextMove(s) == Right <==> !TopDecreases(s)
  {
    if RunInvariant(s) {
      assert 3 <= |s| ==> TripleAt(s, |s| - 3);
      assert 4 <= |s| ==> TripleAt(s, |s| - 4);
    } else if NextMove(s) == Stop {
      StopMeansInvariant(s);
    }
  }

  lemma RightKeepsCollapsing(s: seq<Run>)
    requires 2 <= |s| && Collapsing(s) && NextMove(s) == Right
    ensures Collapsing(Joined(s, |s| - 2))
  {
    var t := Joined(s, |s| - 2);
    forall i | 0 <= i < |t| - 3 ensures TripleAt(t, i) {
      assert TripleAt(s, i);
    }
    forall i | 0 <= i < |t| - 4 ensures TripleAt(t, i) {
    }
  }

  /** After a left merge the top pair is in order for good: no right merge can follow. */
  lemma LeftKeepsCollapsing(s: seq<Run>)
    requires 2 <= |s| && Collapsing(s) && NextMove(s) == Left
    ensures 3 <= |s| && Collapsing(Joined(s, |s| - 3)) && TopDecreases(Joined(s, |s| - 3))
    ensures 3 <= |s| - 1 ==> NextMove(Joined(s, |s| - 3)) != Right
  {
    var t := Joined(s, |s| - 3);
    forall i | 0 <= i < |t| - 4 ensures TripleAt(t, i) {
      assert TripleAt(s, i);
    }
  }

  // The moves of one whole collapse, in their order.
  function Moves(s: seq<Run>): seq<Move>
    decreases |s|
  {
    if |s| < 2 || NextMove(s) == Stop then [] else [NextMove(s)] + Moves(Moved(s, NextMove(s)))
  }

  // The stack after the first move.
  lemma FirstMove(s: seq<Run>) returns (t: seq<Run>)
    requires 2 <= |s| && Collapsing(s) && NextMove(s) != Stop
    ensures t == Moved(s, NextMove(s)) && |t| == |s| - 1 && Collapsing(t)
    ensures Moves(s) == [NextMove(s)] + Moves(t)
  {
    t := Moved(s, NextMove(s));
    if NextMove(s) == Left {
      LeftKeepsCollapsing(s);
    } else {
      RightKeepsCollapsing(s);
    }
  }

  // What a first move says about the top of the stack.
  lemma FirstOfMoves(s: seq<Run>) returns (move: Move, t: seq<Run>)
    requires Collapsing(s) && Moves(s) != []
    ensures Moves(s) == [move] + Moves(t) && |t| < |s| && Collapsing(t)
    ensures (move == Left && TopDecreases(t)) || (move == Right && !TopDecreases(s))
  {
    move := NextMove(s);
    t := FirstMove(s);
    if move == Left {
      LeftKeepsCollapsing(s);
    }
  }

  predicate AllLeft(moves: seq<Move>) {
    forall j :: 0 <= j < |moves| ==> moves[j] == Left
  }

  // No move to the right after one to the left.
  predicate RightsFirst(moves: seq<Move>) {
    forall i, j :: 0 <= i < j < |moves| && moves[i] == Left ==> moves[j] == Left
  }

  lemma MoveInFront(move: Move, rest: seq<Move>)
    requires RightsFirst(rest) && (move == Left ==> AllLeft(rest))
    ensures RightsFirst([move] + rest) && (move == Left ==> AllLeft([move] + rest))
  {
    var all := [move] + rest;
    forall i, j | 0 <= i < j < |all| && all[i] == Left ensures all[j] == Left {
      assert all[j] == rest[j - 1];
      assert i == 0 || all[i] == rest[i - 1];
    }
  }

  lemma {:induction false} OnlyLeftMoves(s: seq<Run>)
    requires Collapsing(s) && TopDecreases(s)
    ensures AllLeft(Moves(s)) && RightsFirst(Moves(s))
    decreases |s|
  {
    if Moves(s) != [] {
      var move, t := FirstOfMoves(s);
      OnlyLeftMoves(t);
      MoveInFront(move, Moves(t));
    }
  }

  /** Over a whole collapse, every merge of the two top runs comes before every merge below the top. */
  lemma {:induction false} RightsBeforeLefts(s: seq<Run>)
    requires Collapsing(s)
    ensures RightsFirst(Moves(s))
    decreases |s|
  {
    if Moves(s) != [] {
      var move, t := FirstOfMoves(s);
      if move == Left {
        OnlyLeftMoves(t);
      } else {
        RightsBeforeLefts(t);
      }
      MoveInFront(move, Moves(t));
    }
  }

  // Every move was made on a stack whose invariant was broken, and it was one to the right exactly when the
  // two top runs were out of order.
  predicate MadeWhileBroken(s: seq<Run>, moves: seq<Move>) {
    forall k :: 0 <= k < |moves| ==>
      var t := AfterMoves(s, moves[..k]);
      !RunInvariant(t) && moves[k] == if TopDecreases(t) then Left else Right
  }

  lemma OneMoreNeeded(s: seq<Run>, moves: seq<Move>, t: seq<Run>)
    requires MadeWhileBroken(s, moves) && t == AfterMoves(s, moves)
    requires 2 <= |t| && Collapsing(t) && NextMove(t) != Stop
    ensures MadeWhileBroken(s, moves + [NextMove(t)])
  {
    var longer := moves + [NextMove(t)];
    MovesWhileBroken(t);
    forall k | 0 <= k < |longer|
      ensures var u := AfterMoves(s, longer[..k]);
        !RunInvariant(u) && longer[k] == if TopDecreases(u) then Left else Right
    {
      assert longer[..k] == moves[..k];
      assert k == |moves| ==> moves[..k] == moves;
    }
  }

  lemma FirstMoveNeeded(s: seq<Run>, moves: seq<Move>)
    requires MadeWhileBroken(s, moves) && moves != []
    ensures !RunInvariant(s)
  {
    assert moves[..0] == [];
  }

  /** A push onto a stack that satisfies the invariant can only break it at the top. */
  lemma PushCollapses(s: seq<Run>, r: Run)
    requires RunInvariant(s)
    ensures Triples(s + [r], |s|)
  {
    forall i | 0 <= i < |s| - 2 ensures TripleAt(s + [r], i) {
      assert TripleAt(s, i);
    }
  }

  /** What CHECK_INVARIANT sees at the top settles the whole stack. */
  lemma CheckSettlesAll(s: seq<Run>)
    requires Triples(s, |s| - 1)
    ensures TopOk(s) <==> RunInvariant(s)
  {
    if Triples(s, |s|) && 3 <= |s| {
      assert TripleAt(s, |s| - 3);
    }
    if TopOk(s) {
      forall i | 0 <= i < |s| - 2 ensures TripleAt(s, i) {
      }
    }
  }

  // ---------- The stack is never high ----------

  // The least length of a run with n - 1 runs above it: one less than a Fibonacci number.
  function Growth(n: nat): nat {
    if n <= 2 then n else Growth(n - 1) + Growth(n - 2) + 1
  }

  lemma {:induction false} LengthsGrow(s: seq<Run>, i: nat)
    requires RunInvariant(s) && i < |s| && forall k :: 0 <= k < |s| ==> 0 < s[k].length
    ensures Growth(|s| - i) <= s[i].length
    decreases |s| - i
  {
    if i + 2 < |s| {
      assert TripleAt(s, i);
      LengthsGrow(s, i + 1);
      LengthsGrow(s, i + 2);
    }
  }

  lemma {:induction false} GrowthMonotone(m: nat, n: nat)
    requires m <= n
    ensures Growth(m) <= Growth(n)
    decreases n
  {
    if m < n {
      GrowthMonotone(m, n - 1);
    }
  }

  lemma GrowthBy8(n: nat, a: nat, b: nat)
    requires 1 <= n && a <= Growth(n) + 1 && b <= Growth(n + 1) + 1
    ensures 13 * a + 21 * b <= Growth(n + 8) + 1 && 21 * a + 34 * b <= Growth(n + 9) + 1
  {
    assert Growth(n + 3) + 1 >= a + 2 * b;
    assert Growth(n + 5) + 1 >= 3 * a + 5 * b;
    assert Growth(n + 7) + 1 >= 8 * a + 13 * b;
  }

  lemma GrowthAt92(n: nat)
    requires n == 92
    ensures 0x1_0000_0000_0000_0000 <= Growth(n)
  {
    GrowthBy8(4, 8, 13);
    GrowthBy8(12, 377, 610);
    GrowthBy8(20, 17711, 28657);
    GrowthBy8(28, 832040, 1346269);
    GrowthBy8(36, 39088169, 63245986);
    GrowthBy8(44, 1836311903, 2971215073);
    GrowthBy8(52, 86267571272, 139583862445);
    GrowthBy8(60, 4052739537881, 6557470319842);
    GrowthBy8(68, 190392490709135, 308061521170129);
    GrowthBy8(76, 8944394323791464, 14472334024676221);
    GrowthBy8(84, 420196140727489673, 679891637638612258);
  }

  // A stack whose lengths add up to less than Growth(n) has fewer than n runs.
  lemma HeightBelow(d: seq<Elem>, s: seq<Run>, curr: nat, n: nat)
    requires Partition(d, s, curr) && RunInvariant(s) && curr < Growth(n)
    ensures |s| < n
  {
    if n <= |s| {
      if s != [] {
        forall k | 0 <= k < |s| ensures 0 < s[k].length {
          assert RunAt(d, s, k);
        }
        EndsIncrease(d, s, curr, 1, |s|);
        assert RunAt(d, s, 0);
        LengthsGrow(s, 0);
      }
      GrowthMonotone(n, |s|);
    }
  }

  /** On any array that 64-bit sizes can describe, a stack with the invariant holds at most 91 runs,
      so the 128 entries are enough. */
  lemma StackHeight(d: seq<Elem>, s: seq<Run>, curr: nat)
    requires Partition(d, s, curr) && RunInvariant(s) && curr < 0x1_0000_0000_0000_0000
    ensures |s| <= 91
  {
    HeightBelow92(d, s, curr, 92);
  }

  lemma HeightBelow92(d: seq<Elem>, s: seq<Run>, curr: nat, n: nat)
    requires Partition(d, s, curr) && RunInvariant(s) && curr < 0x1_0000_0000_0000_0000 && n == 92
    ensures |s| < n
  {
    GrowthAt92(n);
    HeightBelow(d, s, curr, n);
  }
}
