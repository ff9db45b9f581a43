/** The small sort: the networks for up to 16 elements, binary insertion beyond.

It always sorts, and it is stable exactly for at most 2 and for more than 16 elements.
 */
module SmallSort {
  import opened Order
  import opened Insertion
  import opened Networks
  import opened SmallNetworks
  import opened Sequences

  // ---------- Stability of the networks ----------

  // The network keeps equal keys in their order, whatever the n elements are.
  ghost predicate NetworkIsStable(net: Network, n: nat)
    requires Fits(net, n)
  {
    forall s: seq<Elem> {:trigger Apply(net, s)} :: |s| == n ==> Stable(Apply(net, s), s)
  }

  // Exchanges have nothing to do once the elements are in order.
  lemma {:induction false} IdleAfter(net: Network, p: Network, s: seq<Elem>)
    requires Fits(net, |s|) && Fits(p, |s|) && Extends(net, p) && Sorted(Apply(p, s))
    ensures Apply(net, s) == Apply(p, s)
  {
    if net != p {
      IdleAfter(net.before, p, s);
      assert InOrder(Apply(p, s), net.i, net.j);
    }
  }

  function WitnessKey(i: nat, j: nat, front: bool, k: nat): int {
    if k < i || k == j || (i < k < j && !front) then 0 else 1
  }

  // A sequence with keys 0 and 1 that one exchange, of i and j, brings into order: cell i holds a 1,
  // cell j a 0, and the cells between them hold the one key (front) or the other.
  function Witness(n: nat, i: nat, j: nat, front: bool): (s: seq<Elem>)
    ensures |s| == n && forall k :: 0 <= k < n ==> s[k] == Elem(WitnessKey(i, j, front, k), k)
  {
    seq(n, k requires 0 <= k < n => Elem(WitnessKey(i, j, front, k), k))
  }

  // The exchanges of p find the cells of the witness in order.
  predicate Idle(p: Network, n: nat, i: nat, j: nat, front: bool) {
    p.Then? ==>
      && p.i < p.j < n && WitnessKey(i, j, front, p.i) <= WitnessKey(i, j, front, p.j)
      && Idle(p.before, n, i, j, front)
  }

  lemma {:induction false} IdleLeavesAlone(p: Network, n: nat, i: nat, j: nat, front: bool)
    requires Idle(p, n, i, j, front)
    ensures Fits(p, n) && Apply(p, Witness(n, i, j, front)) == Witness(n, i, j, front)
  {
    if p.Then? {
      IdleLeavesAlone(p.before, n, i, j, front);
    }
  }

  lemma PutIdle(p: Network, n: nat, i: nat, j: nat, front: bool, a: nat, b: nat) returns (q: Network)
    requires Idle(p, n, i, j, front) && a < b < n && WitnessKey(i, j, front, a) <= WitnessKey(i, j, front, b)
    ensures q == p.X(a, b) && Idle(q, n, i, j, front)
  {
    q := p.X(a, b);
  }

  lemma WitnessExchanged(n: nat, i: nat, j: nat, front: bool)
    requires i + 1 < j < n
    ensures var s := Witness(n, i, j, front);
      var t := Exchange(s, i, j);
      Sorted(t) && !Stable(t, s)
  {
    var s := Witness(n, i, j, front);
    var t := Exchange(s, i, j);
    if front {
      FirstOfClass(s, 1, i);
      FirstOfClass(t, 1, i + 1);
      assert !SameClass(t, s, 1);
    } else {
      LastOfClass(s, 0, j);
      LastOfClass(t, 0, j - 1);
      assert !SameClass(t, s, 0);
    }
  }

  lemma Unstable(net: Network, p: Network, n: nat, i: nat, j: nat, front: bool)
    requires i + 1 < j < n && Shape(net, p.X(i, j), n) && Idle(p, n, i, j, front)
    ensures !NetworkIsStable(net, n)
  {
    IdleLeavesAlone(p, n, i, j, front);
    var s := Witness(n, i, j, front);
    WitnessExchanged(n, i, j, front);
    IdleAfter(net, p.X(i, j), s);
    assert !Stable(Apply(net, s), s);
  }

  lemma Unstable3()
    ensures Fits(Network3(), 3) && !NetworkIsStable(Network3(), 3)
  {
    var first := Shape3();
    var p := PutIdle(Done, 3, 0, 2, false, 1, 2);
    Unstable(Network3(), p, 3, 0, 2, false);
  }

  lemma Unstable4()
    ensures Fits(Network4(), 4) && !NetworkIsStable(Network4(), 4)
  {
    var first := Shape4();
    var p := PutIdle(Done, 4, 0, 2, true, 0, 1); p := PutIdle(p, 4, 0, 2, true, 2, 3);
    Unstable(Network4(), p, 4, 0, 2, true);
  }

  lemma Unstable5()
    ensures Fits(Network5(), 5) && !NetworkIsStable(Network5(), 5)
  {
    var first := Shape5();
    var p := PutIdle(Done, 5, 2, 4, false, 0, 1); p := PutIdle(p, 5, 2, 4, false, 3, 4);
    Unstable(Network5(), p, 5, 2, 4, false);
  }

  lemma Unstable6()
    ensures Fits(Network6(), 6) && !NetworkIsStable(Network6(), 6)
  {
    var first := Shape6();
    var p := PutIdle(Done, 6, 0, 2, false, 1, 2); p := PutIdle(p, 6, 0, 2, false, 4, 5);
    Unstable(Network6(), p, 6, 0, 2, false);
  }

  lemma Unstable7()
    ensures Fits(Network7(), 7) && !NetworkIsStable(Network7(), 7)
  {
    var first := Shape7();
    var p := PutIdle(Done, 7, 0, 2, false, 1, 2); p := PutIdle(p, 7, 0, 2, false, 3, 4);
    p := PutIdle(p, 7, 0, 2, false, 5, 6);
    Unstable(Network7(), p, 7, 0, 2, false);
  }

  lemma Unstable8()
    ensures Fits(Network8(), 8) && !NetworkIsStable(Network8(), 8)
  {
    var first := Shape8();
    var p := PutIdle(Done, 8, 0, 2, true, 0, 1); p := PutIdle(p, 8, 0, 2, true, 2, 3);
    p := PutIdle(p, 8, 0, 2, true, 4, 5); p := PutIdle(p, 8, 0, 2, true, 6, 7);
    Unstable(Network8(), p, 8, 0, 2, true);
  }

  lemma Unstable9()
    ensures Fits(Network9(), 9) && !NetworkIsStable(Network9(), 9)
  {
    var first := Shape9();
    var p := PutIdle(Done, 9, 2, 5, false, 0, 1); p := PutIdle(p, 9, 2, 5, false, 3, 4);
    p := PutIdle(p, 9, 2, 5, false, 6, 7); p := PutIdle(p, 9, 2, 5, false, 1, 2);
    p := PutIdle(p, 9, 2, 5, false, 4, 5); p := PutIdle(p, 9, 2, 5, false, 7, 8);
    p := PutIdle(p, 9, 2, 5, false, 0, 1); p := PutIdle(p, 9, 2, 5, false, 3, 4);
    p := PutIdle(p, 9, 2, 5, false, 6, 7);
    Unstable(Network9(), p, 9, 2, 5, false);
  }

  lemma Unstable10()
    ensures Fits(Network10(), 10) && !NetworkIsStable(Network10(), 10)
  {
    var first := Shape10();
    Unstable(Network10(), Done, 10, 4, 9, true);
  }

  lemma Unstable11()
    ensures Fits(Network11(), 11) && !NetworkIsStable(Network11(), 11)
  {
    var first := Shape11();
    var p := PutIdle(Done, 11, 1, 3, false, 0, 1); p := PutIdle(p, 11, 1, 3, false, 2, 3);
    p := PutIdle(p, 11, 1, 3, false, 4, 5); p := PutIdle(p, 11, 1, 3, false, 6, 7);
    p := PutIdle(p, 11, 1, 3, false, 8, 9);
    Unstable(Network11(), p, 11, 1, 3, false);
  }

  lemma Unstable12()
    ensures Fits(Network12(), 12) && !NetworkIsStable(Network12(), 12)
  {
    var first := Shape12();
    var p := PutIdle(Done, 12, 1, 3, false, 0, 1); p := PutIdle(p, 12, 1, 3, false, 2, 3);
    p := PutIdle(p, 12, 1, 3, false, 4, 5); p := PutIdle(p, 12, 1, 3, false, 6, 7);
    p := PutIdle(p, 12, 1, 3, false, 8, 9); p := PutIdle(p, 12, 1, 3, false, 10, 11);
    Unstable(Network12(), p, 12, 1, 3, false);
  }

  lemma Unstable13()
    ensures Fits(Network13(), 13) && !NetworkIsStable(Network13(), 13)
  {
    var first := Shape13();
    Unstable(Network13(), Done, 13, 1, 7, false);
  }

  lemma Unstable14()
    ensures Fits(Network14(), 14) && !NetworkIsStable(Network14(), 14)
  {
    var first := Shape14();
    var p := PutIdle(Done, 14, 0, 2, true, 0, 1); p := PutIdle(p, 14, 0, 2, true, 2, 3);
    p := PutIdle(p, 14, 0, 2, true, 4, 5); p := PutIdle(p, 14, 0, 2, true, 6, 7);
    p := PutIdle(p, 14, 0, 2, true, 8, 9); p := PutIdle(p, 14, 0, 2, true, 10, 11);
    p := PutIdle(p, 14, 0, 2, true, 12, 13);
    Unstable(Network14(), p, 14, 0, 2, true);
  }

  lemma Unstable15()
    ensures Fits(Network15(), 15) && !NetworkIsStable(Network15(), 15)
  {
    var first := Shape15();
    var p := PutIdle(Done, 15, 0, 2, true, 0, 1); p := PutIdle(p, 15, 0, 2, true, 2, 3);
    p := PutIdle(p, 15, 0, 2, true, 4, 5); p := PutIdle(p, 15, 0, 2, true, 6, 7);
    p := PutIdle(p, 15, 0, 2, true, 8, 9); p := PutIdle(p, 15, 0, 2, true, 10, 11);
    p := PutIdle(p, 15, 0, 2, true, 12, 13);
    Unstable(Network15(), p, 15, 0, 2, true);
  }

  lemma Unstable16()
    ensures Fits(Network16(), 16) && !NetworkIsStable(Network16(), 16)
  {
    var first := Shape16();
    var p := PutIdle(Done, 16, 0, 2, true, 0, 1); p := PutIdle(p, 16, 0, 2, true, 2, 3);
    p := PutIdle(p, 16, 0, 2, true, 4, 5); p := PutIdle(p, 16, 0, 2, true, 6, 7);
    p := PutIdle(p, 16, 0, 2, true, 8, 9); p := PutIdle(p, 16, 0, 2, true, 10, 11);
    p := PutIdle(p, 16, 0, 2, true, 12, 13); p := PutIdle(p, 16, 0, 2, true, 14, 15);
    Unstable(Network16(), p, 16, 0, 2, true);
  }

  // ---------- The small sort ----------

  // The switch of BITONIC_SORT.
  function NetworkOf(n: nat): Network {
    if n == 2 then Network2()
    else if n == 3 then Network3()
    else if n == 4 then Network4()
    else if n == 5 then Network5()
    else if n == 6 then Network6()
    else if n == 7 then Network7()
    else if n == 8 then Network8()
    else if n == 9 then Network9()
    else if n == 10 then Network10()
    else if n == 11 then Network11()
    else if n == 12 then Network12()
    else if n == 13 then Network13()
    else if n == 14 then Network14()
    else if n == 15 then Network15()
    else if n == 16 then Network16()
    else Done
  }

  // The network fits n cells, sorts them, and is not stable beyond two.
  ghost predicate NetworkFacts(net: Network, n: nat) {
    Fits(net, n) && SortsWires(net, n) && (3 <= n ==> !NetworkIsStable(net, n))
  }

  lemma Networks2To6(n: nat)
    requires 2 <= n <= 6
    ensures NetworkFacts(NetworkOf(n), n)
  {
    if n == 2 {
      var first := Shape2();
      Sorts2();
    } else if n == 3 {
      Unstable3();
      Sorts3();
    } else if n == 4 {
      Unstable4();
      Sorts4();
    } else if n == 5 {
      Unstable5();
      Sorts5();
    } else {
      Unstable6();
      Sorts6();
    }
  }

  lemma Networks7To9(n: nat)
    requires 7 <= n <= 9
    ensures NetworkFacts(NetworkOf(n), n)
  {
    if n == 7 {
      Unstable7();
      Sorts7();
    } else if n == 8 {
      Unstable8();
      Sorts8();
    } else {
      Unstable9();
      Sorts9();
    }
  }

  lemma Networks10To12(n: nat)
    requires 10 <= n <= 12
    ensures NetworkFacts(NetworkOf(n), n)
  {
    if n == 10 {
      Unstable10();
      Sorts10();
    } else if n == 11 {
      Unstable11();
      Sorts11();
    } else {
      Unstable12();
      Sorts12();
    }
  }

  lemma Networks13To14(n: nat)
    requires 13 <= n <= 14
    ensures NetworkFacts(NetworkOf(n), n)
  {
    if n == 13 {
      Unstable13();
      Sorts13();
    } else {
      Unstable14();
      Sorts14();
    }
  }

  lemma Networks15To16(n: nat)
    requires 15 <= n <= 16
    ensures NetworkFacts(NetworkOf(n), n)
  {
    if n == 15 {
      Unstable15();
      Sorts15();
    } else {
      Unstable16();
      Sorts16();
    }
  }

  lemma NetworkOfFacts(n: nat)
    requires 2 <= n <= 16
    ensures NetworkFacts(NetworkOf(n), n)
  {
    if n <= 6 {
      Networks2To6(n);
    } else if n <= 9 {
      Networks7To9(n);
    } else if n <= 12 {
      Networks10To12(n);
    } else if n <= 14 {
      Networks13To14(n);
    } else {
      Networks15To16(n);
    }
  }

  lemma NetworkFits(n: nat)
    requires n <= 16
    ensures Fits(NetworkOf(n), n)
  {
    if 2 <= n {
      NetworkOfFacts(n);
    }
  }

  /** Every one of the networks sorts every input. */
  lemma NetworkSorts(n: nat)
    requires n <= 16
    ensures Fits(NetworkOf(n), n) && SortsAll(NetworkOf(n), n)
  {
    NetworkFits(n);
    if 2 <= n {
      NetworkOfFacts(n);
      SortsByWires(NetworkOf(n), n);
    } else {
      forall s: seq<Elem> | |s| == n ensures Sorted(Apply(NetworkOf(n), s)) {
        assert Apply(NetworkOf(n), s) == s;
      }
    }
  }

  // What SMALL_SORT leaves in place of s.
  function SmallSorted(s: seq<Elem>): seq<Elem> {
    if |s| <= 16 then NetworkFits(|s|); Apply(NetworkOf(|s|), s) else StableSort(s)
  }

  /** The small sort sorts, for every length. */
  lemma SmallSortCorrect(s: seq<Elem>)
    ensures Sorted(SmallSorted(s)) && multiset(SmallSorted(s)) == multiset(s) && |SmallSorted(s)| == |s|
  {
    if |s| <= 16 {
      NetworkSorts(|s|);
      ApplyPermutes(NetworkOf(|s|), s);
    } else {
      StableSortCorrect(s);
    }
  }

  // ---------- The sort in place ----------

  // SORT_CSWAP(dst[i], dst[j]) where dst points at arr[lo].
  method CompareSwap(arr: array<Elem>, lo: nat, n: nat, i: nat, j: nat)
    requires i < j < n && lo + n <= arr.Length
    modifies arr
    ensures arr[lo..lo + n] == Exchange(old(arr[lo..lo + n]), i, j)
    ensures SameOutside(arr[..], old(arr[..]), lo, lo + n)
  {
    if Cmp(arr[lo + i], arr[lo + j]) > 0 {
      arr[lo + i], arr[lo + j] := arr[lo + j], arr[lo + i];
    }
  }

  // The straight-line code of one network.
  method RunNetwork(arr: array<Elem>, lo: nat, n: nat, net: Network)
    requires Fits(net, n) && lo + n <= arr.Length
    modifies arr
    ensures arr[lo..lo + n] == Apply(net, old(arr[lo..lo + n]))
    ensures SameOutside(arr[..], old(arr[..]), lo, lo + n)
    decreases net
  {
    match net
    case Done =>
    case Then(before, i, j) =>
      RunNetwork(arr, lo, n, before);
      ghost var d := arr[..];
      CompareSwap(arr, lo, n, i, j);
      SameOutsideTrans(arr[..], d, old(arr[..]), lo, lo + n);
  }

  /** BITONIC_SORT, which is SMALL_SORT. */
  method BitonicSort(arr: array<Elem>, lo: nat, size: nat)
    requires lo + size <= arr.Length
    modifies arr
    ensures arr[lo..lo + size] == SmallSorted(old(arr[lo..lo + size]))
    ensures SameOutside(arr[..], old(arr[..]), lo, lo + size)
  {
    if size <= 16 {
      NetworkFits(size);
      RunNetwork(arr, lo, size, NetworkOf(size));
    } else {
      BinaryInsertionSort(arr, lo, size);
    }
  }

  // ---------- Stability of the small sort ----------

  // Equal keys keep their order under the small sort, for every input of n elements.
  ghost predicate SmallSortIsStable(n: nat) {
    forall s: seq<Elem> {:trigger SmallSorted(s)} :: |s| == n ==> Stable(SmallSorted(s), s)
  }

  lemma PairStable(s: seq<Elem>)
    requires |s| == 2
    ensures Stable(SmallSorted(s), s)
  {
    NetworkFits(2);
    assert Apply(Done, s) == s;
    assert SmallSorted(s) == Exchange(s, 0, 1);
    if Cmp(s[0], s[1]) > 0 {
      StableExchange([s[1]], [s[0]]);
      assert SmallSorted(s) == [s[1]] + [s[0]] && s == [s[0]] + [s[1]];
    } else {
      StableRefl(s);
    }
  }

  lemma SmallSortTiny(s: seq<Elem>)
    requires |s| <= 1
    ensures SmallSorted(s) == s
  {
  }

  lemma StableSizes(n: nat)
    requires n <= 2 || 16 < n
    ensures SmallSortIsStable(n)
  {
    forall s: seq<Elem> | |s| == n ensures Stable(SmallSorted(s), s) {
      if n <= 1 {
        SmallSortTiny(s);
        StableRefl(s);
      } else if n == 2 {
        PairStable(s);
      } else {
        StableSortCorrect(s);
      }
    }
  }

  lemma UnstableSizes(n: nat)
    requires 3 <= n <= 16
    ensures !SmallSortIsStable(n)
  {
    NetworkOfFacts(n);
    NotStableAsASort(NetworkOf(n), n);
  }

  lemma NotStableAsASort(net: Network, n: nat)
    requires n <= 16 && net == NetworkOf(n) && Fits(net, n) && !NetworkIsStable(net, n)
    ensures !SmallSortIsStable(n)
  {
    var s: seq<Elem> :| |s| == n && !Stable(Apply(net, s), s);
    assert SmallSorted(s) == Apply(net, s);
  }

  /** The small sort is stable exactly when it is given at most 2 or more than 16 elements. */
  lemma SmallSortStability(n: nat)
    ensures SmallSortIsStable(n) <==> n <= 2 || 16 < n
  {
    if n <= 2 || 16 < n {
      StableSizes(n);
    } else {
      UnstableSizes(n);
    }
  }
}
