/** Compare-exchange networks and the 0-1 principle.

A network is the list of its SORT_CSWAP calls in program order.
 */
module Networks {
  import opened Order

  datatype Network = Done | Then(before: Network, i: nat, j: nat) {
    // One more SORT_CSWAP(dst[i], dst[j]) at the end.
    function X(i: nat, j: nat): Network {
      Then(this, i, j)
    }
  }

  // Every exchange is between a lower and a higher of the first n cells.
  predicate Fits(net: Network, n: nat) {
    net.Then? ==> net.i < net.j < n && Fits(net.before, n)
  }

  // SORT_CSWAP
  function Exchange(s: seq<Elem>, i: nat, j: nat): seq<Elem>
    requires i < j < |s|
  {
    if Cmp(s[i], s[j]) > 0 then s[i := s[j]][j := s[i]] else s
  }

  function Apply(net: Network, s: seq<Elem>): (t: seq<Elem>)
    requires Fits(net, |s|)
    ensures |t| == |s|
  {
    match net
    case Done => s
    case Then(before, i, j) => Exchange(Apply(before, s), i, j)
  }

  lemma {:induction false} ApplyPermutes(net: Network, s: seq<Elem>)
    requires Fits(net, |s|)
    ensures multiset(Apply(net, s)) == multiset(s)
  {
    if net.Then? {
      ApplyPermutes(net.before, s);
      var t := Apply(net.before, s);
      ExchangePermutes(t, net.i, net.j);
    }
  }

  lemma ExchangePermutes(s: seq<Elem>, i: nat, j: nat)
    requires i < j < |s|
    ensures multiset(Exchange(s, i, j)) == multiset(s)
  {
  }

  // ---------- The 0-1 principle ----------

  function ExchangeB(b: seq<bool>, i: nat, j: nat): seq<bool>
    requires i < j < |b|
  {
    b[i := b[i] && b[j]][j := b[i] || b[j]]
  }

  function ApplyB(net: Network, b: seq<bool>): (c: seq<bool>)
    requires Fits(net, |b|)
    ensures |c| == |b|
  {
    match net
    case Done => b
    case Then(before, i, j) => ExchangeB(ApplyB(before, b), i, j)
  }

  // False before true.
  predicate SortedB(b: seq<bool>) {
    forall i, j :: 0 <= i < j < |b| && b[i] ==> b[j]
  }

  // Which elements lie above t.
  function Threshold(s: seq<Elem>, t: int): (b: seq<bool>)
    ensures |b| == |s| && forall k :: 0 <= k < |s| ==> b[k] == (t < s[k].key)
  {
    seq(|s|, k requires 0 <= k < |s| => t < s[k].key)
  }

  // A sequence of elements with keys 0 and 1.
  function Embed(b: seq<bool>): (s: seq<Elem>)
    ensures |s| == |b| && forall k :: 0 <= k < |b| ==> s[k].key == if b[k] then 1 else 0
  {
    seq(|b|, k requires 0 <= k < |b| => Elem(if b[k] then 1 else 0, k))
  }

  lemma ThresholdExchange(s: seq<Elem>, t: int, i: nat, j: nat)
    requires i < j < |s|
    ensures Threshold(Exchange(s, i, j), t) == ExchangeB(Threshold(s, t), i, j)
  {
  }

  lemma {:induction false} ThresholdApply(net: Network, s: seq<Elem>, t: int)
    requires Fits(net, |s|)
    ensures Threshold(Apply(net, s), t) == ApplyB(net, Threshold(s, t))
  {
    if net.Then? {
      ThresholdApply(net.before, s, t);
      ThresholdExchange(Apply(net.before, s), t, net.i, net.j);
    }
  }

  // The network sorts every sequence of n elements.
  ghost predicate SortsAll(net: Network, n: nat)
    requires Fits(net, n)
  {
    forall s: seq<Elem> {:trigger Apply(net, s)} :: |s| == n ==> Sorted(Apply(net, s))
  }

  // The network sorts every sequence of n truth values.
  ghost predicate SortsTruth(net: Network, n: nat)
    requires Fits(net, n)
  {
    forall b: seq<bool> {:trigger ApplyB(net, b)} :: |b| == n ==> SortedB(ApplyB(net, b))
  }

  lemma SortedPair(b: seq<bool>, i: nat, j: nat)
    requires SortedB(b) && i < j < |b|
    ensures b[i] ==> b[j]
  {
  }

  lemma SortedByThresholds(s: seq<Elem>)
    requires forall t :: SortedB(Threshold(s, t))
    ensures Sorted(s)
  {
    forall i, j | 0 <= i <= j < |s| ensures InOrder(s, i, j) {
      if i < j {
        SortedPair(Threshold(s, s[j].key), i, j);
      }
    }
  }

  lemma SortedThreshold(s: seq<Elem>, t: int)
    requires Sorted(s)
    ensures SortedB(Threshold(s, t))
  {
    var b := Threshold(s, t);
    forall i, j | 0 <= i < j < |b| && b[i] ensures b[j] {
      assert InOrder(s, i, j);
    }
  }

  lemma SortsElements(net: Network, s: seq<Elem>)
    requires Fits(net, |s|) && SortsTruth(net, |s|)
    ensures Sorted(Apply(net, s))
  {
    forall t ensures SortedB(Threshold(Apply(net, s), t)) {
      ThresholdApply(net, s, t);
      assert |Threshold(s, t)| == |s|;
    }
    SortedByThresholds(Apply(net, s));
  }

  lemma SortsTruthValues(net: Network, b: seq<bool>)
    requires Fits(net, |b|) && SortsAll(net, |b|)
    ensures SortedB(ApplyB(net, b))
  {
    var s := Embed(b);
    assert Threshold(s, 0) == b;
    ThresholdApply(net, s, 0);
    SortedThreshold(Apply(net, s), 0);
  }

  lemma TruthSuffices(net: Network, n: nat)
    requires Fits(net, n) && SortsTruth(net, n)
    ensures SortsAll(net, n)
  {
    forall s: seq<Elem> | |s| == n ensures Sorted(Apply(net, s)) {
      SortsElements(net, s);
    }
  }

  lemma TruthNecessary(net: Network, n: nat)
    requires Fits(net, n) && SortsAll(net, n)
    ensures SortsTruth(net, n)
  {
    forall b: seq<bool> | |b| == n ensures SortedB(ApplyB(net, b)) {
      SortsTruthValues(net, b);
    }
  }

  /** The 0-1 principle: a network sorts every sequence of n elements exactly when it sorts every
      sequence of n truth values. */
  lemma ZeroOnePrinciple(net: Network, n: nat)
    requires Fits(net, n)
    ensures SortsAll(net, n) <==> SortsTruth(net, n)
  {
    if SortsTruth(net, n) {
      TruthSuffices(net, n);
    } else if SortsAll(net, n) {
      TruthNecessary(net, n);
    }
  }

  // ---------- Sixteen wires ----------

  datatype Bit = Bit(v: bool)

  function And(x: Bit, y: Bit): Bit {
    Bit(x.v && y.v)
  }

  function Or(x: Bit, y: Bit): Bit {
    Bit(x.v || y.v)
  }

  datatype Wires = Wires(w0: Bit, w1: Bit, w2: Bit, w3: Bit, w4: Bit, w5: Bit, w6: Bit, w7: Bit,
                         w8: Bit, w9: Bit, w10: Bit, w11: Bit, w12: Bit, w13: Bit, w14: Bit, w15: Bit)
  {
    function Get(k: nat): Bit {
      if k == 0 then w0 else if k == 1 then w1 else if k == 2 then w2 else if k == 3 then w3
      else if k == 4 then w4 else if k == 5 then w5 else if k == 6 then w6 else if k == 7 then w7
      else if k == 8 then w8 else if k == 9 then w9 else if k == 10 then w10 else if k == 11 then w11
      else if k == 12 then w12 else if k == 13 then w13 else if k == 14 then w14 else w15
    }

    // The exchanges that the networks make, one function for each pair of wires.
    function X0_1(): Wires { this.(w0 := And(w0, w1), w1 := Or(w0, w1)) }
    function X0_2(): Wires { this.(w0 := And(w0, w2), w2 := Or(w0, w2)) }
    function X0_3(): Wires { this.(w0 := And(w0, w3), w3 := Or(w0, w3)) }
    function X0_4(): Wires { this.(w0 := And(w0, w4), w4 := Or(w0, w4)) }
    function X0_5(): Wires { this.(w0 := And(w0, w5), w5 := Or(w0, w5)) }
    function X0_8(): Wires { this.(w0 := And(w0, w8), w8 := Or(w0, w8)) }
    function X0_12(): Wires { this.(w0 := And(w0, w12), w12 := Or(w0, w12)) }
    function X1_2(): Wires { this.(w1 := And(w1, w2), w2 := Or(w1, w2)) }
    function X1_3(): Wires { this.(w1 := And(w1, w3), w3 := Or(w1, w3)) }
    function X1_4(): Wires { this.(w1 := And(w1, w4), w4 := Or(w1, w4)) }
    function X1_5(): Wires { this.(w1 := And(w1, w5), w5 := Or(w1, w5)) }
    function X1_6(): Wires { this.(w1 := And(w1, w6), w6 := Or(w1, w6)) }
    function X1_7(): Wires { this.(w1 := And(w1, w7), w7 := Or(w1, w7)) }
    function X1_9(): Wires { this.(w1 := And(w1, w9), w9 := Or(w1, w9)) }
    function X2_3(): Wires { this.(w2 := And(w2, w3), w3 := Or(w2, w3)) }
    function X2_4(): Wires { this.(w2 := And(w2, w4), w4 := Or(w2, w4)) }
    function X2_5(): Wires { this.(w2 := And(w2, w5), w5 := Or(w2, w5)) }
    function X2_6(): Wires { this.(w2 := And(w2, w6), w6 := Or(w2, w6)) }
    function X2_7(): Wires { this.(w2 := And(w2, w7), w7 := Or(w2, w7)) }
    function X2_8(): Wires { this.(w2 := And(w2, w8), w8 := Or(w2, w8)) }
    function X2_10(): Wires { this.(w2 := And(w2, w10), w10 := Or(w2, w10)) }
    function X3_4(): Wires { this.(w3 := And(w3, w4), w4 := Or(w3, w4)) }
    function X3_5(): Wires { this.(w3 := And(w3, w5), w5 := Or(w3, w5)) }
    function X3_6(): Wires { this.(w3 := And(w3, w6), w6 := Or(w3, w6)) }
    function X3_7(): Wires { this.(w3 := And(w3, w7), w7 := Or(w3, w7)) }
    function X3_8(): Wires { this.(w3 := And(w3, w8), w8 := Or(w3, w8)) }
    function X3_11(): Wires { this.(w3 := And(w3, w11), w11 := Or(w3, w11)) }
    function X3_12(): Wires { this.(w3 := And(w3, w12), w12 := Or(w3, w12)) }
    function X4_5(): Wires { this.(w4 := And(w4, w5), w5 := Or(w4, w5)) }
    function X4_6(): Wires { this.(w4 := And(w4, w6), w6 := Or(w4, w6)) }
    function X4_7(): Wires { this.(w4 := And(w4, w7), w7 := Or(w4, w7)) }
    function X4_8(): Wires { this.(w4 := And(w4, w8), w8 := Or(w4, w8)) }
    function X4_9(): Wires { this.(w4 := And(w4, w9), w9 := Or(w4, w9)) }
    function X4_12(): Wires { this.(w4 := And(w4, w12), w12 := Or(w4, w12)) }
    function X5_6(): Wires { this.(w5 := And(w5, w6), w6 := Or(w5, w6)) }
    function X5_7(): Wires { this.(w5 := And(w5, w7), w7 := Or(w5, w7)) }
    function X5_8(): Wires { this.(w5 := And(w5, w8), w8 := Or(w5, w8)) }
    function X5_9(): Wires { this.(w5 := And(w5, w9), w9 := Or(w5, w9)) }
    function X5_10(): Wires { this.(w5 := And(w5, w10), w10 := Or(w5, w10)) }
    function X5_13(): Wires { this.(w5 := And(w5, w13), w13 := Or(w5, w13)) }
    function X6_7(): Wires { this.(w6 := And(w6, w7), w7 := Or(w6, w7)) }
    function X6_8(): Wires { this.(w6 := And(w6, w8), w8 := Or(w6, w8)) }
    function X6_9(): Wires { this.(w6 := And(w6, w9), w9 := Or(w6, w9)) }
    function X6_10(): Wires { this.(w6 := And(w6, w10), w10 := Or(w6, w10)) }
    function X6_12(): Wires { this.(w6 := And(w6, w12), w12 := Or(w6, w12)) }
    function X6_14(): Wires { this.(w6 := And(w6, w14), w14 := Or(w6, w14)) }
    function X7_8(): Wires { this.(w7 := And(w7, w8), w8 := Or(w7, w8)) }
    function X7_9(): Wires { this.(w7 := And(w7, w9), w9 := Or(w7, w9)) }
    function X7_10(): Wires { this.(w7 := And(w7, w10), w10 := Or(w7, w10)) }
    function X7_11(): Wires { this.(w7 := And(w7, w11), w11 := Or(w7, w11)) }
    function X7_12(): Wires { this.(w7 := And(w7, w12), w12 := Or(w7, w12)) }
    function X7_13(): Wires { this.(w7 := And(w7, w13), w13 := Or(w7, w13)) }
    function X7_15(): Wires { this.(w7 := And(w7, w15), w15 := Or(w7, w15)) }
    function X8_9(): Wires { this.(w8 := And(w8, w9), w9 := Or(w8, w9)) }
    function X8_10(): Wires { this.(w8 := And(w8, w10), w10 := Or(w8, w10)) }
    function X8_11(): Wires { this.(w8 := And(w8, w11), w11 := Or(w8, w11)) }
    function X8_12(): Wires { this.(w8 := And(w8, w12), w12 := Or(w8, w12)) }
    function X9_10(): Wires { this.(w9 := And(w9, w10), w10 := Or(w9, w10)) }
    function X9_11(): Wires { this.(w9 := And(w9, w11), w11 := Or(w9, w11)) }
    function X9_13(): Wires { this.(w9 := And(w9, w13), w13 := Or(w9, w13)) }
    function X10_11(): Wires { this.(w10 := And(w10, w11), w11 := Or(w10, w11)) }
    function X10_12(): Wires { this.(w10 := And(w10, w12), w12 := Or(w10, w12)) }
    function X10_14(): Wires { this.(w10 := And(w10, w14), w14 := Or(w10, w14)) }
    function X11_12(): Wires { this.(w11 := And(w11, w12), w12 := Or(w11, w12)) }
    function X11_13(): Wires { this.(w11 := And(w11, w13), w13 := Or(w11, w13)) }
    function X11_14(): Wires { this.(w11 := And(w11, w14), w14 := Or(w11, w14)) }
    function X11_15(): Wires { this.(w11 := And(w11, w15), w15 := Or(w11, w15)) }
    function X12_13(): Wires { this.(w12 := And(w12, w13), w13 := Or(w12, w13)) }
    function X12_14(): Wires { this.(w12 := And(w12, w14), w14 := Or(w12, w14)) }
    function X13_14(): Wires { this.(w13 := And(w13, w14), w14 := Or(w13, w14)) }
    function X13_15(): Wires { this.(w13 := And(w13, w15), w15 := Or(w13, w15)) }
    function X14_15(): Wires { this.(w14 := And(w14, w15), w15 := Or(w14, w15)) }
  }

  // The truth value at k; wires beyond the end of b carry false.
  function BitAt(b: seq<bool>, k: nat): Bit {
    Bit(k < |b| && b[k])
  }

  function ToWires(b: seq<bool>): Wires {
    Wires(
      BitAt(b, 0), BitAt(b, 1), BitAt(b, 2), BitAt(b, 3), BitAt(b, 4), BitAt(b, 5), BitAt(b, 6), BitAt(b, 7),
      BitAt(b, 8), BitAt(b, 9), BitAt(b, 10), BitAt(b, 11), BitAt(b, 12), BitAt(b, 13), BitAt(b, 14), BitAt(b, 15))
  }

  // What is on wire k after an exchange of the wires i and j.
  function Pick(w: Wires, i: nat, j: nat, k: nat, x: Bit): Bit {
    if i == k then And(w.Get(i), w.Get(j)) else if j == k then Or(w.Get(i), w.Get(j)) else x
  }

  function ExchangeW(w: Wires, i: nat, j: nat): Wires {
    Wires(
      Pick(w, i, j, 0, w.w0), Pick(w, i, j, 1, w.w1), Pick(w, i, j, 2, w.w2), Pick(w, i, j, 3, w.w3),
      Pick(w, i, j, 4, w.w4), Pick(w, i, j, 5, w.w5), Pick(w, i, j, 6, w.w6), Pick(w, i, j, 7, w.w7),
      Pick(w, i, j, 8, w.w8), Pick(w, i, j, 9, w.w9), Pick(w, i, j, 10, w.w10), Pick(w, i, j, 11, w.w11),
      Pick(w, i, j, 12, w.w12), Pick(w, i, j, 13, w.w13), Pick(w, i, j, 14, w.w14), Pick(w, i, j, 15, w.w15))
  }

  function ApplyW(net: Network, w: Wires): Wires {
    match net
    case Done => w
    case Then(before, i, j) => ExchangeW(ApplyW(before, w), i, j)
  }

  lemma GetToWires(b: seq<bool>, k: nat)
    requires k < 16
    ensures ToWires(b).Get(k) == BitAt(b, k)
  {
  }

  lemma BitAtExchange(b: seq<bool>, i: nat, j: nat, k: nat)
    requires i < j < |b| <= 16
    ensures BitAt(ExchangeB(b, i, j), k) == Pick(ToWires(b), i, j, k, BitAt(b, k))
  {
    GetToWires(b, i);
    GetToWires(b, j);
  }

  lemma ToWiresExchange(b: seq<bool>, i: nat, j: nat)
    requires i < j < |b| <= 16
    ensures ToWires(ExchangeB(b, i, j)) == ExchangeW(ToWires(b), i, j)
  {
    var c, w := ExchangeB(b, i, j), ToWires(b);
    forall k: nat ensures BitAt(c, k) == Pick(w, i, j, k, BitAt(b, k)) {
      BitAtExchange(b, i, j, k);
    }
  }

  lemma {:induction false} ToWiresApply(net: Network, b: seq<bool>)
    requires Fits(net, |b|) && |b| <= 16
    ensures ToWires(ApplyB(net, b)) == ApplyW(net, ToWires(b))
  {
    if net.Then? {
      ToWiresApply(net.before, b);
      ToWiresExchange(ApplyB(net.before, b), net.i, net.j);
    }
  }

  predicate Le(x: Bit, y: Bit) {
    x.v ==> y.v
  }

  // Every true wire among the first n has only true wires above it.
  predicate SortedW(w: Wires, n: nat) {
    && (1 < n ==> Le(w.w0, w.w1))
    && (2 < n ==> Le(w.w1, w.w2))
    && (3 < n ==> Le(w.w2, w.w3))
    && (4 < n ==> Le(w.w3, w.w4))
    && (5 < n ==> Le(w.w4, w.w5))
    && (6 < n ==> Le(w.w5, w.w6))
    && (7 < n ==> Le(w.w6, w.w7))
    && (8 < n ==> Le(w.w7, w.w8))
    && (9 < n ==> Le(w.w8, w.w9))
    && (10 < n ==> Le(w.w9, w.w10))
    && (11 < n ==> Le(w.w10, w.w11))
    && (12 < n ==> Le(w.w11, w.w12))
    && (13 < n ==> Le(w.w12, w.w13))
    && (14 < n ==> Le(w.w13, w.w14))
    && (15 < n ==> Le(w.w14, w.w15))
  }

  lemma SortedWAt(w: Wires, n: nat, k: nat)
    requires SortedW(w, n) && k + 1 < n <= 16
    ensures Le(w.Get(k), w.Get(k + 1))
  {
  }

  lemma {:induction false} SortedFromWires(b: seq<bool>, i: nat, j: nat)
    requires SortedW(ToWires(b), |b|) && i < j < |b| <= 16 && b[i]
    ensures b[j]
    decreases j
  {
    if i < j - 1 {
      SortedFromWires(b, i, j - 1);
    }
    SortedWAt(ToWires(b), |b|, j - 1);
    GetToWires(b, j - 1);
    GetToWires(b, j);
  }

  // Whatever the wires carry, the network leaves the first n in order.
  ghost predicate SortsWires(net: Network, n: nat) {
    forall w {:trigger ApplyW(net, w)} :: SortedW(ApplyW(net, w), n)
  }

  lemma WiresSuffice(net: Network, n: nat)
    requires Fits(net, n) && n <= 16 && SortsWires(net, n)
    ensures SortsAll(net, n)
  {
    forall b: seq<bool> | |b| == n ensures SortedB(ApplyB(net, b)) {
      ToWiresApply(net, b);
      var c := ApplyB(net, b);
      forall i, j | 0 <= i < j < |c| && c[i] ensures c[j] {
        SortedFromWires(c, i, j);
      }
    }
    ZeroOnePrinciple(net, n);
  }

  // The first |b| wires carry b.
  predicate Carries(w: Wires, b: seq<bool>) {
    forall k: nat {:trigger w.Get(k)} :: k < |b| ==> w.Get(k).v == b[k]
  }

  lemma GetExchange(w: Wires, i: nat, j: nat, k: nat)
    requires k < 16
    ensures ExchangeW(w, i, j).Get(k) == Pick(w, i, j, k, w.Get(k))
  {
  }

  lemma CarriesExchange(w: Wires, b: seq<bool>, i: nat, j: nat)
    requires Carries(w, b) && i < j < |b| <= 16
    ensures Carries(ExchangeW(w, i, j), ExchangeB(b, i, j))
  {
    var v, c := ExchangeW(w, i, j), ExchangeB(b, i, j);
    forall k: nat | k < |c| ensures v.Get(k).v == c[k] {
      GetExchange(w, i, j, k);
      assert w.Get(k).v == b[k] && w.Get(i).v == b[i] && w.Get(j).v == b[j];
    }
  }

  lemma {:induction false} CarriesApply(net: Network, w: Wires, b: seq<bool>)
    requires Fits(net, |b|) && Carries(w, b) && |b| <= 16
    ensures Carries(ApplyW(net, w), ApplyB(net, b))
  {
    if net.Then? {
      CarriesApply(net.before, w, b);
      CarriesExchange(ApplyW(net.before, w), ApplyB(net.before, b), net.i, net.j);
    }
  }

  lemma SortedCarried(w: Wires, b: seq<bool>)
    requires Carries(w, b) && SortedB(b) && |b| <= 16
    ensures SortedW(w, |b|)
  {
    forall k: nat | k + 1 < |b| ensures Le(w.Get(k), w.Get(k + 1)) {
      SortedPair(b, k, k + 1);
      assert w.Get(k).v == b[k] && w.Get(k + 1).v == b[k + 1];
    }
    PairsSorted(w, |b|);
  }

  lemma Gets(w: Wires)
    ensures w == Wires(w.Get(0), w.Get(1), w.Get(2), w.Get(3), w.Get(4), w.Get(5), w.Get(6), w.Get(7),
                       w.Get(8), w.Get(9), w.Get(10), w.Get(11), w.Get(12), w.Get(13), w.Get(14), w.Get(15))
  {
  }

  lemma PairsSorted(w: Wires, n: nat)
    requires n <= 16 && forall k: nat {:trigger w.Get(k)} :: k + 1 < n ==> Le(w.Get(k), w.Get(k + 1))
    ensures SortedW(w, n)
  {
    Gets(w);
  }

  lemma WiresNecessary(net: Network, n: nat)
    requires Fits(net, n) && n <= 16 && SortsAll(net, n)
    ensures SortsWires(net, n)
  {
    ZeroOnePrinciple(net, n);
    forall w ensures SortedW(ApplyW(net, w), n) {
      var b := seq(n, k requires 0 <= k < n => w.Get(k).v);
      CarriesApply(net, w, b);
      SortedCarried(ApplyW(net, w), ApplyB(net, b));
    }
  }

  /** Sixteen wires decide whether a network sorts all sequences of n <= 16 elements. */
  lemma SortsByWires(net: Network, n: nat)
    requires Fits(net, n) && n <= 16
    ensures SortsAll(net, n) <==> SortsWires(net, n)
  {
    if SortsWires(net, n) {
      WiresSuffice(net, n);
    } else if SortsAll(net, n) {
      WiresNecessary(net, n);
    }
  }

  // net consists of the exchanges of p followed by some more.
  predicate Extends(net: Network, p: Network) {
    net == p || (net.Then? && Extends(net.before, p))
  }

  // One more exchange, and four more: what the network does to wires.
  lemma One(net: Network, w: Wires, i: nat, j: nat) returns (next: Network)
    ensures next == net.X(i, j) && ApplyW(next, w) == ExchangeW(ApplyW(net, w), i, j)
  {
    next := net.X(i, j);
  }

  lemma Four(net: Network, w: Wires, i0: nat, j0: nat, i1: nat, j1: nat, i2: nat, j2: nat, i3: nat, j3: nat)
    returns (next: Network)
    ensures next == net.X(i0, j0).X(i1, j1).X(i2, j2).X(i3, j3)
    ensures ApplyW(next, w)
         == ExchangeW(ExchangeW(ExchangeW(ExchangeW(ApplyW(net, w), i0, j0), i1, j1), i2, j2), i3, j3)
  {
    next := net.X(i0, j0).X(i1, j1).X(i2, j2).X(i3, j3);
    assert ApplyW(net.X(i0, j0).X(i1, j1), w) == ExchangeW(ExchangeW(ApplyW(net, w), i0, j0), i1, j1);
  }

  // The same for the shape of the network.
  predicate Shape(net: Network, first: Network, n: nat) {
    Fits(net, n) && Extends(net, first)
  }

  lemma Put(net: Network, first: Network, n: nat, i: nat, j: nat) returns (next: Network)
    requires Shape(net, first, n) && i < j < n
    ensures next == net.X(i, j) && Shape(next, first, n) && Shape(next, next, n)
  {
    next := net.X(i, j);
  }

  lemma PutFour(net: Network, first: Network, n: nat,
                i0: nat, j0: nat, i1: nat, j1: nat, i2: nat, j2: nat, i3: nat, j3: nat)
    returns (next: Network)
    requires Shape(net, first, n) && i0 < j0 < n && i1 < j1 < n && i2 < j2 < n && i3 < j3 < n
    ensures next == net.X(i0, j0).X(i1, j1).X(i2, j2).X(i3, j3)
    ensures Shape(next, first, n) && Shape(next, next, n)
  {
    next := Put(net, first, n, i0, j0);
    next := Put(next, first, n, i1, j1);
    next := Put(next, first, n, i2, j2);
    next := Put(next, first, n, i3, j3);
  }

  // ExchangeW at constant indices is the function named after them.

  lemma Table0()
    ensures forall w {:trigger ExchangeW(w, 0, 1)} :: ExchangeW(w, 0, 1) == w.X0_1()
    ensures forall w {:trigger ExchangeW(w, 0, 2)} :: ExchangeW(w, 0, 2) == w.X0_2()
    ensures forall w {:trigger ExchangeW(w, 0, 3)} :: ExchangeW(w, 0, 3) == w.X0_3()
    ensures forall w {:trigger ExchangeW(w, 0, 4)} :: ExchangeW(w, 0, 4) == w.X0_4()
    ensures forall w {:trigger ExchangeW(w, 0, 5)} :: ExchangeW(w, 0, 5) == w.X0_5()
    ensures forall w {:trigger ExchangeW(w, 0, 8)} :: ExchangeW(w, 0, 8) == w.X0_8()
    ensures forall w {:trigger ExchangeW(w, 0, 12)} :: ExchangeW(w, 0, 12) == w.X0_12()
    ensures forall w {:trigger ExchangeW(w, 1, 2)} :: ExchangeW(w, 1, 2) == w.X1_2()
    ensures forall w {:trigger ExchangeW(w, 1, 3)} :: ExchangeW(w, 1, 3) == w.X1_3()
    ensures forall w {:trigger ExchangeW(w, 1, 4)} :: ExchangeW(w, 1, 4) == w.X1_4()
    ensures forall w {:trigger ExchangeW(w, 1, 5)} :: ExchangeW(w, 1, 5) == w.X1_5()
    ensures forall w {:trigger ExchangeW(w, 1, 6)} :: ExchangeW(w, 1, 6) == w.X1_6()
  {
  }

  lemma Table1()
    ensures forall w {:trigger ExchangeW(w, 1, 7)} :: ExchangeW(w, 1, 7) == w.X1_7()
    ensures forall w {:trigger ExchangeW(w, 1, 9)} :: ExchangeW(w, 1, 9) == w.X1_9()
    ensures forall w {:trigger ExchangeW(w, 2, 3)} :: ExchangeW(w, 2, 3) == w.X2_3()
    ensures forall w {:trigger ExchangeW(w, 2, 4)} :: ExchangeW(w, 2, 4) == w.X2_4()
    ensures forall w {:trigger ExchangeW(w, 2, 5)} :: ExchangeW(w, 2, 5) == w.X2_5()
    ensures forall w {:trigger ExchangeW(w, 2, 6)} :: ExchangeW(w, 2, 6) == w.X2_6()
    ensures forall w {:trigger ExchangeW(w, 2, 7)} :: ExchangeW(w, 2, 7) == w.X2_7()
    ensures forall w {:trigger ExchangeW(w, 2, 8)} :: ExchangeW(w, 2, 8) == w.X2_8()
    ensures forall w {:trigger ExchangeW(w, 2, 10)} :: ExchangeW(w, 2, 10) == w.X2_10()
    ensures forall w {:trigger ExchangeW(w, 3, 4)} :: ExchangeW(w, 3, 4) == w.X3_4()
    ensures forall w {:trigger ExchangeW(w, 3, 5)} :: ExchangeW(w, 3, 5) == w.X3_5()
    ensures forall w {:trigger ExchangeW(w, 3, 6)} :: ExchangeW(w, 3, 6) == w.X3_6()
  {
  }

  lemma Table2()
    ensures forall w {:trigger ExchangeW(w, 3, 7)} :: ExchangeW(w, 3, 7) == w.X3_7()
    ensures forall w {:trigger ExchangeW(w, 3, 8)} :: ExchangeW(w, 3, 8) == w.X3_8()
    ensures forall w {:trigger ExchangeW(w, 3, 11)} :: ExchangeW(w, 3, 11) == w.X3_11()
    ensures forall w {:trigger ExchangeW(w, 3, 12)} :: ExchangeW(w, 3, 12) == w.X3_12()
    ensures forall w {:trigger ExchangeW(w, 4, 5)} :: ExchangeW(w, 4, 5) == w.X4_5()
    ensures forall w {:trigger ExchangeW(w, 4, 6)} :: ExchangeW(w, 4, 6) == w.X4_6()
    ensures forall w {:trigger ExchangeW(w, 4, 7)} :: ExchangeW(w, 4, 7) == w.X4_7()
    ensures forall w {:trigger ExchangeW(w, 4, 8)} :: ExchangeW(w, 4, 8) == w.X4_8()
    ensures forall w {:trigger ExchangeW(w, 4, 9)} :: ExchangeW(w, 4, 9) == w.X4_9()
    ensures forall w {:trigger ExchangeW(w, 4, 12)} :: ExchangeW(w, 4, 12) == w.X4_12()
    ensures forall w {:trigger ExchangeW(w, 5, 6)} :: ExchangeW(w, 5, 6) == w.X5_6()
    ensures forall w {:trigger ExchangeW(w, 5, 7)} :: ExchangeW(w, 5, 7) == w.X5_7()
  {
  }

  lemma Table3()
    ensures forall w {:trigger ExchangeW(w, 5, 8)} :: ExchangeW(w, 5, 8) == w.X5_8()
    ensures forall w {:trigger ExchangeW(w, 5, 9)} :: ExchangeW(w, 5, 9) == w.X5_9()
    ensures forall w {:trigger ExchangeW(w, 5, 10)} :: ExchangeW(w, 5, 10) == w.X5_10()
    ensures forall w {:trigger ExchangeW(w, 5, 13)} :: ExchangeW(w, 5, 13) == w.X5_13()
    ensures forall w {:trigger ExchangeW(w, 6, 7)} :: ExchangeW(w, 6, 7) == w.X6_7()
    ensures forall w {:trigger ExchangeW(w, 6, 8)} :: ExchangeW(w, 6, 8) == w.X6_8()
    ensures forall w {:trigger ExchangeW(w, 6, 9)} :: ExchangeW(w, 6, 9) == w.X6_9()
    ensures forall w {:trigger ExchangeW(w, 6, 10)} :: ExchangeW(w, 6, 10) == w.X6_10()
    ensures forall w {:trigger ExchangeW(w, 6, 12)} :: ExchangeW(w, 6, 12) == w.X6_12()
    ensures forall w {:trigger ExchangeW(w, 6, 14)} :: ExchangeW(w, 6, 14) == w.X6_14()
    ensures forall w {:trigger ExchangeW(w, 7, 8)} :: ExchangeW(w, 7, 8) == w.X7_8()
    ensures forall w {:trigger ExchangeW(w, 7, 9)} :: ExchangeW(w, 7, 9) == w.X7_9()
  {
  }

  lemma Table4()
    ensures forall w {:trigger ExchangeW(w, 7, 10)} :: ExchangeW(w, 7, 10) == w.X7_10()
    ensures forall w {:trigger ExchangeW(w, 7, 11)} :: ExchangeW(w, 7, 11) == w.X7_11()
    ensures forall w {:trigger ExchangeW(w, 7, 12)} :: ExchangeW(w, 7, 12) == w.X7_12()
    ensures forall w {:trigger ExchangeW(w, 7, 13)} :: ExchangeW(w, 7, 13) == w.X7_13()
    ensures forall w {:trigger ExchangeW(w, 7, 15)} :: ExchangeW(w, 7, 15) == w.X7_15()
    ensures forall w {:trigger ExchangeW(w, 8, 9)} :: ExchangeW(w, 8, 9) == w.X8_9()
    ensures forall w {:trigger ExchangeW(w, 8, 10)} :: ExchangeW(w, 8, 10) == w.X8_10()
    ensures forall w {:trigger ExchangeW(w, 8, 11)} :: ExchangeW(w, 8, 11) == w.X8_11()
    ensures forall w {:trigger ExchangeW(w, 8, 12)} :: ExchangeW(w, 8, 12) == w.X8_12()
    ensures forall w {:trigger ExchangeW(w, 9, 10)} :: ExchangeW(w, 9, 10) == w.X9_10()
    ensures forall w {:trigger ExchangeW(w, 9, 11)} :: ExchangeW(w, 9, 11) == w.X9_11()
    ensures forall w {:trigger ExchangeW(w, 9, 13)} :: ExchangeW(w, 9, 13) == w.X9_13()
  {
  }

  lemma Table5()
    ensures forall w {:trigger ExchangeW(w, 10, 11)} :: ExchangeW(w, 10, 11) == w.X10_11()
    ensures forall w {:trigger ExchangeW(w, 10, 12)} :: ExchangeW(w, 10, 12) == w.X10_12()
    ensures forall w {:trigger ExchangeW(w, 10, 14)} :: ExchangeW(w, 10, 14) == w.X10_14()
    ensures forall w {:trigger ExchangeW(w, 11, 12)} :: ExchangeW(w, 11, 12) == w.X11_12()
    ensures forall w {:trigger ExchangeW(w, 11, 13)} :: ExchangeW(w, 11, 13) == w.X11_13()
    ensures forall w {:trigger ExchangeW(w, 11, 14)} :: ExchangeW(w, 11, 14) == w.X11_14()
    ensures forall w {:trigger ExchangeW(w, 11, 15)} :: ExchangeW(w, 11, 15) == w.X11_15()
    ensures forall w {:trigger ExchangeW(w, 12, 13)} :: ExchangeW(w, 12, 13) == w.X12_13()
    ensures forall w {:trigger ExchangeW(w, 12, 14)} :: ExchangeW(w, 12, 14) == w.X12_14()
    ensures forall w {:trigger ExchangeW(w, 13, 14)} :: ExchangeW(w, 13, 14) == w.X13_14()
    ensures forall w {:trigger ExchangeW(w, 13, 15)} :: ExchangeW(w, 13, 15) == w.X13_15()
    ensures forall w {:trigger ExchangeW(w, 14, 15)} :: ExchangeW(w, 14, 15) == w.X14_15()
  {
  }
}
