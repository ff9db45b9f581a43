/** Collecting distinct keys at the front of an array, in order, while everything else stays in order. */
module KeyCollection {
  import opened Order
  import opened Gallop
  import opened Insertion
  import opened Rotation
  import opened RotationMerge
  import opened Sequences

  predicate HasKey(s: seq<Elem>, k: int) {
    exists i :: 0 <= i < |s| && s[i].key == k
  }

  predicate StrictlyIncreasing(s: seq<Elem>) {
    forall i, j :: 0 <= i < j < |s| ==> s[i].key < s[j].key
  }

  // Is the last element of s collected, when at most n keys are?
  predicate Collected(s: seq<Elem>, n: nat)
    requires s != []
    decreases |s|, 0
  {
    var k := Keys(s[..|s| - 1], n);
    |k| < n && !HasKey(k, s[|s| - 1].key)
  }

  /** The keys that are collected: an element is one if none before it has the same key, until n are
      found.  They are kept sorted. */
  function Keys(s: seq<Elem>, n: nat): seq<Elem>
    decreases |s|, 1
  {
    if s == [] then []
    else if Collected(s, n) then Merge(Keys(s[..|s| - 1], n), [s[|s| - 1]])
    else Keys(s[..|s| - 1], n)
  }

  /** All the other elements, in their order. */
  function Others(s: seq<Elem>, n: nat): seq<Elem>
    decreases |s|, 1
  {
    if s == [] then []
    else if Collected(s, n) then Others(s[..|s| - 1], n)
    else Others(s[..|s| - 1], n) + [s[|s| - 1]]
  }

  function KeySet(s: seq<Elem>): set<int> {
    set i | 0 <= i < |s| :: s[i].key
  }

  // ---------- What is collected ----------

  // Putting x at index r.
  function Inserted(k: seq<Elem>, x: Elem, r: nat): seq<Elem>
    requires r <= |k|
  {
    k[..r] + [x] + k[r..]
  }

  lemma InsertIncreases(k: seq<Elem>, x: Elem, r: nat)
    requires StrictlyIncreasing(k) && IsBound(k, x, r, false) && !HasKey(k, x.key)
    ensures StrictlyIncreasing(Inserted(k, x, r))
  {
    var u := Inserted(k, x, r);
    forall i | 0 <= i < |u| ensures u[i] == if i < r then k[i] else if i == r then x else k[i - 1] {
    }
    forall i | 0 <= i < |k| ensures if i < r then k[i].key < x.key else x.key < k[i].key {
      assert Before(k[i], x, false) <==> i < r;
    }
    forall i, j | 0 <= i < j < |u| ensures u[i].key < u[j].key {
    }
  }

  lemma InsertMerges(k: seq<Elem>, x: Elem, r: nat)
    requires Sorted(k) && IsBound(k, x, r, false) && !HasKey(k, x.key)
    ensures IsMerge(Inserted(k, x, r), k, [x])
  {
    forall i | 0 <= i < |k| ensures Before(k[i], x, true) == Before(k[i], x, false) {
    }
    InsertStable(k, x, r);
  }

  lemma InsertKey(k: seq<Elem>, x: Elem, r: nat)
    requires StrictlyIncreasing(k) && IsBound(k, x, r, false) && !HasKey(k, x.key)
    ensures StrictlyIncreasing(Inserted(k, x, r)) && Inserted(k, x, r) == Merge(k, [x])
  {
    IncreasingSorted(k);
    InsertIncreases(k, x, r);
    InsertMerges(k, x, r);
    MergeUnique(k, [x], Inserted(k, x, r));
  }

  lemma HasLowerBound(k: seq<Elem>, x: Elem) returns (r: nat)
    requires StrictlyIncreasing(k)
    ensures IsBound(k, x, r, false)
  {
    r := |k|;
    while r > 0 && x.key <= k[r - 1].key
      invariant r <= |k| && forall i :: r <= i < |k| ==> x.key <= k[i].key
    {
      r := r - 1;
    }
  }

  lemma {:induction false} KeysIncrease(s: seq<Elem>, n: nat)
    ensures StrictlyIncreasing(Keys(s, n))
  {
    if s != [] {
      var t, x := s[..|s| - 1], s[|s| - 1];
      KeysIncrease(t, n);
      if Collected(s, n) {
        var r := HasLowerBound(Keys(t, n), x);
        InsertKey(Keys(t, n), x, r);
      }
    }
  }

  lemma IncreasingSorted(k: seq<Elem>)
    requires StrictlyIncreasing(k)
    ensures Sorted(k)
  {
    forall i, j | 0 <= i <= j < |k| ensures InOrder(k, i, j) {
    }
  }

  // Until n keys are found, every key that has occurred is collected.
  lemma {:induction false} KeysComplete(s: seq<Elem>, n: nat)
    ensures |Keys(s, n)| <= n && KeySet(Keys(s, n)) <= KeySet(s)
    ensures |Keys(s, n)| < n ==> KeySet(Keys(s, n)) == KeySet(s)
  {
    if s != [] {
      var t, x := s[..|s| - 1], s[|s| - 1];
      KeysComplete(t, n);
      LastKey(s);
      var k := Keys(t, n);
      if Collected(s, n) {
        KeysIncrease(t, n);
        var r := HasLowerBound(k, x);
        InsertKey(k, x, r);
        InsertedKeys(k, x, r);
        assert KeySet(Keys(s, n)) == KeySet(k) + {x.key};
      } else if |k| < n {
        assert HasKey(k, x.key);
        assert x.key in KeySet(k);
      }
    }
  }

  lemma LastKey(s: seq<Elem>)
    requires s != []
    ensures KeySet(s) == KeySet(s[..|s| - 1]) + {s[|s| - 1].key}
  {
    var t, x := s[..|s| - 1], s[|s| - 1];
    forall k | k in KeySet(s) ensures k in KeySet(t) + {x.key} {
      var i :| 0 <= i < |s| && s[i].key == k;
      if i < |t| {
        assert t[i].key == k;
      }
    }
    forall k | k in KeySet(t) + {x.key} ensures k in KeySet(s) {
      if k != x.key {
        var i :| 0 <= i < |t| && t[i].key == k;
        assert s[i].key == k;
      }
    }
  }

  lemma InsertedKeys(k: seq<Elem>, x: Elem, r: nat)
    requires r <= |k|
    ensures KeySet(Inserted(k, x, r)) == KeySet(k) + {x.key} && |Inserted(k, x, r)| == |k| + 1
  {
    var u := Inserted(k, x, r);
    forall j | j in KeySet(k) + {x.key} ensures j in KeySet(u) {
      if j == x.key {
        assert u[r].key == j;
      } else {
        var i :| 0 <= i < |k| && k[i].key == j;
        assert u[if i < r then i else i + 1].key == j;
      }
    }
  }

  lemma {:induction false} CountIncreasing(k: seq<Elem>)
    requires StrictlyIncreasing(k)
    ensures |KeySet(k)| == |k|
  {
    if k == [] {
      assert KeySet(k) == {};
    } else {
      var t, x := k[..|k| - 1], k[|k| - 1];
      CountIncreasing(t);
      LastKey(k);
      assert x.key !in KeySet(t);
    }
  }

  lemma SubsetCount(a: set<int>, b: set<int>)
    requires a <= b
    ensures |a| <= |b|
  {
    assert b == a + (b - a);
  }

  /** As many keys are collected as there are different ones, but at most n. */
  lemma CollectedCount(s: seq<Elem>, n: nat)
    ensures |Keys(s, n)| == if |KeySet(s)| < n then |KeySet(s)| else n
  {
    KeysComplete(s, n);
    KeysIncrease(s, n);
    CountIncreasing(Keys(s, n));
    SubsetCount(KeySet(Keys(s, n)), KeySet(s));
  }

  /** Moving the collected keys to the front never exchanges two elements with equal keys. */
  lemma {:induction false} CollectionStable(s: seq<Elem>, n: nat)
    ensures Stable(Keys(s, n) + Others(s, n), s)
  {
    if s == [] {
    } else {
      var t, x := s[..|s| - 1], s[|s| - 1];
      var k, o := Keys(t, n), Others(t, n);
      CollectionStable(t, n);
      assert s == t + [x];
      if Collected(s, n) {
        KeysIncrease(t, n);
        IncreasingSorted(k);
        MergeStable(k, [x]);
        StableRefl(o);
        StableConcat(Merge(k, [x]), o, k + [x], o);
        forall j ensures SameClass(k + [x] + o, s, j) {
          FreshKey(t, x, k, o, n, j);
        }
        StableTrans(Merge(k, [x]) + o, k + [x] + o, s);
      } else {
        StableRefl([x]);
        StableConcat(k + o, [x], t, [x]);
        assert k + o + [x] == k + (o + [x]);
      }
    }
  }

  lemma KeyAbsent(t: seq<Elem>, n: nat, x: Elem)
    requires |Keys(t, n)| < n && !HasKey(Keys(t, n), x.key)
    ensures Class(t, x.key) == []
  {
    KeysComplete(t, n);
    forall i | 0 <= i < |t| ensures t[i].key != x.key {
      assert t[i].key in KeySet(t);
    }
    ClassAbsent(t, x.key);
  }

  lemma FreshKey(t: seq<Elem>, x: Elem, k: seq<Elem>, o: seq<Elem>, n: nat, j: int)
    requires k == Keys(t, n) && |k| < n && !HasKey(k, x.key) && Stable(k + o, t)
    ensures SameClass(k + [x] + o, t + [x], j)
  {
    assert SameClass(k + o, t, j);
    ClassConcat(k, o, j);
    ClassConcat(k + [x], o, j);
    ClassConcat(k, [x], j);
    ClassConcat(t, [x], j);
    KeyAbsent(t, n, x);
    FreshClass(Class(k, j), Class([x], j), Class(o, j), x.key == j);
  }

  lemma FreshClass(k: seq<Elem>, x: seq<Elem>, o: seq<Elem>, same: bool)
    ensures same && k + o == [] ==> (k + x) + o == (k + o) + x
    ensures x == [] ==> (k + x) + o == (k + o) + x
  {
  }

  /** Each collected key is the first element of s with that key. */
  lemma CollectedFirst(s: seq<Elem>, n: nat, i: nat)
    requires i < |Keys(s, n)|
    ensures var k := Keys(s, n)[i]; Class(s, k.key) != [] && Class(s, k.key)[0] == k
  {
    var k, u := Keys(s, n), Keys(s, n) + Others(s, n);
    KeysIncrease(s, n);
    FirstOfClass(u, k[i].key, i);
    CollectionStable(s, n);
    assert SameClass(u, s, k[i].key);
  }

  // The collected keys are all the keys of some front part of s.
  lemma {:induction false} KeysOfFront(s: seq<Elem>, n: nat) returns (u: nat)
    ensures u <= |s| && KeySet(Keys(s, n)) == KeySet(s[..u])
  {
    KeysComplete(s, n);
    u := |s|;
    assert s[..u] == s;
    if s != [] && !(|Keys(s, n)| < n) {
      var t := s[..|s| - 1];
      KeysComplete(t, n);
      if Collected(s, n) {
        NewKeySet(s, n);
      } else {
        u := KeysOfFront(t, n);
        assert s[..u] == t[..u];
      }
    }
  }

  lemma NewKeySet(s: seq<Elem>, n: nat)
    requires s != [] && Collected(s, n)
    ensures KeySet(Keys(s, n)) == KeySet(s)
  {
    var t, x := s[..|s| - 1], s[|s| - 1];
    KeysComplete(t, n);
    KeysIncrease(t, n);
    var r := HasLowerBound(Keys(t, n), x);
    InsertKey(Keys(t, n), x, r);
    InsertedKeys(Keys(t, n), x, r);
    LastKey(s);
  }

  // The elements of o are those of s at the increasing indices at.
  predicate Picks(o: seq<Elem>, s: seq<Elem>, at: seq<nat>) {
    && |at| == |o|
    && (forall i :: 0 <= i < |at| ==> at[i] < |s| && o[i] == s[at[i]])
    && (forall i, j :: 0 <= i < j < |at| ==> at[i] < at[j])
  }

  lemma PicksStay(o: seq<Elem>, s: seq<Elem>, at: seq<nat>, x: Elem)
    requires Picks(o, s, at)
    ensures Picks(o, s + [x], at)
  {
  }

  lemma PicksGrow(o: seq<Elem>, s: seq<Elem>, at: seq<nat>, x: Elem)
    requires Picks(o, s, at)
    ensures Picks(o + [x], s + [x], at + [|s|])
  {
  }

  /** The other elements keep their order. */
  lemma {:induction false} OthersInOrder(s: seq<Elem>, n: nat) returns (at: seq<nat>)
    ensures Picks(Others(s, n), s, at)
  {
    if s == [] {
      at := [];
    } else {
      var t, x := s[..|s| - 1], s[|s| - 1];
      at := OthersInOrder(t, n);
      assert s == t + [x];
      if Collected(s, n) {
        PicksStay(Others(t, n), t, at, x);
      } else {
        PicksGrow(Others(t, n), t, at, x);
        at := at + [|t|];
      }
    }
  }

  // ---------- The scan ----------

  // Once n keys are found, the rest of s changes nothing.
  lemma {:induction false} EnoughKeys(s: seq<Elem>, n: nat, u: nat)
    requires u <= |s| && n <= |Keys(s[..u], n)|
    ensures Keys(s, n) == Keys(s[..u], n) && Others(s, n) == Others(s[..u], n) + s[u..]
  {
    if u == |s| {
      assert s[..u] == s;
    } else {
      var t := s[..|s| - 1];
      assert t[..u] == s[..u] && s[u..] == t[u..] + [s[|s| - 1]];
      EnoughKeys(t, n, u);
    }
  }

  lemma NextElement(s: seq<Elem>, n: nat, u: nat)
    requires u < |s|
    ensures s[..u + 1][..u] == s[..u] && s[..u + 1][u] == s[u]
    ensures s[u..] == [s[u]] + s[u + 1..]
  {
  }

  // The array is p + r1 + k + r2 + z, where k holds the keys of s[..u], r1 + r2 the other elements
  // of s[..u], and z the rest of s and what lies behind it.
  ghost predicate Scanned(d: seq<Elem>, p: seq<Elem>, s: seq<Elem>, q: seq<Elem>, n: nat, u: nat,
                          r1: seq<Elem>, k: seq<Elem>, r2: seq<Elem>) {
    && u <= |s| && d == p + r1 + k + r2 + (s[u..] + q)
    && k == Keys(s[..u], n) && r1 + r2 == Others(s[..u], n)
  }

  lemma Skipped(d: seq<Elem>, p: seq<Elem>, s: seq<Elem>, q: seq<Elem>, n: nat, u: nat,
                r1: seq<Elem>, k: seq<Elem>, r2: seq<Elem>)
    requires Scanned(d, p, s, q, n, u, r1, k, r2) && u < |s| && |k| < n && HasKey(k, s[u].key)
    ensures Scanned(d, p, s, q, n, u + 1, r1, k, r2 + [s[u]])
  {
    NextElement(s, n, u);
    assert p + r1 + k + r2 + ([s[u]] + s[u + 1..] + q) == p + r1 + k + (r2 + [s[u]]) + (s[u + 1..] + q);
    assert r1 + (r2 + [s[u]]) == (r1 + r2) + [s[u]];
  }

  lemma Taken(p: seq<Elem>, s: seq<Elem>, q: seq<Elem>, n: nat, u: nat, r: nat,
              o: seq<Elem>, k: seq<Elem>)
    requires u < |s| && k == Keys(s[..u], n) && o == Others(s[..u], n) && |k| < n && !HasKey(k, s[u].key)
    requires IsBound(k, s[u], r, false)
    ensures Scanned(p + o + Inserted(k, s[u], r) + [] + (s[u + 1..] + q), p, s, q, n, u + 1,
                    o, Inserted(k, s[u], r), [])
  {
    NextElement(s, n, u);
    KeysIncrease(s[..u], n);
    InsertKey(k, s[u], r);
    Units(o);
  }

  lemma TakenLayout(p: seq<Elem>, o: seq<Elem>, k1: seq<Elem>, x: seq<Elem>, k2: seq<Elem>, z: seq<Elem>)
    ensures p + o + k1 + x + k2 + z == p + o + (k1 + x + k2) + [] + z
  {
  }

  // The two rotations that put the element at u, a new key, in its place among the keys.
  method TakeKey(arr: array<Elem>, lo: nat, h0: nat, h: nat, u: nat, r: nat, ghost p: seq<Elem>, ghost s: seq<Elem>,
                 ghost q: seq<Elem>, ghost n: nat, ghost r1: seq<Elem>, ghost k: seq<Elem>, ghost r2: seq<Elem>)
    requires |p| == lo && |r1| == h0 && |k| == h && |r2| == u - (h0 + h) && u < |s|
    requires Scanned(arr[..], p, s, q, n, u, r1, k, r2) && h < n && !HasKey(k, s[u].key)
    requires IsBound(k, s[u], r, false)
    modifies arr
    ensures Scanned(arr[..], p, s, q, n, u + 1, r1 + r2, Inserted(k, s[u], r), [])
  {
    ghost var k1, k2, x, rest, o := k[..r], k[r..], [s[u]], s[u + 1..] + q, r1 + r2;
    RotateParts(arr, lo + h0, h, u - (h0 + h), p + r1, k, r2, s[u..] + q);
    TakeLayout(p, r1, r2, k, k1, k2, s, q, u);
    RotateParts(arr, lo + (u - h) + r, h - r, 1, p + o + k1, k2, x, rest);
    TakenLayout(p, o, k1, x, k2, rest);
    Taken(p, s, q, n, u, r, o, k);
  }

  lemma TakeLayout(p: seq<Elem>, r1: seq<Elem>, r2: seq<Elem>, k: seq<Elem>, k1: seq<Elem>, k2: seq<Elem>,
                   s: seq<Elem>, q: seq<Elem>, u: nat)
    requires u < |s| && k == k1 + k2
    ensures p + r1 + r2 + k + (s[u..] + q) == p + (r1 + r2) + k1 + k2 + [s[u]] + (s[u + 1..] + q)
  {
    assert s[u..] == [s[u]] + s[u + 1..];
  }

  lemma KeyPlaces(d: seq<Elem>, p: seq<Elem>, r1: seq<Elem>, k: seq<Elem>, r2: seq<Elem>, s: seq<Elem>, q: seq<Elem>,
                  u: nat, from: nat, to: nat, at: nat)
    requires u < |s| && d == p + r1 + k + r2 + (s[u..] + q)
    requires from == |p| + |r1| && to == from + |k| && at == to + |r2|
    ensures to <= at < |d| && d[from..to] == k && d[at] == s[u]
  {
  }

  // The search for the key of x among the keys k.
  method FindKey(k: seq<Elem>, x: Elem) returns (r: nat, found: bool)
    requires StrictlyIncreasing(k) && |k| < 0x7FFF_FFFF
    ensures IsBound(k, x, r, false) && found == HasKey(k, x.key)
  {
    IncreasingSorted(k);
    r := BinSearchLeft(k, x);
    found := !(r == |k| || Cmp(x, k[r]) != 0);
    FoundAtBound(k, x, r);
  }

  // Looks the element at u up among the keys.
  method LookUp(arr: array<Elem>, lo: nat, h0: nat, h: nat, u: nat, ghost p: seq<Elem>, ghost s: seq<Elem>,
                ghost q: seq<Elem>, ghost n: nat, ghost r1: seq<Elem>, ghost k: seq<Elem>, ghost r2: seq<Elem>)
    returns (r: nat, found: bool)
    requires |p| == lo && |r1| == h0 && |k| == h && |r2| == u - (h0 + h) && u < |s| < 0x8000_0000
    requires Scanned(arr[..], p, s, q, n, u, r1, k, r2)
    ensures IsBound(k, s[u], r, false) && found == HasKey(k, s[u].key)
  {
    KeysIncrease(s[..u], n);
    var from, to, at := lo + h0, lo + h0 + h, lo + u;
    KeyPlaces(arr[..], p, r1, k, r2, s, q, u, from, to, at);
    r, found := FindKey(arr[from..to], arr[at]);
  }

  lemma FoundAtBound(k: seq<Elem>, x: Elem, r: nat)
    requires StrictlyIncreasing(k) && IsBound(k, x, r, false)
    ensures HasKey(k, x.key) <==> r < |k| && k[r].key == x.key
  {
    if HasKey(k, x.key) {
      var i :| 0 <= i < |k| && k[i].key == x.key;
      assert !Before(k[i], x, false);
      assert r < |k| && !Before(k[r], x, false);
    }
  }

  // The number of keys that are looked for: the first element is a key even if none is asked for.
  function Wanted(nkeys: int): nat {
    if nkeys <= 0 then 1 else nkeys
  }

  // The loop of GRAIL_FIND_KEYS.
  method ScanKeys(arr: array<Elem>, lo: nat, len: nat, nkeys: int,
                  ghost p: seq<Elem>, ghost s: seq<Elem>, ghost q: seq<Elem>)
    returns (h: nat, h0: nat, ghost r1: seq<Elem>, ghost k: seq<Elem>, ghost r2: seq<Elem>)
    requires |p| == lo && |s| == len && 1 <= len < 0x8000_0000 && arr[..] == p + s + q
    modifies arr
    ensures |r1| == h0 && |k| == h && arr[..] == p + r1 + k + r2 + q
    ensures k == Keys(s, Wanted(nkeys)) && r1 + r2 == Others(s, Wanted(nkeys))
  {
    ghost var n := Wanted(nkeys);
    h, h0 := 1, 0;
    var u: nat := 1;
    r1, k, r2 := [], [s[0]], [];
    ScanStarts(arr[..], p, s, q, n);
    while u < len && h < nkeys
      invariant 1 <= u <= len && |r1| == h0 && |k| == h && |r2| == u - (h0 + h)
      invariant Scanned(arr[..], p, s, q, n, u, r1, k, r2)
    {
      var r, found := LookUp(arr, lo, h0, h, u, p, s, q, n, r1, k, r2);
      if !found {
        TakeKey(arr, lo, h0, h, u, r, p, s, q, n, r1, k, r2);
        r1, k, r2 := r1 + r2, Inserted(k, s[u], r), [];
        h0 := u - h;
        h := h + 1;
      } else {
        Skipped(arr[..], p, s, q, n, u, r1, k, r2);
        r2 := r2 + [s[u]];
      }
      u := u + 1;
    }
    ScanEnds(arr[..], p, s, q, n, u, r1, k, r2);
    r2 := r2 + s[u..];
  }

  lemma ScanStarts(d: seq<Elem>, p: seq<Elem>, s: seq<Elem>, q: seq<Elem>, n: nat)
    requires d == p + s + q && s != [] && 1 <= n
    ensures Scanned(d, p, s, q, n, 1, [], [s[0]], [])
  {
    assert s[..1] == [s[0]] && [s[0]][..0] == [];
    assert Keys([], n) == [] && Collected([s[0]], n);
    assert Merge([], [s[0]]) == [s[0]];
    assert s == [s[0]] + s[1..];
    assert p + ([s[0]] + s[1..]) + q == p + [] + [s[0]] + [] + (s[1..] + q);
  }

  lemma ScanEnds(d: seq<Elem>, p: seq<Elem>, s: seq<Elem>, q: seq<Elem>, n: nat, u: nat,
                 r1: seq<Elem>, k: seq<Elem>, r2: seq<Elem>)
    requires Scanned(d, p, s, q, n, u, r1, k, r2) && (u == |s| || n <= |k|)
    ensures d == p + r1 + k + (r2 + s[u..]) + q
    ensures k == Keys(s, n) && r1 + (r2 + s[u..]) == Others(s, n)
  {
    if u == |s| {
      assert s[..u] == s && s[u..] == [] && r2 + [] == r2;
    } else {
      EnoughKeys(s, n, u);
      assert r1 + (r2 + s[u..]) == (r1 + r2) + s[u..];
    }
  }

  // What the collection of up to n keys from d[lo..lo + len] leaves in e.
  ghost predicate KeysInFront(e: seq<Elem>, d: seq<Elem>, lo: nat, len: nat, n: nat)
    requires lo + len <= |d| == |e|
  {
    && e[lo..lo + len] == Keys(d[lo..lo + len], n) + Others(d[lo..lo + len], n)
    && SameOutside(e, d, lo, lo + len)
  }

  // k holds, in increasing order, the first elements with the first |k| different keys that occur in s.
  ghost predicate FirstKeys(k: seq<Elem>, s: seq<Elem>) {
    && StrictlyIncreasing(k)
    && (exists u :: 0 <= u <= |s| && KeySet(k) == KeySet(s[..u]))
    && (forall i :: 0 <= i < |k| ==> FirstWithKey(k[i], s))
  }

  ghost predicate FirstWithKey(x: Elem, s: seq<Elem>) {
    exists i :: 0 <= i < |s| && s[i] == x && forall j :: 0 <= j < i ==> s[j].key != x.key
  }

  lemma {:induction false} HeadOfClass(s: seq<Elem>, k: int)
    requires Class(s, k) != []
    ensures Class(s, k)[0].key == k && FirstWithKey(Class(s, k)[0], s)
  {
    var x := Class(s, k)[0];
    if s[0].key == k {
      assert x == s[0];
    } else {
      HeadOfClass(s[1..], k);
      var i :| 0 <= i < |s[1..]| && s[1..][i] == x && forall j :: 0 <= j < i ==> s[1..][j].key != x.key;
      assert s[i + 1] == x;
      forall j | 0 <= j < i + 1 ensures s[j].key != x.key {
        assert 0 < j ==> s[j] == s[1..][j - 1];
      }
    }
  }

  lemma KeysAreFirst(s: seq<Elem>, n: nat)
    ensures FirstKeys(Keys(s, n), s)
  {
    var k := Keys(s, n);
    KeysIncrease(s, n);
    var u := KeysOfFront(s, n);
    forall i | 0 <= i < |k| ensures FirstWithKey(k[i], s) {
      CollectedFirst(s, n, i);
      HeadOfClass(s, k[i].key);
    }
  }

  // The elements of o stand in the order in which they occur in s.
  ghost predicate Keeps(o: seq<Elem>, s: seq<Elem>) {
    exists at :: Picks(o, s, at)
  }

  // What the collection leaves in e: h of the elements of d[lo..lo + len], and behind them the others, in order.
  ghost predicate KeysFound(e: seq<Elem>, d: seq<Elem>, lo: nat, len: nat, h: nat)
    requires lo + len <= |d| == |e| && h <= len
  {
    && FirstKeys(e[lo..lo + h], d[lo..lo + len])
    && Keeps(e[lo + h..lo + len], d[lo..lo + len])
    && Stable(e[lo..lo + len], d[lo..lo + len])
  }

  lemma FrontFound(e: seq<Elem>, d: seq<Elem>, lo: nat, len: nat, n: nat, h: nat)
    requires lo + len <= |d| == |e| && KeysInFront(e, d, lo, len, n) && h == |Keys(d[lo..lo + len], n)|
    ensures h <= len && KeysFound(e, d, lo, len, h)
    ensures h == if |KeySet(d[lo..lo + len])| < n then |KeySet(d[lo..lo + len])| else n
  {
    var s := d[lo..lo + len];
    var k, o := Keys(s, n), Others(s, n);
    assert e[lo..lo + len] == k + o;
    assert e[lo..lo + h] == k && e[lo + h..lo + len] == o by {
      SubSlice(e, lo, lo + len, lo, lo + h);
      SubSlice(e, lo, lo + len, lo + h, lo + len);
    }
    KeysAreFirst(s, n);
    var at := OthersInOrder(s, n);
    assert Keeps(o, s);
    CollectionStable(s, n);
    CollectedCount(s, n);
  }

  lemma AnyKey(s: seq<Elem>)
    requires s != []
    ensures 1 <= |KeySet(s)|
  {
    assert s[0].key in KeySet(s);
  }

  /** GRAIL_FIND_KEYS: collects up to nkeys different keys at the front.  Without any elements it still
      answers 1; neither its loop nor the rotation of no cells does anything then. */
  method FindKeys(arr: array<Elem>, lo: nat, len: nat, nkeys: int) returns (h: nat)
    requires lo + len <= arr.Length && len < 0x8000_0000
    modifies arr
    ensures len == 0 || nkeys <= 0 ==> h == 1
    ensures 1 <= len && 1 <= nkeys ==>
      var different := |KeySet(old(arr[lo..lo + len]))|; h == if different < nkeys then different else nkeys
    ensures 1 <= len ==> h <= len && KeysFound(arr[..], old(arr[..]), lo, len, h)
    ensures SameOutside(arr[..], old(arr[..]), lo, lo + len)
  {
    ghost var d, hi, n := arr[..], lo + len, Wanted(nkeys);
    ghost var p, s, q := d[..lo], d[lo..hi], d[hi..];
    if len == 0 {
      return 1;
    }
    ThreeParts(d, lo, hi);
    var h0;
    ghost var r1, k, r2;
    h, h0, r1, k, r2 := ScanKeys(arr, lo, len, nkeys, p, s, q);
    Assoc(p + r1 + k, r2, q);
    RotateParts(arr, lo, h0, h, p, r1, k, r2 + q);
    FrontLayout(arr[..], d, lo, len, n, r1, r2);
    FrontFound(arr[..], d, lo, len, n, h);
    AnyKey(s);
  }

  lemma FrontLayout(e: seq<Elem>, d: seq<Elem>, lo: nat, len: nat, n: nat, r1: seq<Elem>, r2: seq<Elem>)
    requires lo + len <= |d|
    requires var k, o := Keys(d[lo..lo + len], n), Others(d[lo..lo + len], n);
      r1 + r2 == o && e == d[..lo] + k + r1 + (r2 + d[lo + len..])
    ensures |e| == |d| && KeysInFront(e, d, lo, len, n)
  {
    var p, s, q := d[..lo], d[lo..lo + len], d[lo + len..];
    var k, o := Keys(s, n), Others(s, n);
    CollectionStable(s, n);
    StablePermutes(k + o, s);
    Assoc(p + k + r1, r2, q);
    Assoc(p + k, r1, r2);
    Assoc(p, k, o);
    FrontPlaces(e, d, p, k + o, q, lo, lo + len);
  }

  lemma FrontPlaces(e: seq<Elem>, d: seq<Elem>, p: seq<Elem>, u: seq<Elem>, q: seq<Elem>, lo: nat, hi: nat)
    requires lo <= hi <= |d| && p == d[..lo] && q == d[hi..] && |u| == hi - lo && e == p + u + q
    ensures e[lo..hi] == u && SameOutside(e, d, lo, hi)
  {
    forall i | 0 <= i < |d| && (i < lo || hi <= i) ensures SameAt(e, d, i) {
    }
  }
}
