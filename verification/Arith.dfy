/** Facts about products, quotients and powers of two, kept away from everything else. */
module Arith {

  lemma Scaled(x: int, y: int, d: nat)
    requires x <= y
    ensures x * d <= y * d
  {
  }

  lemma DivMod(v: nat, base: nat)
    requires 1 <= base
    ensures v == (v / base) * base + v % base && v % base < base
    ensures v < base ==> v / base == 0 && v % base == v
    ensures base <= v ==> 1 <= v / base
    ensures 2 <= base && 1 <= v ==> v / base < v
  {
    var q := v / base;
    assert v == q * base + v % base;
    if 2 <= base {
      Scaled(2, base, q);
    }
  }

  function Pow2(n: nat): (p: nat)
    ensures 0 < p
  {
    if n == 0 then 1 else 2 * Pow2(n - 1)
  }

  lemma Twice(x: nat, y: nat)
    ensures 2 * (x * y) == (2 * x) * y
  {
  }

  lemma Pow2Thirty(n: nat)
    requires n == 30
    ensures Pow2(n) == 0x4000_0000
  {
    assert Pow2(10) == 1024;
    Pow2Adds(10, 10);
    Pow2Adds(20, 10);
  }

  lemma {:induction false} Pow2Adds(m: nat, n: nat)
    ensures Pow2(m + n) == Pow2(m) * Pow2(n)
  {
    if m != 0 {
      Pow2Adds(m - 1, n);
      Twice(Pow2(m - 1), Pow2(n));
    }
  }
}
