/** The minimum run length of TimSort. */
module Minrun {
  import opened Arith

  // 64 - CLZ(x): the number of significant bits of x.
  function BitLength(x: nat): nat {
    if x == 0 then 0 else 1 + BitLength(x / 2)
  }

  /** compute_minrun: the six leading bits of size, plus one if any of the other bits is set. */
  function ComputeMinrun(size: nat): nat {
    var shift := if BitLength(size) < 6 then 0 else BitLength(size) - 6;
    var minrun := size / Pow2(shift);
    if size % Pow2(shift) != 0 then minrun + 1 else minrun
  }

  lemma {:induction false} BitLengthBounds(x: nat)
    requires 0 < x
    ensures 0 < BitLength(x) && Pow2(BitLength(x) - 1) <= x < Pow2(BitLength(x))
  {
    if x / 2 == 0 {
      assert x == 1;
      assert BitLength(1) == 1 + BitLength(0);
    } else {
      BitLengthBounds(x / 2);
    }
  }

  lemma MulCancel(a: nat, b: nat, d: nat)
    requires a * d < b * d
    ensures a < b
  {
    if b <= a {
      Scaled(b, a, d);
    }
  }

  lemma DivBounds(x: nat, d: nat, lo: nat, hi: nat)
    requires 0 < d && lo * d <= x < hi * d
    ensures lo <= x / d < hi
    ensures x == (x / d) * d + x % d && 0 <= x % d < d
  {
    var q := x / d;
    assert x == q * d + x % d;
    assert (q + 1) * d == q * d + d;
    MulCancel(lo, q + 1, d);
    MulCancel(q, hi, d);
  }

  lemma LeadingBits(size: nat, shift: nat)
    requires 32 * Pow2(shift) <= size < 64 * Pow2(shift)
    ensures 32 <= size / Pow2(shift) < 64
    ensures var minrun := if size % Pow2(shift) != 0 then size / Pow2(shift) + 1 else size / Pow2(shift);
      32 <= minrun <= 64 && (minrun - 1) * Pow2(shift) < size <= minrun * Pow2(shift)
  {
    var d := Pow2(shift);
    DivBounds(size, d, 32, 64);
    var q := size / d;
    assert (q + 1) * d == q * d + d && (q - 1) * d == q * d - d;
  }

  lemma {:induction false} SixBits(size: nat)
    requires 64 <= size
    ensures 7 <= BitLength(size)
  {
    assert BitLength(size) == 2 + BitLength(size / 2 / 2);
    assert BitLength(size / 4) == 2 + BitLength(size / 4 / 2 / 2);
    assert BitLength(size / 16) == 2 + BitLength(size / 16 / 2 / 2);
    assert size / 2 / 2 == size / 4 && size / 4 / 2 / 2 == size / 16 && size / 16 / 2 / 2 == size / 64;
    assert 1 <= BitLength(size / 64);
  }

  lemma SevenBits(size: nat)
    requires 7 <= BitLength(size)
    ensures 64 <= size
  {
    var n := BitLength(size) - 7;
    BitLengthBounds(size);
    Pow2Adds(6, n);
    assert Pow2(6) == 64;
    Scaled(1, Pow2(n), 64);
  }

  /** Below 64 elements minrun is the whole size.  (Such sizes never reach the run stack.) */
  lemma MinrunSmall(size: nat)
    requires size < 64
    ensures ComputeMinrun(size) == size
  {
    if 7 <= BitLength(size) {
      SevenBits(size);
    }
  }

  /** For every size that reaches the run stack, minrun is between 32 and 64, and just large enough that 2^n
      pieces of minrun elements cover the array, for the least n that leaves fewer than 64 when size is halved
      n times. */
  lemma MinrunBalanced(size: nat) returns (n: nat)
    requires 64 <= size
    ensures 32 <= ComputeMinrun(size) <= 64
    ensures (ComputeMinrun(size) - 1) * Pow2(n) < size <= ComputeMinrun(size) * Pow2(n)
    ensures 0 < n && 64 * Pow2(n - 1) <= size < 64 * Pow2(n)
  {
    SixBits(size);
    n := BitLength(size) - 6;
    BitLengthBounds(size);
    LeadingRange(size, n);
    LeadingBits(size, n);
  }

  lemma LeadingRange(size: nat, n: nat)
    requires Pow2(n + 5) <= size < Pow2(n + 6)
    ensures 32 * Pow2(n) <= size < 64 * Pow2(n)
  {
    Pow2Adds(5, n);
    Pow2Adds(6, n);
    assert Pow2(5) == 32 && Pow2(6) == 64;
  }
}
