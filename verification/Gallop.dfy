/** The galloping search of TimSort: exponential probing from an anchor, then bisection. */
module Gallop {
  import opened Arith
  import opened Order

  // The C type `int`: every assignment to a variable of this type is checked against its range.
  type Int32 = x: int | -0x8000_0000 <= x < 0x8000_0000

  // An `int` that is never negative.
  type Counter = x: int | 0 <= x < 0x8000_0000

  // The conversion of an unsigned number to int: exact in range, otherwise wrapped around.
  function ToInt(x: nat): Int32 {
    if x < 0x8000_0000 then x else (x + 0x8000_0000) % 0x1_0000_0000 - 0x8000_0000
  }

  // C division, which truncates toward zero.
  function Quotient(x: int, y: int): int
    requires y != 0
  {
    var q := (if x < 0 then -x else x) / (if y < 0 then -y else y);
    if (x < 0) == (y < 0) then q else -q
  }

  // x belongs before the insertion point of key: the last such point when right, else the first.
  predicate Before(x: Elem, key: Elem, right: bool) {
    if right then x.key <= key.key else x.key < key.key
  }

  // k is the insertion point of key in s: the upper bound when right, else the lower bound.
  predicate IsBound(s: seq<Elem>, key: Elem, k: int, right: bool) {
    && 0 <= k <= |s|
    && (forall i :: 0 <= i < k ==> Before(s[i], key, right))
    && (forall i :: k <= i < |s| ==> !Before(s[i], key, right))
  }

  lemma AtMostOnce(p: nat, d: nat)
    requires 0 < d
    ensures p / d <= 1 <==> p < 2 * d
  {
    var q := p / d;
    DivMod(p, d);
    if 2 <= q {
      Scaled(2, q, d);
    } else {
      Scaled(q, 1, d);
    }
  }

  // The overflow test of the probing loop: the next doubled offset would not be a valid one.
  method NoRoomToDouble(maxOfs: Int32, ofs: Int32) returns (b: bool)
    requires ofs != 0 && (maxOfs < 0) == (ofs < 0)
    ensures b <==> if ofs < 0 then 2 * ofs < maxOfs else maxOfs < 2 * ofs
  {
    b := Quotient(maxOfs, ofs) <= 1;
    AtMostOnce(if maxOfs < 0 then 0 - maxOfs else maxOfs, if ofs < 0 then 0 - ofs else ofs);
  }

  // In a sorted range, comparing the two neighbours of a position settles the whole search.
  lemma BoundFromNeighbours(s: seq<Elem>, key: Elem, k: int, right: bool)
    requires Sorted(s) && 0 <= k <= |s|
    requires 0 < k ==> Before(s[k - 1], key, right)
    requires k < |s| ==> !Before(s[k], key, right)
    ensures IsBound(s, key, k, right)
  {
    forall i | 0 <= i < k ensures Before(s[i], key, right) {
      assert InOrder(s, i, k - 1);
    }
    forall i | k <= i < |s| ensures !Before(s[i], key, right) {
      assert InOrder(s, k, i);
    }
  }

  // The binary phase: both ends of the region have already been compared with the key.
  method Bisect(s: seq<Elem>, key: Elem, lo: nat, hi: nat, right: bool) returns (k: nat)
    requires lo < hi < |s| && Sorted(s)
    requires Before(s[lo], key, right) && !Before(s[hi], key, right)
    ensures IsBound(s, key, k, right)
  {
    var l, r := lo, hi;
    while 1 < r - l
      invariant 0 <= l < r < |s|
      invariant Before(s[l], key, right) && !Before(s[r], key, right)
    {
      var c := l + (r - l) / 2;
      var cmp := Cmp(key, s[c]);
      if (right && cmp < 0) || (!right && cmp <= 0) {
        r := c;
      } else {
        l := c;
      }
    }
    k := r;
    BoundFromNeighbours(s, key, k, right);
  }

  /** TIM_SORT_GALLOP; s is the range that the pointer and the size describe. */
  method TimSortGallop(s: seq<Elem>, key: Elem, anchor: nat, right: bool) returns (k: nat)
    requires anchor < |s| < 0x8000_0000 && Sorted(s)
    ensures IsBound(s, key, k, right)
  {
    var size := |s|;
    var lastOfs: Int32, ofs: Int32, maxOfs: Int32, ofsSign: Int32 := 0, 0, 0, 0;
    var cmp := Cmp(key, s[anchor]);
    if cmp < 0 || (!right && cmp == 0) {
      if anchor == 0 {
        BoundFromNeighbours(s, key, 0, right);
        return 0;
      }
      ofs, ofsSign, maxOfs := -1, -1, 0 - anchor;
    } else {
      if anchor == size - 1 {
        BoundFromNeighbours(s, key, size, right);
        return size;
      }
      ofs, ofsSign, maxOfs := 1, 1, size - anchor - 1;
    }
    while true
      invariant ofsSign == 1 ==> 0 <= lastOfs < ofs <= maxOfs + 1 && lastOfs < maxOfs == size - anchor - 1
      invariant ofsSign == -1 ==> maxOfs - 1 <= ofs < lastOfs <= 0 && 0 - anchor == maxOfs < lastOfs
      invariant ofsSign == 1 || ofsSign == -1
      invariant Before(s[anchor + lastOfs], key, right) == (ofsSign == 1)
      decreases size - (if ofs < 0 then -ofs else ofs)
    {
      var clamp := NoRoomToDouble(maxOfs, ofs);
      if clamp {
        ofs := maxOfs;
        if ofs < 0 {
          cmp := Cmp(key, s[0]);
          if (right && cmp < 0) || (!right && cmp <= 0) {
            BoundFromNeighbours(s, key, 0, right);
            return 0;
          }
        } else {
          cmp := Cmp(s[size - 1], key);
          if (right && cmp <= 0) || (!right && cmp < 0) {
            BoundFromNeighbours(s, key, size, right);
            return size;
          }
        }
        break;
      }
      var c := anchor + ofs;
      cmp := Cmp(key, s[c]);
      if 0 < ofs {
        if (right && cmp < 0) || (!right && cmp <= 0) {
          break;
        }
      } else {
        if (right && 0 <= cmp) || (!right && 0 < cmp) {
          break;
        }
      }
      lastOfs := ofs;
      ofs := ofs * 2 + ofsSign;
    }
    var l, r := anchor + lastOfs, anchor + ofs;
    if ofs < 0 {
      l, r := anchor + ofs, anchor + lastOfs;
    }
    k := Bisect(s, key, l, r, right);
  }
}
