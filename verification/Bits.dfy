/**
  The word operations the tree arithmetic uses, on unbounded naturals: shifts,
  low-bit masks, exclusive or, bit length and bit reversal, and how they interact.
 */
module Bits {
  import opened Arithmetic

  /** `x >> k`. */
  function Shr(x: nat, k: nat): (r: nat) {
    if k == 0 then x else Shr(x / 2, k - 1)
  }

  /** `x & (2^k - 1)`. */
  function LowBits(x: nat, k: nat): (r: nat) {
    if k == 0 then 0 else 2 * LowBits(x / 2, k - 1) + x % 2
  }

  function Xor(a: nat, b: nat): (r: nat) {
    if a == 0 && b == 0 then 0 else 2 * Xor(a / 2, b / 2) + (a + b) % 2
  }

  /** The number of bits of `x` without leading zeros: 64 less the leading zeros of a word. */
  function BitLength(x: nat): (r: nat) {
    if x == 0 then 0 else 1 + BitLength(x / 2)
  }

  /** The low `k` bits of `x` in reverse order. */
  function Reverse(x: nat, k: nat): (r: nat) {
    if k == 0 then 0 else (if x % 2 == 1 then Pow2(k - 1) else 0) + Reverse(x / 2, k - 1)
  }

  // ---- Bits one by one ------------------------------------------------------------------

  /** Bit `i` of an exclusive or. */
  lemma {:induction false} XorBit(a: nat, b: nat, i: nat)
    ensures Xor(a, b) / Pow2(i) % 2 == (a / Pow2(i) + b / Pow2(i)) % 2
  {
    XorHalves(a, b);
    if i > 0 {
      XorBit(a / 2, b / 2, i - 1);
      HalfPower(a, i);
      HalfPower(b, i);
      HalfPower(Xor(a, b), i);
    }
  }

  lemma XorHalves(a: nat, b: nat)
    ensures Xor(a, b) % 2 == (a + b) % 2 && Xor(a, b) / 2 == Xor(a / 2, b / 2)
  {
    assert Xor(a, b) == 2 * Xor(a / 2, b / 2) + (a + b) % 2;
    hide Xor;
    DivModUnique(Xor(a, b), 2, Xor(a / 2, b / 2), (a + b) % 2);
  }

  /** Dividing by a power of two, one factor first. */
  lemma HalfPower(x: nat, i: nat)
    requires i > 0
    ensures x / Pow2(i) == x / 2 / Pow2(i - 1)
  {
    ShrLowBits(x, i);
    ShrLowBits(x / 2, i - 1);
  }

  /** Bit `i` of the number is bit `k - 1 - i` of its reversal. */
  lemma {:induction false} ReverseBit(x: nat, k: nat, i: nat)
    requires i < k
    ensures Reverse(x, k) / Pow2(k - 1 - i) % 2 == x / Pow2(i) % 2
  {
    hide Reverse, Pow2;
    ReverseTop(x, k);
    var rest := Reverse(x / 2, k - 1);
    if i == 0 {
      DivModUnique(Reverse(x, k), Pow2(k - 1), x % 2, rest);
      assert x / Pow2(0) == x by { NoPower(); }
    } else {
      ReverseBit(x / 2, k - 1, i - 1);
      HalfPower(x, i);
      TopKeepsBit(rest, k - 1, k - 1 - i, x % 2);
    }
  }

  lemma ReverseTop(x: nat, k: nat)
    requires k > 0
    ensures Reverse(x, k) == x % 2 * Pow2(k - 1) + Reverse(x / 2, k - 1) && Reverse(x / 2, k - 1) < Pow2(k - 1)
  {
    ReverseBelow(x / 2, k - 1);
  }

  lemma NoPower()
    ensures Pow2(0) == 1
  {
  }

  /** A multiple of a higher power of two does not touch a lower bit. */
  lemma TopKeepsBit(rest: nat, n: nat, j: nat, d: nat)
    requires j < n
    ensures (d * Pow2(n) + rest) / Pow2(j) % 2 == rest / Pow2(j) % 2
  {
    hide Pow2;
    Pow2Split(n - j, j);
    DoubledPower(n - j);
    Regroup(d, Pow2(n - j - 1), Pow2(j));
    EvenMultiple(d * Pow2(n - j - 1), Pow2(j), rest);
  }

  lemma DoubledPower(k: nat)
    requires k > 0
    ensures Pow2(k) == 2 * Pow2(k - 1)
  {
  }

  lemma Regroup(d: nat, half: nat, p: nat)
    ensures d * (2 * half * p) == 2 * (d * half) * p
  {
  }

  lemma EvenMultiple(m: nat, p: nat, rest: nat)
    requires p > 0
    ensures (2 * m * p + rest) / p % 2 == rest / p % 2
  {
    var q, r := rest / p, rest % p;
    assert 2 * m * p + rest == (2 * m + q) * p + r by {
      assert (2 * m + q) * p == 2 * m * p + q * p;
    }
    DivModUnique(2 * m * p + rest, p, 2 * m + q, r);
    DivModUnique(2 * m + q, 2, m + q / 2, q % 2);
  }

  // ---- Shifts and masks -----------------------------------------------------------------

  lemma {:induction false} ShrTwice(x: nat, a: nat, b: nat)
    ensures Shr(Shr(x, a), b) == Shr(x, a + b)
  {
    if a > 0 { ShrTwice(x / 2, a - 1, b); }
  }

  /** Shifting right is dividing, masking is taking the remainder. */
  lemma {:induction false} ShrLowBits(x: nat, k: nat)
    ensures LowBits(x, k) < Pow2(k) && x == Shr(x, k) * Pow2(k) + LowBits(x, k)
    ensures Shr(x, k) == x / Pow2(k) && LowBits(x, k) == x % Pow2(k)
  {
    ShrPlusLow(x, k);
    hide Shr, LowBits, Pow2;
    DivModUnique(x, Pow2(k), Shr(x, k), LowBits(x, k));
  }

  lemma {:induction false} ShrPlusLow(x: nat, k: nat)
    ensures LowBits(x, k) < Pow2(k) && x == Shr(x, k) * Pow2(k) + LowBits(x, k)
  {
    if k > 0 {
      ShrPlusLow(x / 2, k - 1);
      DoubleProduct(Shr(x, k), Pow2(k - 1));
    }
  }

  lemma DoubleProduct(q: nat, p: nat)
    ensures q * (2 * p) == 2 * (q * p)
  {
  }

  lemma {:induction false} ShrMonotone(x: nat, y: nat, k: nat)
    requires x <= y
    ensures Shr(x, k) <= Shr(y, k)
  {
    if k > 0 { ShrMonotone(x / 2, y / 2, k - 1); }
  }

  lemma {:induction false} ShrZero(x: nat, k: nat)
    ensures Shr(x, k) == 0 <==> x < Pow2(k)
  {
    if k > 0 { ShrZero(x / 2, k - 1); }
  }

  /** `(y << k) + r`, shifted back. */
  lemma {:induction false} ShrShl(y: nat, k: nat, r: nat)
    requires r < Pow2(k)
    ensures Shr(y * Pow2(k) + r, k) == y
  {
    if k > 0 {
      var x := y * Pow2(k) + r;
      assert y * Pow2(k) == 2 * (y * Pow2(k - 1));
      assert x / 2 == y * Pow2(k - 1) + r / 2;
      ShrShl(y, k - 1, r / 2);
    }
  }

  lemma {:induction false} LowBitsSmall(x: nat, k: nat)
    requires x < Pow2(k)
    ensures LowBits(x, k) == x
  {
    if k > 0 { LowBitsSmall(x / 2, k - 1); }
  }

  /** Numbers in `[2^k, 2^(k + 1))` shift to numbers in `[2^(k - j), 2^(k - j + 1))`. */
  lemma {:induction false} ShrRange(x: nat, k: nat, j: nat)
    requires j <= k && Pow2(k) <= x < Pow2(k + 1)
    ensures Pow2(k - j) <= Shr(x, j) < Pow2(k - j + 1)
  {
    if j > 0 { ShrRange(x / 2, k - 1, j - 1); }
  }

  // ---- Exclusive or -------------------------------------------------------------------------

  lemma {:induction false} XorShr(a: nat, b: nat, k: nat)
    ensures Shr(Xor(a, b), k) == Xor(Shr(a, k), Shr(b, k))
  {
    if k > 0 { XorShr(a / 2, b / 2, k - 1); }
  }

  lemma {:induction false} XorZero(a: nat, b: nat)
    ensures Xor(a, b) == 0 <==> a == b
    decreases a + b
  {
    if a != 0 || b != 0 { XorZero(a / 2, b / 2); }
  }

  lemma {:induction false} XorSymmetric(a: nat, b: nat)
    ensures Xor(a, b) == Xor(b, a)
    decreases a + b
  {
    if a != 0 || b != 0 { XorSymmetric(a / 2, b / 2); }
  }

  lemma {:induction false} XorBelow(a: nat, b: nat, k: nat)
    requires a < Pow2(k) && b < Pow2(k)
    ensures Xor(a, b) < Pow2(k)
  {
    if k > 0 { XorBelow(a / 2, b / 2, k - 1); }
  }

  /** A common top bit cancels. */
  lemma {:induction false} XorTopBit(a: nat, b: nat, k: nat)
    requires a < Pow2(k) && b < Pow2(k)
    ensures Xor(Pow2(k) + a, Pow2(k) + b) == Xor(a, b)
  {
    if k > 0 {
      XorTopBit(a / 2, b / 2, k - 1);
    } else {
      assert Xor(1, 1) == 2 * Xor(0, 0) + 0;
    }
  }

  lemma {:induction false} BitLengthAtMost(x: nat, k: nat)
    ensures BitLength(x) <= k <==> x < Pow2(k)
  {
    if k > 0 { BitLengthAtMost(x / 2, k - 1); }
  }

  // ---- Reversal ---------------------------------------------------------------------------------

  lemma {:induction false} ReverseBelow(x: nat, k: nat)
    ensures Reverse(x, k) < Pow2(k)
  {
    if k > 0 { ReverseBelow(x / 2, k - 1); }
  }

  /** Dropping the last bits of a reversal drops the first bits of the number. */
  lemma {:induction false} ReverseShr(x: nat, k: nat, j: nat)
    requires j <= k
    ensures Shr(Reverse(x, k), j) == Reverse(x, k - j)
    decreases k, j
  {
    if j > 0 {
      ReverseHalf(x, k);
      ReverseShr(x, k - 1, j - 1);
    }
  }

  lemma {:induction false} ReverseHalf(x: nat, k: nat)
    requires k > 0
    ensures Reverse(x, k) / 2 == Reverse(x, k - 1)
  {
    if k > 1 { ReverseHalf(x / 2, k - 1); }
  }

  /** Only the low bits matter. */
  lemma {:induction false} ReverseLowBits(x: nat, k: nat, j: nat)
    requires k <= j
    ensures Reverse(LowBits(x, j), k) == Reverse(x, k)
    decreases k
  {
    if k > 0 {
      assert LowBits(x, j) / 2 == LowBits(x / 2, j - 1) && LowBits(x, j) % 2 == x % 2;
      ReverseLowBits(x / 2, k - 1, j - 1);
    }
  }

  /** Reversing a number whose top bit is split off. */
  lemma {:induction false} ReverseTopBit(y: nat, k: nat, top: bool)
    requires y < Pow2(k)
    ensures Reverse((if top then Pow2(k) else 0) + y, k + 1) == 2 * Reverse(y, k) + (if top then 1 else 0)
  {
    if k > 0 {
      var x := (if top then Pow2(k) else 0) + y;
      assert x / 2 == (if top then Pow2(k - 1) else 0) + y / 2 && x % 2 == y % 2;
      ReverseTopBit(y / 2, k - 1, top);
    } else {
      assert Reverse(0, 0) == 0 && Reverse(1 / 2, 0) == 0;
    }
  }

  /** Reversing twice gives the low bits back. */
  lemma {:induction false} ReverseTwice(x: nat, k: nat)
    ensures Reverse(Reverse(x, k), k) == LowBits(x, k)
  {
    if k > 0 {
      ReverseTwice(x / 2, k - 1);
      ReverseBelow(x / 2, k - 1);
      ReverseTopBit(Reverse(x / 2, k - 1), k - 1, x % 2 == 1);
    }
  }
}
