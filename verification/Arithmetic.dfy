/** Powers of two and remainders: the few arithmetic facts the other modules share. */
module Arithmetic {

  function Pow2(e: nat): (r: nat)
    ensures r >= 1
  {
    if e == 0 then 1 else 2 * Pow2(e - 1)
  }

  lemma {:induction false} Pow2Split(a: nat, b: nat)
    ensures Pow2(a + b) == Pow2(a) * Pow2(b)
  {
    if a > 0 { Pow2Split(a - 1, b); }
  }

  lemma PowSquare(a: nat, v: nat)
    requires Pow2(a) == v
    ensures Pow2(a + a) == v * v
  {
    Pow2Split(a, a);
  }

  lemma WordPowers()
    ensures Pow2(4) == 16 && Pow2(8) == 256 && Pow2(16) == 0x1_0000 && Pow2(32) == 0x1_0000_0000
    ensures Pow2(64) == 0x1_0000_0000_0000_0000
  {
    assert Pow2(4) == 16;
    hide Pow2;
    PowSquare(4, 16);
    PowSquare(8, 256);
    PowSquare(16, 0x1_0000);
    PowSquare(32, 0x1_0000_0000);
  }

  lemma {:induction false} Pow2Monotone(a: nat, b: nat)
    requires a < b
    ensures 2 * Pow2(a) <= Pow2(b)
  {
    if a + 1 < b { Pow2Monotone(a, b - 1); }
  }

  /** The only multiple of `m` strictly between `-m` and `m` is zero. */
  lemma MultipleBelow(k: int, m: int)
    requires m > 0 && -m < k * m < m
    ensures k == 0
  {
  }

  lemma DivModUnique(x: int, m: int, q: int, r: int)
    requires m > 0 && 0 <= r < m && x == q * m + r
    ensures x / m == q && x % m == r
  {
    var q', r' := x / m, x % m;
    assert (q - q') * m == r' - r;
    MultipleBelow(q - q', m);
  }

  /** `d` is a multiple of `m`. */
  predicate Multiple(d: nat, m: nat)
    requires m > 0
  {
    d == 0 || (d >= m && Multiple(d - m, m))
  }

  lemma {:induction false} MultipleSum(x: nat, y: nat, m: nat)
    requires m > 0 && Multiple(x, m) && Multiple(y, m)
    ensures Multiple(x + y, m)
    decreases y
  {
    if y > 0 { MultipleSum(x + m, y - m, m); }
  }

  /** A higher power of two is a multiple of a lower one. */
  lemma {:induction false} Pow2Divides(a: nat, b: nat)
    requires a <= b
    ensures Multiple(Pow2(b), Pow2(a))
  {
    if a < b {
      Pow2Divides(a, b - 1);
      MultipleSum(Pow2(b - 1), Pow2(b - 1), Pow2(a));
    }
  }

  /** The exponent of the highest power of two that is at most `n`. */
  function FloorLog(n: nat): (e: nat)
    requires n >= 1
    ensures Pow2(e) <= n < 2 * Pow2(e)
  {
    if n == 1 then 0 else FloorLog(n / 2) + 1
  }

  lemma LogUnique(n: nat, e: nat)
    requires n == Pow2(e)
    ensures FloorLog(n) == e
  {
    var l := FloorLog(n);
    if l < e { Pow2Monotone(l, e); }
    if e < l { Pow2Monotone(e, l); }
  }
}
