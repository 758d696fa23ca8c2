/** Bitwise operators on natural numbers and what masks and shifts mean. */
module Bits {
  function Pow2(n: nat): (p: nat)
    ensures p > 0
  {
    if n == 0 then 1 else 2 * Pow2(n - 1)
  }

  function And(x: nat, y: nat): nat {
    if x == 0 || y == 0 then 0
    else 2 * And(x / 2, y / 2) + if x % 2 == 1 && y % 2 == 1 then 1 else 0
  }

  function Or(x: nat, y: nat): nat {
    if x == 0 then y
    else if y == 0 then x
    else 2 * Or(x / 2, y / 2) + if x % 2 == 1 || y % 2 == 1 then 1 else 0
  }

  function ShiftLeft(x: nat, n: nat): nat {
    x * Pow2(n)
  }

  function ShiftRight(x: nat, n: nat): nat {
    QuotientNonNegative(x, Pow2(n));
    x / Pow2(n)
  }

  lemma QuotientNonNegative(x: nat, d: nat)
    requires d > 0
    ensures x / d >= 0
  {
    var q := x / d;
    assert x == d * q + x % d;
    TimesAtLeast(d, -q);
    assert d * -q == -(d * q);
  }

  lemma PowersOfTwo()
    ensures Pow2(0) == 1 && Pow2(1) == 2 && Pow2(2) == 4 && Pow2(4) == 16 && Pow2(6) == 64
    ensures Pow2(7) == 128 && Pow2(8) == 256 && Pow2(9) == 512 && Pow2(10) == 1024 && Pow2(16) == 65536
  {
    assert Pow2(3) == 8 && Pow2(5) == 32;
    assert Pow2(12) == 4096 by { assert Pow2(11) == 2048; }
    assert Pow2(14) == 16384 by { assert Pow2(13) == 8192; }
    assert Pow2(15) == 32768;
  }

  /** Halving first and dividing by half the power is dividing by the power. */
  lemma HalveFirst(x: nat, p: nat)
    requires p > 0
    ensures x / 2 / p == x / (2 * p)
    ensures x % (2 * p) == 2 * (x / 2 % p) + x % 2
  {
    var q, r := x / 2 / p, x / 2 % p;
    assert x / 2 == p * q + r;
    assert x == (2 * p) * q + (2 * r + x % 2);
    DivisionUnique(x, 2 * p, q, 2 * r + x % 2);
  }

  lemma DivisionUnique(x: int, d: int, q: int, r: int)
    requires d > 0 && 0 <= r < d && x == d * q + r
    ensures x / d == q && x % d == r
  {
    var q', r' := x / d, x % d;
    assert d * (q - q') == r' - r;
    Between(d, q - q', r' - r);
  }

  lemma Between(d: int, k: int, e: int)
    requires d > 0 && d * k == e && -d < e < d
    ensures k == 0
  {
    TimesAtLeast(d, k);
    TimesAtLeast(d, -k);
    assert d * -k == -(d * k);
  }

  lemma TimesAtLeast(d: int, k: int)
    requires d > 0
    ensures k >= 1 ==> d * k >= d
  {
    if k >= 1 {
      assert d * (k - 1) >= 0;
      assert d * k == d * (k - 1) + d;
    }
  }

  lemma {:induction false} AndLowMask(x: nat, n: nat)
    ensures And(x, Pow2(n) - 1) == x % Pow2(n)
    decreases n
  {
    hide *;
    Pow2Step(n);
    if n == 0 {
      AndZero(x);
    } else {
      HalveFirst(x, Pow2(n - 1));
      AndLowMask(x / 2, n - 1);
      AndOdd(x, Pow2(n - 1) - 1);
    }
  }

  lemma Pow2Step(n: nat)
    ensures Pow2(n) == if n == 0 then 1 else 2 * Pow2(n - 1)
  {
  }

  lemma Halves(half: nat, bit: nat)
    requires bit < 2
    ensures (2 * half + bit) / 2 == half && (2 * half + bit) % 2 == bit
  {
  }

  lemma AndZero(x: nat)
    ensures And(x, 0) == 0
  {
  }

  lemma AndOdd(x: nat, half: nat)
    ensures And(x, 2 * half + 1) == 2 * And(x / 2, half) + x % 2
  {
    Halves(half, 1);
  }

  lemma ShiftOnce(x: nat, k: nat)
    ensures ShiftRight(x, k + 1) == ShiftRight(x / 2, k)
    ensures ShiftLeft(x, k + 1) == 2 * ShiftLeft(x, k)
    ensures ShiftRight(x, 0) == ShiftLeft(x, 0) == x
  {
    HalveFirst(x, Pow2(k));
    Doubled(x, Pow2(k));
  }

  /** A mask without low bits keeps the high bits where they are. */
  lemma {:induction false} AndShiftedMask(x: nat, m: nat, k: nat)
    ensures And(x, ShiftLeft(m, k)) == ShiftLeft(And(ShiftRight(x, k), m), k)
    decreases k
  {
    hide *;
    if k == 0 {
      ShiftOnce(x, 0);
      ShiftOnce(m, 0);
      ShiftOnce(And(x, m), 0);
    } else {
      AndShiftedMask(x / 2, m, k - 1);
      ShiftOnce(x, k - 1);
      ShiftOnce(m, k - 1);
      ShiftOnce(And(ShiftRight(x, k), m), k - 1);
      AndEven(x, ShiftLeft(m, k - 1));
    }
  }

  lemma Doubled(a: int, b: int)
    ensures a * (2 * b) == 2 * (a * b)
  {
  }

  lemma AndEven(x: nat, half: nat)
    ensures And(x, 2 * half) == 2 * And(x / 2, half)
  {
    Halves(half, 0);
  }

  /** Filling in bits below a shifted number adds them. */
  lemma {:induction false} OrBelow(a: nat, b: nat, k: nat)
    requires b < Pow2(k)
    ensures Or(ShiftLeft(a, k), b) == a * Pow2(k) + b
    decreases k
  {
    hide *;
    Pow2Step(k);
    ShiftOnce(a, if k == 0 then 0 else k - 1);
    ShiftIsProduct(a, k);
    if k == 0 {
      OrZero(a);
    } else {
      OrBelow(a, b / 2, k - 1);
      ShiftIsProduct(a, k - 1);
      OrEven(ShiftLeft(a, k - 1), b);
    }
  }

  lemma ShiftIsProduct(a: nat, k: nat)
    ensures ShiftLeft(a, k) == a * Pow2(k)
  {
  }

  lemma OrZero(a: nat)
    ensures Or(a, 0) == a
  {
  }

  lemma OrEven(half: nat, b: nat)
    ensures Or(2 * half, b) == 2 * Or(half, b / 2) + b % 2
  {
    Halves(half, 0);
  }
}
