/**
 Bitwise operators of unsigned integers, bit by bit.
 */
module Bits {

  import opened Basics

  function Pow2(k: nat): (r: nat)
    ensures 0 < r
  {
    if k == 0 then 1 else 2 * Pow2(k - 1)
  }

  function And(x: nat, y: nat): nat {
    if x == 0 || y == 0 then 0 else 2 * And(x / 2, y / 2) + (if x % 2 == 1 && y % 2 == 1 then 1 else 0)
  }

  function Or(x: nat, y: nat): nat
    decreases x + y
  {
    if x == 0 then y else if y == 0 then x
    else 2 * Or(x / 2, y / 2) + (if x % 2 == 1 || y % 2 == 1 then 1 else 0)
  }

  function Xor(x: nat, y: nat): nat
    decreases x + y
  {
    if x == 0 then y else if y == 0 then x
    else 2 * Xor(x / 2, y / 2) + (if x % 2 != y % 2 then 1 else 0)
  }

  /** The complement of `x` in 64 bits. */
  function Not(x: nat): nat
    requires x < SPAN
  {
    SPAN - 1 - x
  }

  /** An odd mask keeps the lowest bit. */
  lemma AndOdd(x: nat, m: nat)
    requires m > 0
    ensures And(x, 2 * m - 1) == 2 * And(x / 2, m - 1) + x % 2
  {
    var y := 2 * m - 1;
    Remainder(y, 2, m - 1, 1);
  }

  /** Masking with 2^k - 1 is the remainder. */
  lemma {:induction false} AndMask(x: nat, k: nat)
    ensures And(x, Pow2(k) - 1) == x % Pow2(k)
  {
    if k > 0 {
      AndMask(x / 2, k - 1);
      AndOdd(x, Pow2(k - 1));
      HalfMod(x, Pow2(k - 1));
    }
  }

  lemma HalfMod(x: nat, m: nat)
    requires m > 0
    ensures 2 * (x / 2 % m) + x % 2 == x % (2 * m)
  {
    var q, r := x / 2 / m, x / 2 % m;
    assert x / 2 == q * m + r;
    Remainder(x, 2 * m, q, 2 * r + x % 2);
  }

  /** The remainder is the only one in range. */
  lemma Remainder(x: nat, m: nat, q: nat, r: nat)
    requires r < m && x == q * m + r
    ensures x / m == q && x % m == r
  {
    var d := x / m - q;
    assert d * m == r - x % m;
    if d >= 1 {
      MulMono(1, d, m);
    } else if d <= -1 {
      MulMono(d, -1, m);
    }
  }

  lemma MulMono(a: int, b: int, m: nat)
    requires a <= b
    ensures a * m <= b * m
  {
  }

  lemma AndEven(x: nat, y: nat)
    ensures And(x, 2 * y) == 2 * And(x / 2, y)
  {
    if y > 0 {
      Remainder(2 * y, 2, y, 0);
    }
  }

  lemma {:induction false} Pow2Mono(n: nat, w: nat)
    requires n <= w
    ensures Pow2(n) <= Pow2(w)
  {
    if n < w { Pow2Mono(n, w - 1); }
  }

  lemma {:induction false} Pow2Add(n: nat, m: nat)
    ensures Pow2(n + m) == Pow2(n) * Pow2(m)
  {
    if n > 0 { Pow2Add(n - 1, m); }
  }

  /** Masking with the complement of 2^n - 1 rounds down to a multiple of 2^n. */
  lemma {:induction false} AndHigh(x: nat, n: nat, w: nat)
    requires n <= w && x < Pow2(w)
    ensures Pow2(n) <= Pow2(w) && And(x, Pow2(w) - Pow2(n)) == x - x % Pow2(n)
  {
    Pow2Mono(n, w);
    if n == 0 {
      AndMask(x, w);
      Remainder(x, Pow2(w), 0, x);
    } else {
      AndHigh(x / 2, n - 1, w - 1);
      AndHighStep(x, Pow2(w - 1) - Pow2(n - 1), Pow2(n - 1));
    }
  }

  lemma AndHighStep(x: nat, y: nat, m: nat)
    requires 0 < m && And(x / 2, y) == x / 2 - x / 2 % m
    ensures And(x, 2 * y) == x - x % (2 * m)
  {
    AndEven(x, y);
    HalfMod(x, m);
    var h, r, q := x / 2, x / 2 % m, x % (2 * m);
    assert 2 * (h - r) == x - q;
  }

  /** A multiple of 2^n and a number below 2^n have no bit in common. */
  lemma {:induction false} OrLow(t: nat, n: nat, p: nat)
    requires p < Pow2(n)
    ensures Or(t * Pow2(n), p) == t * Pow2(n) + p
  {
    if n > 0 && p > 0 && t > 0 {
      var m := t * Pow2(n - 1);
      assert t * Pow2(n) == 2 * m;
      Remainder(2 * m, 2, m, 0);
      OrLow(t, n - 1, p / 2);
    }
  }

  lemma SpanIsPow2()
    ensures Pow2(64) == SPAN
  {
    assert Pow2(8) == 0x100;
    Pow2Add(8, 8);
    Pow2Add(16, 16);
    Pow2Add(32, 32);
  }
}
