/** Integer facts the index and bit-field arithmetic rests on (Euclidean division, powers of two). */
module Arith {

  lemma MulBound(m: int, k: int)
    requires m > 0 && k >= 1
    ensures m * k >= m
  {
  }

  /** Euclidean division is determined by any decomposition `x == m * a + c` with `0 <= c < m`. */
  lemma ModUnique(x: int, m: int, a: int, c: int)
    requires m > 0 && x == m * a + c && 0 <= c < m
    ensures x % m == c && x / m == a
  {
    var q, r := x / m, x % m;
    assert x == m * q + r;
    assert m * (a - q) == r - c;
    if a - q >= 1 {
      MulBound(m, a - q);
      assert false;
    } else if q - a >= 1 {
      MulBound(m, q - a);
      assert false;
    }
  }

  function Pow2(n: nat): (p: nat)
    ensures p >= 1
  {
    if n == 0 then 1 else 2 * Pow2(n - 1)
  }

  lemma {:induction false} Pow2Add(a: nat, b: nat)
    ensures Pow2(a + b) == Pow2(a) * Pow2(b)
  {
    if b > 0 {
      Pow2Add(a, b - 1);
      assert Pow2(a + b) == 2 * Pow2(a + b - 1);
    }
  }

  /** Dividing `x + m * d` by `d` keeps the multiple whole. */
  lemma DivOfShifted(x: nat, m: nat, d: nat)
    requires d >= 1
    ensures (x + m * d) / d == x / d + m
  {
    assert x == d * (x / d) + x % d;
    assert x + m * d == d * (x / d + m) + x % d;
    ModUnique(x + m * d, d, x / d + m, x % d);
  }

  /** A quotient below 1: `x / d == 0` for `x < d`. */
  lemma SmallDiv(x: nat, d: nat)
    requires x < d
    ensures x / d == 0
  {
    ModUnique(x, d, 0, x);
  }

  /** Adding an even multiple `b * (2 * h * d)` of `d` to `x` leaves the parity of `x / d` alone. */
  lemma ParityOfShifted(x: nat, b: nat, h: nat, d: nat)
    requires d >= 1
    ensures ((x + b * ((2 * h) * d)) / d) % 2 == (x / d) % 2
  {
    assert b * ((2 * h) * d) == (2 * (b * h)) * d;
    DivOfShifted(x, 2 * (b * h), d);
    var y := x / d;
    assert y == 2 * (y / 2) + y % 2;
    ModUnique(y + 2 * (b * h), 2, y / 2 + b * h, y % 2);
  }
}
