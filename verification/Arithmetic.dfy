/** Facts about integer division and powers of two that the solver does not find unaided. */
module Arithmetic {

  lemma DivMod(a: int, b: int)
    requires b > 0
    ensures a == b * (a / b) + a % b && 0 <= a % b < b
  {
  }

  lemma MulMono(q: int, b: int)
    requires b >= 1 && q >= 0
    ensures b * q >= q
  {
  }

  lemma DivBounds(a: nat, b: int)
    requires b > 0
    ensures 0 <= a / b <= a
  {
    if a / b > a {
      DivMod(a, b);
      MulMono(a / b, b);
    }
  }

  lemma MulLe(a: int, b: int, c: int)
    requires 0 <= c && a <= b
    ensures a * c <= b * c
  {
  }

  /** Division is the only pair of quotient and remainder. */
  lemma DivUnique(a: int, b: int, q: int, r: int)
    requires b > 0 && 0 <= r < b && a == b * q + r
    ensures a / b == q && a % b == r
  {
    DivMod(a, b);
    var k := a / b;
    var e := a % b;
    assert b * (k - q) == r - e && b * (q - k) == e - r;
    if k > q { MulLe(1, k - q, b); }
    if k < q { MulLe(1, q - k, b); }
  }

  function Pow2(n: nat): (p: int)
    ensures p >= 1
  {
    if n == 0 then 1 else 2 * Pow2(n - 1)
  }

  lemma {:induction false} PowSum(a: nat, b: nat)
    ensures Pow2(a + b) == Pow2(a) * Pow2(b)
  {
    if a > 0 {
      PowSum(a - 1, b);
      assert Pow2(a) * Pow2(b) == 2 * (Pow2(a - 1) * Pow2(b));
    }
  }

  /** The representative of a number at most one modulus away. */
  lemma Wrap(x: int, h: int)
    requires h > 0 && -h <= x < 2 * h
    ensures x % h == if x < 0 then x + h else if x < h then x else x - h
  {
    if x < 0 { DivUnique(x, h, -1, x + h); }
    else if x < h { DivUnique(x, h, 0, x); }
    else { DivUnique(x, h, 1, x - h); }
  }

  /** Shifting a bit in at the bottom, seen modulo a power of two. */
  lemma ShiftIn(x: int, p: int, b: int)
    requires p > 0 && 0 <= b < 2
    ensures (2 * x + b) % (2 * p) == 2 * (x % p) + b
  {
    DivMod(x, p);
    assert 2 * x + b == 2 * p * (x / p) + (2 * (x % p) + b);
    DivUnique(2 * x + b, 2 * p, x / p, 2 * (x % p) + b);
  }

  /** Reducing modulo a multiple first changes nothing. */
  lemma ModMod(x: int, p: int, q: int)
    requires p > 0 && q > 0
    ensures p * q > 0 && x % (p * q) % p == x % p
  {
    MulMono(q, p);
    DivMod(x, p * q);
    DivMod(x % (p * q), p);
    var k := x / (p * q) * q + x % (p * q) / p;
    assert p * k == p * q * (x / (p * q)) + p * (x % (p * q) / p);
    DivUnique(x, p, k, x % (p * q) % p);
  }

  /** A product, for proofs that only need how it steps. */
  function Times(a: int, b: int): int {
    a * b
  }

  lemma TimesNext(a: int, b: int)
    ensures Times(a, b + 1) == Times(a, b) + a && Times(a, b - 1) == Times(a, b) - a && Times(a, 0) == 0
    ensures a >= 0 && b >= 0 ==> Times(a, b) >= 0
  {
  }
}
