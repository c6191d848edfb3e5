/** The sequential divider: one quotient bit a clock, without restoring the partial remainder. */
module SysUdiv {
  import opened Arithmetic

  /** `n` and `d` are the widths of the numerator and of the divisor. */
  datatype Divider = Divider(run: bool, cpt: int, rem: int, result: int, remainder: int)

  datatype Input = Input(start: bool, num: int, div: int)

  /** The weight of the partial remainder's top bit. */
  function Top(n: nat, d: nat): (h: int)
    ensures h >= 1
  {
    Pow2(n + d + 1)
  }

  /** The divisor moved up over the numerator. */
  function Aligned(n: nat, div: int): int {
    div * Pow2(n)
  }

  predicate Negative(n: nat, d: nat, rem: int) {
    rem / Top(n, d) % 2 == 1
  }

  /** The remainder without its sign bit, less or plus the divisor, in `n + d + 1` bits, and a zero behind it. */
  function Shifted(n: nat, d: nat, rem: int, div: int): int {
    var low := rem % Top(n, d);
    (if Negative(n, d, rem) then low + Aligned(n, div) else low - Aligned(n, div)) % Top(n, d) * 2
  }

  /** The register without its top bit, and a bit behind it. */
  function Pushed(n: nat, result: int, b: int): int
    requires n >= 2
  {
    result % Pow2(n - 1) * 2 + b
  }

  function Next(n: nat, d: nat, s: Divider, i: Input): Divider
    requires n >= 2
  {
    if i.start then s.(cpt := 0, run := true, rem := i.num)
    else if s.run then
      Divider(s.cpt != n + 1,
              (s.cpt + 1) % 64,
              Shifted(n, d, s.rem, i.div),
              Pushed(n, s.result, if Negative(n, d, s.rem) then 0 else 1),
              s.rem / Pow2(n + 1) % Pow2(d))
    else s
  }

  class SysUdiv {
    const nbNum: nat
    const nbDiv: nat
    var run: bool
    var cpt: int
    var rem: int
    var result: int
    var remainder: int

    function Value(): Divider
      reads this
    {
      Divider(run, cpt, rem, result, remainder)
    }

    constructor (nbNum: nat, nbDiv: nat)
      ensures this.nbNum == nbNum && this.nbDiv == nbDiv
    {
      this.nbNum, this.nbDiv := nbNum, nbDiv;
    }

    method Clock(start: bool, num: int, div: int)
      requires nbNum >= 2
      modifies this
      ensures Value() == Next(nbNum, nbDiv, old(Value()), Input(start, num, div))
    {
      if start {
        cpt := 0;
        run := true;
        rem := num;
      } else if run {
        var negative := Negative(nbNum, nbDiv, rem);
        run := cpt != nbNum + 1;
        cpt := (cpt + 1) % 64;
        remainder := rem / Pow2(nbNum + 1) % Pow2(nbDiv);
        if !negative {
          rem := (rem % Top(nbNum, nbDiv) - Aligned(nbNum, div)) % Top(nbNum, nbDiv) * 2;
        } else {
          rem := (rem % Top(nbNum, nbDiv) + Aligned(nbNum, div)) % Top(nbNum, nbDiv) * 2;
        }
        result := Pushed(nbNum, result, if negative then 0 else 1);
      }
    }
  }

  /** The state after the first `k` clocks of `ins`. */
  function After(n: nat, d: nat, s: Divider, ins: seq<Input>, k: nat): Divider
    requires n >= 2 && k <= |ins|
  {
    if k == 0 then s else Next(n, d, After(n, d, s, ins, k - 1), ins[k - 1])
  }

  // ---------------------------------------------------------------- one clock

  /** The partial remainder as the signed number its bits stand for, `h` being the weight of its sign bit. */
  function Signed(rem: int, h: int): int {
    if rem < h then rem else rem - 2 * h
  }

  lemma SignBit(rem: int, h: int)
    requires h > 0 && 0 <= rem < 2 * h
    ensures rem / h % 2 == (if rem < h then 0 else 1) && rem % h == if rem < h then rem else rem - h
  {
    if rem < h { DivUnique(rem, h, 0, rem); } else { DivUnique(rem, h, 1, rem - h); }
  }

  lemma Weighed(div: int, p: int, q: int)
    requires 1 <= div < q && p >= 1
    ensures p <= div * p && div * p + p <= q * p
  {
    MulLe(div + 1, q, p);
    MulLe(1, div, p);
  }

  lemma AlignedBelow(n: nat, d: nat, div: int)
    requires 1 <= div < Pow2(d)
    ensures 2 * Aligned(n, div) < Top(n, d) && Pow2(n) <= Aligned(n, div)
  {
    PowSum(d, n);
    assert Pow2(n + d + 1) == 2 * Pow2(d + n);
    hide Pow2;
    Weighed(div, Pow2(n), Pow2(d));
  }

  predicate RemainderInRange(n: nat, d: nat, rem: int, div: int) {
    0 <= rem < 2 * Top(n, d) && -2 * Aligned(n, div) <= Signed(rem, Top(n, d)) < 2 * Aligned(n, div)
  }

  /** A clock doubles the remainder less, or plus, the aligned divisor; no bit is lost. */
  lemma StepSigned(n: nat, d: nat, rem: int, div: int)
    requires 1 <= div < Pow2(d) && RemainderInRange(n, d, rem, div)
    ensures var r, m := Signed(rem, Top(n, d)), Aligned(n, div);
            && (Negative(n, d, rem) <==> r < 0)
            && Signed(Shifted(n, d, rem, div), Top(n, d)) == (if r < 0 then 2 * r + 2 * m else 2 * r - 2 * m)
            && RemainderInRange(n, d, Shifted(n, d, rem, div), div)
  {
    AlignedBelow(n, d, div);
    var h, m := Top(n, d), Aligned(n, div);
    hide Top, Aligned;
    SignBit(rem, h);
    Wrap(if rem < h then rem - m else rem - h + m, h);
  }

  // ---------------------------------------------------------------- the invariant

  function Scaled(num: int, k: nat): int {
    Pow2(k) * num
  }

  /** The divisor times an odd number: the middle between two multiples. */
  function Middle(n: nat, div: int, q: int): int {
    Aligned(n, div) * (2 * q + 1)
  }

  function LowBits(x: int, k: nat): int {
    x % Pow2(k)
  }

  /** After `k + 2` running clocks the low `k` bits of `result` are a quotient `q`, and the remainder measures how
      far the numerator is from the middle between `q` and `q + 1` times the divisor. */
  predicate Dividing(n: nat, d: nat, s: Divider, num: int, div: int, k: nat) {
    && RemainderInRange(n, d, s.rem, div)
    && Signed(s.rem, Top(n, d)) == 4 * Scaled(num, k) - 2 * Middle(n, div, LowBits(s.result, k))
    && 0 <= s.result < Pow2(n)
  }

  lemma PushedInRange(n: nat, result: int, b: int)
    requires n >= 2 && 0 <= result && 0 <= b < 2
    ensures 0 <= Pushed(n, result, b) < Pow2(n)
  {
    assert Pow2(n) == 2 * Pow2(n - 1);
    hide Pow2;
    DivMod(result, Pow2(n - 1));
  }

  lemma PushedLow(x: int, p: int, q: int, t: int, u: int, b: int)
    requires p > 0 && q > 0 && t > 0 && t == p * q && u == 2 * p && 0 <= b < 2
    ensures (x % t * 2 + b) % u == 2 * (x % p) + b
  {
    ModMod(x, p, q);
    var y := x % t;
    hide *;
    assert y * 2 + b == 2 * y + b;
    ShiftIn(y, p, b);
  }

  lemma Powers(k: nat, n: nat)
    requires k < n
    ensures Pow2(n - 1) == Pow2(k) * Pow2(n - 1 - k) && Pow2(k + 1) == 2 * Pow2(k)
  {
    PowSum(k, n - 1 - k);
  }

  lemma PushedBits(n: nat, k: nat, result: int, b: int)
    requires n >= 2 && 0 <= b < 2 && k < n
    ensures LowBits(Pushed(n, result, b), k + 1) == 2 * LowBits(result, k) + b
  {
    hide Pow2;
    Powers(k, n);
    PushedLow(result, Pow2(k), Pow2(n - 1 - k), Pow2(n - 1), Pow2(k + 1), b);
  }

  lemma ResultStep(n: nat, k: nat, result: int, b: int)
    requires n >= 2 && 0 <= result && 0 <= b < 2
    ensures 0 <= Pushed(n, result, b) < Pow2(n)
    ensures k < n ==> LowBits(Pushed(n, result, b), k + 1) == 2 * LowBits(result, k) + b
  {
    PushedInRange(n, result, b);
    if k < n { PushedBits(n, k, result, b); }
    hide *;
  }

  lemma MiddleStep(n: nat, div: int, q: int)
    ensures Middle(n, div, 2 * q) == 2 * Middle(n, div, q) - Aligned(n, div)
    ensures Middle(n, div, 2 * q + 1) == 2 * Middle(n, div, q) + Aligned(n, div)
  {
    var m := Aligned(n, div);
    hide Aligned;
    assert m * (2 * q + 1) == 2 * (m * q) + m;
    assert m * (2 * (2 * q) + 1) == 4 * (m * q) + m;
    assert m * (2 * (2 * q + 1) + 1) == 4 * (m * q) + 3 * m;
  }

  lemma ScaledStep(num: int, k: nat)
    ensures Scaled(num, k + 1) == 2 * Scaled(num, k)
  {
  }

  /** Each further clock settles one more bit of the quotient. */
  lemma DividingStep(n: nat, d: nat, s: Divider, num: int, i: Input, k: nat)
    requires n >= 2 && k < n && s.run && !i.start && 1 <= i.div < Pow2(d)
    requires Dividing(n, d, s, num, i.div, k)
    ensures Dividing(n, d, Next(n, d, s, i), num, i.div, k + 1)
  {
    hide Scaled, Middle, LowBits, Pushed, Shifted, Negative, RemainderInRange, Top, Aligned, Pow2;
    StepSigned(n, d, s.rem, i.div);
    var b := if Negative(n, d, s.rem) then 0 else 1;
    ResultStep(n, k, s.result, b);
    MiddleStep(n, i.div, LowBits(s.result, k));
    ScaledStep(num, k);
  }

  lemma StartInRange(n: nat, d: nat, num: int, div: int)
    requires 0 <= num < Pow2(n) && 1 <= div < Pow2(d)
    ensures RemainderInRange(n, d, num, div) && Signed(num, Top(n, d)) == num < Aligned(n, div)
  {
    AlignedBelow(n, d, div);
    hide Top, Aligned, Pow2;
  }

  lemma NothingSettled(n: nat, num: int, div: int, result: int)
    ensures 4 * Scaled(num, 0) - 2 * Middle(n, div, LowBits(result, 0)) == 4 * num - 2 * Aligned(n, div)
  {
    assert Pow2(0) == 1 && LowBits(result, 0) == 0;
    hide Aligned;
  }

  /** The first clock always subtracts and the second always adds back: the aligned divisor exceeds every numerator. */
  lemma FirstClocks(n: nat, d: nat, s: Divider, i: Input, j: Input)
    requires n >= 2 && s.run && s.cpt == 0 && 0 <= s.rem < Pow2(n) && 0 <= s.result
    requires !i.start && !j.start && i.div == j.div && 1 <= i.div < Pow2(d)
    ensures Dividing(n, d, Next(n, d, Next(n, d, s, i), j), s.rem, i.div, 0)
  {
    hide Scaled, Middle, LowBits, Pushed, Shifted, Negative, RemainderInRange, Top, Aligned, Pow2;
    var t := Next(n, d, s, i);
    StartInRange(n, d, s.rem, i.div);
    StepSigned(n, d, s.rem, i.div);
    ResultStep(n, 0, s.result, if Negative(n, d, s.rem) then 0 else 1);
    StepSigned(n, d, t.rem, j.div);
    ResultStep(n, 0, t.result, if Negative(n, d, t.rem) then 0 else 1);
    NothingSettled(n, s.rem, i.div, Next(n, d, t, j).result);
  }

  // ---------------------------------------------------------------- the whole division

  /** A division in progress: `start` is low and the divisor is held. */
  predicate Undisturbed(ins: seq<Input>, k: nat, div: int)
    requires k <= |ins|
  {
    forall j | 0 <= j < k :: !ins[j].start && ins[j].div == div
  }

  /** While the counter is below its limit it counts the clocks since the start. */
  lemma {:induction false} Counting(n: nat, d: nat, s: Divider, ins: seq<Input>, div: int, k: nat)
    requires 2 <= n <= 62 && s.run && s.cpt == 0 && k <= |ins| && k <= n + 2 && Undisturbed(ins, k, div)
    ensures var t := After(n, d, s, ins, k); t.run == (k < n + 2) && t.cpt == k % 64
  {
    hide Shifted, Negative, Pushed, Pow2;
    if k > 0 { Counting(n, d, s, ins, div, k - 1); }
  }

  lemma {:induction false} Progress(n: nat, d: nat, s: Divider, ins: seq<Input>, div: int, k: nat)
    requires 2 <= n <= 62 && s.run && s.cpt == 0 && 0 <= s.rem < Pow2(n) && 0 <= s.result && 1 <= div < Pow2(d)
    requires k <= n && k + 2 <= |ins| && Undisturbed(ins, k + 2, div)
    ensures Dividing(n, d, After(n, d, s, ins, k + 2), s.rem, div, k)
  {
    assert After(n, d, s, ins, k + 2) == Next(n, d, After(n, d, s, ins, k + 1), ins[k + 1]);
    hide Shifted, Negative, Dividing, Next;
    if k == 0 {
      assert After(n, d, s, ins, 1) == Next(n, d, After(n, d, s, ins, 0), ins[0]);
      FirstClocks(n, d, s, ins[0], ins[1]);
    } else {
      Progress(n, d, s, ins, div, k - 1);
      Counting(n, d, s, ins, div, k + 1);
      DividingStep(n, d, After(n, d, s, ins, k + 1), s.rem, ins[k + 1], k - 1);
    }
  }

  lemma Cancel(p: int, a: int, b: int)
    requires p >= 1 && p * a < p * (b + 1)
    ensures a <= b
  {
  }

  lemma QuotientIs(num: int, div: int, q: int)
    requires div >= 1 && div * q <= num < div * q + div
    ensures num / div == q && num % div == num - div * q
  {
    DivUnique(num, div, q, num - div * q);
  }

  lemma Between(n: nat, num: int, div: int, q: int)
    requires div >= 1
    requires -2 * Aligned(n, div) <= 4 * Scaled(num, n) - 2 * Middle(n, div, q) < 2 * Aligned(n, div)
    ensures num / div == q
  {
    var p := Pow2(n);
    assert Aligned(n, div) == p * div && Scaled(num, n) == p * num;
    assert Middle(n, div, q) == 2 * (p * (div * q)) + p * div;
    hide *;
    assert p * (div * q) <= p * num < p * (div * q) + p * div;
    Cancel(p, div * q, num);
    Cancel(p, num, div * q + div - 1);
    QuotientIs(num, div, q);
  }

  lemma LowAll(x: int, k: nat)
    requires 0 <= x < Pow2(k)
    ensures LowBits(x, k) == x
  {
    Wrap(x, Pow2(k));
  }

  /** With every quotient bit settled, the quotient is the quotient. */
  lemma Settled(n: nat, d: nat, s: Divider, num: int, div: int)
    requires div >= 1 && Dividing(n, d, s, num, div, n)
    ensures s.result == num / div
  {
    hide LowBits, Scaled, Middle, Top, Aligned, Pow2;
    LowAll(s.result, n);
    Between(n, num, div, s.result);
  }

  // ---------------------------------------------------------------- the remainder port

  lemma HighPart(rem: int, p: int, e: int, h: int, x: int)
    requires p >= 1 && e >= 1 && h == p * e && 0 <= rem < 2 * h && Signed(rem, h) == p * x
    ensures rem / p % e == x % e
  {
    var y := if rem < h then x else x + 2 * e;
    assert rem == p * y + 0 by {
      assert p * (x + 2 * e) == p * x + 2 * (p * e);
    }
    DivUnique(rem, p, y, 0);
    DivMod(x, e);
    assert x + 2 * e == e * (x / e + 2) + x % e;
    DivUnique(x + 2 * e, e, x / e + 2, x % e);
  }

  lemma ErrorIs(n: nat, num: int, div: int, q: int)
    requires n >= 1
    ensures 4 * Scaled(num, n - 1) - 2 * Middle(n, div, q) == Pow2(n + 1) * (num - div * (2 * q + 1))
  {
    var p := Pow2(n - 1);
    assert Pow2(n) == 2 * p && Pow2(n + 1) == 4 * p;
    assert Scaled(num, n - 1) == p * num && Middle(n, div, q) == 2 * (p * (div * (2 * q + 1)));
    hide *;
    assert 4 * p * (num - div * (2 * q + 1)) == 4 * (p * num) - 4 * (p * (div * (2 * q + 1)));
  }

  /** What the port shows of a finished division: the last partial remainder, without a final correction. */
  function PortRemainder(d: nat, num: int, div: int): int
    requires div >= 1
  {
    if num / div % 2 == 1 then num % div else num % div - div + Pow2(d)
  }

  lemma Uncorrected(e: int, num: int, div: int, q: int, b: int)
    requires 1 <= div < e && (b == 0 || b == 1) && num / div == 2 * q + b
    ensures (num - div * (2 * q + 1)) % e == (if b == 1 then num % div else num % div - div + e)
    ensures (2 * q + b) % 2 == b
  {
    DivMod(num, div);
    assert div * (2 * q + 1) == div * (2 * q) + div && (b == 0 ==> div * (2 * q + b) == div * (2 * q));
    var x := num - div * (2 * q + 1);
    assert x == if b == 1 then num % div else num % div - div;
    Wrap(x, e);
  }

  lemma RemainderPort(n: nat, d: nat, s: Divider, i: Input, num: int)
    requires n >= 2 && s.run && !i.start && 1 <= i.div < Pow2(d) && Dividing(n, d, s, num, i.div, n - 1)
    ensures Next(n, d, s, i).result == num / i.div && Next(n, d, s, i).remainder == PortRemainder(d, num, i.div)
  {
    var q := LowBits(s.result, n - 1);
    var b := if Negative(n, d, s.rem) then 0 else 1;
    var t := Next(n, d, s, i);
    DividingStep(n, d, s, num, i, n - 1);
    Settled(n, d, t, num, i.div);
    PushedBits(n, n - 1, s.result, b);
    PushedInRange(n, s.result, b);
    LowAll(t.result, n);
    PowSum(n + 1, d);
    ErrorIs(n, num, i.div, q);
    hide Shifted, Negative, Pushed, LowBits, Scaled, Middle, Aligned, Pow2, Signed;
    HighPart(s.rem, Pow2(n + 1), Pow2(d), Top(n, d), num - i.div * (2 * q + 1));
    Uncorrected(Pow2(d), num, i.div, q, b);
  }

  // ---------------------------------------------------------------- main results

  /** A division is exact for every width up to 62: started on `num`, with the divisor held, the unit is busy for
      exactly `n + 2` further clocks and then shows the quotient and the uncorrected remainder. */
  lemma Divides(n: nat, d: nat, s: Divider, num: int, div: int, ins: seq<Input>, k: nat)
    requires 2 <= n <= 62 && 0 <= num < Pow2(n) && 1 <= div < Pow2(d) && 0 <= s.result
    requires k <= |ins| && k <= n + 2 && Undisturbed(ins, k, div)
    ensures var t := After(n, d, Next(n, d, s, Input(true, num, div)), ins, k);
            && t.run == (k < n + 2)
            && (k == n + 2 ==> t.result == num / div && t.remainder == PortRemainder(d, num, div))
  {
    hide Shifted, Negative, Pushed, Dividing, PortRemainder, Pow2;
    var u := Next(n, d, s, Input(true, num, div));
    Counting(n, d, u, ins, div, k);
    if k == n + 2 {
      Counting(n, d, u, ins, div, n + 1);
      Progress(n, d, u, ins, div, n - 1);
      RemainderPort(n, d, After(n, d, u, ins, n + 1), ins[n + 1], num);
    }
  }

  /** A finished division stays on the outputs until the next start. */
  lemma {:induction false} Holds(n: nat, d: nat, s: Divider, ins: seq<Input>, k: nat)
    requires n >= 2 && !s.run && k <= |ins| && forall j | 0 <= j < k :: !ins[j].start
    ensures After(n, d, s, ins, k) == s
  {
    if k > 0 { Holds(n, d, s, ins, k - 1); }
  }

  /** From 63 bits up the six-bit counter never reaches its limit: the unit stays busy for ever. */
  lemma {:induction false} NeverStops(n: nat, d: nat, s: Divider, ins: seq<Input>, k: nat)
    requires n >= 63 && s.run && 0 <= s.cpt < 64 && k <= |ins|
    ensures After(n, d, s, ins, k).run && 0 <= After(n, d, s, ins, k).cpt < 64
  {
    hide Shifted, Negative, Pushed;
    if k > 0 { NeverStops(n, d, s, ins, k - 1); }
  }
}
