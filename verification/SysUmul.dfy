/** The sequential multiplier: one multiplier bit a clock, least significant first. */
module SysUmul {
  import opened Arithmetic

  /** `t` is the width of the result: the sum of the operands' widths. */
  datatype Multiplier = Multiplier(run: bool, result: int, add: int, bits: int)

  datatype Input = Input(start: bool, mul1: int, mul2: int)

  function Next(t: nat, s: Multiplier, i: Input): Multiplier {
    if i.start then Multiplier(true, 0, i.mul1, i.mul2)
    else if s.run then
      Multiplier(s.bits != 0,
                 if s.bits % 2 == 1 then (s.result + s.add) % Pow2(t) else s.result,
                 s.add * 2 % Pow2(t),
                 s.bits / 2)
    else s
  }

  class SysUmul {
    const nbMul1: nat
    const nbMul2: nat
    var run: bool
    var result: int
    var add: int
    var bits: int

    function Value(): Multiplier
      reads this
    {
      Multiplier(run, result, add, bits)
    }

    constructor (nbMul1: nat, nbMul2: nat)
      ensures this.nbMul1 == nbMul1 && this.nbMul2 == nbMul2
    {
      this.nbMul1, this.nbMul2 := nbMul1, nbMul2;
    }

    method Clock(start: bool, mul1: int, mul2: int)
      modifies this
      ensures Value() == Next(nbMul1 + nbMul2, old(Value()), Input(start, mul1, mul2))
    {
      if start {
        run := true;
        result := 0;
        add := mul1;
        bits := mul2;
      } else if run {
        if bits == 0 { run := false; }
        if bits % 2 == 1 { result := (result + add) % Pow2(nbMul1 + nbMul2); }
        add := add * 2 % Pow2(nbMul1 + nbMul2);
        bits := bits / 2;
      }
    }
  }

  function BitLength(x: nat): nat {
    if x == 0 then 0 else 1 + BitLength(x / 2)
  }

  lemma {:induction false} BitLengthBound(x: nat, n: nat)
    requires x < Pow2(n)
    ensures BitLength(x) <= n
  {
    if x > 0 { BitLengthBound(x / 2, n - 1); }
  }

  /** What is summed so far and what is still to come make the product; nothing has wrapped. */
  predicate Multiplying(s: Multiplier, product: int) {
    && s.run && 0 <= s.bits && 0 <= s.result && 0 <= s.add
    && (if s.bits == 0 then s.result == product else s.result + s.add * s.bits == product)
  }

  lemma Halved(add: int, m: int)
    requires 0 <= add && 0 < m
    ensures add * m == 2 * add * (m / 2) + (if m % 2 == 1 then add else 0)
    ensures add <= add * m && (m / 2 != 0 ==> 2 * add <= add * m)
  {
    var h := m / 2;
    assert m == 2 * h + m % 2;
    assert add * m == 2 * (add * h) + add * (m % 2);
    MulLe(1, m, add);
    if h > 0 { MulLe(2, m, add); }
  }

  lemma MultiplyingStep(t: nat, s: Multiplier, product: int, i: Input)
    requires Multiplying(s, product) && 0 <= product < Pow2(t) && s.bits != 0 && !i.start
    ensures Multiplying(Next(t, s, i), product)
  {
    Halved(s.add, s.bits);
    var m, p := s.add * s.bits, Pow2(t);
    hide Pow2;
    if s.bits % 2 == 1 { Wrap(s.result + s.add, p); }
    DivMod(s.add * 2, p);
    if s.bits / 2 != 0 { Wrap(s.add * 2, p); }
  }

  lemma ProductFits(n1: nat, n2: nat, mul1: int, mul2: int)
    requires 0 <= mul1 < Pow2(n1) && 0 <= mul2 < Pow2(n2)
    ensures 0 <= mul1 * mul2 < Pow2(n1 + n2)
  {
    PowSum(n1, n2);
    var p, q := Pow2(n1), Pow2(n2);
    hide Pow2;
    MulLe(mul1, p - 1, mul2);
    MulLe(mul2, q - 1, p);
    assert mul2 * p == p * mul2 && (p - 1) * mul2 == p * mul2 - mul2 && (q - 1) * p == p * q - p;
    if mul2 == 0 { assert mul1 * mul2 == 0; }
    assert 0 <= mul1 * mul2;
  }

  /** The state after the first `k` clocks of `ins`. */
  function After(t: nat, s: Multiplier, ins: seq<Input>, k: nat): Multiplier
    requires k <= |ins|
  {
    if k == 0 then s else Next(t, After(t, s, ins, k - 1), ins[k - 1])
  }

  /** One multiplier bit is used up on every clock; the run ends on the clock after the last. */
  lemma {:induction false} Progress(t: nat, s: Multiplier, product: int, ins: seq<Input>, k: nat)
    requires Multiplying(s, product) && 0 <= product < Pow2(t)
    requires k <= |ins| && k <= BitLength(s.bits) && forall j | 0 <= j < k :: !ins[j].start
    ensures var u := After(t, s, ins, k);
            Multiplying(u, product) && BitLength(u.bits) == BitLength(s.bits) - k
  {
    if k > 0 {
      Progress(t, s, product, ins, k - 1);
      var u := After(t, s, ins, k - 1);
      hide Multiplying;
      MultiplyingStep(t, u, product, ins[k - 1]);
    }
  }

  lemma Begun(t: nat, s: Multiplier, mul1: int, mul2: int)
    requires 0 <= mul1 && 0 <= mul2
    ensures Multiplying(Next(t, s, Input(true, mul1, mul2)), mul1 * mul2)
  {
    if mul2 == 0 { assert mul1 * mul2 == 0; }
  }

  /** A multiplication is exact: the unit is busy for one clock more than the multiplier has bits, never longer
      than its width plus one, and then shows the product. */
  lemma Multiplies(n1: nat, n2: nat, s: Multiplier, mul1: int, mul2: int, ins: seq<Input>, k: nat)
    requires 0 <= mul1 < Pow2(n1) && 0 <= mul2 < Pow2(n2)
    requires k <= |ins| && k <= BitLength(mul2) + 1 && forall j | 0 <= j < k :: !ins[j].start
    ensures var u := After(n1 + n2, Next(n1 + n2, s, Input(true, mul1, mul2)), ins, k);
            && u.run == (k <= BitLength(mul2))
            && (k >= BitLength(mul2) ==> u.result == mul1 * mul2)
    ensures BitLength(mul2) <= n2
  {
    var u := Next(n1 + n2, s, Input(true, mul1, mul2));
    Begun(n1 + n2, s, mul1, mul2);
    ProductFits(n1, n2, mul1, mul2);
    BitLengthBound(mul2, n2);
    Progress(n1 + n2, u, mul1 * mul2, ins, if k <= BitLength(mul2) then k else k - 1);
    hide Pow2;
  }
}
