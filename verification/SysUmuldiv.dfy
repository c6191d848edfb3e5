/** Multiplier and divider in a row: the divider restarts on every clock of the multiplication. */
module SysUmuldiv {
  import opened Arithmetic
  import Mul = SysUmul
  import Div = SysUdiv

  datatype MulDiv = MulDiv(mul: Mul.Multiplier, div: Div.Divider)

  datatype Input = Input(start: bool, mul1: int, mul2: int, div: int)

  function MulInput(i: Input): Mul.Input {
    Mul.Input(i.start, i.mul1, i.mul2)
  }

  function DivInput(s: MulDiv, i: Input): Div.Input {
    Div.Input(i.start || s.mul.run, s.mul.result, i.div)
  }

  function Next(n1: nat, n2: nat, d: nat, s: MulDiv, i: Input): MulDiv
    requires n1 + n2 >= 2
  {
    MulDiv(Mul.Next(n1 + n2, s.mul, MulInput(i)), Div.Next(n1 + n2, d, s.div, DivInput(s, i)))
  }

  class SysUmuldiv {
    const umul: Mul.SysUmul
    const udiv: Div.SysUdiv

    predicate Valid()
      reads this
    {
      udiv.nbNum == umul.nbMul1 + umul.nbMul2 >= 2
    }

    function Value(): MulDiv
      reads this, umul, udiv
    {
      MulDiv(umul.Value(), udiv.Value())
    }

    constructor (nbMul1: nat, nbMul2: nat, nbDiv: nat)
      requires nbMul1 + nbMul2 >= 2
      ensures Valid() && fresh(umul) && fresh(udiv) && umul.nbMul1 == nbMul1 && umul.nbMul2 == nbMul2 && udiv.nbDiv == nbDiv
    {
      umul := new Mul.SysUmul(nbMul1, nbMul2);
      udiv := new Div.SysUdiv(nbMul1 + nbMul2, nbDiv);
    }

    /** Both parts clock on the registers of before the edge. */
    method Clock(start: bool, mul1: int, mul2: int, div: int)
      requires Valid()
      modifies umul, udiv
      ensures Value() == Next(umul.nbMul1, umul.nbMul2, udiv.nbDiv, old(Value()), Input(start, mul1, mul2, div))
    {
      udiv.Clock(start || umul.run, umul.result, div);
      umul.Clock(start, mul1, mul2);
    }
  }

  /** The state after the first `k` clocks of `ins`. */
  function After(n1: nat, n2: nat, d: nat, s: MulDiv, ins: seq<Input>, k: nat): MulDiv
    requires n1 + n2 >= 2 && k <= |ins|
  {
    if k == 0 then s else Next(n1, n2, d, After(n1, n2, d, s, ins, k - 1), ins[k - 1])
  }

  function MulInputs(ins: seq<Input>): (ms: seq<Mul.Input>)
    ensures |ms| == |ins|
  {
    seq(|ins|, k requires 0 <= k < |ins| => MulInput(ins[k]))
  }

  /** What the divider sees once the multiplier is idle. */
  function DivInputs(ins: seq<Input>, product: int): (ds: seq<Div.Input>)
    ensures |ds| == |ins|
  {
    seq(|ins|, k requires 0 <= k < |ins| => Div.Input(ins[k].start, product, ins[k].div))
  }

  lemma {:induction false} MulPart(n1: nat, n2: nat, d: nat, s: MulDiv, ins: seq<Input>, k: nat)
    requires n1 + n2 >= 2 && k <= |ins|
    ensures After(n1, n2, d, s, ins, k).mul == Mul.After(n1 + n2, s.mul, MulInputs(ins), k)
  {
    hide Mul.Next, Div.Next;
    if k > 0 { MulPart(n1, n2, d, s, ins, k - 1); }
  }

  lemma {:induction false} DivPart(n1: nat, n2: nat, d: nat, s: MulDiv, ins: seq<Input>, k: nat)
    requires n1 + n2 >= 2 && k <= |ins| && !s.mul.run && forall j | 0 <= j < k :: !ins[j].start
    ensures After(n1, n2, d, s, ins, k).mul == s.mul
    ensures After(n1, n2, d, s, ins, k).div == Div.After(n1 + n2, d, s.div, DivInputs(ins, s.mul.result), k)
  {
    hide Div.Next;
    if k > 0 { DivPart(n1, n2, d, s, ins, k - 1); }
  }

  lemma {:induction false} AfterSplit(n1: nat, n2: nat, d: nat, s: MulDiv, ins: seq<Input>, a: nat, k: nat)
    requires n1 + n2 >= 2 && a + k <= |ins|
    ensures After(n1, n2, d, s, ins, a + k) == After(n1, n2, d, After(n1, n2, d, s, ins, a), ins[a..], k)
  {
    hide Next;
    if k > 0 { AfterSplit(n1, n2, d, s, ins, a, k - 1); }
  }

  /** Some restart has latched `num`, and nothing but restarts have happened to the divider `r`. */
  ghost predicate Latched(n: nat, d: nat, t: Div.Divider, num: int, div: int, r: int)
    requires n >= 2
  {
    exists v :: t == Div.Next(n, d, v, Div.Input(true, num, div)) && v.result == r
  }

  /** While the multiplier is busy the divider is restarted on every clock, and so stays busy. */
  lemma {:induction false} Restarts(n1: nat, n2: nat, d: nat, s: MulDiv, mul1: int, mul2: int, div: int, ins: seq<Input>, k: nat)
    requires n1 + n2 >= 2 && 0 <= mul1 < Pow2(n1) && 0 <= mul2 < Pow2(n2)
    requires k <= |ins| && k <= Mul.BitLength(mul2) + 1 && forall j | 0 <= j < k :: !ins[j].start
    ensures var t := After(n1, n2, d, Next(n1, n2, d, s, Input(true, mul1, mul2, div)), ins, k);
            && t.div.run && t.mul.run == (k <= Mul.BitLength(mul2))
            && (k >= Mul.BitLength(mul2) ==> t.mul.result == Times(mul1, mul2))
            && t.div.result == s.div.result
            && (k == Mul.BitLength(mul2) + 1 ==> Latched(n1 + n2, d, t.div, Times(mul1, mul2), div, s.div.result))
  {
    var u := Next(n1, n2, d, s, Input(true, mul1, mul2, div));
    MulPart(n1, n2, d, u, ins, k);
    Mul.Multiplies(n1, n2, s.mul, mul1, mul2, MulInputs(ins), k);
    if k > 0 {
      Restarts(n1, n2, d, s, mul1, mul2, div, ins, k - 1);
      var v := After(n1, n2, d, u, ins, k - 1);
      hide Mul.Next, Mul.After;
      assert v.mul.run;
      var w := Div.Input(true, v.mul.result, ins[k - 1].div);
      assert After(n1, n2, d, u, ins, k).div == Div.Next(n1 + n2, d, v.div, w);
      assert Div.Next(n1 + n2, d, v.div, w) == Div.Next(n1 + n2, d, v.div, w.(div := div));
    }
  }

  /** Started on `num` by the last restart, the divider finishes undisturbed. */
  lemma DividesLast(n1: nat, n2: nat, d: nat, m: MulDiv, r: int, num: int, div: int, ins: seq<Input>, k: nat)
    requires 2 <= n1 + n2 <= 62 && 0 <= num < Pow2(n1 + n2) && 1 <= div < Pow2(d) && 0 <= r
    requires !m.mul.run && Latched(n1 + n2, d, m.div, num, div, r)
    requires k <= |ins| && k <= n1 + n2 + 2 && forall j | 0 <= j < k :: !ins[j].start && ins[j].div == div
    ensures var t := After(n1, n2, d, m, ins, k);
            && t.div.run == (k < n1 + n2 + 2)
            && (!t.div.run ==> t.div.result == num / div && t.div.remainder == Div.PortRemainder(d, num, div))
  {
    hide After, Next, Div.Next, Div.After, Pow2, Div.PortRemainder;
    DivPart(n1, n2, d, m, ins, k);
    var v :| m.div == Div.Next(n1 + n2, d, v, Div.Input(true, num, div)) && v.result == r;
    Div.Divides(n1 + n2, d, v, num, div, DivInputs(ins, m.mul.result), k);
  }

  lemma ProductFits(n1: nat, n2: nat, mul1: int, mul2: int)
    requires 0 <= mul1 < Pow2(n1) && 0 <= mul2 < Pow2(n2)
    ensures 0 <= Times(mul1, mul2) < Pow2(n1 + n2)
  {
    Mul.ProductFits(n1, n2, mul1, mul2);
  }

  /** The composed unit returns the quotient of the full product: busy from the start until then, after as many
      clocks as the multiplier has bits, one more, and the divider's own `n1 + n2 + 2`. */
  lemma MultipliesThenDivides(n1: nat, n2: nat, d: nat, s: MulDiv, mul1: int, mul2: int, div: int, ins: seq<Input>, k: nat)
    requires 2 <= n1 + n2 <= 62 && 0 <= mul1 < Pow2(n1) && 0 <= mul2 < Pow2(n2) && 1 <= div < Pow2(d) && 0 <= s.div.result
    requires k <= |ins| && k <= Mul.BitLength(mul2) + 1 + n1 + n2 + 2
    requires forall j | 0 <= j < k :: !ins[j].start && ins[j].div == div
    ensures var t := After(n1, n2, d, Next(n1, n2, d, s, Input(true, mul1, mul2, div)), ins, k);
            && t.div.run == (k < Mul.BitLength(mul2) + 1 + n1 + n2 + 2)
            && (!t.div.run ==>
                  && t.div.result == Times(mul1, mul2) / div
                  && t.div.remainder == Div.PortRemainder(d, Times(mul1, mul2), div))
  {
    hide After, Next, Div.Next, Div.After, Pow2, Div.PortRemainder, Mul.BitLength, Times, Latched;
    var a := Mul.BitLength(mul2) + 1;
    if k < a {
      Restarts(n1, n2, d, s, mul1, mul2, div, ins, k);
    } else {
      var u := Next(n1, n2, d, s, Input(true, mul1, mul2, div));
      Restarts(n1, n2, d, s, mul1, mul2, div, ins, a);
      AfterSplit(n1, n2, d, u, ins, a, k - a);
      ProductFits(n1, n2, mul1, mul2);
      DividesLast(n1, n2, d, After(n1, n2, d, u, ins, a), s.div.result, Times(mul1, mul2), div, ins[a..], k - a);
    }
  }
}
