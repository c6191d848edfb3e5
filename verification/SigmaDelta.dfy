/** The first-order sigma-delta converter: the density of ones on its output follows its input. */
module SigmaDelta {
  import opened Arithmetic

  /** The latch has `msbi + 3` bits. */
  datatype State = State(latch: int, out: bool)

  /** The weight of the bit below the latch's top bit. */
  function Base(msbi: nat): (b: int)
    ensures b >= 2
  {
    Pow2(msbi + 1)
  }

  predicate TopBit(msbi: nat, latch: int) {
    latch / (2 * Base(msbi)) % 2 == 1
  }

  /** The fed-back top bit, twice, in the two highest places. */
  function DeltaB(msbi: nat, latch: int): int {
    if TopBit(msbi, latch) then 3 * Base(msbi) else 0
  }

  function SigmaAdder(msbi: nat, latch: int, input: int): int {
    ((input + DeltaB(msbi, latch)) % (4 * Base(msbi)) + latch) % (4 * Base(msbi))
  }

  function Reset(msbi: nat, inv: bool): State {
    State(Base(msbi), inv)
  }

  function Next(msbi: nat, inv: bool, s: State, input: int): State {
    State(SigmaAdder(msbi, s.latch, input), TopBit(msbi, s.latch) != inv)
  }

  class SigmaDeltaDac {
    const msbi: nat
    const inv: bool
    var sigmaLatch: int
    var dacOut: bool

    function Value(): State
      reads this
    {
      State(sigmaLatch, dacOut)
    }

    constructor (msbi: nat, inv: bool)
      ensures this.msbi == msbi && this.inv == inv && Value() == Reset(msbi, inv)
    {
      this.msbi, this.inv := msbi, inv;
      sigmaLatch := Base(msbi);
      dacOut := inv;
    }

    method Clock(reset: bool, dacIn: int)
      modifies this
      ensures Value() == if reset then Reset(msbi, inv) else Next(msbi, inv, old(Value()), dacIn)
    {
      if reset {
        sigmaLatch := Base(msbi);
        dacOut := inv;
      } else {
        var top := TopBit(msbi, sigmaLatch);
        sigmaLatch := SigmaAdder(msbi, sigmaLatch, dacIn);
        dacOut := top != inv;
      }
    }
  }

  /** The state after the first `k` clocks from reset. */
  function After(msbi: nat, inv: bool, ins: seq<int>, k: nat): State
    requires k <= |ins|
  {
    if k == 0 then Reset(msbi, inv) else Next(msbi, inv, After(msbi, inv, ins, k - 1), ins[k - 1])
  }

  function Sum(ins: seq<int>, k: nat): int
    requires k <= |ins|
  {
    if k == 0 then 0 else Sum(ins, k - 1) + ins[k - 1]
  }

  /** Clocks that read the latch with its top bit set: those that put a one on the output, or a zero when inverted. */
  function Ones(msbi: nat, inv: bool, ins: seq<int>, k: nat): nat
    requires k <= |ins|
  {
    if k == 0 then 0 else Ones(msbi, inv, ins, k - 1) + (if After(msbi, inv, ins, k).out != inv then 1 else 0)
  }

  predicate InRange(msbi: nat, ins: seq<int>) {
    forall k | 0 <= k < |ins| :: 0 <= ins[k] < Base(msbi)
  }

  /** The adder feeds back exactly one full scale for a top bit; neither adder loses a carry that matters. */
  lemma StepAdds(msbi: nat, latch: int, input: int)
    requires 0 <= input < Base(msbi) && Base(msbi) <= latch < 3 * Base(msbi)
    ensures SigmaAdder(msbi, latch, input) == latch + input - (if TopBit(msbi, latch) then Base(msbi) else 0)
    ensures Base(msbi) <= SigmaAdder(msbi, latch, input) < 3 * Base(msbi)
  {
    var b := Base(msbi);
    hide Base;
    if latch < 2 * b { DivUnique(latch, 2 * b, 0, latch); } else { DivUnique(latch, 2 * b, 1, latch - 2 * b); }
    assert TopBit(msbi, latch) <==> latch >= 2 * b;
    hide TopBit;
    Wrap(input + DeltaB(msbi, latch), 4 * b);
    Wrap(input + DeltaB(msbi, latch) + latch, 4 * b);
  }

  lemma {:induction false} LatchBalances(msbi: nat, inv: bool, ins: seq<int>, k: nat)
    requires InRange(msbi, ins) && k <= |ins|
    ensures var l := After(msbi, inv, ins, k).latch;
            Base(msbi) <= l < 3 * Base(msbi) && l == Base(msbi) + Sum(ins, k) - Scaled(msbi, Ones(msbi, inv, ins, k))
  {
    if k > 0 {
      LatchBalances(msbi, inv, ins, k - 1);
      StepAdds(msbi, After(msbi, inv, ins, k - 1).latch, ins[k - 1]);
      ScaledNext(msbi, Ones(msbi, inv, ins, k - 1));
      hide Base, SigmaAdder, TopBit, Scaled;
    } else {
      ScaledNext(msbi, 0);
    }
  }

  /** What `n` ones are worth. */
  function Scaled(msbi: nat, n: int): int {
    Base(msbi) * n
  }

  lemma ScaledNext(msbi: nat, n: int)
    ensures Scaled(msbi, n + 1) == Scaled(msbi, n) + Base(msbi) && Scaled(msbi, 0) == 0
  {
  }

  /** From reset on, the ones put out are never ahead of the input and less than two of them behind. */
  lemma TracksInput(msbi: nat, inv: bool, ins: seq<int>, k: nat)
    requires InRange(msbi, ins) && k <= |ins|
    ensures 0 <= Sum(ins, k) - Scaled(msbi, Ones(msbi, inv, ins, k)) < 2 * Base(msbi)
  {
    LatchBalances(msbi, inv, ins, k);
  }

  /** On every window the ones differ from the input by less than two, either way. */
  lemma TracksWindow(msbi: nat, inv: bool, ins: seq<int>, j: nat, k: nat)
    requires InRange(msbi, ins) && j <= k <= |ins|
    ensures var ones := Scaled(msbi, Ones(msbi, inv, ins, k)) - Scaled(msbi, Ones(msbi, inv, ins, j));
            -2 * Base(msbi) < Sum(ins, k) - Sum(ins, j) - ones < 2 * Base(msbi)
  {
    TracksInput(msbi, inv, ins, j);
    TracksInput(msbi, inv, ins, k);
  }
}
