/** The line carries the loaded subframes, and they can be read back from it. */
module SpdifLine {
  import opened SpdifModel

  // ---------------------------------------------------------------- the line as a whole

  predicate ValidInputs(ins: seq<Input>) {
    forall j | 0 <= j < |ins| :: ValidInput(ins[j])
  }

  /** The state after the first `k` clocks from reset. */
  function After(ins: seq<Input>, k: nat): (s: State)
    requires k <= |ins| && ValidInputs(ins)
    ensures ValidState(s)
  {
    if k == 0 then RESET else Next(After(ins, k - 1), ins[k - 1])
  }

  /** The levels put on the line, one for each enabled clock. */
  function Levels(ins: seq<Input>, k: nat): seq<bool>
    requires k <= |ins| && ValidInputs(ins)
  {
    if k == 0 then []
    else Levels(ins, k - 1) + (if ins[k - 1].enable then [After(ins, k).out] else [])
  }

  /** What a pending load makes the next subframe. */
  function NewSubframe(s: State, i: Input): (f: Subframe)
    requires ValidState(s) && ValidInput(i)
    ensures ValidSubframe(f)
  {
    var c := s.subframeCount;
    Subframe(PreambleFor(c), if c % 2 == 0 then i.sample.low else s.sampleBuf, StatusFor(c))
  }

  /** The subframes loaded, in order. */
  function Loads(ins: seq<Input>, k: nat): (fs: seq<Subframe>)
    requires k <= |ins| && ValidInputs(ins)
    ensures forall n | 0 <= n < |fs| :: ValidSubframe(fs[n])
  {
    if k == 0 then []
    else Loads(ins, k - 1) + (if After(ins, k - 1).load then [NewSubframe(After(ins, k - 1), ins[k - 1])] else [])
  }

  // ---------------------------------------------------------------- one subframe

  predicate InRegisters(s: State, f: Subframe) {
    s.preamble == f.preamble && s.audio == f.audio && s.status == f.status
  }

  /** Where the machine is in a subframe: after `c` of its cells. */
  predicate InSubframe(s: State, f: Subframe, c: nat)
    requires ValidState(s) && ValidSubframe(f)
  {
    && c < 64 && s.bitCount == c && s.toggle == (c % 2 == 1)
    && (c == 0 ==> !s.out)
    && (c >= 2 ==> s.out == Cell(f, c - 1))
    && (0 < c <= 8 ==> s.parity == 0)
    && (8 <= c ==> s.parity == Ones(f, if c >= 62 then 31 else (c + 1) / 2))
  }

  lemma OnesStep(f: Subframe, c: nat)
    requires ValidSubframe(f) && 8 <= c < 62
    ensures Ones(f, (c + 2) / 2) == Ones(f, (c + 1) / 2) + (if c % 2 == 0 && WordBit(f.audio, f.status, c / 2) then 1 else 0)
    ensures Ones(f, (c + 2) / 2) < 64
  {
    if c % 2 == 0 { assert (c + 2) / 2 == c / 2 + 1 && (c + 1) / 2 == c / 2; }
    else { assert (c + 2) / 2 == (c + 1) / 2; }
  }

  /** A cell is what the subframe has at that place. */
  lemma CellIs(s: State, f: Subframe, c: nat)
    requires ValidState(s) && ValidSubframe(f) && InSubframe(s, f, c) && InRegisters(s, f)
    ensures CellOut(s) == Cell(f, c)
  {
    hide Ones, WordBit, PreambleBit;
    if c >= 62 { assert c / 2 == 31; }
  }

  lemma ParityIs(s: State, f: Subframe, c: nat)
    requires ValidState(s) && ValidSubframe(f) && InSubframe(s, f, c) && InRegisters(s, f)
    ensures 8 <= c < 62 ==> ParityNext(s) == Ones(f, (c + 2) / 2)
    ensures c < 8 ==> ParityNext(s) == 0
    ensures c >= 62 ==> ParityNext(s) == Ones(f, 31)
  {
    if 8 <= c < 62 { OnesStep(f, c); }
    hide Ones, WordBit, Cell;
  }

  /** Biphase mark: a slot opens with a flip, and a one flips again half way. */
  lemma SlotFlips(f: Subframe, u: nat)
    requires ValidSubframe(f) && 4 <= u
    ensures Cell(f, 2 * u) == !Cell(f, 2 * u - 1)
    ensures Cell(f, 2 * u + 1) == (if Slot(f, u) then !Cell(f, 2 * u) else Cell(f, 2 * u))
  {
    assert (2 * u) / 2 == u && (2 * u + 1) / 2 == u && (2 * u) % 2 == 0 && (2 * u + 1) % 2 == 1;
    hide Slot;
  }

  /** After each slot the level counts the flips so far: one a slot, and one more for each one. */
  lemma {:induction false} SlotLevels(f: Subframe, t: nat)
    requires ValidSubframe(f) && 4 <= t <= 31
    ensures Cell(f, 2 * t - 1) == ((t - 4 + Ones(f, t)) % 2 == 1)
  {
    if t > 4 {
      SlotLevels(f, t - 1);
      assert Slot(f, t - 1) == WordBit(f.audio, f.status, t - 1);
      hide WordBit, Slot, Cell;
      SlotFlips(f, t - 1);
    }
  }

  /** Every subframe ends on level 0: 28 flips for its slots, and an even number for its ones. */
  lemma EndsLow(f: Subframe)
    requires ValidSubframe(f)
    ensures !Cell(f, 63)
  {
    hide Ones, Cell;
    SlotLevels(f, 31);
    SlotFlips(f, 31);
  }

  // ---------------------------------------------------------------- the machine against the subframes

  predicate AllValid(fs: seq<Subframe>) {
    forall n | 0 <= n < |fs| :: ValidSubframe(fs[n])
  }

  /** After `m` cells: between two subframes, or inside the last one loaded. */
  predicate Position(s: State, fs: seq<Subframe>, m: nat)
    requires ValidState(s) && AllValid(fs)
  {
    if s.load then
      m == 64 * |fs| && s.bitCount == 0 && !s.toggle && !s.out && (fs != [] ==> s.preamble != NONE)
    else
      fs != []
      && var f := fs[|fs| - 1];
      InSubframe(s, f, s.bitCount) && InRegisters(s, f) && m == 64 * (|fs| - 1) + s.bitCount
  }

  function WithLoad(s: State, i: Input, fs: seq<Subframe>): (gs: seq<Subframe>)
    requires ValidState(s) && ValidInput(i) && AllValid(fs)
    ensures AllValid(gs)
  {
    if s.load then fs + [NewSubframe(s, i)] else fs
  }

  /** A load, perhaps with the first cell of the subframe on the same clock: every preamble opens with the same bit. */
  lemma LoadStep(s: State, i: Input, fs: seq<Subframe>, m: nat)
    requires ValidState(s) && ValidInput(i) && AllValid(fs) && Position(s, fs, m) && s.load
    ensures var t, gs := Next(s, i), WithLoad(s, i, fs);
            && Position(t, gs, if i.enable then m + 1 else m)
            && t.out == (i.enable && s.preamble != NONE)
            && Cell(gs[|fs|], 0)
  {
    hide Ones, WordBit, StatusFor;
  }

  lemma NextIs(s: State, i: Input)
    requires ValidState(s) && ValidInput(i) && !s.load && i.enable
    ensures Next(s, i) == s.(request := false, bitCount := (s.bitCount + 1) % 64, load := s.bitCount == 63, toggle := !s.toggle,
                             out := CellOut(s), parity := ParityNext(s))
  {
    hide CellOut, ParityNext;
  }

  lemma Advances(s: State, i: Input, f: Subframe, c: nat)
    requires ValidState(s) && ValidInput(i) && ValidSubframe(f) && InSubframe(s, f, c) && InRegisters(s, f)
    requires !s.load && i.enable && c < 63
    ensures var t := Next(s, i); InSubframe(t, f, c + 1) && InRegisters(t, f) && !t.load && t.out == Cell(f, c)
  {
    NextIs(s, i);
    CellIs(s, f, c);
    ParityIs(s, f, c);
    hide Ones, WordBit, Cell, CellOut, ParityNext, Next;
  }

  lemma Finishes(s: State, i: Input, f: Subframe)
    requires ValidState(s) && ValidInput(i) && ValidSubframe(f) && InSubframe(s, f, 63) && InRegisters(s, f)
    requires !s.load && i.enable
    ensures var t := Next(s, i);
            t.load && t.bitCount == 0 && !t.toggle && !t.out && !Cell(f, 63) && t.preamble != NONE
  {
    NextIs(s, i);
    CellIs(s, f, 63);
    EndsLow(f);
    hide Ones, WordBit, Cell, CellOut, ParityNext, Next;
  }

  /** A cell inside the subframe. */
  lemma CellStep(s: State, i: Input, fs: seq<Subframe>, m: nat)
    requires ValidState(s) && ValidInput(i) && AllValid(fs) && Position(s, fs, m) && !s.load && i.enable
    ensures Position(Next(s, i), fs, m + 1) && Next(s, i).out == Cell(fs[|fs| - 1], s.bitCount)
  {
    var f := fs[|fs| - 1];
    hide Ones, WordBit, Cell, CellOut, ParityNext, AllValid, InSubframe, InRegisters, Next;
    if s.bitCount < 63 { Advances(s, i, f, s.bitCount); CountsOn(s, i); } else { Finishes(s, i, f); }
  }

  lemma CountsOn(s: State, i: Input)
    requires ValidState(s) && ValidInput(i) && !s.load && i.enable && s.bitCount < 63
    ensures Next(s, i).bitCount == s.bitCount + 1
  {
    hide CellOut, ParityNext;
  }

  lemma IdleStep(s: State, i: Input, fs: seq<Subframe>, m: nat)
    requires ValidState(s) && ValidInput(i) && AllValid(fs) && Position(s, fs, m) && !s.load && !i.enable
    ensures Position(Next(s, i), fs, m)
  {
    hide Ones, WordBit, Cell, CellOut, ParityNext, AllValid;
  }
}
