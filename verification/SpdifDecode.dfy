/** Reading the line back: what a receiver gets is what was loaded. */
module SpdifDecode {
  import opened SpdifModel
  import opened SpdifLine

  // ---------------------------------------------------------------- the line is the subframes

  /** Cell by cell, the line is the subframes loaded; the very first cell is apart. */
  predicate Carries(lv: seq<bool>, fs: seq<Subframe>)
    requires AllValid(fs)
  {
    |lv| <= 64 * |fs| && forall i | 1 <= i < |lv| :: lv[i] == LineCell(fs, i)
  }

  /** The cell at place `i` of the subframes sent one after the other. */
  function LineCell(fs: seq<Subframe>, i: nat): bool
    requires AllValid(fs)
  {
    i / 64 < |fs| && Cell(fs[i / 64], i % 64)
  }

  lemma CarriesMore(lv: seq<bool>, fs: seq<Subframe>, f: Subframe)
    requires AllValid(fs) && ValidSubframe(f) && Carries(lv, fs)
    ensures AllValid(fs + [f]) && Carries(lv, fs + [f])
  {
    forall i | 1 <= i < |lv| ensures lv[i] == LineCell(fs + [f], i) {
      assert lv[i] == LineCell(fs, i);
      assert i / 64 < |fs|;
      hide Cell;
    }
  }

  lemma CarriesCell(lv: seq<bool>, fs: seq<Subframe>, c: nat, level: bool)
    requires AllValid(fs) && Carries(lv, fs) && fs != [] && c < 64 && |lv| == 64 * (|fs| - 1) + c
    requires |lv| > 0 ==> level == Cell(fs[|fs| - 1], c)
    ensures Carries(lv + [level], fs)
  {
    assert |lv| / 64 == |fs| - 1 && |lv| % 64 == c;
    hide Cell;
    forall i | 1 <= i < |lv| + 1 ensures (lv + [level])[i] == LineCell(fs, i) {
      if i < |lv| { assert lv[i] == LineCell(fs, i); }
    }
  }

  predicate FirstCell(ins: seq<Input>, lv: seq<bool>, k: nat)
    requires k <= |ins|
  {
    && (k > 0 && ins[0].enable ==> |lv| > 0 && !lv[0])
    && (k > 0 && !ins[0].enable && |lv| > 0 ==> lv[0])
    && (k == 0 ==> lv == [])
  }

  lemma Grows(ins: seq<Input>, k: nat)
    requires 0 < k <= |ins| && ValidInputs(ins)
    ensures var s, i, t := After(ins, k - 1), ins[k - 1], After(ins, k);
            && t == Next(s, i)
            && Loads(ins, k) == WithLoad(s, i, Loads(ins, k - 1))
            && Levels(ins, k) == Levels(ins, k - 1) + (if i.enable then [t.out] else [])
  {
    hide Next, NewSubframe;
    assert Loads(ins, k - 1) + [] == Loads(ins, k - 1);
  }

  lemma LineLoad(s: State, i: Input, fs: seq<Subframe>, lv: seq<bool>)
    requires ValidState(s) && ValidInput(i) && AllValid(fs) && Position(s, fs, |lv|) && Carries(lv, fs) && s.load
    ensures var t, gs := Next(s, i), WithLoad(s, i, fs);
            var mv := lv + (if i.enable then [t.out] else []);
            && Position(t, gs, |mv|) && Carries(mv, gs)
            && (i.enable && lv == [] ==> mv[0] == (s.preamble != NONE))
  {
    LoadStep(s, i, fs, |lv|);
    var f := NewSubframe(s, i);
    CarriesMore(lv, fs, f);
    assert |lv| == 64 * |fs| && (fs != [] ==> s.preamble != NONE);
    hide Next, NewSubframe, Cell, Carries, Position;
    if i.enable {
      CarriesCell(lv, fs + [f], 0, Next(s, i).out);
    } else {
      assert lv + [] == lv;
    }
  }

  lemma LineCellStep(s: State, i: Input, fs: seq<Subframe>, lv: seq<bool>)
    requires ValidState(s) && ValidInput(i) && AllValid(fs) && Position(s, fs, |lv|) && Carries(lv, fs) && !s.load
    ensures var t := Next(s, i);
            var mv := lv + (if i.enable then [t.out] else []);
            && Position(t, fs, |mv|) && Carries(mv, fs)
            && (i.enable && lv == [] ==> mv[0])
  {
    assert fs != [] && |lv| == 64 * (|fs| - 1) + s.bitCount;
    hide Next, Cell, Carries, Position, InSubframe, InRegisters;
    if i.enable {
      CellStep(s, i, fs, |lv|);
      CarriesCell(lv, fs, s.bitCount, Next(s, i).out);
      OpensHigh(fs[|fs| - 1]);
    } else {
      IdleStep(s, i, fs, |lv|);
      assert lv + [] == lv;
    }
  }

  lemma OpensHigh(f: Subframe)
    requires ValidSubframe(f)
    ensures Cell(f, 0)
  {
  }

  /** For every sample stream and every pattern of enables, the line carries the subframes loaded, in order. */
  lemma {:induction false} LineCarries(ins: seq<Input>, k: nat)
    requires ValidInputs(ins) && k <= |ins|
    ensures AllValid(Loads(ins, k))
    ensures Position(After(ins, k), Loads(ins, k), |Levels(ins, k)|)
    ensures Carries(Levels(ins, k), Loads(ins, k)) && FirstCell(ins, Levels(ins, k), k)
    decreases k, 1
  {
    if k > 0 {
      LineCarries(ins, k - 1);
      Grows(ins, k);
      var s, i := After(ins, k - 1), ins[k - 1];
      var lv, fs := Levels(ins, k - 1), Loads(ins, k - 1);
      FirstStep(ins, k);
      hide After, Loads, Levels, Next, Carries, Position, WithLoad;
      WithLoadIs(s, i, fs);
      if s.load { LineLoad(s, i, fs, lv); } else { LineCellStep(s, i, fs, lv); }
    }
  }

  lemma WithLoadIs(s: State, i: Input, fs: seq<Subframe>)
    requires ValidState(s) && ValidInput(i) && AllValid(fs)
    ensures !s.load ==> WithLoad(s, i, fs) == fs
  {
  }

  /** Only the first clock of all loads over empty registers. */
  lemma FirstStep(ins: seq<Input>, k: nat)
    requires ValidInputs(ins) && 0 < k <= |ins|
    ensures k == 1 ==> After(ins, k - 1).load && After(ins, k - 1).preamble == NONE
    ensures k > 1 && Levels(ins, k - 1) == [] ==> !After(ins, k - 1).load
    decreases k, 0
  {
    if k > 1 {
      LineCarries(ins, k - 1);
      assert Loads(ins, 1) == Loads(ins, 0) + [NewSubframe(RESET, ins[0])];
      LoadsGrow(ins, 1, k - 1);
      hide After, Next, NewSubframe, Carries, InSubframe, InRegisters;
    }
  }

  lemma {:induction false} LoadsGrow(ins: seq<Input>, j: nat, k: nat)
    requires ValidInputs(ins) && j <= k <= |ins|
    ensures |Loads(ins, j)| <= |Loads(ins, k)|
  {
    if j < k { LoadsGrow(ins, j, k - 1); }
  }

  // ---------------------------------------------------------------- reading it back

  function CellAt(lv: seq<bool>, base: nat, c: nat): bool
    requires base + c < |lv|
  {
    lv[base + c]
  }

  /** The receiver's view of the cells from `base` on. */
  function SlotAt(lv: seq<bool>, base: nat, t: nat): bool
    requires base + 2 * t + 1 < |lv|
  {
    lv[base + 2 * t] != lv[base + 2 * t + 1]
  }

  predicate PreambleAt(lv: seq<bool>, base: nat, p: Preamble)
    requires base + 8 <= |lv|
  {
    forall c | 0 <= c < 8 :: CellAt(lv, base, c) == PreambleBit(p, c)
  }

  function Decoded(lv: seq<bool>, n: nat): Subframe
    requires 64 * (n + 1) <= |lv|
  {
    var base := 64 * n;
    Subframe(if PreambleAt(lv, base, X) then X else if PreambleAt(lv, base, Y) then Y
             else if PreambleAt(lv, base, Z) then Z else NONE,
             seq(16, j requires 0 <= j < 16 => SlotAt(lv, base, 12 + j)),
             SlotAt(lv, base, 30))
  }

  /** Ones in slots 4 up to `t` as they are received. */
  function OnesAt(lv: seq<bool>, base: nat, t: nat): nat
    requires base + 2 * t <= |lv|
  {
    if t <= 4 then 0 else OnesAt(lv, base, t - 1) + (if SlotAt(lv, base, t - 1) then 1 else 0)
  }

  /** The cells of subframe `n` are those of `f`, from cell `from` on. */
  predicate Holds(lv: seq<bool>, n: nat, f: Subframe, from: nat)
    requires 64 * (n + 1) <= |lv| && ValidSubframe(f)
  {
    forall c | from <= c < 64 :: CellAt(lv, 64 * n, c) == Cell(f, c)
  }

  lemma SlotReads(lv: seq<bool>, n: nat, f: Subframe, t: nat)
    requires 64 * (n + 1) <= |lv| && ValidSubframe(f) && Holds(lv, n, f, 1) && 4 <= t < 32
    ensures SlotAt(lv, 64 * n, t) == Slot(f, t)
    ensures lv[64 * n + 2 * t] != lv[64 * n + 2 * t - 1]
  {
    hide Cell, Slot;
    SlotFlips(f, t);
    assert CellAt(lv, 64 * n, 2 * t) == Cell(f, 2 * t) && CellAt(lv, 64 * n, 2 * t + 1) == Cell(f, 2 * t + 1)
           && CellAt(lv, 64 * n, 2 * t - 1) == Cell(f, 2 * t - 1);
  }

  lemma {:induction false} OnesRead(lv: seq<bool>, n: nat, f: Subframe, t: nat)
    requires 64 * (n + 1) <= |lv| && ValidSubframe(f) && Holds(lv, n, f, 1) && 4 <= t <= 31
    ensures OnesAt(lv, 64 * n, t) == Ones(f, t)
  {
    if t > 4 {
      OnesRead(lv, n, f, t - 1);
      hide Holds, SlotAt;
      SlotReads(lv, n, f, t - 1);
    }
  }

  /** The preambles differ from each other, and only the first cell is the same in none of them. */
  lemma PreambleReads(lv: seq<bool>, n: nat, f: Subframe)
    requires 64 * (n + 1) <= |lv| && ValidSubframe(f) && Holds(lv, n, f, 1)
    ensures Decoded(lv, n).preamble == if lv[64 * n] then f.preamble else NONE
  {
    var base := 64 * n;
    assert CellAt(lv, base, 0) == lv[base];
    assert forall c | 1 <= c < 8 :: CellAt(lv, base, c) == Cell(f, c) == PreambleBit(f.preamble, c);
    hide Holds, Cell, CellAt;
    assert CellAt(lv, base, 4) == (f.preamble == Z) && CellAt(lv, base, 5) == (f.preamble == Y)
           && CellAt(lv, base, 6) == (f.preamble == X);
    Pick(lv, base, f.preamble);
  }

  lemma Pick(lv: seq<bool>, base: nat, p: Preamble)
    requires base + 8 <= |lv| && p != NONE && forall c | 1 <= c < 8 :: CellAt(lv, base, c) == PreambleBit(p, c)
    ensures PreambleAt(lv, base, X) == (CellAt(lv, base, 0) && p == X)
    ensures PreambleAt(lv, base, Y) == (CellAt(lv, base, 0) && p == Y)
    ensures PreambleAt(lv, base, Z) == (CellAt(lv, base, 0) && p == Z)
  {
    hide CellAt;
    assert CellAt(lv, base, 4) == (p == Z) && CellAt(lv, base, 5) == (p == Y) && CellAt(lv, base, 6) == (p == X);
    assert forall q | q != NONE :: PreambleBit(q, 0) && PreambleBit(q, 4) == (q == Z) && PreambleBit(q, 5) == (q == Y)
                                   && PreambleBit(q, 6) == (q == X);
  }

  lemma AudioReads(lv: seq<bool>, n: nat, f: Subframe)
    requires 64 * (n + 1) <= |lv| && ValidSubframe(f) && Holds(lv, n, f, 1)
    ensures Decoded(lv, n).audio == f.audio && Decoded(lv, n).status == f.status
  {
    forall j | 0 <= j < 16 ensures SlotAt(lv, 64 * n, 12 + j) == f.audio[j] {
      SlotReads(lv, n, f, 12 + j);
    }
    SlotReads(lv, n, f, 30);
    hide SlotAt, Holds, Cell, Ones;
  }

  lemma HoldsAt(lv: seq<bool>, fs: seq<Subframe>, n: nat)
    requires AllValid(fs) && Carries(lv, fs) && 64 * (n + 1) <= |lv|
    ensures n < |fs| && Holds(lv, n, fs[n], if n == 0 then 1 else 0)
  {
    hide Cell;
    forall c | (if n == 0 then 1 else 0) <= c < 64 ensures CellAt(lv, 64 * n, c) == Cell(fs[n], c) {
      assert lv[64 * n + c] == LineCell(fs, 64 * n + c);
      assert (64 * n + c) / 64 == n && (64 * n + c) % 64 == c;
    }
  }

  /** Every complete subframe behind the first reads back as it was loaded: it starts with an edge from level 0, every
      slot starts with a flip, and the ones in slots 4 to 31 are even in number. */
  lemma ReadsBack(ins: seq<Input>, k: nat, n: nat)
    requires ValidInputs(ins) && k <= |ins| && 1 <= n && 64 * (n + 1) <= |Levels(ins, k)|
    ensures var lv := Levels(ins, k);
            && n < |Loads(ins, k)| && Decoded(lv, n) == Loads(ins, k)[n]
            && OnesAt(lv, 64 * n, 32) % 2 == 0
            && !lv[64 * n - 1] && lv[64 * n]
            && forall t | 4 <= t < 32 :: SlotStart(lv, 64 * n, t)
  {
    hide *;
    LineCarries(ins, k);
    var lv, fs := Levels(ins, k), Loads(ins, k);
    HoldsAt(lv, fs, n);
    Opens(lv, fs, n);
    SubframeReads(lv, n, fs[n]);
  }

  lemma Opens(lv: seq<bool>, fs: seq<Subframe>, n: nat)
    requires AllValid(fs) && Carries(lv, fs) && 1 <= n && 64 * (n + 1) <= |lv|
    ensures n < |fs| && Holds(lv, n, fs[n], 1) && !lv[64 * n - 1] && lv[64 * n]
  {
    HoldsAt(lv, fs, n);
    HoldsAt(lv, fs, n - 1);
    hide Cell, Carries;
    EndsLow(fs[n - 1]);
    OpensHigh(fs[n]);
    assert CellAt(lv, 64 * (n - 1), 63) == Cell(fs[n - 1], 63);
    assert CellAt(lv, 64 * n, 0) == Cell(fs[n], 0);
  }

  predicate SlotStart(lv: seq<bool>, base: nat, t: nat)
    requires t > 0 && base + 2 * t < |lv|
  {
    lv[base + 2 * t] != lv[base + 2 * t - 1]
  }

  lemma SubframeReads(lv: seq<bool>, n: nat, f: Subframe)
    requires 64 * (n + 1) <= |lv| && ValidSubframe(f) && Holds(lv, n, f, 1)
    ensures Decoded(lv, n) == f.(preamble := if lv[64 * n] then f.preamble else NONE)
    ensures OnesAt(lv, 64 * n, 32) % 2 == 0
    ensures forall t | 4 <= t < 32 :: SlotStart(lv, 64 * n, t)
  {
    PreambleReads(lv, n, f);
    AudioReads(lv, n, f);
    OnesRead(lv, n, f, 31);
    SlotReads(lv, n, f, 31);
    hide Holds, Decoded;
    forall t | 4 <= t < 32 ensures SlotStart(lv, 64 * n, t) {
      SlotReads(lv, n, f, t);
    }
    hide SlotAt;
  }

  /** The first subframe reads back too exactly when the first clock after reset is not an enabled one; otherwise its
      preamble is sent with the cell from the empty register and is not one. */
  lemma FirstReadsBack(ins: seq<Input>, k: nat)
    requires ValidInputs(ins) && k <= |ins| && 64 <= |Levels(ins, k)|
    ensures var lv := Levels(ins, k);
            && 0 < |Loads(ins, k)|
            && Decoded(lv, 0) == Loads(ins, k)[0].(preamble := if ins[0].enable then NONE else Loads(ins, k)[0].preamble)
            && (Decoded(lv, 0) == Loads(ins, k)[0] <==> !ins[0].enable)
            && OnesAt(lv, 0, 32) % 2 == 0
  {
    LineCarries(ins, k);
    assert k > 0;
    var lv, fs := Levels(ins, k), Loads(ins, k);
    HoldsAt(lv, fs, 0);
    hide Loads, Levels, After, Carries, Cell, Position;
    SubframeReads(lv, 0, fs[0]);
    assert ValidSubframe(fs[0]);
  }

  /** Silence, clocked with every clock enabled from the first on. */
  function AtOnce(n: nat): (ins: seq<Input>)
    ensures |ins| == n && ValidInputs(ins) && forall k | 0 <= k < n :: ins[k].enable
  {
    seq(n, _ => Input(true, Sample(SILENCE, SILENCE)))
  }

  lemma {:induction false} LevelsCount(ins: seq<Input>, k: nat)
    requires ValidInputs(ins) && k <= |ins| && forall j | 0 <= j < |ins| :: ins[j].enable
    ensures |Levels(ins, k)| == k
  {
    hide After;
    if k > 0 { LevelsCount(ins, k - 1); }
  }

  /** Enabled on every clock, the first subframe goes out without its preamble. */
  lemma LosesFirstPreamble()
    ensures 64 <= |Levels(AtOnce(64), 64)| && 0 < |Loads(AtOnce(64), 64)|
    ensures Decoded(Levels(AtOnce(64), 64), 0).preamble == NONE != Loads(AtOnce(64), 64)[0].preamble
  {
    hide AtOnce, Levels, Loads, Decoded, After;
    LevelsCount(AtOnce(64), 64);
    FirstReadsBack(AtOnce(64), 64);
    var f := Loads(AtOnce(64), 64)[0];
    assert ValidSubframe(f);
  }
}
