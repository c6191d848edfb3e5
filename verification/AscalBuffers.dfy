/** Triple buffering between the scaler's input and its output. */
module AscalBuffers {

  /** The buffer that is neither `a` nor `b`; buffer 1 when they are the same. */
  function BufNext(a: int, b: int, freeze: bool): int {
    if freeze then a
    else if (a == 0 && b == 1) || (a == 1 && b == 0) then 2
    else if (a == 1 && b == 2) || (a == 2 && b == 1) then 0
    else 1
  }

  /** One field's buffers: the one written, the one shown, and whether a newer frame waits. */
  datatype Field = Field(ibuf: int, obuf: int, bufUp: bool)

  /** The registers of the block; `end0` and `vs` with the values they had a clock before. */
  datatype State = State(f0: Field, f1: Field, end0: bool, end0Prev: bool, end1: bool, end1Prev: bool,
                         vs: bool, vsPrev: bool, inter: bool, freeze: bool, mode3: bool)

  datatype Input = Input(end0: bool, end1: bool, vs: bool, inter: bool, freeze: bool, mode3: bool)

  /** An input frame has just ended (field 0). */
  predicate Ended0(s: State) {
    s.end0 && !s.end0Prev
  }

  predicate Ended1(s: State) {
    s.end1 && !s.end1Prev
  }

  /** The output's vertical sync falls: the moment to change frames. */
  predicate Falls(s: State) {
    s.vsPrev && !s.vs
  }

  function NextField(f: Field, ended: bool, falls: bool, freeze: bool): Field {
    if ended && falls then Field(BufNext(f.ibuf, f.obuf, freeze), f.ibuf, false)
    else if ended then Field(BufNext(f.ibuf, f.obuf, freeze), f.obuf, true)
    else if falls && f.bufUp then Field(f.ibuf, BufNext(f.obuf, f.ibuf, freeze), false)
    else f
  }

  function Next(s: State, i: Input): State {
    var f0 := NextField(s.f0, Ended0(s), Falls(s), s.freeze);
    var f1 := NextField(s.f1, Ended1(s), Falls(s), s.freeze);
    var g1 := if s.inter then f1 else f1.(ibuf := s.f0.ibuf, obuf := s.f0.obuf);
    State(if s.mode3 then f0 else f0.(ibuf := 0, obuf := 0),
          if s.mode3 then g1 else g1.(ibuf := 0, obuf := 0),
          i.end0, s.end0, i.end1, s.end1, i.vs, s.vs, i.inter, i.freeze, i.mode3)
  }

  class BufferSwitch {
    var f0: Field
    var f1: Field
    var end0: bool
    var end02: bool
    var end1: bool
    var end12: bool
    var vs: bool
    var vs2: bool
    var inter: bool
    var freeze: bool
    var mode3: bool

    function Value(): State
      reads this
    {
      State(f0, f1, end0, end02, end1, end12, vs, vs2, inter, freeze, mode3)
    }

    method Turn(f: Field, ended: bool, falls: bool) returns (g: Field)
      ensures g == NextField(f, ended, falls, freeze)
    {
      g := f;
      if ended { g := Field(BufNext(f.ibuf, f.obuf, freeze), g.obuf, true); }
      if falls && f.bufUp { g := Field(g.ibuf, BufNext(f.obuf, f.ibuf, freeze), false); }
      if falls && ended { g := Field(g.ibuf, f.ibuf, false); }
    }

    /** The registers that only sample their inputs. */
    method Sample(i: Input)
      modifies this
      ensures Value() == State(old(f0), old(f1), i.end0, old(end0), i.end1, old(end1), i.vs, old(vs), i.inter, i.freeze, i.mode3)
    {
      end02 := end0;
      end0 := i.end0;
      end12 := end1;
      end1 := i.end1;
      vs2 := vs;
      vs := i.vs;
      inter := i.inter;
      freeze := i.freeze;
      mode3 := i.mode3;
    }

    /** The assignments take effect together; a later one to the same register wins. */
    method Clock(i: Input)
      modifies this
      ensures Value() == Next(old(Value()), i)
    {
      ghost var s := Value();
      var g0 := Turn(f0, Ended0(Value()), Falls(Value()));
      var g1 := Turn(f1, Ended1(Value()), Falls(Value()));
      hide NextField, Ended0, Ended1, Falls;
      if !inter { g1 := g1.(ibuf := f0.ibuf, obuf := f0.obuf); }
      if !mode3 {
        g0 := g0.(ibuf := 0, obuf := 0);
        g1 := g1.(ibuf := 0, obuf := 0);
      }
      Sample(i);
      f0 := g0;
      f1 := g1;
    }
  }

  // ---------------------------------------------------------------- no tearing

  predicate InRange(f: Field) {
    0 <= f.ibuf < 3 && 0 <= f.obuf < 3
  }

  predicate Separated(f: Field) {
    InRange(f) && f.ibuf != f.obuf
  }

  /** A clock keeps a field's buffers apart, except in exactly one case: frozen, with both sides turning over at once. */
  lemma SeparatedExactly(f: Field, ended: bool, falls: bool, freeze: bool)
    requires Separated(f)
    ensures Separated(NextField(f, ended, falls, freeze)) <==> !(freeze && ended && falls)
  {
  }

  /** The first frame end separates the buffers, from every state but the one with both on buffer 1. */
  lemma FrameEndSeparates(f: Field, falls: bool)
    requires InRange(f)
    ensures Separated(NextField(f, true, falls, false)) <==> !(f.ibuf == 1 && f.obuf == 1)
  {
  }

  // ---------------------------------------------------------------- the newest frame, and never an older one

  /** What the buffers hold: numbers of whole frames, none while a buffer is being written; and the number of
      the frame being written. */
  datatype Frames = Frames(held: seq<int>, current: int)

  const NOTHING := -1

  predicate ValidFrames(c: Frames) {
    |c.held| == 3 && c.current >= 0
  }

  function NextFrames(c: Frames, f: Field, ended: bool, freeze: bool): (d: Frames)
    requires ValidFrames(c) && InRange(f)
    ensures ValidFrames(d)
  {
    if ended then Frames(c.held[f.ibuf := c.current][BufNext(f.ibuf, f.obuf, freeze) := NOTHING], c.current + 1) else c
  }

  function ShownFrame(c: Frames, f: Field): int
    requires ValidFrames(c) && InRange(f)
  {
    c.held[f.obuf]
  }

  /** The last frame that is complete. */
  function Newest(c: Frames): int {
    c.current - 1
  }

  /** The waiting flag tells the truth: the newest frame is in the spare buffer when it is set, and shown when not. */
  predicate Agrees(f: Field, c: Frames)
    requires ValidFrames(c) && Separated(f)
  {
    && c.held[if f.bufUp then BufNext(f.obuf, f.ibuf, false) else f.obuf] == Newest(c)
    && ShownFrame(c, f) <= Newest(c)
  }

  /** One clock of an unfrozen field: the buffers stay apart, what is shown never goes back, and a change of frame
      shows the newest one. */
  lemma FieldStep(f: Field, c: Frames, ended: bool, falls: bool)
    requires Separated(f) && ValidFrames(c) && Agrees(f, c)
    ensures var g, d := NextField(f, ended, falls, false), NextFrames(c, f, ended, false);
            && Separated(g) && Agrees(g, d)
            && ShownFrame(c, f) <= ShownFrame(d, g)
            && (falls && (f.bufUp || ended) ==> ShownFrame(d, g) == Newest(d))
            && (!(falls && (f.bufUp || ended)) ==> ShownFrame(d, g) == ShownFrame(c, f))
  {
  }

  /** Whatever the flag said before, after a frame end it tells the truth. */
  lemma FrameEndAgrees(f: Field, c: Frames, falls: bool)
    requires Separated(f) && ValidFrames(c) && ShownFrame(c, f) <= Newest(c)
    ensures var g := NextField(f, true, falls, false);
            Separated(g) && Agrees(g, NextFrames(c, f, true, false))
  {
  }

  // ---------------------------------------------------------------- whole runs

  /** The state after the first `k` clocks. */
  function After(s: State, ins: seq<Input>, k: nat): State
    requires k <= |ins|
  {
    if k == 0 then s else Next(After(s, ins, k - 1), ins[k - 1])
  }

  /** A run of progressive input with triple buffering on. */
  predicate Progressive(s: State, ins: seq<Input>) {
    s.mode3 && !s.inter && forall k | 0 <= k < |ins| :: ins[k].mode3 && !ins[k].inter
  }

  /** The written buffer is not shown, not even by the second field's registers, which lag a clock. */
  predicate Apart(s: State) {
    Separated(s.f0) && s.f0.ibuf != s.f1.obuf
  }

  /** An input frame ends and the output's sync falls while both sides are frozen. */
  predicate Collides(s: State) {
    s.freeze && Ended0(s) && Falls(s)
  }

  /** What a clock collides on is what stood at the inputs on the clock before and the one before that. */
  lemma CollisionInputs(s: State, ins: seq<Input>, k: nat)
    requires 1 < k <= |ins|
    ensures Collides(After(s, ins, k)) <==>
              ins[k - 1].freeze && ins[k - 1].end0 && !ins[k - 2].end0 && !ins[k - 1].vs && ins[k - 2].vs
  {
    assert After(s, ins, k) == Next(After(s, ins, k - 1), ins[k - 1]);
    assert After(s, ins, k - 1) == Next(After(s, ins, k - 2), ins[k - 2]);
    hide NextField;
  }

  lemma {:induction false} StaysProgressive(s: State, ins: seq<Input>, k: nat)
    requires Progressive(s, ins) && k <= |ins|
    ensures var t := After(s, ins, k); t.mode3 && !t.inter
  {
    if k > 0 { StaysProgressive(s, ins, k - 1); }
  }

  /** One clock of such a run tears exactly when it collides. */
  lemma ClockTears(s: State, ins: seq<Input>, k: nat)
    requires Progressive(s, ins) && k < |ins| && Apart(After(s, ins, k))
    ensures Apart(After(s, ins, k + 1)) <==> !Collides(After(s, ins, k))
  {
    StaysProgressive(s, ins, k);
    var t := After(s, ins, k);
    SeparatedExactly(t.f0, Ended0(t), Falls(t), t.freeze);
  }

  predicate NoCollision(s: State, ins: seq<Input>, n: nat)
    requires n <= |ins|
  {
    forall k | 0 <= k < n :: !Collides(After(s, ins, k))
  }

  predicate NoTear(s: State, ins: seq<Input>, n: nat)
    requires n <= |ins|
  {
    forall k | 0 <= k <= n :: Apart(After(s, ins, k))
  }

  /** A run of progressive input shows the buffer it writes at no clock exactly when no clock of it collides. */
  lemma {:induction false} TearsExactly(s: State, ins: seq<Input>, n: nat)
    requires Progressive(s, ins) && Apart(s) && n <= |ins|
    ensures NoTear(s, ins, n) <==> NoCollision(s, ins, n)
  {
    if n > 0 {
      TearsExactly(s, ins, n - 1);
      hide Apart, Collides, Progressive, After;
      assert NoTear(s, ins, n) ==> NoTear(s, ins, n - 1);
      assert NoCollision(s, ins, n) ==> NoCollision(s, ins, n - 1);
      if NoTear(s, ins, n - 1) {
        assert Apart(After(s, ins, n - 1));
        ClockTears(s, ins, n - 1);
        assert NoTear(s, ins, n) <==> Apart(After(s, ins, n));
        assert NoCollision(s, ins, n) <==> !Collides(After(s, ins, n - 1));
      }
    }
  }

  /** A frozen start with both sides about to turn over, and one clock: the buffer written is then the one shown. */
  lemma FrozenTears(i: Input)
    ensures var s := State(Field(0, 1, false), Field(0, 1, false), true, false, true, false, false, true, false, true, true);
            Apart(s) && Collides(s) && !Apart(After(s, [i], 1))
  {
    var s := State(Field(0, 1, false), Field(0, 1, false), true, false, true, false, false, true, false, true, true);
    assert After(s, [i], 0) == s;
    assert After(s, [i], 1) == Next(s, i);
  }

  /** A run of progressive input with triple buffering on and no freeze. */
  predicate Steady(s: State, ins: seq<Input>) {
    Progressive(s, ins) && !s.freeze && forall k | 0 <= k < |ins| :: !ins[k].freeze
  }

  lemma {:induction false} StaysSteady(s: State, ins: seq<Input>, k: nat)
    requires Steady(s, ins) && k <= |ins|
    ensures var t := After(s, ins, k); t.mode3 && !t.freeze && !t.inter
  {
    StaysProgressive(s, ins, k);
    if k > 0 { StaysSteady(s, ins, k - 1); }
  }

  /** The frames in memory after the first `k` clocks. */
  ghost function FramesAfter(s: State, c: Frames, ins: seq<Input>, k: nat): (d: Frames)
    requires k <= |ins| && Steady(s, ins) && Apart(s) && ValidFrames(c)
    ensures ValidFrames(d)
  {
    if k == 0 then c
    else
      NeverTears(s, ins, k - 1);
      NextFrames(FramesAfter(s, c, ins, k - 1), After(s, ins, k - 1).f0, Ended0(After(s, ins, k - 1)), false)
  }

  /** No unfrozen run ever shows the buffer it writes. */
  lemma NeverTears(s: State, ins: seq<Input>, k: nat)
    requires Steady(s, ins) && Apart(s) && k <= |ins|
    ensures Apart(After(s, ins, k))
  {
    TearsExactly(s, ins, k);
    forall j | 0 <= j < k ensures !Collides(After(s, ins, j)) {
      StaysSteady(s, ins, j);
    }
    hide After, Apart, Collides, Steady;
    assert NoCollision(s, ins, k);
    assert NoTear(s, ins, k);
  }

  /** Along every run the frame shown is complete and never older than the one before, and a vertical sync behind
      which a frame waits shows the newest complete frame. */
  lemma {:induction false} NeverGoesBack(s: State, c: Frames, ins: seq<Input>, k: nat)
    requires Steady(s, ins) && Apart(s) && ValidFrames(c) && Agrees(s.f0, c) && k < |ins|
    ensures var t, d, u, e := After(s, ins, k), FramesAfter(s, c, ins, k), After(s, ins, k + 1), FramesAfter(s, c, ins, k + 1);
            && Apart(t) && Apart(u) && Agrees(t.f0, d) && Agrees(u.f0, e)
            && ShownFrame(d, t.f0) <= ShownFrame(e, u.f0) <= Newest(e)
            && (Falls(t) && (t.f0.bufUp || Ended0(t)) ==> ShownFrame(e, u.f0) == Newest(e))
  {
    NeverTears(s, ins, k);
    NeverTears(s, ins, k + 1);
    StaysSteady(s, ins, k);
    var t := After(s, ins, k);
    if k > 0 { NeverGoesBack(s, c, ins, k - 1); }
    FieldStep(t.f0, FramesAfter(s, c, ins, k), Ended0(t), Falls(t));
  }
}
