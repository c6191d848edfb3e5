/** The clocked input side of the scaler: pixels are accepted one a clock, and the end of a line is flushed. */
module AscalInput {
  import opened Sequences
  import opened AscalPacking
  import opened AscalLines
  import opened AscalRoundTrip

  datatype InputSide = InputSide(packer: Packer, push: bool, pushEnd: bool)

  /** One enabled clock: the line starts, a pixel is kept, the displayed part of a kept line ends. */
  datatype Clock = Clock(start: bool, accept: bool, last: bool, keepLine: bool, pix: Pix)

  predicate Active(s: InputSide, i: Clock) {
    i.accept || s.pushEnd
  }

  function Next(format: int, wide: bool, s: InputSide, i: Clock): (t: InputSide)
    requires ValidPacker(wide, s.packer)
    ensures ValidPacker(wide, t.packer)
  {
    var p := if Active(s, i) then Accept(format, wide, s.packer, i.pix) else s.packer;
    var push := Active(s, i) && NextIn(wide, s.packer.acpt, format) && i.keepLine;
    InputSide(if i.start then p.(acpt := 0) else p,
              push,
              if i.last && i.keepLine then true else if push then false else s.pushEnd)
  }

  class InputPacker {
    const wide: bool
    var shift: seq<int>
    var dw: seq<int>
    var acpt: int
    var push: bool
    var pushEnd: bool

    ghost predicate Valid()
      reads this
    {
      ValidPacker(wide, Packer(shift, dw, acpt))
    }

    function Value(): InputSide
      reads this
    {
      InputSide(Packer(shift, dw, acpt), push, pushEnd)
    }

    constructor (wide: bool)
      ensures this.wide == wide && Valid() && acpt == 0 && !push && !pushEnd
    {
      this.wide := wide;
      shift, dw := seq(15, _ => 0), seq(WordBytes(wide), _ => 0);
      acpt, push, pushEnd := 0, false, false;
    }

    method Tick(format: int, i: Clock)
      requires Valid()
      modifies this
      ensures Valid() && Value() == Next(format, wide, old(Value()), i)
    {
      var active := i.accept || pushEnd;
      var full := NextIn(wide, acpt, format);
      push := false;
      if active {
        dw := PackIn(wide, dw, acpt, shift, i.pix, format);
        shift := ShiftIn(shift, i.pix, format);
        if full && i.keepLine {
          push := true;
          pushEnd := false;
        }
        acpt := (acpt + 1) % 16;
      }
      if i.last && i.keepLine { pushEnd := true; }
      if i.start { acpt := 0; }
    }
  }

  /** The state after the first `k` clocks of `ins`. */
  function After(format: int, wide: bool, s: InputSide, ins: seq<Clock>, k: nat): (t: InputSide)
    requires ValidPacker(wide, s.packer) && k <= |ins|
    ensures ValidPacker(wide, t.packer)
  {
    if k == 0 then s else Next(format, wide, After(format, wide, s, ins, k - 1), ins[k - 1])
  }

  /** The words pushed on the first `k` clocks. */
  function Pushed(format: int, wide: bool, s: InputSide, ins: seq<Clock>, k: nat): seq<seq<int>>
    requires ValidPacker(wide, s.packer) && k <= |ins|
  {
    if k == 0 then []
    else
      Pushed(format, wide, s, ins, k - 1)
      + (if After(format, wide, s, ins, k).push then [After(format, wide, s, ins, k).packer.dw] else [])
  }

  /** The pixels packed on the first `k` clocks. */
  function Seen(format: int, wide: bool, s: InputSide, ins: seq<Clock>, k: nat): seq<Pix>
    requires ValidPacker(wide, s.packer) && k <= |ins|
  {
    if k == 0 then []
    else
      Seen(format, wide, s, ins, k - 1)
      + (if Active(After(format, wide, s, ins, k - 1), ins[k - 1]) then [ins[k - 1].pix] else [])
  }

  /** The pixels kept on the first `k` clocks. */
  function Kept(ins: seq<Clock>, k: nat): (line: seq<Pix>)
    requires k <= |ins|
  {
    if k == 0 then [] else Kept(ins, k - 1) + (if ins[k - 1].accept then [ins[k - 1].pix] else [])
  }

  /** The pixels at the port from clock `a` up to clock `k`. */
  function Pixels(ins: seq<Clock>, a: nat, k: nat): (line: seq<Pix>)
    requires a <= k <= |ins|
    ensures |line| == k - a
  {
    if k == a then [] else Pixels(ins, a, k - 1) + [ins[k - 1].pix]
  }

  /** A kept line: its displayed part ends on clock `e`, and no pixel is kept behind it. */
  predicate KeptLine(ins: seq<Clock>, e: nat) {
    && e < |ins|
    && forall k | 0 <= k < |ins| ::
         !ins[k].start && ins[k].keepLine && (ins[k].last <==> k == e) && (k > e ==> !ins[k].accept)
  }

  lemma WordsGrow(format: int, wide: bool, s: Packer, line: seq<Pix>, p: Pix)
    requires ValidPacker(wide, s)
    ensures var t := Packed(format, wide, s, line);
            && Packed(format, wide, s, line + [p]) == Accept(format, wide, t, p)
            && Words(format, wide, s, line + [p])
               == Words(format, wide, s, line) + (if NextIn(wide, t.acpt, format) then [Accept(format, wide, t, p).dw] else [])
  {
    assert Front(line + [p]) == line && Last(line + [p]) == p;
    hide Accept, NextIn;
  }

  /** The clocked machine packs exactly the pixels it sees. */
  lemma {:induction false} ClocksPack(format: int, wide: bool, s: InputSide, ins: seq<Clock>, e: nat, k: nat)
    requires ValidPacker(wide, s.packer) && KeptLine(ins, e) && k <= |ins|
    ensures var line := Seen(format, wide, s, ins, k);
            && After(format, wide, s, ins, k).packer == Packed(format, wide, s.packer, line)
            && Pushed(format, wide, s, ins, k) == Words(format, wide, s.packer, line)
  {
    hide Accept, NextIn;
    if k > 0 {
      ClocksPack(format, wide, s, ins, e, k - 1);
      var line := Seen(format, wide, s, ins, k - 1);
      WordsGrow(format, wide, s.packer, line, ins[k - 1].pix);
      hide Words, Packed;
      assert line + [] == line;
    }
  }

  lemma {:induction false} BeforeTheEnd(format: int, wide: bool, s: InputSide, ins: seq<Clock>, e: nat, k: nat)
    requires ValidPacker(wide, s.packer) && KeptLine(ins, e) && !s.pushEnd && k <= e + 1
    ensures Seen(format, wide, s, ins, k) == Kept(ins, k)
    ensures After(format, wide, s, ins, k).pushEnd == (k == e + 1)
  {
    hide Accept, NextIn;
    if k > 0 {
      BeforeTheEnd(format, wide, s, ins, e, k - 1);
    }
  }

  lemma {:induction false} PackedCounts(format: int, wide: bool, s: Packer, line: seq<Pix>)
    requires ValidPacker(wide, s) && s.acpt == 0
    ensures Packed(format, wide, s, line).acpt == |line| % 16
  {
    hide ShiftIn, PackIn, Accept;
    if line != [] {
      PackedCounts(format, wide, s, Front(line));
      AcceptCounts(format, wide, Packed(format, wide, s, Front(line)), Last(line));
      CountStep(format, |line| - 1);
    }
  }

  lemma FlushStep(format: int, wide: bool, u: InputSide, i: Clock)
    requires ValidPacker(wide, u.packer) && u.pushEnd && !i.last && i.keepLine
    ensures Active(u, i) && Next(format, wide, u, i).pushEnd == !NextIn(wide, u.packer.acpt, format)
  {
    hide Accept, NextIn;
  }

  /** The flush that starts on clock `e` is still going on before clock `k`. */
  predicate Lasts(format: int, wide: bool, s: InputSide, ins: seq<Clock>, e: nat, k: nat)
    requires ValidPacker(wide, s.packer) && k <= |ins|
  {
    forall j | e < j < k :: After(format, wide, s, ins, j).pushEnd
  }

  lemma LastsAt(format: int, wide: bool, s: InputSide, ins: seq<Clock>, e: nat, k: nat, j: nat)
    requires ValidPacker(wide, s.packer) && k <= |ins| && Lasts(format, wide, s, ins, e, k) && j <= k
    ensures Lasts(format, wide, s, ins, e, j)
    ensures e < j < k ==> After(format, wide, s, ins, j).pushEnd
  {
    hide After;
  }

  lemma BehindTheEnd(ins: seq<Clock>, e: nat, k: nat)
    requires KeptLine(ins, e) && e < k < |ins|
    ensures !ins[k].last && ins[k].keepLine
  {
  }

  /** Behind the end every clock packs a pixel, while the flush lasts. */
  lemma {:induction false} Flushing(format: int, wide: bool, s: InputSide, ins: seq<Clock>, e: nat, k: nat, line: seq<Pix>)
    requires ValidPacker(wide, s.packer) && KeptLine(ins, e) && e < k <= |ins|
    requires line == Seen(format, wide, s, ins, e + 1)
    requires Lasts(format, wide, s, ins, e, k)
    ensures Seen(format, wide, s, ins, k) == line + Pixels(ins, e + 1, k)
  {
    if k == e + 1 {
      assert line + [] == line;
    } else {
      hide After, Next, Active, KeptLine, Lasts;
      LastsAt(format, wide, s, ins, e, k, k - 1);
      Flushing(format, wide, s, ins, e, k - 1, line);
      var u := After(format, wide, s, ins, k - 1);
      BehindTheEnd(ins, e, k - 1);
      FlushStep(format, wide, u, ins[k - 1]);
    }
  }

  lemma {:induction false} FlushCounts(format: int, wide: bool, s: InputSide, ins: seq<Clock>, e: nat, k: nat)
    requires ValidPacker(wide, s.packer) && KeptLine(ins, e) && e < k <= |ins| && Lasts(format, wide, s, ins, e, k)
    ensures |Seen(format, wide, s, ins, k)| == |Seen(format, wide, s, ins, e + 1)| + (k - e - 1)
  {
    if k > e + 1 {
      hide After, Next, Active, KeptLine, Lasts;
      LastsAt(format, wide, s, ins, e, k, k - 1);
      FlushCounts(format, wide, s, ins, e, k - 1);
      BehindTheEnd(ins, e, k - 1);
      FlushStep(format, wide, After(format, wide, s, ins, k - 1), ins[k - 1]);
    }
  }

  lemma CompletesAt(format: int, wide: bool, n: nat, k: nat, count: nat, acpt: int)
    requires acpt == count % 16 && count == n + k
    ensures Completes(format, wide, n, k) == NextIn(wide, acpt, format)
  {
    hide NextIn;
  }

  /** A clock of the flush is the last exactly when its pixel completes a word. */
  lemma FlushLasts(format: int, wide: bool, s: InputSide, ins: seq<Clock>, e: nat, k: nat, n: nat)
    requires ValidPacker(wide, s.packer) && s.packer.acpt == 0 && KeptLine(ins, e) && e + 1 < k <= |ins|
    requires n == |Seen(format, wide, s, ins, e + 1)| && Lasts(format, wide, s, ins, e, k)
    ensures After(format, wide, s, ins, k).pushEnd == !Completes(format, wide, n, k - e - 2)
  {
    var u := After(format, wide, s, ins, k - 1);
    assert After(format, wide, s, ins, k) == Next(format, wide, u, ins[k - 1]);
    hide *;
    LastsAt(format, wide, s, ins, e, k, k - 1);
    BehindTheEnd(ins, e, k - 1);
    FlushStep(format, wide, u, ins[k - 1]);
    FlushCounts(format, wide, s, ins, e, k - 1);
    SeenCounts(format, wide, s, ins, e, k - 1);
    CompletesAt(format, wide, n, k - e - 2, |Seen(format, wide, s, ins, k - 1)|, u.packer.acpt);
  }

  lemma SeenCounts(format: int, wide: bool, s: InputSide, ins: seq<Clock>, e: nat, k: nat)
    requires ValidPacker(wide, s.packer) && s.packer.acpt == 0 && KeptLine(ins, e) && k <= |ins|
    ensures After(format, wide, s, ins, k).packer.acpt == |Seen(format, wide, s, ins, k)| % 16
  {
    hide *;
    ClocksPack(format, wide, s, ins, e, k);
    PackedCounts(format, wide, s.packer, Seen(format, wide, s, ins, k));
  }

  lemma FlushIs(format: int, wide: bool, n: nat, junk: seq<Pix>)
    requires junk != [] && Completes(format, wide, n, |junk| - 1)
    requires forall k | 0 <= k < |junk| - 1 :: !Completes(format, wide, n, k)
    ensures Flushes(format, wide, n, junk)
  {
    hide Completes;
  }

  // ---------------------------------------------------------------- the flush ends

  /** The clock behind the flush of the line that ends on clock `e`. */
  function FlushEnd(format: int, wide: bool, ins: seq<Clock>, e: nat): (k: nat)
    requires e < |ins|
    ensures e + 1 < k <= e + 17
  {
    e + 1 + FlushLength(format, wide, |Kept(ins, e + 1)|, 0)
  }

  lemma FlushEndIs(format: int, wide: bool, ins: seq<Clock>, e: nat, j: nat)
    requires e < |ins| && j < FlushEnd(format, wide, ins, e) - e - 1
    ensures Completes(format, wide, |Kept(ins, e + 1)|, j) <==> j + e + 2 == FlushEnd(format, wide, ins, e)
  {
    hide Completes, Kept;
  }

  /** The flush goes on until a word is complete, and is over on the next clock. */
  lemma {:induction false} FlushRuns(format: int, wide: bool, s: InputSide, ins: seq<Clock>, e: nat, k: nat)
    requires ValidPacker(wide, s.packer) && s.packer.acpt == 0 && KeptLine(ins, e) && !s.pushEnd && e < k <= |ins|
    requires k <= FlushEnd(format, wide, ins, e)
    ensures Lasts(format, wide, s, ins, e, k)
    ensures After(format, wide, s, ins, k).pushEnd == (k < FlushEnd(format, wide, ins, e))
  {
    assert e < |ins|;
    hide *;
    var n := |Kept(ins, e + 1)|;
    BeforeTheEnd(format, wide, s, ins, e, e + 1);
    if k == e + 1 {
      LastsNone(format, wide, s, ins, e);
    } else {
      FlushRuns(format, wide, s, ins, e, k - 1);
      LastsMore(format, wide, s, ins, e, k);
      FlushLasts(format, wide, s, ins, e, k, n);
      FlushEndIs(format, wide, ins, e, k - e - 2);
    }
  }

  lemma LastsNone(format: int, wide: bool, s: InputSide, ins: seq<Clock>, e: nat)
    requires ValidPacker(wide, s.packer) && e < |ins|
    ensures Lasts(format, wide, s, ins, e, e + 1)
  {
  }

  lemma LastsMore(format: int, wide: bool, s: InputSide, ins: seq<Clock>, e: nat, k: nat)
    requires ValidPacker(wide, s.packer) && 0 < k <= |ins| && Lasts(format, wide, s, ins, e, k - 1)
    requires After(format, wide, s, ins, k - 1).pushEnd
    ensures Lasts(format, wide, s, ins, e, k)
  {
    hide After;
  }

  lemma BlankStep(format: int, wide: bool, s: InputSide, ins: seq<Clock>, e: nat, k: nat)
    requires ValidPacker(wide, s.packer) && KeptLine(ins, e) && e + 1 < k <= |ins|
    requires !After(format, wide, s, ins, k - 1).pushEnd
    ensures !After(format, wide, s, ins, k).pushEnd
    ensures Pushed(format, wide, s, ins, k) == Pushed(format, wide, s, ins, k - 1)
  {
    assert !ins[k - 1].accept && !ins[k - 1].last;
    hide Accept, NextIn, KeptLine;
  }

  /** The clocks behind the flush push nothing more. */
  lemma {:induction false} BlankClocks(format: int, wide: bool, s: InputSide, ins: seq<Clock>, e: nat, j: nat, k: nat)
    requires ValidPacker(wide, s.packer) && KeptLine(ins, e) && e < j <= k <= |ins| && !After(format, wide, s, ins, j).pushEnd
    ensures !After(format, wide, s, ins, k).pushEnd
    ensures Pushed(format, wide, s, ins, k) == Pushed(format, wide, s, ins, j)
  {
    hide *;
    if j < k {
      BlankClocks(format, wide, s, ins, e, j, k - 1);
      BlankStep(format, wide, s, ins, e, k);
    }
  }

  // ---------------------------------------------------------------- main results

  /** The flush behind a kept line is over within sixteen clocks, whatever is at the port meanwhile. */
  lemma FlushIsOver(format: int, wide: bool, s: InputSide, ins: seq<Clock>, e: nat, k: nat)
    requires ValidPacker(wide, s.packer) && s.packer.acpt == 0 && KeptLine(ins, e) && !s.pushEnd && e < k <= |ins|
    ensures After(format, wide, s, ins, k).pushEnd == (k < FlushEnd(format, wide, ins, e)) && FlushEnd(format, wide, ins, e) <= e + 17
  {
    assert e < |ins|;
    hide *;
    var end := FlushEnd(format, wide, ins, e);
    if k <= end {
      FlushRuns(format, wide, s, ins, e, k);
    } else {
      FlushRuns(format, wide, s, ins, e, end);
      BlankClocks(format, wide, s, ins, e, end, k);
    }
  }

  /** A kept line of any length, clocked in with any pauses and followed by at least the clocks its flush takes, arrives
      in memory as the words of its pixels followed by those that flush it. */
  lemma LineArrives(format: int, wide: bool, s: InputSide, ins: seq<Clock>, e: nat)
    requires ValidPacker(wide, s.packer) && s.packer.acpt == 0 && KeptLine(ins, e) && !s.pushEnd
    requires FlushEnd(format, wide, ins, e) <= |ins|
    ensures var line, junk := Kept(ins, e + 1), Pixels(ins, e + 1, FlushEnd(format, wide, ins, e));
            && Flushes(format, wide, |line|, junk) && |junk| <= 16
            && Pushed(format, wide, s, ins, |ins|) == Words(format, wide, s.packer, line + junk)
            && !After(format, wide, s, ins, |ins|).pushEnd
  {
    assert e < |ins|;
    hide *;
    var k := FlushEnd(format, wide, ins, e);
    var line, junk := Kept(ins, e + 1), Pixels(ins, e + 1, k);
    BeforeTheEnd(format, wide, s, ins, e, e + 1);
    FlushRuns(format, wide, s, ins, e, k);
    ClocksPack(format, wide, s, ins, e, k);
    Flushing(format, wide, s, ins, e, k, line);
    FlushedJunk(format, wide, s, ins, e, k, |line|, junk);
    BlankClocks(format, wide, s, ins, e, k, |ins|);
  }

  lemma FlushedJunk(format: int, wide: bool, s: InputSide, ins: seq<Clock>, e: nat, end: nat, n: nat, junk: seq<Pix>)
    requires ValidPacker(wide, s.packer) && s.packer.acpt == 0 && KeptLine(ins, e) && e + 1 < end <= |ins|
    requires n == |Seen(format, wide, s, ins, e + 1)| && |junk| == end - e - 1
    requires Lasts(format, wide, s, ins, e, end) && !After(format, wide, s, ins, end).pushEnd
    ensures Flushes(format, wide, n, junk)
  {
    hide *;
    FlushLasts(format, wide, s, ins, e, end, n);
    forall k | 0 <= k < |junk| - 1 ensures !Completes(format, wide, n, k) {
      var j := e + 2 + k;
      LastsAt(format, wide, s, ins, e, end, j);
      FlushLasts(format, wide, s, ins, e, j, n);
    }
    FlushIs(format, wide, n, junk);
  }

  /** From the pixel port to the pixel shown. */
  lemma LineReturns(format: int, wide: bool, byteSwap: bool, s: InputSide, ins: seq<Clock>, e: nat, r: Reader, k: nat)
    requires ValidPacker(wide, s.packer) && s.packer.acpt == 0 && KeptLine(ins, e) && !s.pushEnd
    requires FlushEnd(format, wide, ins, e) <= |ins|
    requires ValidReader(wide, r) && r.acpt == 0 && r.ad == 0 && Supported(format, wide)
    requires InRange(Kept(ins, e + 1)) && k < |Kept(ins, e + 1)|
    ensures var mem := Pushed(format, wide, s, ins, |ins|);
            WholeWords(wide, mem)
            && Shown(format, wide, Stored(byteSwap, mem), r, k) == Restored(format, Kept(ins, e + 1)[k])
  {
    LineArrives(format, wide, s, ins, e);
    var line, junk := Kept(ins, e + 1), Pixels(ins, e + 1, FlushEnd(format, wide, ins, e));
    hide After, Pushed, Words, Kept, Flushes, Shown, Restored, InRange, KeptLine, FlushEnd;
    RoundTrip(format, wide, byteSwap, s.packer, r, line, junk, k);
  }
}
