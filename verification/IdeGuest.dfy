/** What a guest relies on: commands are decoded as sent, a write changes exactly the
    sectors it names, and reading them gives the written words back. */
module IdeGuest {
  import opened Sequences
  import opened Arithmetic
  import opened IdeModel
  import opened IdeValid
  import opened IdeRuns
  import opened IdeJob
  import opened IdeAddress
  import opened SectorStore
  import opened IdeDisk

  // ---------------------------------------------------------------- fetching the task file

  /** The task file once its six words are latched. */
  function TaskFile(r: Regs, ws: seq<int>): Regs
    requires |ws| == 6
  {
    r.(sectorCount := ws[1] % 0x100 + ws[3] % 0x100 * 0x100,
       sector := ws[1] / 0x100 + ws[3] / 0x100 * 0x100,
       cylinder := ws[2] + ws[4] * U16,
       head := ws[5] % 0x10, drv := ws[5] % 0x100 / 0x10 % 2, lba := ws[5] % 0x100 / 0x40 % 2)
  }

  function LatchAll(l: Latch, ws: seq<int>): Latch {
    if ws == [] then l else LatchWord(LatchAll(l, Front(ws)), |ws| - 1, Last(ws))
  }

  predicate Words(ws: seq<int>) {
    forall k | 0 <= k < |ws| :: 0 <= ws[k] < U16
  }

  lemma LatchOne(l: Latch, ws: seq<int>, w: int)
    ensures LatchAll(l, ws + [w]) == LatchWord(LatchAll(l, ws), |ws|, w)
  {
    assert Front(ws + [w]) == ws;
  }

  lemma LatchPrefix(l: Latch, ws: seq<int>, k: int)
    requires 0 <= k < |ws|
    ensures LatchAll(l, ws[..k + 1]) == LatchWord(LatchAll(l, ws[..k]), k, ws[k])
  {
    assert ws[..k + 1] == ws[..k] + [ws[k]];
    LatchOne(l, ws[..k], ws[k]);
  }

  lemma LatchedCounts(l: Latch, w1: int, w3: int)
    requires 0 <= w1 < U16 && 0 <= w3 < U16
    ensures LatchWord(l.(sectorCount := w1 % 0x100, sector := w1 / 0x100), 3, w3)
            == l.(sectorCount := w1 % 0x100 + w3 % 0x100 * 0x100, sector := w1 / 0x100 + w3 / 0x100 * 0x100)
    ensures 0 <= w1 % 0x100 + w3 % 0x100 * 0x100 < U16 && 0 <= w1 / 0x100 + w3 / 0x100 * 0x100 < U16
  {
  }

  lemma LatchedCylinder(l: Latch, w2: int, w4: int)
    requires 0 <= w2 < U16 && 0 <= w4 < U16
    ensures LatchWord(l.(cylinder := w2), 4, w4) == l.(cylinder := w2 + w4 * U16)
  {
  }

  /** The first three words set the fields that the next two extend. */
  lemma LatchThree(l: Latch, w0: int, w1: int, w2: int)
    requires 0 <= w0 < U16
    ensures LatchWord(LatchWord(LatchWord(l, 0, w0), 1, w1), 2, w2)
            == l.(features := w0 / 0x100, cylinder := w2, sectorCount := w1 % 0x100, sector := w1 / 0x100)
  {
  }

  lemma LatchLast(l: Latch, w5: int)
    requires 0 <= w5 < U16
    ensures LatchWord(l, 5, w5) == l.(drvAddr := w5 % 0x100, cmd := w5 / 0x100)
    ensures w5 % 0x100 % 0x10 == w5 % 0x10
  {
  }

  lemma LatchSix(l: Latch, r: Regs, ws: seq<int>)
    requires |ws| == 6 && Words(ws)
    ensures LatchedRegs(r, LatchAll(l, ws)) == TaskFile(r, ws)
    ensures LatchAll(l, ws).cmd == ws[5] / 0x100 && LatchAll(l, ws).features == ws[0] / 0x100
  {
    LatchPrefix(l, ws, 0); LatchPrefix(l, ws, 1); LatchPrefix(l, ws, 2);
    LatchPrefix(l, ws, 3); LatchPrefix(l, ws, 4); LatchPrefix(l, ws, 5);
    assert ws[..6] == ws && ws[..0] == [] && LatchAll(l, []) == l;
    hide LatchAll, LatchWord;
    var c := l.(features := ws[0] / 0x100, cylinder := ws[2], sectorCount := ws[1] % 0x100, sector := ws[1] / 0x100);
    LatchThree(l, ws[0], ws[1], ws[2]);
    LatchedCounts(c, ws[1], ws[3]);
    var e := c.(sectorCount := ws[1] % 0x100 + ws[3] % 0x100 * 0x100, sector := ws[1] / 0x100 + ws[3] / 0x100 * 0x100);
    LatchedCylinder(e, ws[2], ws[4]);
    LatchLast(e.(cylinder := ws[2] + ws[4] * U16), ws[5]);
    hide LatchedRegs, TaskFile;
    LatchedAre(LatchAll(l, ws), r, ws);
  }

  lemma LatchedAre(l: Latch, r: Regs, ws: seq<int>)
    requires |ws| == 6 && Words(ws)
    requires l.sectorCount == ws[1] % 0x100 + ws[3] % 0x100 * 0x100 && l.sector == ws[1] / 0x100 + ws[3] / 0x100 * 0x100
    requires l.cylinder == ws[2] + ws[4] * U16 && l.drvAddr == ws[5] % 0x100
    ensures LatchedRegs(r, l) == TaskFile(r, ws)
  {
    LatchedCounts(l, ws[1], ws[3]);
    LatchLast(l, ws[5]);
    hide LatchWord;
  }

  /** A run that starts idle, is asked to fetch a command and stops once it has. */
  predicate Fetches(s: Sys, ins: seq<Input>)
    requires Valid(s.d)
  {
    ins == [] || (Fetches(s, Front(ins)) && var p := Run(s, Front(ins)); p.d.state != DO_CMD && FetchInput(p.d, Last(ins)))
  }

  predicate FetchInput(d: Device, i: Input) {
    !i.reset && 0 <= i.readdata < U16 && (d.state == IDLE ==> Request(d, i) == 0 || Request(d, i) == 4)
  }

  /** Idle, or with the first words latched, or done; nothing else of the device moves. */
  predicate FetchInv(d0: Device, s: Sys, ws: seq<int>) {
    && Words(ws)
    && match s.d.state
       case IDLE => ws == [] && SameButRest(d0, s.d)
       case GET_CMD =>
         |ws| < 6 && s.bus.address == d0.base + |ws| && SameButRest(d0.(latch := LatchAll(d0.latch, ws), state := GET_CMD), s.d)
       case DO_CMD =>
         |ws| == 6 && SameButRest(d0.(latch := LatchAll(d0.latch, ws), regs := TaskFile(d0.regs, ws), state := DO_CMD), s.d)
       case _ => false
  }

  predicate Mapped(d: Device) {
    d.base % 0x10 == 0 && 0 <= d.base <= 0xFF00
  }

  lemma FetchStarts(d0: Device, s: Sys, i: Input)
    requires Valid(s.d) && Mapped(d0) && FetchInv(d0, s, []) && FetchInput(s.d, i) && s.d.state == IDLE
    ensures FetchInv(d0, OnIdle(s, i), [])
  {
    assert LatchAll(d0.latch, []) == d0.latch;
    assert d0.base % U16 == d0.base;
    hide LatchAll, LatchWord, TaskFile, LatchedRegs, Valid, Request;
  }

  lemma PortIndex(base: int, k: int)
    requires base % 0x10 == 0 && 0 <= base <= 0xFF00 && 0 <= k <= 5
    ensures (base + k) % 0x10 == k && (base + k + 1) % U16 == base + k + 1
  {
  }

  lemma LatchTick(s: Sys, i: Input, k: int)
    requires s.bus.address % 0x10 == k && 0 <= k <= 5
    ensures var l := LatchWord(s.d.latch, k, i.readdata);
            OnGetCmd(s, i) == if k < 5 then Sys(s.d.(latch := l), PulseRead(s.bus, s.bus.address + 1))
                              else Sys(s.d.(latch := l, regs := LatchedRegs(s.d.regs, l), state := DO_CMD), s.bus)
  {
    hide LatchWord, LatchedRegs;
  }

  lemma MoreWords(ws: seq<int>, w: int)
    requires Words(ws) && 0 <= w < U16
    ensures Words(ws + [w])
  {
  }

  lemma FetchLatches(d0: Device, s: Sys, i: Input, ws: seq<int>)
    requires Valid(s.d) && Mapped(d0) && FetchInv(d0, s, ws) && FetchInput(s.d, i) && s.d.state == GET_CMD
    ensures s.bus.address % 0x10 == |ws| && FetchInv(d0, OnGetCmd(s, i), ws + [i.readdata])
  {
    hide LatchAll, LatchWord, TaskFile, LatchedRegs, Valid, Request, Words, OnGetCmd;
    var k, all, w := |ws|, ws + [i.readdata], i.readdata;
    MoreWords(ws, w);
    LatchOne(d0.latch, ws, w);
    PortIndex(d0.base, k);
    LatchTick(s, i, k);
    if k == 5 { LatchSix(d0.latch, d0.regs, all); }
    hide Mapped, FetchInput;
    assert FetchInv(d0, OnGetCmd(s, i), all);
  }

  lemma FetchDispatch(d0: Device, s: Sys, i: Input, ws: seq<int>)
    requires Valid(s.d) && Mapped(d0) && FetchInv(d0, s, ws) && FetchInput(s.d, i) && s.d.state != DO_CMD && !Held(s.d)
    ensures FetchInv(d0, Dispatch(s, i), ws + Taken(s, i))
  {
    assert ws + [] == ws;
    assert s.d.state == IDLE || s.d.state == GET_CMD;
    assert s.d.state == IDLE ==> ws == [];
    if s.d.state == IDLE { FetchStarts(d0, s, i); } else { FetchLatches(d0, s, i, ws); }
    hide FetchInv, FetchInput, Mapped, Valid, OnGetCmd, OnIdle;
  }

  lemma FetchIgnoresRest(d0: Device, s: Sys, c: bool, k: int, r: bool, w: bool, ws: seq<int>)
    ensures FetchInv(d0, Sys(s.d.(cooldown := c, jitterDelay := k), s.bus.(read := r, write := w)), ws) == FetchInv(d0, s, ws)
  {
    hide LatchAll, TaskFile, Words;
  }

  lemma FetchStep(d0: Device, s: Sys, i: Input, ws: seq<int>)
    requires Valid(s.d) && Mapped(d0) && FetchInv(d0, s, ws) && FetchInput(s.d, i) && s.d.state != DO_CMD
    ensures FetchInv(d0, Step(s, i), ws + Taken(s, i))
  {
    assert !i.reset && ws + [] == ws;
    var t, l := Step(s, i), LowStrobes(s);
    FetchIgnoresRest(d0, s, s.d.cooldown, s.d.jitterDelay, false, false, ws);
    hide Step, Dispatch, FetchInv, Valid, Mapped;
    if Held(s.d) {
      StepRests(s, i);
      FetchIgnoresRest(d0, l, t.d.cooldown, t.d.jitterDelay, false, false, ws);
    } else {
      StepActs(s, i);
      FetchDispatch(d0, l, i, ws);
      var u := Dispatch(l, i);
      FetchIgnoresRest(d0, u, true, i.jitter, u.bus.read, u.bus.write, ws + Taken(s, i));
    }
  }

  lemma {:induction false} FetchRun(s: Sys, ins: seq<Input>)
    requires Valid(s.d) && s.d.state == IDLE && Mapped(s.d) && Fetches(s, ins)
    ensures FetchInv(s.d, Run(s, ins), Consumed(s, ins))
  {
    if ins != [] {
      FetchRun(s, Front(ins));
      FetchStep(s.d, Run(s, Front(ins)), Last(ins), Consumed(s, Front(ins)));
      hide Step, Valid, FetchInv, Taken, Mapped;
    }
  }

  /** A fetched command is the one the six words spell, and fetching changes nothing else. */
  lemma CommandFetched(s: Sys, ins: seq<Input>)
    requires Valid(s.d) && s.d.state == IDLE && Mapped(s.d) && Fetches(s, ins) && Run(s, ins).d.state == DO_CMD
    ensures var ws := Consumed(s, ins); var t := Run(s, ins).d;
            && |ws| == 6
            && t.regs == TaskFile(s.d.regs, ws)
            && t.latch.cmd == ws[5] / 0x100 && t.latch.features == ws[0] / 0x100
            && t.image == s.d.image && t.drive == s.d.drive && t.packet == s.d.packet && t.sense == s.d.sense
  {
    FetchRun(s, ins);
    var ws := Consumed(s, ins);
    LatchSix(s.d.latch, s.d.regs, ws);
    hide Run, Consumed, Fetches, Valid, LatchAll, TaskFile;
  }

  // ---------------------------------------------------------------- a write, byte by byte

  /** After a WRITE a byte holds the word sent for it if its sector was named and lies in
      the image, and what it held before if not. */
  lemma WriteSetsExactly(s: Sys, ins: seq<Input>, p: nat)
    requires Accepts(s.d) && IsWrite(s.d) && Attended(s, ins) && Run(s, ins).d.state == IDLE && p < |s.d.image|
    ensures var j := JobOf(s.d); var n := j.r.sectorCount; var i := (p / SECTOR - First(j)) % JobSpan(j);
            |Run(s, ins).d.image| == |s.d.image| && |Consumed(s, ins)| == 256 * n &&
            Run(s, ins).d.image[p] ==
              if p / SECTOR < JobSpan(j) && SectorInImage(s.d.image, p / SECTOR) && i < n
              then ByteOf(Consumed(s, ins)[256 * i + p % SECTOR / 2], p)
              else s.d.image[p]
  {
    WriteCommand(s, ins);
    var j, ws := JobOf(s.d), Consumed(s, ins);
    assert JobSpan(j) >= 256;
    WrittenBytes(s.d.image, First(j), JobSpan(j), ws, p);
    CoveredSectors(s.d.image, First(j), JobSpan(j), j.r.sectorCount, p);
    hide Run, Consumed, Attended, ActingTicks, Trace, JobOf, Written, ByteOf, First, JobSpan, Valid;
  }

  lemma CoveredSectors(image: seq<int>, first: int, span: int, n: int, p: nat)
    requires span > 0
    ensures Covered(image, first, span, 256 * n, p) <==>
              p / SECTOR < span && SectorInImage(image, p / SECTOR) && (p / SECTOR - first) % span < n
    ensures WordOf(first, span, p) == 256 * ((p / SECTOR - first) % span) + p % SECTOR / 2
  {
    var i := (p / SECTOR - first) % span;
    assert 0 <= p % SECTOR / 2 < 256;
    hide SectorInImage;
  }

  // ---------------------------------------------------------------- reading it back

  /** Word m of a transfer, read back after the transfer wrote it. */
  lemma ByteOfWord(s: nat, k: nat)
    requires k < 256
    ensures var p := s * SECTOR + 2 * k;
            p / SECTOR == s && (p + 1) / SECTOR == s && p % SECTOR / 2 == k && (p + 1) % SECTOR / 2 == k && p % 2 == 0
  {
    var p := s * SECTOR + 2 * k;
    DivUnique(p, SECTOR, s, 2 * k);
    DivUnique(p + 1, SECTOR, s, 2 * k + 1);
  }

  lemma LoadBack(r: seq<int>, s: int, k: int, w: int)
    requires SectorInImage(r, s) && 0 <= k < 256 && 0 <= w < U16
    requires r[s * SECTOR + 2 * k] == w % 0x100 && r[s * SECTOR + 2 * k + 1] == w / 0x100 % 0x100
    ensures LoadWord(r, SectorPointer(r, s), k) == w
  {
    WordOfBytes(w);
  }

  lemma WordOfNth(first: int, span: int, i: int, k: int)
    requires 0 <= i < span && 0 <= k < 256
    ensures var s := NthSector(first, span, i); var p := s * SECTOR + 2 * k;
            && 0 <= s < span && p / SECTOR == s && (p + 1) / SECTOR == s && p % 2 == 0
            && WordOf(first, span, p) == 256 * i + k && WordOf(first, span, p + 1) == 256 * i + k
  {
    var s := NthSector(first, span, i);
    assert 0 <= s < span by { DivMod(first + i, span); }
    ByteOfWord(s, k);
    SectorIndex(first, span, i, s);
    hide NthSector;
  }

  lemma BothBytes(image: seq<int>, first: int, span: int, ws: seq<int>, p: nat, m: nat)
    requires 0 < span && m < |ws| <= 256 * span && p + 1 < |image| && p % 2 == 0
    requires Covered(image, first, span, |ws|, p) && Covered(image, first, span, |ws|, p + 1)
    requires WordOf(first, span, p) == m && WordOf(first, span, p + 1) == m
    ensures var r := Written(image, first, span, ws); r[p] == ws[m] % 0x100 && r[p + 1] == ws[m] / 0x100 % 0x100
  {
    hide Covered, WordOf, Written;
    WrittenBytes(image, first, span, ws, p);
    WrittenBytes(image, first, span, ws, p + 1);
  }

  /** Both bytes of word k of the i-th sector. */
  lemma WrittenWord(image: seq<int>, first: int, span: int, ws: seq<int>, i: int, k: int)
    requires 0 <= i < span && 0 <= k < 256 && 256 * i + k < |ws| <= 256 * span
    requires SectorInImage(image, NthSector(first, span, i))
    ensures var r := Written(image, first, span, ws); var p := NthSector(first, span, i) * SECTOR + 2 * k;
            0 <= p && p + 1 < |image| && r[p] == ws[256 * i + k] % 0x100 && r[p + 1] == ws[256 * i + k] / 0x100 % 0x100
  {
    WordOfNth(first, span, i, k);
    hide NthSector, Written, WordOf;
    BothBytes(image, first, span, ws, NthSector(first, span, i) * SECTOR + 2 * k, 256 * i + k);
  }

  lemma ReadBack(image: seq<int>, first: int, span: int, ws: seq<int>, m: nat)
    requires 0 < span && m < |ws| <= 256 * span && Words(ws)
    ensures WordAt(Written(image, first, span, ws), first, span, m) ==
              if SectorInImage(image, NthSector(first, span, m / 256)) then ws[m] else 0
  {
    var i, k := m / 256, m % 256;
    var s := NthSector(first, span, i);
    assert m == 256 * i + k && i < span;
    var r := Written(image, first, span, ws);
    assert WordAt(r, first, span, m) == LoadWord(r, SectorPointer(r, s), k);
    hide NthSector, Written, WordAt;
    if SectorInImage(image, s) {
      WrittenWord(image, first, span, ws, i, k);
      LoadBack(r, s, k, ws[m]);
    }
  }

  lemma WordOfBytes(w: int)
    requires 0 <= w < U16
    ensures Word(w % 0x100, w / 0x100 % 0x100) == w
  {
  }

  lemma {:induction false} ConsumedInRange(s: Sys, ins: seq<Input>)
    requires Valid(s.d) && forall i | 0 <= i < |ins| :: 0 <= ins[i].readdata < U16
    ensures Words(Consumed(s, ins))
  {
    hide Run, Step, Valid;
    if ins != [] { ConsumedInRange(s, Front(ins)); }
  }

  /** A READ of the sectors a WRITE named gives the written words back, and zeros where
      the image has no such sector, in order and with nothing else on the data port. */
  lemma WriteThenRead(s: Sys, ins: seq<Input>, r: Sys, more: seq<Input>)
    requires Accepts(s.d) && IsWrite(s.d) && Attended(s, ins) && Run(s, ins).d.state == IDLE
    requires forall i | 0 <= i < |ins| :: 0 <= ins[i].readdata < U16
    requires Accepts(r.d) && IsRead(r.d) && Attended(r, more) && Run(r, more).d.state == IDLE
    requires r.d.image == Run(s, ins).d.image
    requires First(JobOf(r.d)) == First(JobOf(s.d)) && JobSpan(JobOf(r.d)) == JobSpan(JobOf(s.d))
    requires JobOf(r.d).r.sectorCount == JobOf(s.d).r.sectorCount
    ensures var out := DataWords(r.d.base, Trace(r, more)); var ws := Consumed(s, ins);
            |out| == |ws| &&
            forall m: nat | m < |ws| ::
              out[m] == if SectorInImage(s.d.image, NthSector(First(JobOf(s.d)), JobSpan(JobOf(s.d)), m / 256)) then ws[m] else 0
  {
    var j, q, ws := JobOf(s.d), JobOf(r.d), Consumed(s, ins);
    WriteCommand(s, ins);
    ReadCommand(r, more);
    ServedWords(q, q.r.sectorCount);
    ConsumedInRange(s, ins);
    assert JobSpan(j) >= 256;
    hide Run, Consumed, Attended, ActingTicks, Trace, JobOf, Written, First, JobSpan, Valid, NthSector, WordAt, DataWords;
    forall m: nat | m < |ws|
      ensures WordAt(r.d.image, First(q), JobSpan(q), m) ==
              if SectorInImage(s.d.image, NthSector(First(j), JobSpan(j), m / 256)) then ws[m] else 0
    {
      ReadBack(s.d.image, First(j), JobSpan(j), ws, m);
    }
  }
}
