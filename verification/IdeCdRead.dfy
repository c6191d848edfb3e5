/** A whole CD read, from the packet in hand back to idle. */
module IdeCdRead {
  import opened Sequences
  import opened Arithmetic
  import opened IdeModel
  import opened IdeValid
  import opened IdeRuns
  import opened IdeJob
  import opened IdeAtapi

  predicate ReadPacket(d: Device) {
    Valid(d) && d.state == PACKET_HANDLE && d.cdrom && (d.packet.cdb[0] == 0x28 || d.packet.cdb[0] == 0xA8)
  }

  /** How many of `n` sectors from `lba` on are handed over in chunks of `w`: all of them if all are in the image,
      otherwise the whole chunks that are. */
  function Handed(image: seq<int>, lba: int, n: int, w: int): int
    requires w > 0
  {
    var inside := |image| / CD_SECTOR - lba;
    if n <= inside then n else if inside <= 0 then 0 else inside / w * w
  }

  predicate UncutLimit(limit: int) {
    limit == 0 || CD_SECTOR <= limit < U16
  }

  /** A read packet in hand, with a limit that cuts no chunk and an image whose sectors have 32-bit numbers. */
  predicate Readable(d: Device) {
    ReadPacket(d) && UncutLimit(d.packet.limit) && |d.image| < CD_SECTOR * U32
  }

  /** The read a READ(10) or READ(12) packet asks for. */
  function StreamOf(d: Device): Stream
    requires ReadPacket(d)
  {
    var cdb := d.packet.cdb;
    var lba, n := Be32(cdb, 2), if cdb[0] == 0x28 then Be16(cdb, 7) else Be32(cdb, 6);
    var w := if UncutLimit(d.packet.limit) then Width(d.packet.limit) else 1;
    Stream(d.regs, d.base, d.image, lba, n, Handed(d.image, lba, n, w), d.packet.limit)
  }

  lemma HandedIs(image: seq<int>, lba: int, n: int, w: int)
    requires 0 <= lba && 0 <= n && 1 <= w <= 8
    ensures var got := Handed(image, lba, n, w);
            && 0 <= got <= n
            && (got == n <==> n == 0 || (lba + n) * CD_SECTOR <= |image|)
            && (got > 0 ==> (lba + got) * CD_SECTOR <= |image|)
            && (got < n ==> got % w == 0 && (lba + got + (if n - got < w then n - got else w)) * CD_SECTOR > |image|)
  {
    var inside := |image| / CD_SECTOR - lba;
    if n > inside && inside > 0 {
      var q := inside / w;
      DivMod(inside, w);
      DivBounds(inside, w);
      assert q * w == w * q;
      DivUnique(q * w, w, q, 0);
    }
    if inside <= 0 { assert 0 % w == 0 by { DivUnique(0, w, 0, 0); } }
  }

  /** Every read under such a limit is a stream: what it hands over is decided by its range alone. */
  lemma StreamIsGood(d: Device)
    requires Readable(d)
    ensures var j := StreamOf(d);
            GoodStream(j) && (j.got == j.n <==> j.n == 0 || (j.lba + j.n) * CD_SECTOR <= |d.image|)
  {
    var j := StreamOf(d);
    FieldsNatural(d.packet.cdb);
    FieldWide(d.packet.cdb);
    HandedIs(d.image, j.lba, j.n, Width(d.packet.limit));
    assert 0 <= d.regs.head < 16;
    hide Be16, Be32, Handed, Width, Valid;
  }

  /** Acting ticks from the packet in hand to idle. */
  function CdTicks(d: Device): int
    requires Readable(d)
  {
    StreamIsGood(d);
    1 + ChunksLeft(StreamOf(d), StreamOf(d).n)
  }

  lemma FieldWide(cdb: seq<int>)
    requires |cdb| == 12
    ensures Be32(cdb, 2) < U32
  {
  }

  /** Not yet looked at, or somewhere in the stream. */
  predicate CdProgress(d0: Device, d: Device, tr: seq<Event>)
    requires ReadPacket(d0) && GoodStream(StreamOf(d0))
  {
    if d.state == PACKET_HANDLE then SameButRest(d0, d) && tr == [] else StreamInv(StreamOf(d0), d, tr)
  }

  function CdWork(d0: Device, d: Device): int
    requires ReadPacket(d0) && GoodStream(StreamOf(d0))
  {
    var j := StreamOf(d0);
    if d.state == PACKET_HANDLE then 1 + ChunksLeft(j, j.n) else StreamLeft(j, d)
  }

  lemma HandlesRead(d0: Device, s: Sys, i: Input)
    requires ReadPacket(d0) && Valid(s.d) && s.d.state == PACKET_HANDLE && SameButRest(d0, s.d)
    ensures var j := StreamOf(d0); var p := s.d.(packet := s.d.packet.(lba := j.lba, remaining := j.n));
            0 <= j.lba && 0 <= j.n && Valid(p) && Dispatch(s, i) == Sys(PrepareCdromRead(p), s.bus)
  {
    FieldsNatural(d0.packet.cdb);
    hide PrepareCdromRead, Be16, Be32;
  }

  lemma CdStarts(d0: Device, s: Sys, i: Input)
    requires ReadPacket(d0) && GoodStream(StreamOf(d0)) && Valid(s.d) && s.d.state == PACKET_HANDLE
    requires SameButRest(d0, s.d) && !s.bus.write
    ensures var t := Dispatch(s, i);
            CdProgress(d0, t.d, [] + Emitted(t.bus)) && CdWork(d0, t.d) == CdWork(d0, s.d) - 1
  {
    var j := StreamOf(d0);
    var p := s.d.(packet := s.d.packet.(lba := j.lba, remaining := j.n), state := PACKET_READ_WAIT_REQ);
    HandlesRead(d0, s, i);
    PrepareIgnoresState(s.d.(packet := s.d.packet.(lba := j.lba, remaining := j.n)));
    assert Ready(j, p, 0, []) by { assert 0 % Width(j.limit) == 0; }
    assert Done(j, p) == 0;
    var q := Sys(p, s.bus);
    PrepareAdvances(j, q, []);
    PrepareStates(p);
    hide Dispatch, PrepareCdromRead, Ready, GoodStream, Valid, StreamInv, ChunksLeft, Be16, Be32;
  }

  lemma PrepareIgnoresState(d: Device)
    requires Valid(d)
    ensures ValidPacket(d.packet) && Valid(d.(state := PACKET_READ_WAIT_REQ))
    ensures PrepareCdromRead(d.(state := PACKET_READ_WAIT_REQ)) == PrepareCdromRead(d)
  {
    hide ValidDrive, PointerInImage;
  }

  lemma PrepareStates(d: Device)
    requires Valid(d)
    ensures PrepareCdromRead(d).state == PACKET_SEND || PrepareCdromRead(d).state == SET_REGS
  {
    hide ChunkData;
  }

  lemma OnlyStreamStates(j: Stream, d: Device, tr: seq<Event>)
    requires GoodStream(j) && StreamInv(j, d, tr)
    ensures d.state == PACKET_SEND || d.state == SET_REGS || d.state == SET_REGS_SEND
            || d.state == PACKET_READ_WAIT_REQ || d.state == IDLE
    ensures if d.state == IDLE then StreamLeft(j, d) == 0 else StreamLeft(j, d) > 0
  {
    InvControl(j, d, tr);
    ChunksLeftPositive(j, d.packet.remaining);
    hide Sending, Publishing, Ready, Closing, Finished, ChunksLeft;
  }

  lemma {:induction false} ChunksLeftPositive(j: Stream, left: int)
    requires GoodStream(j)
    ensures ChunksLeft(j, left) >= 8
    decreases left
  {
    hide ChunkOf;
    if left > 0 { ChunksLeftPositive(j, left - ChunkOf(j, left)); }
  }

  lemma CdDispatches(d0: Device, s: Sys, i: Input, tr: seq<Event>)
    requires ReadPacket(d0) && GoodStream(StreamOf(d0)) && Valid(s.d) && !s.bus.write && !s.bus.read
    requires CdProgress(d0, s.d, tr) && s.d.state != IDLE && (Waiting(s.d) ==> Request(s.d, i) == 5)
    ensures var t := Dispatch(s, i);
            CdProgress(d0, t.d, tr + Emitted(t.bus)) && CdWork(d0, t.d) == CdWork(d0, s.d) - 1
  {
    if s.d.state == PACKET_HANDLE {
      CdStarts(d0, s, i);
    } else {
      var j := StreamOf(d0);
      StreamDispatches(j, s, i, tr);
      OnlyStreamStates(j, Dispatch(s, i).d, tr + Emitted(Dispatch(s, i).bus));
    }
    hide Dispatch, Valid, StreamInv, GoodStream, StreamLeft, ChunksLeft, ReadPacket, Request;
  }

  lemma StreamDispatches(j: Stream, s: Sys, i: Input, tr: seq<Event>)
    requires GoodStream(j) && Valid(s.d) && !s.bus.write && !s.bus.read && StreamInv(j, s.d, tr)
    requires s.d.state != IDLE && (Waiting(s.d) ==> Request(s.d, i) == 5)
    ensures Advances(j, s, Dispatch(s, i), tr)
  {
    OnlyStreamStates(j, s.d, tr);
    hide Valid, StreamInv, Advances, OnPacketSend, OnSetRegs, OnSetRegsSend, PrepareCdromRead, Request, GoodStream, StreamLeft;
    match s.d.state
    case PACKET_SEND => DataAdvances(j, s, tr);
    case SET_REGS => PublishAdvances(j, s, tr);
    case SET_REGS_SEND => SendAdvances(j, s, tr);
    case PACKET_READ_WAIT_REQ => PrepareAdvances(j, s, tr);
  }

  lemma CdRestIsInvisible(d0: Device, d: Device, c: bool, k: int, tr: seq<Event>)
    requires ReadPacket(d0) && GoodStream(StreamOf(d0))
    ensures var e := d.(cooldown := c, jitterDelay := k);
            CdProgress(d0, e, tr) == CdProgress(d0, d, tr) && CdWork(d0, e) == CdWork(d0, d)
  {
    hide ChunksLeft, Streamed, ChunkWords, OnDataPort, CdBlock, RegBytes, StreamRegs, EndRegs, ChunkBytes, Boundary, Begin, Valid, GoodStream;
  }

  lemma CdTakesNothing(d0: Device, s: Sys, i: Input, tr: seq<Event>)
    requires ReadPacket(d0) && GoodStream(StreamOf(d0)) && CdProgress(d0, s.d, tr)
    ensures Taken(s, i) == []
  {
    if s.d.state != PACKET_HANDLE { OnlyStreamStates(StreamOf(d0), s.d, tr); }
    hide StreamInv, Valid, GoodStream, StreamLeft;
  }

  /** Every attended tick keeps the stream going; it works, or rests, or the core lets it wait. */
  lemma CdStep(d0: Device, s: Sys, i: Input, tr: seq<Event>)
    requires ReadPacket(d0) && GoodStream(StreamOf(d0)) && Valid(s.d) && CdProgress(d0, s.d, tr)
    requires s.d.state != IDLE && Attends(s.d, i)
    ensures var t := Step(s, i);
            && CdProgress(d0, t.d, tr + Emitted(t.bus))
            && CdWork(d0, t.d) == CdWork(d0, s.d) - (if Acts(s.d, i) then 1 else 0)
            && (Held(s.d) ==> RestLeft(t.d) == RestLeft(s.d) - 1)
  {
    hide Step, Dispatch, Valid, CdProgress, CdWork, ReadPacket, Request, StreamOf, GoodStream;
    var t := Step(s, i);
    assert tr + [] == tr;
    if Held(s.d) {
      StepRests(s, i);
      CdRestIsInvisible(d0, s.d, t.d.cooldown, t.d.jitterDelay, tr);
    } else if Waiting(s.d) && Request(s.d, i) == 0 {
      StepStalls(s, i);
    } else {
      StepActs(s, i);
      var l := LowStrobes(s);
      var u := Dispatch(l, i);
      CdDispatches(d0, l, i, tr);
      CdRestIsInvisible(d0, u.d, true, i.jitter, tr + Emitted(u.bus));
    }
  }

  lemma {:induction false} CdRun(s: Sys, ins: seq<Input>)
    requires ReadPacket(s.d) && GoodStream(StreamOf(s.d)) && Attended(s, ins)
    ensures CdProgress(s.d, Run(s, ins).d, Trace(s, ins)) && Consumed(s, ins) == []
    ensures ActingTicks(s, ins) + CdWork(s.d, Run(s, ins).d) == 1 + ChunksLeft(StreamOf(s.d), StreamOf(s.d).n)
  {
    if ins != [] {
      CdRun(s, Front(ins));
      var p := Run(s, Front(ins));
      assert Run(s, ins) == Step(p, Last(ins));
      CdStep(s.d, p, Last(ins), Trace(s, Front(ins)));
      CdTakesNothing(s.d, p, Last(ins), Trace(s, Front(ins)));
      hide Step, Valid, CdProgress, CdWork, Taken, ReadPacket, StreamOf, GoodStream, ChunksLeft;
    }
  }

  // ---------------------------------------------------------------- conservation

  lemma {:induction false} PortWords(base: int, ws: seq<int>, k: int)
    requires 0 <= k <= |ws|
    ensures DataWords(base, OnDataPort(base, ws)[..k]) == ws[..k]
  {
    if k > 0 {
      var e := OnDataPort(base, ws)[..k];
      assert Front(e) == OnDataPort(base, ws)[..k - 1] && Last(e) == BusWrite((base + 255) % U16, ws[k - 1]);
      PortWords(base, ws, k - 1);
      assert ws[..k] == ws[..k - 1] + [ws[k - 1]];
    }
  }

  lemma ChunksJoin(j: Stream, a: int, b: int)
    requires GoodStream(j) && 0 <= a <= b <= j.got
    ensures ChunkWords(j, 0, a) + ChunkWords(j, a, b) == ChunkWords(j, 0, b)
  {
    hide Word;
  }

  lemma {:induction false} StreamedWords(j: Stream, m: int)
    requires GoodStream(j) && 0 <= m <= j.got
    ensures DataWords(j.base, Streamed(j, m)) == ChunkWords(j, 0, m)
    decreases m
  {
    if m > 0 {
      var a := Begin(j, m);
      StreamedWords(j, a);
      var t, ws, b := Streamed(j, a), ChunkWords(j, a, m), RegBytes(ChunkRegs(j.r, m - a), true);
      var e := OnDataPort(j.base, ws);
      assert Streamed(j, m) == t + e + BlockOf(j.base, b);
      assert e[..|ws|] == e && ws[..|ws|] == ws && BlockOf(j.base, b)[..6] == BlockOf(j.base, b);
      hide *;
      ChunksJoin(j, a, m);
      PortWords(j.base, ws, |ws|);
      BlockHasNoData(j.base, b, 6);
      DataWordsAppend(j.base, t, e);
      DataWordsAppend(j.base, t + e, BlockOf(j.base, b));
    }
  }

  /** READ(10) and READ(12), whole, for every range: the device is idle exactly when its chunks and the ending are
      served, and then the data port has carried the sectors handed over, whole, in order and nothing else; that is the
      whole read without an error if its range lies in the image, and otherwise the whole chunks before the one that
      leaves it, the range error, and the rest still counted as remaining. The image is intact. */
  lemma CdReadCommand(s: Sys, ins: seq<Input>)
    requires Readable(s.d) && Attended(s, ins)
    ensures var j := StreamOf(s.d); var t := Run(s, ins).d;
            && GoodStream(j) && (j.got == j.n <==> j.n == 0 || (j.lba + j.n) * CD_SECTOR <= |s.d.image|)
            && (t.state == IDLE <==> ActingTicks(s, ins) == CdTicks(s.d))
            && (t.state == IDLE ==>
                  && DataWords(s.d.base, Trace(s, ins)) == ChunkWords(j, 0, j.got)
                  && Trace(s, ins) == Streamed(j, j.got) + CdBlock(j.base, EndRegs(j))
                  && t.packet.remaining == j.n - j.got && t.sense == EndSense(j) && t.image == s.d.image
                  && t.regs == EndRegs(j)
                  && t.regs.status == (if j.got == j.n then RDY + IRQ else RDY + IRQ + ERR)
                  && t.regs.error == (if j.got == j.n then 0 else 0x50))
  {
    StreamIsGood(s.d);
    var j, t, tr := StreamOf(s.d), Run(s, ins).d, Trace(s, ins);
    CdRun(s, ins);
    CdWorkRemains(s.d, t, tr);
    if t.state == IDLE {
      CdOutcome(s.d, t, tr);
      var b := RegBytes(EndRegs(j), true);
      assert BlockOf(j.base, b)[..6] == BlockOf(j.base, b) && CdBlock(j.base, EndRegs(j)) == BlockOf(j.base, b);
      hide *;
      StreamedWords(j, j.got);
      BlockHasNoData(j.base, b, 6);
      DataWordsAppend(j.base, Streamed(j, j.got), BlockOf(j.base, b));
    }
    hide Run, Trace, Attended, ActingTicks, Valid, StreamOf, GoodStream, ChunksLeft, CdProgress, CdWork;
  }

  lemma CdWorkRemains(d0: Device, d: Device, tr: seq<Event>)
    requires ReadPacket(d0) && GoodStream(StreamOf(d0)) && CdProgress(d0, d, tr)
    ensures if d.state == IDLE then CdWork(d0, d) == 0 else CdWork(d0, d) > 0
  {
    var j := StreamOf(d0);
    ChunksLeftPositive(j, j.n);
    if d.state != PACKET_HANDLE { OnlyStreamStates(j, d, tr); }
    hide StreamInv, StreamLeft, Valid, GoodStream, ChunksLeft;
  }

  lemma CdOutcome(d0: Device, d: Device, tr: seq<Event>)
    requires ReadPacket(d0) && GoodStream(StreamOf(d0)) && CdProgress(d0, d, tr) && d.state == IDLE
    ensures var j := StreamOf(d0);
            && 0 <= j.got && j.base == d0.base && tr == Streamed(j, j.got) + CdBlock(j.base, EndRegs(j))
            && d.packet.remaining == j.n - j.got && d.sense == EndSense(j) && d.image == d0.image && d.regs == EndRegs(j)
            && d.regs.status == (if j.got == j.n then RDY + IRQ else RDY + IRQ + ERR)
            && d.regs.error == (if j.got == j.n then 0 else 0x50)
  {
    hide Streamed, CdBlock, StreamRegs, Boundary, Valid, Be16, Be32;
  }
}
