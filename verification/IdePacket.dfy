/** How a CD packet reaches the device, and what the byte-count limit does to a chunk. */
module IdePacket {
  import opened Sequences
  import opened IdeModel
  import opened IdeValid
  import opened IdeRuns
  import opened IdeJob
  import opened SectorStore

  /** A CD drive that has just latched a PACKET command without overlapped transfer. */
  predicate PacketCommand(d: Device) {
    Valid(d) && d.state == DO_CMD && d.drive.present && d.regs.drv == 0 && d.cdrom
    && d.latch.cmd == 0xA0 && d.latch.features % 2 == 0
  }

  function LimitOf(d: Device): int {
    if d.regs.cylinder % U16 == 0 then 0x4000 else d.regs.cylinder % U16
  }

  /** The twelve packet bytes after the words `ws`, low byte first. */
  function CdbOf(ws: seq<int>): (b: seq<int>)
    requires |ws| <= 6
    ensures |b| == 12
  {
    seq(12, k requires 0 <= k < 12 => if k / 2 < |ws| then ByteOf(ws[k / 2], k) else 0)
  }

  predicate PacketFrame(d0: Device, d: Device) {
    d.base == d0.base && d.image == d0.image && d.drive == d0.drive && d.cdrom && d.sense == d0.sense
    && d.packet.limit == LimitOf(d0) && d.packet.remaining == d0.packet.remaining
  }

  predicate PacketInv(d0: Device, d: Device, ws: seq<int>) {
    match d.state
    case DO_CMD => SameButRest(d0, d) && ws == []
    case SET_REGS => PacketFrame(d0, d) && d.next == PACKET_WAIT_REQ && ws == []
    case SET_REGS_SEND => PacketFrame(d0, d) && d.next == PACKET_WAIT_REQ && ws == []
    case PACKET_WAIT_REQ => PacketFrame(d0, d) && ws == []
    case PACKET_RECV =>
      PacketFrame(d0, d) && |ws| == (if d.cnt == 0 then 0 else d.cnt - 1) && |ws| <= 6 && d.packet.cdb == CdbOf(ws)
    case PACKET_HANDLE => PacketFrame(d0, d) && |ws| == 6 && d.packet.cdb == CdbOf(ws)
    case _ => false
  }

  lemma CdbGrows(ws: seq<int>, w: int)
    requires |ws| < 6
    ensures var k := |ws|; CdbOf(ws)[2 * k := w % 0x100][2 * k + 1 := w / 0x100 % 0x100] == CdbOf(ws + [w])
  {
    var a, b := CdbOf(ws)[2 * |ws| := w % 0x100][2 * |ws| + 1 := w / 0x100 % 0x100], CdbOf(ws + [w]);
    forall k | 0 <= k < 12 ensures a[k] == b[k] {
      if k == 2 * |ws| + 1 { assert k / 2 == |ws| && k % 2 == 1; }
    }
  }

  function PacketTaken(d: Device, w: int): seq<int> {
    if d.state == PACKET_RECV && d.cnt > 0 then [w] else []
  }

  lemma PacketDecodes(d: Device)
    requires PacketCommand(d)
    ensures PacketInv(d, HandleCmd(d), [])
  {
    hide Valid, HandleDiskCmd;
  }

  lemma PacketReceives(d0: Device, s: Sys, i: Input, ws: seq<int>)
    requires Valid(s.d) && s.d.state == PACKET_RECV && PacketInv(d0, s.d, ws)
    ensures PacketInv(d0, OnPacketRecv(s, i).d, ws + PacketTaken(s.d, i.readdata))
  {
    assert ws + [] == ws;
    assert 0 <= s.d.cnt <= 6;
    if s.d.cnt > 0 { CdbGrows(ws, i.readdata); }
    hide Valid, CdbOf;
  }

  lemma PacketDispatches(d0: Device, s: Sys, i: Input, ws: seq<int>)
    requires PacketCommand(d0) && Valid(s.d) && PacketInv(d0, s.d, ws) && s.d.state != PACKET_HANDLE
    requires Waiting(s.d) ==> Request(s.d, i) == 5
    ensures PacketInv(d0, Dispatch(s, i).d, ws + PacketTaken(s.d, i.readdata))
  {
    assert ws + [] == ws;
    hide HandleCmd, OnPacketRecv, Valid, RegBytes, SettledRegs, BufWord, Request;
    match s.d.state
    case DO_CMD => PacketRestIsInvisible(d0, s.d, ws);
    case PACKET_RECV => PacketReceives(d0, s, i, ws); hide PacketInv, PacketTaken;
    case PACKET_WAIT_REQ => assert CdbOf([]) == ZERO12;
    case _ =>
  }

  lemma PacketRestIsInvisible(d0: Device, d: Device, ws: seq<int>)
    requires PacketCommand(d0) && Valid(d) && d.state == DO_CMD && PacketInv(d0, d, ws)
    ensures PacketInv(d0, HandleCmd(d), [])
  {
    assert PacketCommand(d) by { hide Valid; }
    PacketDecodes(d);
    hide Valid, HandleCmd;
  }

  lemma RestsAlike(d0: Device, d: Device, c: bool, k: int, ws: seq<int>)
    ensures PacketInv(d0, d.(cooldown := c, jitterDelay := k), ws) == PacketInv(d0, d, ws)
  {
    hide CdbOf;
  }

  lemma PacketTakes(d0: Device, s: Sys, i: Input, ws: seq<int>)
    requires PacketInv(d0, s.d, ws) && !i.reset && !Held(s.d)
    ensures Taken(s, i) == PacketTaken(s.d, i.readdata)
  {
  }

  lemma PacketStep(d0: Device, s: Sys, i: Input, ws: seq<int>)
    requires PacketCommand(d0) && Valid(s.d) && PacketInv(d0, s.d, ws) && s.d.state != PACKET_HANDLE && Attends(s.d, i)
    ensures PacketInv(d0, Step(s, i).d, ws + Taken(s, i))
  {
    assert ws + [] == ws;
    hide Step, Dispatch, Valid, PacketInv, PacketCommand, Request, PacketTaken;
    var t := Step(s, i);
    if Held(s.d) {
      StepRests(s, i);
      RestsAlike(d0, s.d, t.d.cooldown, t.d.jitterDelay, ws);
    } else if Waiting(s.d) && Request(s.d, i) == 0 {
      StepStalls(s, i);
    } else {
      StepActs(s, i);
      PacketTakes(d0, s, i, ws);
      var u := Dispatch(LowStrobes(s), i);
      PacketDispatches(d0, LowStrobes(s), i, ws);
      RestsAlike(d0, u.d, true, i.jitter, ws + Taken(s, i));
    }
  }

  /** A run on which the core attends to the device until the packet is in hand. */
  predicate Delivers(s: Sys, ins: seq<Input>)
    requires Valid(s.d)
  {
    ins == [] || (Delivers(s, Front(ins)) && var p := Run(s, Front(ins)); p.d.state != PACKET_HANDLE && Attends(p.d, Last(ins)))
  }

  /** A delivered packet is the six words sent, low byte first; a byte-count limit of 0
      stands for 16384, and nothing else of the drive has moved. */
  lemma {:induction false} PacketDelivered(s: Sys, ins: seq<Input>)
    requires PacketCommand(s.d) && Delivers(s, ins)
    ensures PacketInv(s.d, Run(s, ins).d, Consumed(s, ins))
    ensures Run(s, ins).d.state == PACKET_HANDLE ==>
              var ws := Consumed(s, ins); var t := Run(s, ins).d;
              |ws| == 6 && t.packet.cdb == CdbOf(ws) && t.packet.limit == LimitOf(s.d)
              && t.image == s.d.image && t.drive == s.d.drive && t.sense == s.d.sense && t.cdrom
  {
    if ins != [] {
      PacketDelivered(s, Front(ins));
      PacketStep(s.d, Run(s, Front(ins)), Last(ins), Consumed(s, Front(ins)));
    }
    hide Step, Valid, Taken, CdbOf, LimitOf;
  }

  // ---------------------------------------------------------------- short byte counts

  predicate CanSend(d: Device, limit: int) {
    Valid(d) && d.packet.limit == limit && d.packet.remaining > 0 && ChunkInImage(d)
  }

  /** What a limit does to a chunk: nothing from 2048 bytes on, otherwise it cuts it. */
  lemma ChunkUnderLimit(d: Device, limit: int)
    requires CanSend(d, limit)
    ensures PrepareCdromRead(d).packet.data ==
              if limit == 0 || CD_SECTOR <= limit then ChunkData(d) else PadEven(ChunkData(d)[..limit])
  {
    var c := ChunkSectors(d.packet);
    assert 1 <= c && (CD_SECTOR <= limit ==> c * CD_SECTOR <= limit);
    hide ValidDrive, PointerInImage, Bytes, ChunkSectors;
  }

  const ONES: seq<int> := seq(CD_SECTOR, k => 1)

  /** With such a limit every chunk is a whole number of sectors, at least one and no more than the limit or eight
      of them, straight from the image; what remains shrinks by as many. */
  lemma ChunkBounds(d: Device, limit: int)
    requires CanSend(d, limit) && (limit == 0 || CD_SECTOR <= limit < U16)
    ensures var t := PrepareCdromRead(d); var n := |t.packet.data| / CD_SECTOR;
            && t.state == PACKET_SEND && |t.packet.data| == n * CD_SECTOR && 1 <= n <= 8
            && (limit != 0 ==> |t.packet.data| <= limit)
            && t.packet.data == d.image[d.packet.lba * CD_SECTOR..(d.packet.lba + n) * CD_SECTOR]
            && t.packet.remaining == d.packet.remaining - n
            && t.regs.pktIoSize == |t.packet.data| / 2 && t.regs.cylinder == |t.packet.data|
            && t.regs.status == RDY + DRQ + IRQ
  {
    ChunkUnderLimit(d, limit);
    var n := ChunkSectors(d.packet);
    assert 1 <= n <= 8 && (limit != 0 ==> n * CD_SECTOR <= limit) by { WidthBounds(d.packet); }
    assert |ChunkData(d)| == n * CD_SECTOR by { hide ChunkSectors; }
    hide ChunkSectors, Truncate, PadEven, Valid;
    var t := PrepareCdromRead(d);
    assert t.packet.data == ChunkData(d) && t.packet.remaining == d.packet.remaining - n && t.state == PACKET_SEND;
  }

  lemma WidthBounds(p: Packet)
    requires p.remaining > 0 && (p.limit == 0 || CD_SECTOR <= p.limit < U16)
    ensures 1 <= ChunkSectors(p) <= 8 && (p.limit != 0 ==> ChunkSectors(p) * CD_SECTOR <= p.limit)
  {
    if p.limit != 0 { assert p.limit / CD_SECTOR >= 1 && p.limit / CD_SECTOR * CD_SECTOR <= p.limit; }
  }

  /** A read goes on exactly while its next chunk lies in the image; past that it ends in an error that names the
      range, keeps what remains and touches nothing else of the read. */
  lemma ReadStopsExactly(d: Device)
    requires Valid(d) && d.packet.remaining > 0
    ensures var t := PrepareCdromRead(d); var end := (d.packet.lba + ChunkSectors(d.packet)) * CD_SECTOR;
            && (t.state == PACKET_SEND <==> end <= |d.image|)
            && (end > |d.image| ==>
                  && t.state == SET_REGS && t.next == IDLE && t.packet == d.packet && t.image == d.image
                  && t.sense == Sense(5, 0x21, 0) && t.regs.status == RDY + IRQ + ERR && t.regs.error == 0x50)
  {
    hide Valid, ChunkSectors, Truncate, PadEven, ChunkData;
  }

  /** What an earlier packet failed with is what REQUEST SENSE hands over, once. */
  lemma SenseReported(d: Device, s: Sense, e: Device)
    requires Valid(e) && e.sense == FinishPacket(d, s).sense && 0 <= s.key < 16
    requires e.packet.cdb[0] == 0x03 && e.packet.cdb[4] >= 18 && (e.packet.limit == 0 || e.packet.limit >= 18)
    ensures var t := HandlePacket(e);
            && t.state == PACKET_SEND && |t.packet.data| == 18 && t.regs.pktIoSize == 9
            && t.packet.data[2] == s.key && t.packet.data[12] == s.asc && t.packet.data[13] == s.ascq
            && t.sense == NO_SENSE
  {
    var data := SenseData(e.sense);
    assert Truncate(data, e.packet.limit) == data && PadEven(data) == data;
    hide Valid, Truncate, PadEven, PrepareCdromRead;
  }

  /** A one-sector image of non-zero bytes about to be read. */
  function Example(limit: int): Device {
    Device(0, 0, PACKET_HANDLE, IDLE, RESET_REGS, Drive(true, 0, 16, 63, 1, 16, seq(256, k => 0)), ONES, [], None,
           Latch(0, 0, 0, 0, 0, 0), ZERO12, Packet(ZERO12, [], 0, 1, limit), NO_SENSE, 0, 0, false, 0, false, true)
  }

  lemma ExampleCanSend(limit: nat)
    ensures CanSend(Example(limit), limit) && ChunkData(Example(limit)) == ONES
  {
  }

  lemma CutOnesDiffer(limit: nat)
    requires 0 < limit < CD_SECTOR
    ensures PadEven(ONES[..limit]) != ONES
  {
    var p := PadEven(ONES[..limit]);
    if limit == CD_SECTOR - 1 { assert p[limit] == 0 && ONES[limit] == 1; }
  }

  /** Exactly the limits of 0 and of 2048 and more hand every chunk over uncut. */
  lemma LimitKeepsChunks(limit: nat)
    ensures (forall d: Device | CanSend(d, limit) :: PrepareCdromRead(d).packet.data == ChunkData(d))
            <==> limit == 0 || CD_SECTOR <= limit
  {
    if limit == 0 || CD_SECTOR <= limit {
      forall d: Device | CanSend(d, limit) ensures PrepareCdromRead(d).packet.data == ChunkData(d) {
        ChunkUnderLimit(d, limit);
      }
    } else {
      ExampleCanSend(limit);
      CutOnesDiffer(limit);
      ChunkUnderLimit(Example(limit), limit);
    }
    hide PrepareCdromRead, Example, ChunkData, PadEven, CanSend;
  }
}
