/** Every field of the device stays within the integer type the original gives it. */
module IdeWidths {
  import opened Arithmetic
  import opened IdeModel
  import opened IdeValid

  predicate Byte(x: int) {
    0 <= x < 0x100
  }

  predicate Half(x: int) {
    0 <= x < U16
  }

  predicate Full(x: int) {
    0 <= x < U32
  }

  predicate Halves(s: seq<int>) {
    forall k | 0 <= k < |s| :: 0 <= s[k] < U16
  }

  predicate WideRegs(r: Regs) {
    && Byte(r.ioSize) && Byte(r.error) && Half(r.sectorCount) && Half(r.sector) && Full(r.cylinder)
    && Byte(r.head) && Byte(r.drv) && Byte(r.lba) && Byte(r.cmd) && Half(r.pktIoSize) && Byte(r.status)
  }

  predicate WideDrive(g: Drive) {
    && Half(g.cylinders) && Half(g.heads) && Half(g.spt) && Full(g.totalSectors) && Full(g.spb)
    && |g.id| == 256 && Halves(g.id)
  }

  predicate WideLatch(l: Latch) {
    Full(l.sector) && Full(l.sectorCount) && Full(l.cylinder) && Byte(l.drvAddr) && Byte(l.cmd) && Byte(l.features)
  }

  predicate WidePacket(p: Packet) {
    |p.cdb| == 12 && Bytes(p.cdb) && Bytes(p.data) && Full(p.lba) && Full(p.remaining) && Half(p.limit)
  }

  predicate WideSense(s: Sense) {
    Byte(s.key) && Byte(s.asc) && Byte(s.ascq)
  }

  predicate Widths(d: Device) {
    && Byte(d.id) && Half(d.base)
    && WideRegs(d.regs) && WideDrive(d.drive) && WideLatch(d.latch) && WidePacket(d.packet) && WideSense(d.sense)
    && Bytes(d.image) && Bytes(d.name)
    && |d.buf| == 12 && Bytes(d.buf)
    && 0 <= d.cnt <= U16
    && Byte(d.irqPending)
  }

  predicate WideInput(i: Input) {
    Half(i.readdata)
  }

  // ---------------------------------------------------------------- register arithmetic

  lemma PutLbaWide(r: Regs, g: Drive, lba: int)
    requires WideRegs(r) && ValidDrive(g) && Full(lba)
    ensures WideRegs(PutLba(r, g, lba))
  {
    if r.lba == 0 {
      var hspt := g.heads * g.spt;
      assert hspt > 0;
      DivBounds(lba, hspt);
      assert 0 <= lba % hspt % g.spt < 255 by { DivMod(lba % hspt, g.spt); }
    }
  }

  lemma NextLbaWide(r: Regs, g: Drive)
    requires WideRegs(r) && ValidDrive(g)
    ensures WideRegs(NextLba(r, g))
  {
    PutLbaWide(r, g, (GetLba(r, g) + 1) % U32);
    hide GetLba, PutLba, WideRegs;
  }

  lemma SettledWide(r: Regs, cdrom: bool)
    requires WideRegs(r) && 0 <= r.head < 16
    ensures WideRegs(SettledRegs(r, cdrom)) && SettledRegs(r, cdrom).head == r.head
  {
    assert r.status / 0x10 % 2 == 0 ==> r.status + 0x10 < 0x100;
  }

  lemma RegBytesWide(r: Regs, cdrom: bool)
    requires WideRegs(r) && 0 <= r.head < 16
    ensures Bytes(RegBytes(r, cdrom))
  {
  }

  lemma LatchWide(l: Latch, k: int, w: int)
    requires WideLatch(l) && Half(w)
    ensures WideLatch(LatchWord(l, k, w))
  {
  }

  lemma LatchedWide(r: Regs, l: Latch)
    requires WideRegs(r) && WideLatch(l)
    ensures WideRegs(LatchedRegs(r, l))
  {
  }

  lemma MaskedWide(r: Regs, cmd: int)
    requires WideRegs(r)
    ensures WideRegs(MaskedRegs(r, cmd))
  {
  }

  lemma StoreWide(image: seq<int>, p: Option<int>, k: int, v: int)
    requires Bytes(image) && PointerInImage(image, p) && 0 <= k < 256
    ensures Bytes(StoreWord(image, p, k, v))
  {
  }

  lemma IdentifyWide(name: seq<int>, g: Drive, k: nat)
    requires Bytes(name) && Half(g.cylinders) && 1 <= g.heads <= 16 && 1 <= g.spt <= 255 && Full(g.totalSectors)
    ensures Half(IdentifyWord(name, g, k))
  {
  }

  lemma IdentifyAllWide(d: Device, g: Drive)
    requires Bytes(d.name) && Half(g.cylinders) && 1 <= g.heads <= 16 && 1 <= g.spt <= 255 && Full(g.totalSectors)
    ensures Halves(Identify(d, g))
  {
    forall k | 0 <= k < 256 ensures 0 <= Identify(d, g)[k] < U16 {
      IdentifyWide(d.name, g, k);
      hide IdentifyWord;
    }
  }

  lemma CylindersWide(total: int, h: int, s: int)
    requires 0 <= total && 0 < h && 0 < s
    ensures h * s > 0 && 0 <= total / (h * s)
  {
    MulMono(h, s);
    DivBounds(total, h * s);
  }

  lemma GeometryWide(d: Device, sectors: int, heads: int)
    requires Widths(d) && 0 <= sectors <= 255 && 0 <= heads <= 16
    ensures Widths(SetGeometry(d, sectors, heads))
  {
    var h := if heads != 0 then heads else 16;
    var s := if sectors != 0 then sectors else 63;
    CylindersWide(d.drive.totalSectors, h, s);
    var c := d.drive.totalSectors / (h * s);
    var g := d.drive.(heads := h, spt := s, cylinders := if c > 0xFFFF then 0xFFFF else c);
    IdentifyAllWide(d, g);
    hide Identify, Halves, WideRegs, WideLatch, WidePacket, WideSense, Bytes;
    assert WideDrive(g.(id := Identify(d, g)));
    assert SetGeometry(d, sectors, heads) == d.(drive := g.(id := Identify(d, g)));
    hide WideDrive, SetGeometry;
  }

  // ---------------------------------------------------------------- handlers

  lemma PublishWide(d: Device, r: Regs)
    requires Widths(d) && WideRegs(r)
    ensures Widths(Publish(d, r))
  {
    hide WideRegs, WideDrive, WideLatch, WidePacket, WideSense, Bytes;
  }

  lemma RegsOnlyWide(d: Device, e: Device)
    requires Widths(d) && WideRegs(e.regs) && 0 <= e.cnt <= U16
    requires e == d.(regs := e.regs, state := e.state, next := e.next, cnt := e.cnt)
    ensures Widths(e)
  {
    hide WideRegs, WideDrive, WideLatch, WidePacket, WideSense, Bytes;
  }

  lemma SendWide(d: Device, data: seq<int>)
    requires Widths(d) && Bytes(data)
    ensures Widths(SendPacketData(d, data))
  {
    var out := PadEven(Truncate(data, d.packet.limit));
    assert Bytes(out);
    hide WideDrive, WideLatch, WideSense, Bytes, PadEven, Truncate;
  }

  lemma FinishWide(d: Device, s: Sense)
    requires Widths(d) && WideSense(s)
    ensures Widths(FinishPacket(d, s))
  {
    hide WideDrive, WideLatch, WidePacket, Bytes;
  }

  lemma PrepareWide(d: Device)
    requires Widths(d)
    ensures Widths(PrepareCdromRead(d))
  {
    FinishWide(d, NO_SENSE);
    FinishWide(d, Sense(5, 0x21, 0));
    if d.packet.remaining != 0 && ChunkInImage(d) {
      assert 1 <= ChunkSectors(d.packet) <= d.packet.remaining;
      assert Bytes(ChunkData(d)) by { hide ChunkSectors; }
      var e := d.(packet := AdvanceChunk(d.packet));
      assert WidePacket(e.packet) by { hide ChunkSectors, Bytes; }
      hide ChunkSectors, ChunkData, AdvanceChunk, WidePacket, WideDrive, WideLatch, WideSense, Bytes, WideRegs, SendPacketData, FinishPacket;
      assert Widths(e);
      SendWide(e, ChunkData(d));
    }
    hide Widths, FinishPacket, SendPacketData, ChunkInImage;
  }

  lemma StartReadWide(d: Device, lba: int, count: int)
    requires Widths(d) && Full(lba) && Full(count)
    ensures Widths(StartRead(d, lba, count))
  {
    PrepareWide(d.(packet := d.packet.(lba := lba, remaining := count)));
    hide PrepareCdromRead, WideRegs, WideDrive, WideLatch, WideSense, Bytes;
  }

  lemma RequestSenseWide(d: Device)
    requires Valid(d) && Widths(d)
    ensures Widths(RequestSense(d))
  {
    var data, n := SenseData(d.sense), d.packet.cdb[4];
    var cut := if n < |data| then data[..n] else data;
    assert Bytes(cut);
    SendWide(d, cut);
    ClearSenseWide(SendPacketData(d, cut));
    hide Widths, SendPacketData, SenseData, Bytes;
  }

  lemma ClearSenseWide(d: Device)
    requires Widths(d)
    ensures Widths(d.(sense := NO_SENSE))
  {
    hide WideRegs, WideDrive, WideLatch, WidePacket, Bytes;
  }

  lemma FieldsWide(cdb: seq<int>)
    requires |cdb| == 12
    ensures Full(Be16(cdb, 7)) && Full(Be32(cdb, 2)) && Full(Be32(cdb, 6))
  {
  }

  lemma CutWide(data: seq<int>, allocation: int)
    requires Bytes(data)
    ensures Bytes(Cut(data, allocation))
  {
  }

  lemma LengthWide(data: seq<int>, from: int)
    requires Bytes(data) && 0 <= from
    ensures Bytes(WithLength(data, from))
  {
  }

  lemma AddressWide(lba: int, msf: bool)
    ensures Bytes(Big32(lba)) && Bytes(TocAddress(lba, msf))
  {
  }

  lemma TocWide(cdb: seq<int>, total: int)
    requires |cdb| == 12
    ensures Bytes(TocData(cdb, total))
  {
    AddressWide(0, cdb[1] / 2 % 2 == 1);
    AddressWide(total, cdb[1] / 2 % 2 == 1);
    hide TocAddress, TocFormat;
  }

  lemma TablesWide(cdb: seq<int>, total: int)
    requires |cdb| == 12 && Bytes(cdb)
    ensures Bytes(INQUIRY_DATA) && Bytes(CONFIGURATION_DATA) && Bytes(SubchannelData(cdb)) && Bytes(CapacityData(total))
  {
    AddressWide(if total != 0 then total - 1 else 0, false);
    AddressWide(CD_SECTOR, false);
    hide Big32;
  }

  lemma ModeWide(cdb: seq<int>)
    requires |cdb| == 12 && Bytes(cdb)
    ensures Bytes(ModeData(cdb))
  {
    assert Bytes(CAPABILITIES);
  }

  lemma ReplyWide(cdb: seq<int>, total: int)
    requires |cdb| == 12 && Bytes(cdb)
    ensures Bytes(Reply(cdb, total))
  {
    var n := Be16(cdb, 7);
    TablesWide(cdb, total);
    TocWide(cdb, total);
    ModeWide(cdb);
    CutWide(INQUIRY_DATA, cdb[4]);
    CutWide(CONFIGURATION_DATA, n);
    CutWide(SubchannelData(cdb), n);
    CutWide(TocData(cdb, total), n);
    CutWide(ModeData(cdb), n);
    hide Be16, Bytes, Cut, WithLength, INQUIRY_DATA, CONFIGURATION_DATA, SubchannelData, CapacityData, TocData, ModeData;
    LengthWide(Cut(SubchannelData(cdb), n), 2);
    LengthWide(Cut(TocData(cdb, total), n), 0);
    LengthWide(Cut(ModeData(cdb), n), 0);
  }

  lemma PacketWide(d: Device)
    requires Valid(d) && Widths(d)
    ensures Widths(HandlePacket(d))
  {
    var cdb := d.packet.cdb;
    FieldsWide(cdb);
    FinishWide(d, NO_SENSE);
    FinishWide(d, Sense(5, 0x24, 0));
    FinishWide(d, Sense(5, 0x20, 0));
    RequestSenseWide(d);
    StartReadWide(d, Be32(cdb, 2), Be16(cdb, 7));
    StartReadWide(d, Be32(cdb, 2), Be32(cdb, 6));
    ReplyWide(cdb, d.drive.totalSectors);
    SendWide(d, Reply(cdb, d.drive.totalSectors));
    hide Reply, Be16, Be32, TocFormat, NoDataOpcode, ReplyOpcode, RequestSense, StartRead, SendPacketData, FinishPacket, Widths, Valid;
  }

  lemma PacketStartWide(d: Device)
    requires Widths(d)
    ensures var limit := d.regs.cylinder % U16;
            Widths(d.(packet := d.packet.(limit := if limit == 0 then 32 * SECTOR else limit),
                      regs := d.regs.(pktIoSize := 6, sectorCount := 1, error := 0, status := RDY + DRQ),
                      state := SET_REGS, next := PACKET_WAIT_REQ))
  {
    hide WideDrive, WideLatch, WideSense, Bytes;
  }

  lemma CdromCommandWide(d: Device)
    requires Valid(d) && Widths(d)
    ensures Widths(HandleCdromCmd(d))
  {
    var cmd := d.latch.cmd;
    FinishWide(d, Sense(5, 0x20, 0));
    hide WideDrive, WideLatch, WidePacket, WideSense, Bytes, FinishPacket, Publish, Valid;
    if cmd == 0xA1 {
      RegsOnlyWide(d, d.(regs := RESET_REGS.(drv := d.regs.drv, pktIoSize := 256, status := RDY + DRQ + IRQ + END),
                         cnt := 0, state := SEND_ID));
    } else if cmd == 0xA0 {
      PacketStartWide(d);
      hide Widths;
    } else if cmd == 0x08 {
      PublishWide(d, d.regs.(error := 1, sectorCount := 1, sector := 1, cylinder := 0xEB14, head := 0,
                             pktIoSize := 0, status := 0));
    } else if cmd == 0xEF {
      PublishWide(d, d.regs.(error := 0, status := RDY + IRQ));
    } else {
      PublishWide(d, d.regs.(error := 4, sectorCount := 1, sector := 1, cylinder := 0xEB14, status := RDY + ERR + IRQ));
    }
  }

  lemma AnswersWide(r: Regs)
    requires WideRegs(r)
    ensures WideRegs(RESET_REGS.(drv := r.drv, ioSize := 1, status := RDY + DRQ + IRQ + END))
    ensures WideRegs(r.(status := RDY + IRQ, cylinder := 0)) && WideRegs(r.(status := RDY + IRQ))
    ensures WideRegs(r.(error := 4, status := RDY + ERR + IRQ))
  {
  }

  lemma CountWide(d: Device)
    requires Widths(d)
    ensures 0 <= d.cnt <= U16 && WideRegs(d.regs) && Widths(d.(cnt := 0))
  {
  }

  lemma TransferWide(d: Device, r: Regs)
    requires Widths(d) && WideRegs(r)
    ensures Widths(d.(regs := r, state := READ)) && Widths(d.(regs := r, state := WRITE))
    ensures Widths(d.(regs := r, state := SEND_ID, cnt := 0))
  {
    hide WideRegs, WideDrive, WideLatch, WidePacket, WideSense, Bytes;
  }

  lemma DiskPublishWide(d: Device, r: Regs)
    requires Widths(d) && WideRegs(r)
    ensures Widths(Publish(d, r.(status := RDY + IRQ, cylinder := 0))) && Widths(Publish(d, r.(status := RDY + IRQ)))
    ensures Widths(Publish(d, r.(error := 4, status := RDY + ERR + IRQ)))
  {
    AnswersWide(r);
    hide WideRegs, Widths, Publish;
    PublishWide(d, r.(status := RDY + IRQ, cylinder := 0));
    PublishWide(d, r.(status := RDY + IRQ));
    PublishWide(d, r.(error := 4, status := RDY + ERR + IRQ));
  }

  lemma GeometryCommand(d: Device, r: Regs)
    requires d.regs.head >= 0 && d.latch.cmd == 0x91 && r == MaskedRegs(d.regs, 0x91)
    ensures 0 <= r.sectorCount <= 255 && r.head == d.regs.head
    ensures HandleDiskCmd(d) == Publish(SetGeometry(d, r.sectorCount, r.head + 1), r.(status := RDY + IRQ))
  {
    hide Publish, SetGeometry;
  }

  lemma GeometryCommandWide(d: Device)
    requires Valid(d) && Widths(d) && d.latch.cmd == 0x91
    ensures Widths(HandleDiskCmd(d))
  {
    assert 0 <= d.regs.head < 16;
    CountWide(d);
    hide *;
    var r := MaskedRegs(d.regs, 0x91);
    MaskedWide(d.regs, 0x91);
    GeometryCommand(d, r);
    GeometryWide(d, r.sectorCount, r.head + 1);
    DiskPublishWide(SetGeometry(d, r.sectorCount, r.head + 1), r);
  }

  lemma DiskCommandWide(d: Device)
    requires Valid(d) && Widths(d)
    ensures Widths(HandleDiskCmd(d))
  {
    if d.latch.cmd == 0x91 {
      GeometryCommandWide(d);
      hide *;
    } else {
      CountWide(d);
      var r := MaskedRegs(d.regs, d.latch.cmd);
      MaskedWide(d.regs, d.latch.cmd);
      AnswersWide(r);
      assert d.regs.head >= 0;
      hide WideRegs, Publish, SetGeometry, MaskedRegs, Widths, Valid;
      TransferWide(d, r);
      TransferWide(d, RESET_REGS.(drv := r.drv, ioSize := 1, status := RDY + DRQ + IRQ + END));
      DiskPublishWide(d, r);
    }
  }

  lemma CommandWide(d: Device)
    requires Valid(d) && Widths(d)
    ensures Widths(HandleCmd(d))
  {
    PublishWide(d, d.regs.(error := 4, status := RDY + ERR + IRQ));
    CdromCommandWide(d);
    DiskCommandWide(d);
    hide Widths, Valid, HandleCdromCmd, HandleDiskCmd, Publish;
  }

  lemma FetchWide(s: Sys, i: Input)
    requires Widths(s.d) && WideInput(i)
    ensures Widths(OnGetCmd(s, i).d)
  {
    var k := s.bus.address % 0x10;
    LatchWide(s.d.latch, k, i.readdata);
    LatchedWide(s.d.regs, LatchWord(s.d.latch, k, i.readdata));
    hide WideRegs, WideDrive, WideLatch, WidePacket, WideSense, Bytes, LatchWord, LatchedRegs;
  }

  lemma ResetDriveWide(d: Device, i: Input)
    requires Widths(d) && WideInput(i)
    ensures Widths(OnGetResetDrive(d, i))
  {
    hide WideDrive, WidePacket, WideSense, Bytes;
  }

  lemma SetRegsWide(d: Device)
    requires Valid(d) && Widths(d)
    ensures Widths(OnSetRegs(d))
  {
    var r := SettledRegs(d.regs, d.cdrom);
    SettledWide(d.regs, d.cdrom);
    RegBytesWide(r, d.cdrom);
    hide Valid, WideRegs, WideDrive, WideLatch, WidePacket, WideSense, Bytes, RegBytes, SettledRegs;
  }

  lemma ReadRegsWide(d: Device)
    requires Valid(d) && Widths(d)
    ensures Widths(OnReadRegs(d))
  {
    NextLbaWide(d.regs, d.drive);
    assert Bytes(ZERO12);
    hide Valid, WideDrive, WideLatch, WidePacket, WideSense, Bytes, NextLba, GetLba;
  }

  lemma WriteRegsWide(d: Device)
    requires Valid(d) && Widths(d)
    ensures Widths(OnWriteRegs(d))
  {
    hide WideDrive, WideLatch, WidePacket, WideSense, Bytes, GetLba;
  }

  lemma WordStoredWide(d: Device, w: int)
    requires Valid(d) && d.state == WRITE_RECV && Widths(d)
    ensures var t := WordStored(d, w);
            Valid(t) && t.cnt == d.cnt && Widths(t) && (t.cnt < 256 ==> Widths(t.(cnt := t.cnt + 1)))
  {
    WordStoredKeepsValid(d, w);
    if d.cnt > 0 { StoreWide(d.image, d.words, d.cnt - 1, w); }
    hide Valid, WideRegs, WideDrive, WideLatch, WidePacket, WideSense, Bytes, StoreWord;
  }

  lemma SteppedWide(r: Regs, count: int)
    requires WideRegs(r) && 0 <= count < U16
    ensures WideRegs(r.(sectorCount := count)) && WideRegs(r.(sectorCount := count, status := RDY + IRQ))
  {
  }

  lemma NextSectorWide(d: Device, r: Regs, count: int)
    requires Widths(d) && WideRegs(r) && 0 <= count < U16
    ensures Widths(d.(cnt := 0, regs := r.(sectorCount := count), state := WRITE_REGS))
    ensures Widths(d.(cnt := 0, regs := r.(sectorCount := count, status := RDY + IRQ), state := SET_REGS, next := IDLE))
  {
    SteppedWide(r, count);
    hide WideRegs, WideDrive, WideLatch, WidePacket, WideSense, Bytes;
  }

  lemma NextRegsWide(d: Device)
    requires Valid(d) && Widths(d)
    ensures WideRegs(NextLba(d.regs, d.drive))
  {
    assert WideRegs(d.regs) && ValidDrive(d.drive);
    hide *;
    NextLbaWide(d.regs, d.drive);
  }

  lemma SectorStoredWide(d: Device)
    requires Valid(d) && Widths(d)
    ensures Widths(SectorStored(d))
  {
    assert ValidDrive(d.drive);
    NextRegsWide(d);
    hide *;
    var r, count := NextLba(d.regs, d.drive), (d.regs.sectorCount - 1) % U16;
    NextSectorWide(d, r, count);
    SectorStoredIs(d, r, count);
  }

  lemma WriteRecvWide(s: Sys, i: Input)
    requires Valid(s.d) && s.d.state == WRITE_RECV && Widths(s.d)
    ensures Widths(OnWriteRecv(s, i).d)
  {
    WordStoredWide(s.d, i.readdata);
    SectorStoredWide(WordStored(s.d, i.readdata));
    hide Valid, Widths, WordStored, SectorStored;
  }

  lemma PacketRecvWide(s: Sys, i: Input)
    requires Valid(s.d) && s.d.state == PACKET_RECV && Widths(s.d)
    ensures Widths(OnPacketRecv(s, i).d)
  {
    hide WideRegs, WideDrive, WideLatch, WideSense;
  }

  lemma CountsWide(s: Sys)
    requires Valid(s.d) && Widths(s.d)
    ensures s.d.state == SEND_ID ==> Widths(OnSendId(s).d)
    ensures s.d.state == SET_REGS_SEND ==> Widths(OnSetRegsSend(s).d)
    ensures s.d.state == READ_SEND ==> Widths(OnReadSend(s).d)
    ensures s.d.state == PACKET_SEND ==> Widths(OnPacketSend(s).d)
  {
    hide WideDrive, WideLatch, WidePacket, WideSense, Bytes, BufWord, LoadWord, Word;
  }

  lemma StartsWide(d: Device)
    requires Widths(d)
    ensures Widths(d.(state := IDLE)) && Widths(d.(state := READ_REGS)) && Widths(d.(irqPending := 0, state := WRITE_REGS))
    ensures Widths(d.(state := GET_CMD)) && Widths(d.(state := GET_RESET_DRIVE)) && Widths(d.(cnt := 0, state := WRITE_RECV))
    ensures Widths(d.(cnt := 0, packet := d.packet.(cdb := ZERO12), state := PACKET_RECV))
  {
    hide WideRegs, WideDrive, WideLatch, WideSense;
  }

  lemma DispatchWide(s: Sys, i: Input)
    requires Valid(s.d) && Widths(s.d) && WideInput(i)
    ensures Widths(Dispatch(s, i).d)
  {
    StartsWide(s.d);
    hide Valid, Widths, HandleCmd, HandlePacket, PrepareCdromRead, OnWriteRecv, OnReadRegs, OnWriteRegs, OnPacketRecv,
         OnGetResetDrive, OnGetCmd, OnSendId, OnSetRegs, OnSetRegsSend, OnReadSend, OnPacketSend;
    match s.d.state
    case GET_RESET_DRIVE => ResetDriveWide(s.d, i);
    case GET_CMD => FetchWide(s, i);
    case DO_CMD => CommandWide(s.d);
    case SEND_ID | READ_SEND | PACKET_SEND | SET_REGS_SEND => CountsWide(s);
    case SET_REGS => SetRegsWide(s.d);
    case READ_REGS => ReadRegsWide(s.d);
    case WRITE_REGS => WriteRegsWide(s.d);
    case WRITE_RECV => WriteRecvWide(s, i);
    case PACKET_RECV => PacketRecvWide(s, i);
    case PACKET_HANDLE => PacketWide(s.d);
    case PACKET_READ_WAIT_REQ => PrepareWide(s.d);
    case _ =>
  }

  lemma RestWide(s: Sys, i: Input)
    requires Widths(s.d)
    ensures Widths(Rest(s, i).d) && Widths(CountDown(s.d)) && Widths(OnReset(s.d))
  {
    hide WideDrive, WideLatch, WidePacket, WideSense, Bytes;
  }

  /** No truncation is ever lost: every step keeps every field in its type. */
  lemma StepKeepsWidths(s: Sys, i: Input)
    requires Valid(s.d) && Widths(s.d) && WideInput(i)
    ensures Widths(Step(s, i).d)
  {
    RestWide(s, i);
    hide Valid, Widths, Dispatch, Rest, OnReset, CountDown;
    if !i.reset && !Held(s.d) {
      var l := Sys(s.d, s.bus.(read := false, write := false));
      DispatchWide(l, i);
      RestWide(Dispatch(l, i), i);
    }
  }

  lemma MadeIsWide(id: int, base: int, image: seq<int>, name: seq<int>, cdrom: bool, drive: Drive)
    requires Byte(id) && Half(base) && Bytes(image) && Bytes(name) && WideDrive(drive)
    ensures Widths(Made(id, base, image, name, cdrom, drive))
  {
  }

  /** A device that has opened a disk starts with every field in its type. */
  lemma OpenedDiskIsWide(id: int, base: int, image: seq<int>, name: seq<int>)
    requires Byte(id) && Half(base) && Bytes(image) && Bytes(name)
    ensures Widths(OpenedDisk(id, base, image, name))
  {
    var d := NewDrive(|image| / SECTOR % U32);
    assert |d.id| == 256 && Halves(d.id);
    assert WideDrive(d);
    MadeIsWide(id, base, image, name, false, d);
    hide Widths, SetGeometry, Made, WideDrive, Bytes;
    GeometryWide(Made(id, base, image, name, false, d), 63, 16);
  }
}
