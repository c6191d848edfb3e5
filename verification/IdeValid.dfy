/** Every step of the device keeps `Valid`, handler by handler. */
module IdeValid {
  import opened Arithmetic
  import opened IdeModel

  lemma PutLbaHead(r: Regs, g: Drive, lba: int)
    requires 1 <= g.heads <= 16 && 1 <= g.spt <= 255
    ensures 0 <= PutLba(r, g, lba).head < 16
  {
    if r.lba == 0 {
      var hspt := g.heads * g.spt;
      var t := lba % hspt;
      DivMod(lba, hspt);
      DivMod(t, g.spt);
      DivBounds(t, g.spt);
      if t / g.spt >= g.heads { MulLe(g.heads, t / g.spt, g.spt); }
    }
  }

  // ---------------------------------------------------------------- every step keeps Valid

  lemma ReadRegsKeepsValid(d: Device)
    requires Valid(d)
    ensures Valid(OnReadRegs(d))
  {
    hide GetLba, PutLba, Bytes;
    PutLbaHead(d.regs, d.drive, (GetLba(d.regs, d.drive) + 1) % U32);
  }

  lemma WriteRegsKeepsValid(d: Device)
    requires Valid(d)
    ensures Valid(OnWriteRegs(d))
  {
    hide GetLba, Bytes;
  }

  lemma NextLbaHead(r: Regs, g: Drive)
    requires ValidDrive(g)
    ensures 0 <= NextLba(r, g).head < 16
  {
    PutLbaHead(r, g, (GetLba(r, g) + 1) % U32);
    hide PutLba, GetLba;
  }

  /** Changing control fields and registers, nothing else, within their bounds. */
  lemma ControlKeepsValid(d: Device, e: Device)
    requires Valid(d) && e.drive == d.drive && |e.image| == |d.image| && e.words == d.words && |e.buf| == 12
    requires e.packet == d.packet && (e.irqPending == d.irqPending || e.irqPending == 0)
    requires 0 <= e.regs.head < 16 && ValidCount(e) && FollowsPublishing(e.next)
    ensures Valid(e)
  {
    hide ValidDrive, ValidPacket, ValidCount, FollowsPublishing;
  }

  lemma WordStoredKeepsValid(d: Device, w: int)
    requires Valid(d) && d.state == WRITE_RECV
    ensures var t := WordStored(d, w); Valid(t) && t.cnt == d.cnt && t.state == WRITE_RECV
    ensures var t := WordStored(d, w); t.cnt < 256 ==> Valid(t.(cnt := t.cnt + 1))
  {
    hide StoreWord, ValidDrive, ValidPacket, FollowsPublishing;
  }

  lemma SectorStoredKeepsValid(d: Device)
    requires Valid(d)
    ensures Valid(SectorStored(d))
  {
    NextLbaHead(d.regs, d.drive);
    IdleFollows();
    hide NextLba, ValidDrive, ValidPacket, FollowsPublishing, PointerInImage;
  }

  lemma WriteRecvKeepsValid(s: Sys, i: Input)
    requires Valid(s.d) && s.d.state == WRITE_RECV
    ensures Valid(OnWriteRecv(s, i).d)
  {
    hide Valid, WordStored, SectorStored, PulseRead;
    WordStoredKeepsValid(s.d, i.readdata);
    SectorStoredKeepsValid(WordStored(s.d, i.readdata));
  }

  lemma IdleFollows()
    ensures FollowsPublishing(IDLE)
  {
  }

  lemma SendKeepsValid(d: Device, data: seq<int>)
    requires Valid(d)
    ensures Valid(SendPacketData(d, data))
  {
    hide Bytes;
    var out := PadEven(Truncate(data, d.packet.limit));
    assert |out| / 2 % U16 <= |out| / 2;
  }

  lemma FinishKeepsValid(d: Device, s: Sense)
    requires Valid(d)
    ensures Valid(FinishPacket(d, s))
  {
    hide Bytes;
  }

  lemma AdvanceKeepsValid(d: Device)
    requires Valid(d) && d.packet.remaining > 0
    ensures Valid(d.(packet := AdvanceChunk(d.packet)))
  {
    hide ValidDrive, PointerInImage, Bytes;
  }

  lemma CdromReadKeepsValid(d: Device)
    requires Valid(d)
    ensures Valid(PrepareCdromRead(d))
  {
    hide SendPacketData, FinishPacket, AdvanceChunk, ChunkData, ChunkInImage, ValidDrive, PointerInImage, Bytes, ValidCount;
    assert 0 <= d.packet.remaining;
    hide Valid, ValidPacket;
    FinishKeepsValid(d, NO_SENSE);
    FinishKeepsValid(d, Sense(5, 0x21, 0));
    if d.packet.remaining != 0 && ChunkInImage(d) {
      AdvanceKeepsValid(d);
      SendKeepsValid(d.(packet := AdvanceChunk(d.packet)), ChunkData(d));
    }
  }

  lemma RequestSenseKeepsValid(d: Device)
    requires Valid(d)
    ensures Valid(RequestSense(d))
  {
    var data, n := SenseData(d.sense), d.packet.cdb[4];
    hide SendPacketData, SenseData, Bytes;
    SendKeepsValid(d, if n < |data| then data[..n] else data);
  }

  lemma StartReadKeepsValid(d: Device, lba: int, count: int)
    requires Valid(d) && 0 <= lba && 0 <= count
    ensures Valid(StartRead(d, lba, count))
  {
    hide PrepareCdromRead, Bytes;
    CdromReadKeepsValid(d.(packet := d.packet.(lba := lba, remaining := count)));
  }

  lemma PacketKeepsValid(d: Device)
    requires Valid(d)
    ensures Valid(HandlePacket(d))
  {
    hide Be16, Be32, TocFormat, NoDataOpcode, ReplyOpcode, RequestSense, StartRead, SendPacketData, FinishPacket, Reply;
    var cdb := d.packet.cdb;
    assert 0 <= Be16(cdb, 7) && 0 <= Be32(cdb, 2) && 0 <= Be32(cdb, 6) by { FieldsNatural(cdb); }
    hide Valid, ValidPacket;
    FinishKeepsValid(d, NO_SENSE);
    FinishKeepsValid(d, Sense(5, 0x24, 0));
    FinishKeepsValid(d, Sense(5, 0x20, 0));
    RequestSenseKeepsValid(d);
    StartReadKeepsValid(d, Be32(cdb, 2), Be16(cdb, 7));
    StartReadKeepsValid(d, Be32(cdb, 2), Be32(cdb, 6));
    SendKeepsValid(d, Reply(cdb, d.drive.totalSectors));
  }

  lemma FieldsNatural(cdb: seq<int>)
    requires |cdb| == 12
    ensures 0 <= Be16(cdb, 7) && 0 <= Be32(cdb, 2) && 0 <= Be32(cdb, 6)
  {
  }

  lemma PublishKeepsValid(d: Device, r: Regs)
    requires Valid(d) && 0 <= r.head < 16
    ensures Valid(Publish(d, r))
  {
    hide ValidDrive, PointerInImage, ValidPacket;
  }

  lemma PacketStartKeepsValid(d: Device)
    requires Valid(d)
    ensures var limit := d.regs.cylinder % U16;
            Valid(d.(packet := d.packet.(limit := if limit == 0 then 32 * SECTOR else limit),
                     regs := d.regs.(pktIoSize := 6, sectorCount := 1, error := 0, status := RDY + DRQ),
                     state := SET_REGS, next := PACKET_WAIT_REQ))
  {
    hide ValidDrive, PointerInImage, Bytes;
  }

  lemma CdromCommandKeepsValid(d: Device)
    requires Valid(d)
    ensures Valid(HandleCdromCmd(d))
  {
    assert 0 <= d.regs.head < 16;
    hide Valid, FinishPacket, Publish;
    var cmd := d.latch.cmd;
    if cmd == 0xA1 {
      TransferStartKeepsValid(d, RESET_REGS.(drv := d.regs.drv, pktIoSize := 256, status := RDY + DRQ + IRQ + END));
    } else if cmd == 0xA0 {
      FinishKeepsValid(d, Sense(5, 0x20, 0));
      PacketStartKeepsValid(d);
    } else if cmd == 0x08 {
      PublishKeepsValid(d, d.regs.(error := 1, sectorCount := 1, sector := 1, cylinder := 0xEB14, head := 0,
                                   pktIoSize := 0, status := 0));
    } else {
      PublishKeepsValid(d, d.regs.(error := 0, status := RDY + IRQ));
      PublishKeepsValid(d, d.regs.(error := 4, sectorCount := 1, sector := 1, cylinder := 0xEB14, status := RDY + ERR + IRQ));
    }
  }

  lemma GeometryKeepsValid(d: Device, sectors: int, heads: int)
    requires Valid(d) && 0 <= sectors <= 255 && 0 <= heads <= 16
    ensures Valid(SetGeometry(d, sectors, heads))
  {
    hide ValidPacket, PointerInImage, Identify;
  }

  lemma TransferStartKeepsValid(d: Device, r: Regs)
    requires Valid(d) && 0 <= r.head < 16
    ensures Valid(d.(regs := r, state := READ)) && Valid(d.(regs := r, state := WRITE))
    ensures Valid(d.(regs := r, state := SEND_ID, cnt := 0))
  {
    hide ValidDrive, PointerInImage, ValidPacket;
  }

  lemma MaskedInRange(r: Regs, cmd: int)
    ensures var m := MaskedRegs(r, cmd); m.head == r.head && 0 <= m.sectorCount && (cmd == 0x91 ==> m.sectorCount <= 255)
  {
  }

  lemma DiskCommandKeepsValid(d: Device)
    requires Valid(d)
    ensures Valid(HandleDiskCmd(d))
  {
    assert 0 <= d.regs.head < 16;
    hide Valid, SetGeometry, Publish, MaskedRegs;
    var cmd := d.latch.cmd;
    MaskedInRange(d.regs, cmd);
    var r := MaskedRegs(d.regs, cmd);
    if cmd == 0xEC {
      TransferStartKeepsValid(d, RESET_REGS.(drv := r.drv, ioSize := 1, status := RDY + DRQ + IRQ + END));
    } else if cmd == 0x20 || cmd == 0x21 || cmd == 0x30 || cmd == 0x31 {
      TransferStartKeepsValid(d, r);
    } else if cmd == 0x91 {
      GeometryKeepsValid(d, r.sectorCount, r.head + 1);
      PublishKeepsValid(SetGeometry(d, r.sectorCount, r.head + 1), r.(status := RDY + IRQ));
    } else if 0x10 <= cmd <= 0x1F {
      PublishKeepsValid(d, r.(status := RDY + IRQ, cylinder := 0));
    } else if cmd == 0x40 {
      PublishKeepsValid(d, r.(status := RDY + IRQ));
    } else {
      PublishKeepsValid(d, r.(error := 4, status := RDY + ERR + IRQ));
    }
  }

  lemma CommandKeepsValid(d: Device)
    requires Valid(d)
    ensures Valid(HandleCmd(d))
  {
    hide HandleDiskCmd, HandleCdromCmd, Publish;
    PublishKeepsValid(d, d.regs.(error := 4, status := RDY + ERR + IRQ));
    hide Valid;
    DiskCommandKeepsValid(d);
    CdromCommandKeepsValid(d);
  }

  lemma PacketRecvKeepsValid(s: Sys, i: Input)
    requires Valid(s.d) && s.d.state == PACKET_RECV
    ensures Valid(OnPacketRecv(s, i).d)
  {
    hide ValidDrive, PointerInImage;
  }

  lemma IdleKeepsValid(s: Sys, i: Input)
    requires Valid(s.d) && s.d.state == IDLE
    ensures Valid(OnIdle(s, i).d)
  {
    hide ValidDrive, PointerInImage, ValidPacket, FollowsPublishing, Request, PulseRead;
  }

  lemma ResetDriveKeepsValid(d: Device, i: Input)
    requires Valid(d) && d.state == GET_RESET_DRIVE
    ensures Valid(OnGetResetDrive(d, i))
  {
    hide ValidDrive, PointerInImage, ValidPacket;
  }

  lemma FetchKeepsValid(s: Sys, i: Input)
    requires Valid(s.d) && s.d.state == GET_CMD
    ensures Valid(OnGetCmd(s, i).d)
  {
    var t := OnGetCmd(s, i).d;
    hide ValidDrive, PointerInImage, ValidPacket, LatchWord, FollowsPublishing, PulseRead;
    assert 0 <= t.regs.head < 16 && ValidCount(t) && t.next == s.d.next;
    hide Valid, ValidCount;
    ControlKeepsValid(s.d, t);
  }

  lemma SetRegsKeepsValid(d: Device)
    requires Valid(d)
    ensures Valid(OnSetRegs(d))
  {
    hide ValidDrive, PointerInImage, ValidPacket, RegBytes;
  }

  lemma SendIdKeepsValid(s: Sys)
    requires Valid(s.d) && s.d.state == SEND_ID
    ensures Valid(OnSendId(s).d)
  {
    hide ValidDrive, PointerInImage, ValidPacket, PulseWrite;
  }

  lemma ReadSendKeepsValid(s: Sys)
    requires Valid(s.d) && s.d.state == READ_SEND
    ensures Valid(OnReadSend(s).d)
  {
    hide ValidDrive, PointerInImage, ValidPacket, LoadWord, PulseWrite;
  }

  lemma PacketSendKeepsValid(s: Sys)
    requires Valid(s.d) && s.d.state == PACKET_SEND
    ensures Valid(OnPacketSend(s).d)
  {
    hide ValidDrive, PointerInImage, ValidPacket, PulseWrite;
  }

  lemma RegsSentKeepsValid(s: Sys)
    requires Valid(s.d) && s.d.state == SET_REGS_SEND
    ensures Valid(OnSetRegsSend(s).d)
  {
    hide ValidDrive, PointerInImage, ValidPacket, BufWord;
  }

  lemma StartsKeepValid(d: Device)
    requires Valid(d)
    ensures Valid(d.(state := IDLE)) && Valid(d.(state := READ_REGS)) && Valid(d.(irqPending := 0, state := WRITE_REGS))
    ensures Valid(d.(cnt := 0, state := WRITE_RECV))
    ensures Valid(d.(cnt := 0, packet := d.packet.(cdb := ZERO12), state := PACKET_RECV))
  {
    hide ValidDrive, PointerInImage;
  }

  /** The end of a sector, with the next address and count named. */
  lemma SectorStoredIs(d: Device, r: Regs, count: int)
    requires Valid(d) && ValidDrive(d.drive) && r == NextLba(d.regs, d.drive) && count == (d.regs.sectorCount - 1) % U16
    ensures SectorStored(d) == if count != 0 then d.(cnt := 0, regs := r.(sectorCount := count), state := WRITE_REGS)
                               else d.(cnt := 0, regs := r.(sectorCount := count, status := RDY + IRQ), state := SET_REGS, next := IDLE)
  {
    hide Valid, NextLba;
  }

  /** The start of a sector to read, with the address, the next address and the count named. */
  lemma ReadRegsIs(d: Device, lba: int, r: Regs, count: int)
    requires Valid(d) && ValidDrive(d.drive)
    requires lba == GetLba(d.regs, d.drive) && r == NextLba(d.regs, d.drive) && count == (d.regs.sectorCount - 1) % U16
    ensures OnReadRegs(d) == d.(buf := if SectorInImage(d.image, lba) then d.buf else ZERO12,
                                words := SectorPointer(d.image, lba),
                                regs := r.(sectorCount := count, ioSize := 1,
                                           status := if count == 0 then RDY + DRQ + IRQ + END else RDY + DRQ + IRQ),
                                cnt := 0, state := READ_SEND)
  {
    hide Valid, NextLba, GetLba, SectorInImage, SectorPointer;
  }

  /** A device starts out valid when its drive is: as every run from then on keeps it. */
  lemma MadeIsValid(id: int, base: int, image: seq<int>, name: seq<int>, cdrom: bool, drive: Drive)
    requires ValidDrive(drive)
    ensures Valid(Made(id, base, image, name, cdrom, drive))
  {
  }

  lemma OpenedDiskIsValid(id: int, base: int, image: seq<int>, name: seq<int>)
    ensures Valid(OpenedDisk(id, base, image, name))
  {
    var d := NewDrive(|image| / SECTOR % U32);
    assert |d.id| == 256;
    MadeIsValid(id, base, image, name, false, d);
    hide Valid, SetGeometry, Made;
    GeometryKeepsValid(Made(id, base, image, name, false, d), 63, 16);
  }

  lemma OpenedCdIsValid(id: int, base: int, image: seq<int>, name: seq<int>)
    ensures var o := OpenedCd(id, base, image, name); o.Some? ==> Valid(o.value)
  {
    hide CdIdentifyWord;
  }

  lemma ValidHead(d: Device)
    requires Valid(d)
    ensures d.regs.head >= 0
  {
  }

  lemma DispatchKeepsValid(s: Sys, i: Input)
    requires Valid(s.d)
    ensures Valid(Dispatch(s, i).d)
  {
    hide Valid, HandleCmd, HandlePacket, PrepareCdromRead, OnWriteRecv, OnReadRegs, OnWriteRegs, OnPacketRecv,
         OnIdle, OnGetResetDrive, OnGetCmd, OnSendId, OnSetRegs, OnSetRegsSend, OnReadSend, OnPacketSend;
    match s.d.state
    case IDLE => IdleKeepsValid(s, i);
    case GET_RESET_DRIVE => ResetDriveKeepsValid(s.d, i);
    case GET_CMD => FetchKeepsValid(s, i);
    case DO_CMD => CommandKeepsValid(s.d);
    case SEND_ID => SendIdKeepsValid(s);
    case READ_SEND => ReadSendKeepsValid(s);
    case PACKET_SEND => PacketSendKeepsValid(s);
    case SET_REGS => SetRegsKeepsValid(s.d);
    case SET_REGS_SEND => RegsSentKeepsValid(s);
    case READ_REGS => ReadRegsKeepsValid(s.d);
    case WRITE_REGS => WriteRegsKeepsValid(s.d);
    case WRITE_RECV => WriteRecvKeepsValid(s, i);
    case PACKET_RECV => PacketRecvKeepsValid(s, i);
    case PACKET_HANDLE => PacketKeepsValid(s.d);
    case PACKET_READ_WAIT_REQ => CdromReadKeepsValid(s.d); StartsKeepValid(s.d);
    case INITIAL | RESET_SET | READ | WRITE | READ_WAIT_REQ | WRITE_WAIT_REQ | PACKET_WAIT_REQ => StartsKeepValid(s.d);
  }

  lemma RestKeepsValid(s: Sys, i: Input)
    requires Valid(s.d)
    ensures Valid(Rest(s, i).d) && Valid(CountDown(s.d)) && Valid(OnReset(s.d))
  {
    hide ValidDrive, PointerInImage, ValidPacket;
  }

  lemma StepKeepsValid(s: Sys, i: Input)
    requires Valid(s.d)
    ensures Valid(Step(s, i).d)
  {
    hide Valid, Dispatch, Rest, OnReset, CountDown;
    RestKeepsValid(s, i);
    if !i.reset && !Held(s.d) {
      var t := Dispatch(Sys(s.d, s.bus.(read := false, write := false)), i);
      DispatchKeepsValid(Sys(s.d, s.bus.(read := false, write := false)), i);
      RestKeepsValid(t, i);
    }
  }
}
