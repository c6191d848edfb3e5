/**
  The device as the object its source makes it: fields updated in place, one call of
  `Tick` per simulated clock.  Every method is proved to do to the object what the
  function of `IdeModel` with its name does to a value, so everything proved about
  runs of that model holds of runs of this object.
 */
module IdeDevice {
  import opened IdeModel
  import opened IdeValid

  /** The management port of the simulated core. */
  class ManagementBus {
    var address: int
    var writedata: int
    var read: bool
    var write: bool

    function Value(): Bus
      reads this
    {
      Bus(address, writedata, read, write)
    }

    method PulseRead(addr: int)
      modifies this
      ensures Value() == IdeModel.PulseRead(old(Value()), addr)
    {
      address := addr % U16;
      read := true;
      write := false;
    }

    method PulseWrite(addr: int, data: int)
      modifies this
      ensures Value() == IdeModel.PulseWrite(old(Value()), addr, data)
    {
      address := addr % U16;
      writedata := data;
      read := false;
      write := true;
    }

    method Clear()
      modifies this
      ensures Value() == old(Value()).(read := false, write := false)
    {
      read := false;
      write := false;
    }
  }

  /** Geometry and task file do not depend on each other. */
  lemma GeometryApart(d: Device, r: Regs, sectors: int, heads: int)
    requires sectors >= 0 && heads >= 0
    ensures SetGeometry(d.(regs := r), sectors, heads) == SetGeometry(d, sectors, heads).(regs := r)
  {
    var g := d.drive;
    assert Identify(d.(regs := r), g) == Identify(d, g);
    hide IdentifyWord;
  }

  lemma PublishOver(d: Device, r: Regs, r': Regs)
    ensures Publish(d.(regs := r), r') == Publish(d, r')
  {
  }

  /** One word of the packet, low byte first. */
  function PacketWord(p: Packet, k: int, w: int): Packet
    requires |p.cdb| == 12 && 0 <= k < 6
  {
    p.(cdb := p.cdb[2 * k := w % 0x100][2 * k + 1 := w / 0x100 % 0x100])
  }

  lemma PacketRecvIs(s: Sys, i: Input, p: Packet)
    requires Valid(s.d) && s.d.state == PACKET_RECV && |s.d.packet.cdb| == 12 && 0 <= s.d.cnt <= 6
    requires p == if s.d.cnt > 0 then PacketWord(s.d.packet, s.d.cnt - 1, i.readdata) else s.d.packet
    ensures OnPacketRecv(s, i) ==
              if s.d.cnt < 6 then Sys(s.d.(packet := p, cnt := s.d.cnt + 1), PulseRead(s.bus, s.d.base + 255))
              else Sys(s.d.(packet := p, cnt := 0, state := PACKET_HANDLE), PulseWrite(s.bus, s.d.base + 7, 0))
  {
    hide PulseRead, PulseWrite;
  }

  class HpsIde {
    const id: int
    const base: int
    var state: IdeModel.State
    var nextState: IdeModel.State
    var regs: Regs
    var drive: Drive
    /** Sectors are written in place. */
    const image: array<int>
    const imageName: seq<int>
    /** The sector in transfer, as an offset into `image`. */
    var sectorWords: Option<int>
    var latch: Latch
    var buf: seq<int>
    var packet: Packet
    var sense: Sense
    var cnt: int
    var irqPending: int
    var busCooldown: bool
    var jitterDelay: int
    const debug: bool
    const cdrom: bool

    function Value(): Device
      reads this, image
    {
      Device(id, base, state, nextState, regs, drive, image[..], imageName, sectorWords, latch, buf, packet, sense,
             cnt, irqPending, busCooldown, jitterDelay, debug, cdrom)
    }

    /** The value, field by field. */
    lemma ValueIs()
      ensures Value() == Device(id, base, state, nextState, regs, drive, image[..], imageName, sectorWords, latch, buf, packet,
                                sense, cnt, irqPending, busCooldown, jitterDelay, debug, cdrom)
    {
    }

    /** A device that has an image, as opening a disk or a CD leaves it before the first clock. */
    constructor (id: int, base: int, image: array<int>, name: seq<int>, cdrom: bool, drive: Drive)
      ensures this.image == image && Value() == Made(id, base, image[..], name, cdrom, drive)
      ensures ValidDrive(drive) ==> Valid(Value())
    {
      this.id, this.base, this.image, this.imageName, this.cdrom, this.drive := id, base, image, name, cdrom, drive;
      debug := false;
      state, nextState, regs := INITIAL, IDLE, RESET_REGS;
      sectorWords, latch, buf := None, Latch(0, 0, 0, 0, 0, 0), ZERO12;
      packet, sense := Packet(ZERO12, [], 0, 0, 0), NO_SENSE;
      cnt, irqPending, busCooldown, jitterDelay := 0, 0, false, 0;
    }

    // -------------------------------------------------------------- helpers of the commands

    method PutLba(lba: int)
      requires drive.heads > 0 && drive.spt > 0
      modifies this`regs
      ensures regs == IdeModel.PutLba(old(regs), drive, lba)
    {
      if regs.lba != 0 {
        var rest := lba;
        regs := regs.(sector := rest % 0x100);
        rest := rest / 0x100;
        regs := regs.(cylinder := rest % U16);
        rest := rest / U16;
        regs := regs.(head := rest % 0x10);
      } else {
        var hspt := drive.heads * drive.spt;
        assert hspt > 0;
        var rest := lba;
        regs := regs.(cylinder := rest / hspt);
        rest := rest % hspt;
        regs := regs.(head := rest / drive.spt % 0x100);
        rest := rest % drive.spt;
        regs := regs.(sector := (rest + 1) % U16);
      }
    }

    method SetGeometry(sectors: int, heads: int)
      requires sectors >= 0 && heads >= 0
      modifies this`drive
      ensures Value() == IdeModel.SetGeometry(old(Value()), sectors, heads)
    {
      drive := drive.(heads := if heads != 0 then heads else 16);
      drive := drive.(spt := if sectors != 0 then sectors else 63);
      assert drive.heads * drive.spt > 0;
      var cylinders := drive.totalSectors / (drive.heads * drive.spt);
      if cylinders > 65535 { cylinders := 65535; }
      drive := drive.(cylinders := cylinders);
      drive := drive.(id := Identify(Value(), drive));
    }

    method SendPacketData(data: seq<int>)
      requires packet.limit >= 0
      modifies this`packet, this`regs, this`cnt, this`state
      ensures Value() == IdeModel.SendPacketData(old(Value()), data)
    {
      var out := data;
      if packet.limit != 0 && |out| > packet.limit { out := out[..packet.limit]; }
      if |out| % 2 == 1 { out := out + [0]; }
      packet := packet.(data := out);
      regs := regs.(pktIoSize := |out| / 2 % U16);
      regs := regs.(cylinder := |out| % U32);
      regs := regs.(sectorCount := 2, error := 0, status := RDY + DRQ + IRQ);
      cnt := 0;
      state := PACKET_SEND;
    }

    method FinishPacket(s: Sense)
      modifies this`sense, this`regs, this`state, this`nextState
      ensures Value() == IdeModel.FinishPacket(old(Value()), s)
    {
      sense := s;
      regs := regs.(sectorCount := 3, pktIoSize := 0);
      regs := regs.(error := s.key * 16 % 0x100);
      regs := regs.(status := RDY + IRQ + (if s.key != 0 then ERR else 0));
      state := SET_REGS;
      nextState := IDLE;
    }

    method PrepareCdromRead()
      requires packet.limit >= 0 && packet.lba >= 0 && packet.remaining >= 0
      modifies this`packet, this`regs, this`cnt, this`state, this`nextState, this`sense
      ensures Value() == IdeModel.PrepareCdromRead(old(Value()))
    {
      if packet.remaining == 0 {
        FinishPacket(NO_SENSE);
        return;
      }
      var sectors := if packet.remaining < 8 then packet.remaining else 8;
      if packet.limit >= CD_SECTOR && packet.limit / CD_SECTOR < sectors { sectors := packet.limit / CD_SECTOR; }
      if sectors == 0 { sectors := 1; }
      assert sectors == ChunkSectors(packet);
      var offset := packet.lba * CD_SECTOR;
      var bytes := sectors * CD_SECTOR;
      if offset + bytes > image.Length {
        FinishPacket(Sense(5, 0x21, 0));
        return;
      }
      var data := image[offset..offset + bytes];
      assert data == ChunkData(Value());
      packet := packet.(lba := (packet.lba + sectors) % U32);
      packet := packet.(remaining := packet.remaining - sectors);
      SendPacketData(data);
    }

    // -------------------------------------------------------------- commands

    method RequestSense()
      requires Valid(Value())
      modifies this
      ensures Value() == IdeModel.RequestSense(old(Value()))
    {
      var data := SenseData(sense);
      if packet.cdb[4] < |data| { data := data[..packet.cdb[4]]; }
      hide Valid, IdeModel.SendPacketData, SenseData;
      SendPacketData(data);
      sense := NO_SENSE;
    }

    method StartRead(lba: int, count: int)
      requires packet.limit >= 0 && lba >= 0 && count >= 0
      modifies this
      ensures Value() == IdeModel.StartRead(old(Value()), lba, count)
    {
      hide IdeModel.PrepareCdromRead;
      packet := packet.(lba := lba);
      packet := packet.(remaining := count);
      PrepareCdromRead();
    }

    method HandlePacket()
      requires Valid(Value())
      modifies this
      ensures Value() == IdeModel.HandlePacket(old(Value()))
    {
      assert |packet.cdb| == 12 && packet.limit >= 0;
      var op := packet.cdb[0];
      hide Valid, IdeModel.SendPacketData, IdeModel.FinishPacket, IdeModel.StartRead, IdeModel.RequestSense, TocFormat, Reply;
      if NoDataOpcode(op) { FinishPacket(NO_SENSE); }
      else if op == 0x03 { RequestSense(); }
      else if op == 0x28 { StartRead(Be32(packet.cdb, 2), Be16(packet.cdb, 7)); }
      else if op == 0xA8 { StartRead(Be32(packet.cdb, 2), Be32(packet.cdb, 6)); }
      else if op == 0x43 && TocFormat(packet.cdb) > 1 { FinishPacket(Sense(5, 0x24, 0)); }
      else if ReplyOpcode(op) { SendPacketData(Reply(packet.cdb, drive.totalSectors)); }
      else { FinishPacket(Sense(5, 0x20, 0)); }
    }

    method HandleCdromCmd()
      modifies this
      ensures Value() == IdeModel.HandleCdromCmd(old(Value()))
    {
      hide IdeModel.FinishPacket;
      if latch.cmd == 0xA1 {
        var drv := regs.drv;
        regs := RESET_REGS;
        regs := regs.(drv := drv, pktIoSize := 256, status := RDY + DRQ + IRQ + END);
        cnt := 0;
        state := SEND_ID;
      } else if latch.cmd == 0xA0 {
        if latch.features % 2 == 1 {
          FinishPacket(Sense(5, 0x20, 0));
        } else {
          packet := packet.(limit := regs.cylinder % U16);
          if packet.limit == 0 { packet := packet.(limit := 32 * SECTOR); }
          regs := regs.(pktIoSize := 6, sectorCount := 1, error := 0, status := RDY + DRQ);
          state := SET_REGS;
          nextState := PACKET_WAIT_REQ;
        }
      } else {
        if latch.cmd == 0x08 {
          regs := regs.(error := 1, sectorCount := 1, sector := 1, cylinder := 0xEB14, head := 0,
                        pktIoSize := 0, status := 0);
        } else if latch.cmd == 0xEF {
          regs := regs.(error := 0, status := RDY + IRQ);
        } else {
          regs := regs.(error := 4, sectorCount := 1, sector := 1, cylinder := 0xEB14, status := RDY + ERR + IRQ);
        }
        state := SET_REGS;
        nextState := IDLE;
      }
    }

    method MaskTaskFile()
      modifies this`regs
      ensures regs == MaskedRegs(old(regs), latch.cmd)
    {
      regs := regs.(sectorCount := regs.sectorCount % 0x100);
      regs := regs.(sector := regs.sector % 0x100);
      regs := regs.(cylinder := regs.cylinder % U16);
      if Counted(latch.cmd) && regs.sectorCount == 0 { regs := regs.(sectorCount := 256); }
    }

    method Finish(r: Regs)
      modifies this`regs, this`state, this`nextState
      ensures Value() == Publish(old(Value()), r)
    {
      regs := r;
      state := SET_REGS;
      nextState := IDLE;
    }

    method HandleDiskCmd()
      requires regs.head >= 0
      modifies this
      ensures Value() == IdeModel.HandleDiskCmd(old(Value()))
    {
      ghost var was := Value();
      ghost var r := MaskedRegs(regs, latch.cmd);
      MaskTaskFile();
      if latch.cmd == 0xEC {
        hide MaskedRegs;
        regs := RESET_REGS.(drv := regs.drv, ioSize := 1, status := RDY + DRQ + IRQ + END);
        state := SEND_ID;
        cnt := 0;
      } else if latch.cmd == 0x20 || latch.cmd == 0x21 {
        hide MaskedRegs;
        state := READ;
      } else if latch.cmd == 0x30 || latch.cmd == 0x31 {
        hide MaskedRegs;
        state := WRITE;
      } else {
        FinishDiskCmd(was);
        hide *;
      }
    }

    /** The commands that only publish registers; the task file is already masked. */
    method FinishDiskCmd(ghost was: Device)
      requires was.regs.head >= 0 && regs == MaskedRegs(was.regs, latch.cmd) && Value() == was.(regs := regs)
      requires latch.cmd != 0xEC && latch.cmd != 0x20 && latch.cmd != 0x21 && latch.cmd != 0x30 && latch.cmd != 0x31
      modifies this
      ensures Value() == IdeModel.HandleDiskCmd(was)
    {
      ghost var r := regs;
      MaskedInRange(was.regs, latch.cmd);
      hide IdeModel.SetGeometry, MaskedRegs, Publish;
      if latch.cmd == 0x91 {
        GeometryApart(was, r, r.sectorCount, r.head + 1);
        SetGeometry(regs.sectorCount, regs.head + 1);
        PublishOver(IdeModel.SetGeometry(was, r.sectorCount, r.head + 1), r, r.(status := RDY + IRQ));
        Finish(regs.(status := RDY + IRQ));
      } else if 0x10 <= latch.cmd <= 0x1F {
        PublishOver(was, r, r.(status := RDY + IRQ, cylinder := 0));
        Finish(regs.(status := RDY + IRQ, cylinder := 0));
      } else if latch.cmd == 0x40 {
        PublishOver(was, r, r.(status := RDY + IRQ));
        Finish(regs.(status := RDY + IRQ));
      } else {
        PublishOver(was, r, r.(error := 4, status := RDY + ERR + IRQ));
        Finish(regs.(error := 4, status := RDY + ERR + IRQ));
      }
    }

    method HandleCmd()
      requires regs.head >= 0
      modifies this
      ensures Value() == IdeModel.HandleCmd(old(Value()))
    {
      hide IdeModel.HandleCdromCmd, IdeModel.HandleDiskCmd;
      if !drive.present || regs.drv != 0 {
        regs := regs.(error := 4, status := RDY + ERR + IRQ);
        state := SET_REGS;
        nextState := IDLE;
      } else if cdrom {
        HandleCdromCmd();
      } else {
        HandleDiskCmd();
      }
    }

    // -------------------------------------------------------------- one tick, state by state

    function Wanted(i: Input): int
      reads this
    {
      if id != 0 then i.request1 else i.request0
    }

    method Idle(bus: ManagementBus, i: Input)
      modifies this`state, bus
      ensures Sys(Value(), bus.Value()) == OnIdle(old(Sys(Value(), bus.Value())), i)
    {
      var req := Wanted(i);
      if req == 4 {
        bus.PulseRead(base);
        state := GET_CMD;
      } else if req == 6 {
        bus.PulseRead(base + 5);
        state := GET_RESET_DRIVE;
      }
    }

    method GetResetDrive(i: Input)
      modifies this
      ensures Value() == OnGetResetDrive(old(Value()), i)
    {
      latch := latch.(drvAddr := i.readdata % 0x100);
      regs := regs.(drv := latch.drvAddr / 0x10 % 2, lba := latch.drvAddr / 0x40 % 2, head := 0);
      regs := regs.(error := if cdrom then 1 else 0, sector := 1, sectorCount := 1);
      regs := regs.(cylinder := if drive.present && regs.drv == 0 then (if cdrom then 0xEB14 else 0) else 0xFFFF);
      regs := regs.(status := if cdrom then 0 else RDY);
      state := SET_REGS;
      nextState := RESET_SET;
    }

    method GetCmd(bus: ManagementBus, i: Input)
      modifies this, bus
      ensures Sys(Value(), bus.Value()) == OnGetCmd(old(Sys(Value(), bus.Value())), i)
    {
      var k := bus.address % 0x10;
      if k == 0 { latch := latch.(features := i.readdata / 0x100 % 0x100); }
      else if k == 1 { latch := latch.(sectorCount := i.readdata % 0x100, sector := i.readdata / 0x100); }
      else if k == 2 { latch := latch.(cylinder := i.readdata); }
      else if k == 3 {
        latch := latch.(sector := (latch.sector + i.readdata / 0x100 * 0x100) % U32);
        latch := latch.(sectorCount := (latch.sectorCount + i.readdata % 0x100 * 0x100) % U32);
      }
      else if k == 4 { latch := latch.(cylinder := (latch.cylinder + i.readdata * U16) % U32); }
      else if k == 5 { latch := latch.(drvAddr := i.readdata % 0x100, cmd := i.readdata / 0x100 % 0x100); }
      assert k <= 5 ==> latch == LatchWord(old(latch), k, i.readdata);
      hide LatchWord;
      if k < 5 {
        bus.PulseRead(bus.address + 1);
      } else if k == 5 {
        regs := regs.(sectorCount := latch.sectorCount % U16, sector := latch.sector % U16, cylinder := latch.cylinder);
        regs := regs.(head := latch.drvAddr % 0x10, drv := latch.drvAddr / 0x10 % 2, lba := latch.drvAddr / 0x40 % 2);
        assert regs == LatchedRegs(old(regs), latch);
        hide LatchedRegs;
        state := DO_CMD;
      } else {
        state := IDLE;
      }
    }

    method SendId(bus: ManagementBus)
      requires Valid(Value())
      modifies this, bus
      ensures Sys(Value(), bus.Value()) == OnSendId(old(Sys(Value(), bus.Value())))
    {
      assert 0 <= cnt && |drive.id| == 256;
      hide Valid;
      if cnt < 256 {
        bus.PulseWrite(base + 255, drive.id[cnt]);
        cnt := cnt + 1;
      } else {
        state := SET_REGS;
        nextState := IDLE;
      }
    }

    method SetRegs()
      modifies this
      ensures Value() == OnSetRegs(old(Value()))
    {
      if !cdrom && regs.status / DRQ % 2 == 0 { regs := regs.(status := SetFlag(regs.status, DSC)); }
      assert regs == SettledRegs(old(regs), cdrom);
      hide SettledRegs;
      buf := RegBytes(regs, cdrom);
      hide RegBytes;
      cnt := 0;
      state := SET_REGS_SEND;
    }

    method SetRegsSend(bus: ManagementBus)
      requires Valid(Value())
      modifies this, bus
      ensures Sys(Value(), bus.Value()) == OnSetRegsSend(old(Sys(Value(), bus.Value())))
    {
      assert 0 <= cnt && |buf| == 12;
      hide Valid, BufWord;
      if cnt < 6 {
        bus.PulseWrite(base + cnt, BufWord(buf, cnt));
        cnt := cnt + 1;
      } else {
        cnt := 0;
        state := nextState;
      }
    }

    /** Steps the task file to the next sector. */
    method NextSector()
      requires drive.heads > 0 && drive.spt > 0
      modifies this`regs
      ensures regs == NextLba(old(regs), drive)
    {
      PutLba((GetLba(regs, drive) + 1) % U32);
      hide IdeModel.PutLba, GetLba;
    }

    method SeekSector(lba: int)
      modifies this`sectorWords
      ensures sectorWords == SectorPointer(image[..], lba)
    {
      if (lba + 1) * SECTOR <= image.Length && 0 <= lba {
        sectorWords := Some(lba * SECTOR);
      } else {
        sectorWords := None;
      }
    }

    method SeekForRead(lba: int)
      modifies this`sectorWords, this`buf
      ensures sectorWords == SectorPointer(image[..], lba)
      ensures buf == if SectorInImage(image[..], lba) then old(buf) else ZERO12
    {
      SeekSector(lba);
      if sectorWords == None { buf := ZERO12; }
    }

    method OfferSector(left: int)
      modifies this`regs
      ensures regs == old(regs).(sectorCount := left, ioSize := 1,
                                 status := if left == 0 then RDY + DRQ + IRQ + END else RDY + DRQ + IRQ)
    {
      regs := regs.(sectorCount := left);
      regs := regs.(ioSize := 1);
      regs := regs.(status := RDY + DRQ + IRQ);
      if regs.sectorCount == 0 { regs := regs.(status := regs.status + END); }
    }

    method StartSector(lba: int, left: int)
      requires drive.heads > 0 && drive.spt > 0
      modifies this
      ensures var d := old(Value());
              Value() == d.(buf := if SectorInImage(d.image, lba) then d.buf else ZERO12,
                            words := SectorPointer(d.image, lba),
                            regs := NextLba(d.regs, d.drive).(sectorCount := left, ioSize := 1,
                                       status := if left == 0 then RDY + DRQ + IRQ + END else RDY + DRQ + IRQ),
                            cnt := 0, state := READ_SEND)
    {
      hide SectorPointer, SectorInImage, NextLba;
      SeekForRead(lba);
      NextSector();
      OfferSector(left);
      cnt := 0;
      state := READ_SEND;
    }

    method ReadRegs()
      requires Valid(Value())
      modifies this
      ensures Value() == OnReadRegs(old(Value()))
    {
      assert ValidDrive(drive) && drive.heads > 0 && drive.spt > 0;
      hide *;
      ValueIs();
      ghost var was := Value();
      var lba := GetLba(regs, drive);
      var left := (regs.sectorCount - 1) % U16;
      ReadRegsIs(was, lba, NextLba(regs, drive), left);
      StartSector(lba, left);
    }

    /** Word `k` of the sector in transfer; zero if the image has none. */
    method SectorWord(k: int) returns (data: int)
      requires PointerInImage(image[..], sectorWords) && 0 <= k < 256
      ensures data == LoadWord(image[..], sectorWords, k)
    {
      data := 0;
      if sectorWords.Some? {
        var at := sectorWords.value + 2 * k;
        data := Word(image[at], image[at + 1]);
      }
    }

    method ReadSend(bus: ManagementBus)
      requires Valid(Value())
      modifies this, bus
      ensures Sys(Value(), bus.Value()) == OnReadSend(old(Sys(Value(), bus.Value())))
    {
      assert 0 <= cnt && PointerInImage(image[..], sectorWords);
      hide Valid, LoadWord, PointerInImage, IdeModel.PulseWrite;
      if cnt < 256 {
        var data := SectorWord(cnt);
        bus.PulseWrite(base + 255, data);
        cnt := cnt + 1;
      } else {
        cnt := 0;
        state := SET_REGS;
        nextState := if regs.sectorCount != 0 then READ_WAIT_REQ else IDLE;
      }
    }

    method WriteRegs()
      modifies this
      ensures Value() == OnWriteRegs(old(Value()))
    {
      var lba := GetLba(regs, drive);
      hide GetLba;
      SeekSector(lba);
      hide SectorPointer, SetFlag;
      regs := regs.(status := SetFlag(RDY + DRQ, irqPending), ioSize := 1);
      irqPending := IRQ;
      state := SET_REGS;
      nextState := WRITE_WAIT_REQ;
    }

    /** The word goes to its place in the image, in place. */
    method StoreInSector(k: int, w: int)
      requires PointerInImage(image[..], sectorWords) && 0 <= k < 256
      modifies image
      ensures image[..] == StoreWord(old(image[..]), sectorWords, k, w)
    {
      if sectorWords.Some? {
        var at := sectorWords.value + 2 * k;
        image[at] := w % 0x100;
        image[at + 1] := w / 0x100 % 0x100;
      }
    }

    method WriteRecv(bus: ManagementBus, i: Input)
      requires Valid(Value()) && state == WRITE_RECV
      modifies this, image, bus
      ensures Sys(Value(), bus.Value()) == OnWriteRecv(old(Sys(Value(), bus.Value())), i)
    {
      assert 0 <= cnt <= 256 && PointerInImage(image[..], sectorWords) && ValidDrive(drive);
      ghost var was := Value();
      WordStoredKeepsValid(was, i.readdata);
      hide Valid, PointerInImage, StoreWord, NextLba;
      if cnt > 0 { StoreInSector(cnt - 1, i.readdata); }
      assert Value() == WordStored(was, i.readdata);
      hide WordStored;
      if cnt < 256 {
        bus.PulseRead(base + 255);
        cnt := cnt + 1;
      } else {
        EndSector();
      }
    }

    method EndSector()
      requires Valid(Value())
      modifies this
      ensures Value() == SectorStored(old(Value()))
    {
      assert ValidDrive(drive);
      var left := (regs.sectorCount - 1) % U16;
      SectorStoredIs(Value(), NextLba(regs, drive), left);
      hide *;
      ValueIs();
      NextSector();
      regs := regs.(sectorCount := left);
      cnt := 0;
      if left != 0 {
        state := WRITE_REGS;
      } else {
        regs := regs.(status := RDY + IRQ);
        state := SET_REGS;
        nextState := IDLE;
      }
      ValueIs();
    }

    method StorePacketWord(k: int, w: int)
      requires |packet.cdb| == 12 && 0 <= k < 6
      modifies this`packet
      ensures packet == PacketWord(old(packet), k, w)
    {
      packet := packet.(cdb := packet.cdb[k * 2 := w % 0x100]);
      packet := packet.(cdb := packet.cdb[k * 2 + 1 := w / 0x100 % 0x100]);
    }

    /** Asks for the next word of the packet, or hands the packet over. */
    method PacketMore(bus: ManagementBus)
      modifies this, bus
      ensures var d := old(Value());
              Sys(Value(), bus.Value()) ==
                if d.cnt < 6 then Sys(d.(cnt := d.cnt + 1), IdeModel.PulseRead(old(bus.Value()), d.base + 255))
                else Sys(d.(cnt := 0, state := PACKET_HANDLE), IdeModel.PulseWrite(old(bus.Value()), d.base + 7, 0))
    {
      hide IdeModel.PulseRead, IdeModel.PulseWrite;
      if cnt < 6 {
        bus.PulseRead(base + 255);
        cnt := cnt + 1;
      } else {
        cnt := 0;
        bus.PulseWrite(base + 7, 0);
        state := PACKET_HANDLE;
      }
    }

    method PacketRecv(bus: ManagementBus, i: Input)
      requires Valid(Value()) && state == PACKET_RECV
      modifies this, bus
      ensures Sys(Value(), bus.Value()) == OnPacketRecv(old(Sys(Value(), bus.Value())), i)
    {
      assert 0 <= cnt <= 6 && |packet.cdb| == 12;
      ghost var p := if cnt > 0 then PacketWord(packet, cnt - 1, i.readdata) else packet;
      PacketRecvIs(Sys(Value(), bus.Value()), i, p);
      hide *;
      ValueIs();
      if cnt > 0 { StorePacketWord(cnt - 1, i.readdata); }
      ValueIs();
      PacketMore(bus);
    }

    method PacketSend(bus: ManagementBus)
      requires Valid(Value()) && state == PACKET_SEND
      modifies this, bus
      ensures Sys(Value(), bus.Value()) == OnPacketSend(old(Sys(Value(), bus.Value())))
    {
      assert 0 <= cnt && 2 * regs.pktIoSize <= |packet.data|;
      hide Valid;
      if cnt < regs.pktIoSize {
        bus.PulseWrite(base + 255, Word(packet.data[2 * cnt], packet.data[2 * cnt + 1]));
        cnt := cnt + 1;
      } else {
        cnt := 0;
        state := SET_REGS;
        nextState := PACKET_READ_WAIT_REQ;
      }
    }

    /** The states in which the device waits for the core to ask. */
    method AwaitRequest(i: Input)
      requires Valid(Value())
      requires state == READ_WAIT_REQ || state == WRITE_WAIT_REQ || state == PACKET_WAIT_REQ || state == PACKET_READ_WAIT_REQ
      modifies this
      ensures old(state) == READ_WAIT_REQ ==> Value() == Await(old(Value()), i, old(Value()).(state := READ_REGS))
      ensures old(state) == WRITE_WAIT_REQ ==> Value() == Await(old(Value()), i, old(Value()).(cnt := 0, state := WRITE_RECV))
      ensures old(state) == PACKET_WAIT_REQ ==>
                var d := old(Value()); Value() == Await(d, i, d.(cnt := 0, packet := d.packet.(cdb := ZERO12), state := PACKET_RECV))
      ensures old(state) == PACKET_READ_WAIT_REQ ==> Value() == Await(old(Value()), i, IdeModel.PrepareCdromRead(old(Value())))
    {
      assert packet.limit >= 0 && packet.lba >= 0 && packet.remaining >= 0;
      hide Valid, IdeModel.PrepareCdromRead, ZERO12;
      var req := Wanted(i);
      if req == 5 {
        match state
        case READ_WAIT_REQ => state := READ_REGS;
        case WRITE_WAIT_REQ => cnt := 0; state := WRITE_RECV;
        case PACKET_WAIT_REQ => cnt := 0; packet := packet.(cdb := ZERO12); state := PACKET_RECV;
        case PACKET_READ_WAIT_REQ => PrepareCdromRead();
      } else if req != 0 {
        state := IDLE;
      }
    }

    method Dispatch(bus: ManagementBus, i: Input)
      requires Valid(Value())
      modifies this, image, bus
      ensures Sys(Value(), bus.Value()) == IdeModel.Dispatch(old(Sys(Value(), bus.Value())), i)
    {
      hide Valid, IdeModel.HandleCmd, IdeModel.HandlePacket, IdeModel.PrepareCdromRead, OnWriteRecv, OnReadRegs, OnWriteRegs,
           OnPacketRecv, OnIdle, OnGetResetDrive, OnGetCmd, OnSendId, OnSetRegs, OnSetRegsSend, OnReadSend, OnPacketSend, Await;
      match state
      case INITIAL =>
        bus.PulseWrite(base + 6, if drive.present then 9 else 8);
        state := IDLE;
      case IDLE => Idle(bus, i);
      case GET_RESET_DRIVE => GetResetDrive(i);
      case RESET_SET => state := IDLE;
      case GET_CMD => GetCmd(bus, i);
      case DO_CMD =>
        ValidHead(Value());
        HandleCmd();
      case SEND_ID => SendId(bus);
      case SET_REGS => SetRegs();
      case SET_REGS_SEND => SetRegsSend(bus);
      case READ => state := READ_REGS;
      case READ_REGS => ReadRegs();
      case READ_SEND => ReadSend(bus);
      case WRITE => irqPending := 0; state := WRITE_REGS;
      case WRITE_REGS => WriteRegs();
      case WRITE_RECV => WriteRecv(bus, i);
      case PACKET_RECV => PacketRecv(bus, i);
      case PACKET_HANDLE => HandlePacket();
      case PACKET_SEND => PacketSend(bus);
      case READ_WAIT_REQ | WRITE_WAIT_REQ | PACKET_WAIT_REQ | PACKET_READ_WAIT_REQ => AwaitRequest(i);
    }

    method Reset()
      modifies this
      ensures Value() == OnReset(old(Value()))
    {
      state := INITIAL;
      regs := RESET_REGS;
      regs := regs.(status := if cdrom then 0 else RDY);
      busCooldown := false;
      jitterDelay := 0;
      nextState := IDLE;
    }

    /** One call per clock of the simulated core. */
    method Tick(bus: ManagementBus, i: Input)
      requires Valid(Value())
      modifies this, image, bus
      ensures Sys(Value(), bus.Value()) == Step(old(Sys(Value(), bus.Value())), i)
      ensures Valid(Value())
    {
      StepKeepsValid(Sys(Value(), bus.Value()), i);
      hide Valid, IdeModel.Dispatch, OnReset;
      bus.Clear();
      if i.reset {
        Reset();
        return;
      }
      if busCooldown {
        busCooldown := false;
        return;
      }
      if jitterDelay > 0 {
        jitterDelay := jitterDelay - 1;
        return;
      }
      Dispatch(bus, i);
      if bus.read || bus.write {
        busCooldown := true;
        jitterDelay := i.jitter;
      }
    }
  }
}
