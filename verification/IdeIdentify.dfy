/** IDENTIFY: the table a drive sends, what it says of the geometry, and how it goes out. */
module IdeIdentify {
  import opened Sequences
  import opened Arithmetic
  import opened IdeModel
  import opened IdeValid
  import opened IdeRuns
  import opened IdeJob

  // ---------------------------------------------------------------- what the table says

  /** After a change of geometry the table reports the heads and sectors the address registers count by, a cylinder
      count that never reaches past the disk and falls short of it by less than a cylinder unless it is at its limit,
      and the capacity, whole, in each of its three places. */
  lemma GeometryReported(d: Device, sectors: int, heads: int)
    requires 0 <= sectors <= 255 && 0 <= heads <= 16 && 0 <= d.drive.totalSectors < U32
    ensures var g := SetGeometry(d, sectors, heads).drive; var w := g.id;
            && |w| == 256
            && 1 <= g.heads <= 16 && 1 <= g.spt <= 255 && g.totalSectors == d.drive.totalSectors
            && (heads != 0 ==> g.heads == heads) && (sectors != 0 ==> g.spt == sectors)
            && w[1] == w[54] == g.cylinders && w[3] == w[55] == g.heads && w[6] == w[56] == g.spt
            && 0 <= g.cylinders <= 0xFFFF
            && g.cylinders * (g.heads * g.spt) <= g.totalSectors
            && (g.cylinders < 0xFFFF ==> g.totalSectors < (g.cylinders + 1) * (g.heads * g.spt))
            && w[57] + U16 * w[58] == g.totalSectors && w[60] + U16 * w[61] == g.totalSectors
            && w[100] + U16 * w[101] == g.totalSectors
  {
    var g := SetGeometry(d, sectors, heads).drive;
    var track := g.heads * g.spt;
    MulMono(g.spt, g.heads);
    assert track > 0;
    Cylinders(g.totalSectors, track, g.totalSectors / track, g.cylinders);
    var h := d.drive.(heads := g.heads, spt := g.spt, cylinders := g.cylinders);
    TableSays(d, h);
    assert g.id == Identify(d, h);
    hide Identify, SetGeometry;
  }

  lemma Cylinders(total: int, track: int, whole: int, c: int)
    requires 0 <= total && track > 0 && whole == total / track && c == if whole > 0xFFFF then 0xFFFF else whole
    ensures 0 <= c && c * track <= total && (c < 0xFFFF ==> total < (c + 1) * track)
  {
    DivMod(total, track);
    DivBounds(total, track);
    MulLe(c, whole, track);
  }

  lemma TableSays(d: Device, g: Drive)
    requires 0 <= g.totalSectors < U32
    ensures var w := Identify(d, g);
            && w[1] == w[54] == g.cylinders && w[3] == w[55] == g.heads && w[6] == w[56] == g.spt
            && w[57] + U16 * w[58] == g.totalSectors && w[60] + U16 * w[61] == g.totalSectors
            && w[100] + U16 * w[101] == g.totalSectors
  {
  }

  // ---------------------------------------------------------------- how it goes out

  /** A drive that has just latched its IDENTIFY command. */
  predicate Asked(d: Device) {
    Valid(d) && d.state == DO_CMD && d.drive.present && d.regs.drv == 0
    && d.latch.cmd == (if d.cdrom then 0xA1 else 0xEC)
  }

  function TableRegs(d: Device): Regs {
    if d.cdrom then RESET_REGS.(drv := d.regs.drv, pktIoSize := 256, status := RDY + DRQ + IRQ + END)
    else RESET_REGS.(drv := d.regs.drv, ioSize := 1, status := RDY + DRQ + IRQ + END)
  }

  function Table(d: Device): (e: seq<Event>)
    requires |d.drive.id| == 256
    ensures |e| == 256
  {
    seq(256, k requires 0 <= k < 256 => BusWrite((d.base + 255) % U16, d.drive.id[k]))
  }

  function Closing(d: Device): (e: seq<Event>)
    ensures |e| == 6
  {
    BlockOf(d.base, RegBytes(TableRegs(d), d.cdrom))
  }

  /** What sending the table leaves alone. */
  predicate Frame(d0: Device, d: Device) {
    d.base == d0.base && d.drive == d0.drive && d.image == d0.image && d.cdrom == d0.cdrom && d.packet == d0.packet
    && d.sense == d0.sense
  }

  predicate Inv(d0: Device, d: Device, tr: seq<Event>)
    requires |d0.drive.id| == 256
  {
    match d.state
    case DO_CMD => SameButRest(d0, d) && tr == []
    case SEND_ID => Frame(d0, d) && d.regs == TableRegs(d0) && 0 <= d.cnt <= 256 && tr == Table(d0)[..d.cnt]
    case SET_REGS => Frame(d0, d) && d.regs == TableRegs(d0) && d.next == IDLE && tr == Table(d0)
    case SET_REGS_SEND =>
      Frame(d0, d) && d.regs == TableRegs(d0) && d.next == IDLE && d.buf == RegBytes(TableRegs(d0), d0.cdrom)
      && 0 <= d.cnt <= 6 && tr == Table(d0) + Closing(d0)[..d.cnt]
    case IDLE => Frame(d0, d) && d.regs == TableRegs(d0) && tr == Table(d0) + Closing(d0)
    case _ => false
  }

  lemma Decodes(d0: Device, d: Device)
    requires Asked(d0) && SameButRest(d0, d) && d.regs.head >= 0
    ensures var t := HandleCmd(d);
            t.state == SEND_ID && t.cnt == 0 && t.regs == TableRegs(d0) && Frame(d0, t)
  {
    hide Valid, SetGeometry, FinishPacket;
  }

  lemma SendsTable(d0: Device, s: Sys, tr: seq<Event>)
    requires Asked(d0) && |d0.drive.id| == 256 && Valid(s.d) && !s.bus.write && s.d.state == SEND_ID && Inv(d0, s.d, tr)
    ensures Inv(d0, OnSendId(s).d, tr + Emitted(OnSendId(s).bus))
  {
    assert tr + [] == tr;
    if s.d.cnt < 256 {
      PrefixGrows(Table(d0), s.d.cnt);
      assert Emitted(OnSendId(s).bus) == [Table(d0)[s.d.cnt]];
      hide Valid, Table, Closing, TableRegs;
    } else {
      assert Table(d0)[..256] == Table(d0);
      hide Valid, Table, Closing, TableRegs;
    }
  }

  lemma Settles(d0: Device, s: Sys, tr: seq<Event>)
    requires Asked(d0) && |d0.drive.id| == 256 && Valid(s.d) && !s.bus.write && s.d.state == SET_REGS && Inv(d0, s.d, tr)
    ensures Inv(d0, OnSetRegs(s.d), tr)
  {
    assert SettledRegs(TableRegs(d0), d0.cdrom) == TableRegs(d0);
    hide Valid, Table, Closing, TableRegs, SettledRegs, RegBytes;
    assert Closing(d0)[..0] == [];
    assert Table(d0) + [] == Table(d0);
  }

  lemma SendsClosing(d0: Device, s: Sys, tr: seq<Event>)
    requires Asked(d0) && |d0.drive.id| == 256 && Valid(s.d) && !s.bus.write && s.d.state == SET_REGS_SEND && Inv(d0, s.d, tr)
    ensures Inv(d0, OnSetRegsSend(s).d, tr + Emitted(OnSetRegsSend(s).bus))
  {
    assert tr + [] == tr;
    if s.d.cnt < 6 {
      SendStep(s);
      PrefixGrows(Closing(d0), s.d.cnt);
      assert BlockOf(s.d.base, s.d.buf) == Closing(d0);
      hide Valid, Table, Closing, TableRegs, OnSetRegsSend, Emitted, RegBytes, BlockOf;
      assert Table(d0) + (Closing(d0)[..s.d.cnt] + [Closing(d0)[s.d.cnt]]) == tr + [Closing(d0)[s.d.cnt]];
      assert OnSetRegsSend(s).d.state == SET_REGS_SEND;
    } else {
      SentControl(s);
      assert Closing(d0)[..6] == Closing(d0);
      hide Valid, Table, Closing, TableRegs, OnSetRegsSend, RegBytes;
      assert OnSetRegsSend(s).d.state == IDLE && Emitted(OnSetRegsSend(s).bus) == [];
    }
  }

  lemma RestIsInvisible(d0: Device, d: Device, c: bool, k: int, tr: seq<Event>)
    requires |d0.drive.id| == 256
    ensures Inv(d0, d.(cooldown := c, jitterDelay := k), tr) == Inv(d0, d, tr)
  {
    hide Table, Closing, TableRegs, RegBytes;
  }

  lemma Dispatches(d0: Device, s: Sys, i: Input, tr: seq<Event>)
    requires Asked(d0) && |d0.drive.id| == 256 && Valid(s.d) && !s.bus.write && Inv(d0, s.d, tr) && s.d.state != IDLE
    ensures Inv(d0, Dispatch(s, i).d, tr + Emitted(Dispatch(s, i).bus))
  {
    assert tr + [] == tr;
    if s.d.state == DO_CMD {
      ValidHead(s.d);
      Decodes(d0, s.d);
      assert Table(d0)[..0] == [];
      hide Valid, Table, Closing, TableRegs, HandleCmd, Frame;
    } else if s.d.state == SEND_ID {
      SendsTable(d0, s, tr);
      hide Valid, Inv, OnSendId, Emitted;
    } else if s.d.state == SET_REGS {
      Settles(d0, s, tr);
      hide Valid, Inv, OnSetRegs;
    } else {
      OnlySending(d0, s.d, tr);
      SendsClosing(d0, s, tr);
      hide Valid, Inv, OnSetRegsSend, Emitted;
    }
  }

  lemma OnlySending(d0: Device, d: Device, tr: seq<Event>)
    requires |d0.drive.id| == 256 && Inv(d0, d, tr)
    ensures d.state == DO_CMD || d.state == SEND_ID || d.state == SET_REGS || d.state == SET_REGS_SEND || d.state == IDLE
  {
    hide Table, Closing, TableRegs, RegBytes, Frame;
  }

  lemma IdentifyStep(d0: Device, s: Sys, i: Input, tr: seq<Event>)
    requires Asked(d0) && |d0.drive.id| == 256 && Valid(s.d) && Inv(d0, s.d, tr) && s.d.state != IDLE && !i.reset
    ensures Inv(d0, Step(s, i).d, tr + Emitted(Step(s, i).bus))
  {
    hide Step, Dispatch, Valid, Inv, Asked;
    var t := Step(s, i);
    assert tr + [] == tr;
    if Held(s.d) {
      StepRests(s, i);
      RestIsInvisible(d0, s.d, t.d.cooldown, t.d.jitterDelay, tr);
    } else {
      StepActs(s, i);
      var u := Dispatch(LowStrobes(s), i);
      Dispatches(d0, LowStrobes(s), i, tr);
      RestIsInvisible(d0, u.d, true, i.jitter, tr + Emitted(u.bus));
    }
  }

  lemma {:induction false} IdentifyRun(s: Sys, ins: seq<Input>)
    requires Asked(s.d) && |s.d.drive.id| == 256 && Attended(s, ins)
    ensures Inv(s.d, Run(s, ins).d, Trace(s, ins))
  {
    if ins != [] {
      IdentifyRun(s, Front(ins));
      var p := Run(s, Front(ins));
      assert Run(s, ins) == Step(p, Last(ins));
      hide Step, Valid, Inv, Asked;
      IdentifyStep(s.d, p, Last(ins), Trace(s, Front(ins)));
    }
  }

  /** IDENTIFY, of a disk or of a CD, whole: the bus carries the drive's 256 words and one register block, and drive,
      image and packet are as they were. */
  lemma IdentifyCommand(s: Sys, ins: seq<Input>)
    requires Asked(s.d) && Attended(s, ins) && Run(s, ins).d.state == IDLE
    ensures var t := Run(s, ins).d;
            && |s.d.drive.id| == 256 && Trace(s, ins) == Table(s.d) + Closing(s.d)
            && DataWords(s.d.base, Trace(s, ins)) == s.d.drive.id
            && t.regs == TableRegs(s.d) && Frame(s.d, t)
  {
    IdentifyRun(s, ins);
    TableIsData(s.d, 256);
    assert Table(s.d)[..256] == Table(s.d) && s.d.drive.id[..256] == s.d.drive.id;
    var b := RegBytes(TableRegs(s.d), s.d.cdrom);
    BlockHasNoData(s.d.base, b, 6);
    assert BlockOf(s.d.base, b)[..6] == Closing(s.d);
    DataWordsAppend(s.d.base, Table(s.d), Closing(s.d));
    hide Run, Trace, Attended, Valid, Table, Closing, TableRegs, RegBytes, BlockOf;
  }

  lemma {:induction false} TableIsData(d: Device, k: int)
    requires |d.drive.id| == 256 && 0 <= k <= 256
    ensures DataWords(d.base, Table(d)[..k]) == d.drive.id[..k]
  {
    if k > 0 {
      var b := Table(d)[..k];
      assert Front(b) == Table(d)[..k - 1] && Last(b) == BusWrite((d.base + 255) % U16, d.drive.id[k - 1]);
      TableIsData(d, k - 1);
      assert d.drive.id[..k] == d.drive.id[..k - 1] + [d.drive.id[k - 1]];
    }
  }
}
