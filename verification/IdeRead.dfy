/**
  READ SECTORS refines the byte array of `SectorStore`: on every attended run, with any
  jitter, the device emits the words `WordAt` names, sector by sector, each sector
  followed by its register block.
 */
module IdeRead {
  import opened IdeModel
  import opened IdeValid
  import opened IdeRuns
  import opened IdeJob
  import opened IdeAddress
  import opened SectorStore

  /** The registers after `left` more sectors remain: END comes with the last one. */
  function ServedRegs(r: Regs, g: Drive, left: int): (q: Regs)
    requires ValidDrive(g)
    ensures q.sectorCount == left && q.lba == r.lba
  {
    NextLba(r, g).(sectorCount := left, ioSize := 1,
                   status := if left == 0 then RDY + DRQ + IRQ + END else RDY + DRQ + IRQ)
  }

  /** The registers before sector i is read. */
  function RegsAt(j: Job, i: nat): (r: Regs)
    requires ValidDrive(j.g)
    ensures r.sectorCount == j.r.sectorCount - i && r.lba == j.r.lba
  {
    if i == 0 then j.r else ServedRegs(RegsAt(j, i - 1), j.g, j.r.sectorCount - i)
  }

  function DataWord(j: Job, k: nat): Event {
    BusWrite((j.base + 255) % U16, WordAt(j.image, First(j), JobSpan(j), k))
  }

  /** The 256 words of sector i on the data port. */
  function Data(j: Job, i: nat): (e: seq<Event>)
    ensures |e| == 256
  {
    seq(256, k requires 0 <= k < 256 => DataWord(j, 256 * i + k))
  }

  /** Everything a READ puts on the bus for its first i sectors. */
  function Served(j: Job, i: nat): seq<Event>
    requires ValidDrive(j.g)
  {
    if i == 0 then [] else Served(j, i - 1) + Data(j, i - 1) + Block(j.base, RegsAt(j, i))
  }

  lemma {:induction false} SectorAt(j: Job, i: nat)
    requires ValidDrive(j.g)
    ensures GetLba(RegsAt(j, i), j.g) == NthSector(First(j), JobSpan(j), i)
  {
    hide GetLba, NextLba, NthSector, Span, First;
    if i == 0 {
      SectorAtStart(j);
    } else {
      SectorAt(j, i - 1);
      var p := RegsAt(j, i - 1);
      var q := NextLba(p, j.g);
      assert RegsAt(j, i) == ServedRegs(p, j.g, j.r.sectorCount - i);
      hide RegsAt;
      NextLbaSteps(p, j.g);
      NthSectorSteps(First(j), JobSpan(j), i - 1);
      SameLba(q, ServedRegs(p, j.g, j.r.sectorCount - i), j.g);
    }
  }

  lemma SectorAtStart(j: Job)
    requires ValidDrive(j.g)
    ensures RegsAt(j, 0) == j.r && GetLba(j.r, j.g) == NthSector(First(j), JobSpan(j), 0)
  {
    GetLbaInSpan(j.r, j.g);
    hide GetLba;
  }

  // ---------------------------------------------------------------- the invariant

  predicate Frame(j: Job, d: Device) {
    d.drive == j.g && d.base == j.base && !d.cdrom && d.image == j.image
  }

  /** Sector i is about to be looked up. */
  predicate Ready(j: Job, d: Device, i: int, tr: seq<Event>)
    requires GoodJob(j)
  {
    Frame(j, d) && 0 <= i < j.r.sectorCount && d.regs == RegsAt(j, i) && tr == Served(j, i)
  }

  /** Sector i is going out; `k` of its words are out. */
  predicate Sending(j: Job, d: Device, i: int, k: int, tr: seq<Event>)
    requires GoodJob(j)
  {
    && Frame(j, d)
    && 0 <= i < j.r.sectorCount
    && d.regs == RegsAt(j, i + 1)
    && d.words == Pointer(j, i)
    && 0 <= k <= 256
    && tr == Served(j, i) + Data(j, i)[..k]
  }

  function After(j: Job, i: int): State {
    if i + 1 < j.r.sectorCount then READ_WAIT_REQ else IDLE
  }

  /** Sector i is out; `k` words of its register block are too. */
  predicate Publishing(j: Job, d: Device, i: int, k: int, tr: seq<Event>)
    requires GoodJob(j)
  {
    && Frame(j, d)
    && 0 <= i < j.r.sectorCount
    && d.regs == RegsAt(j, i + 1)
    && d.next == After(j, i)
    && 0 <= k <= 6
    && tr == Served(j, i) + Data(j, i) + Block(j.base, d.regs)[..k]
  }

  predicate Finished(j: Job, d: Device, tr: seq<Event>)
    requires GoodJob(j)
  {
    Frame(j, d) && d.regs == RegsAt(j, j.r.sectorCount) && tr == Served(j, j.r.sectorCount)
  }

  function Index(j: Job, d: Device): int {
    j.r.sectorCount - d.regs.sectorCount
  }

  predicate ReadInv(j: Job, d: Device, tr: seq<Event>)
    requires GoodJob(j)
  {
    var i := Index(j, d);
    match d.state
    case READ => Ready(j, d, i, tr)
    case READ_REGS => Ready(j, d, i, tr)
    case READ_SEND => Sending(j, d, i - 1, d.cnt, tr)
    case SET_REGS => Publishing(j, d, i - 1, 0, tr)
    case SET_REGS_SEND => d.buf == RegBytes(d.regs, false) && Publishing(j, d, i - 1, d.cnt, tr)
    case READ_WAIT_REQ => Ready(j, d, i, tr)
    case IDLE => Finished(j, d, tr)
    case _ => false
  }

  // ---------------------------------------------------------------- one acting tick, state by state

  lemma LookUpRegs(d: Device)
    requires Valid(d) && 1 <= d.regs.sectorCount <= 256
    ensures OnReadRegs(d).regs == ServedRegs(d.regs, d.drive, d.regs.sectorCount - 1)
    ensures OnReadRegs(d).words == SectorPointer(d.image, GetLba(d.regs, d.drive))
  {
    hide GetLba, NextLba, SectorPointer;
    assert (d.regs.sectorCount - 1) % U16 == d.regs.sectorCount - 1;
  }

  lemma LookUpKeeps(j: Job, d: Device)
    requires Valid(d) && Frame(j, d)
    ensures var t := OnReadRegs(d); Frame(j, t) && t.cnt == 0 && t.state == READ_SEND
  {
    hide GetLba, NextLba, SectorPointer, Valid;
  }

  lemma LookUpStep(j: Job, d: Device, i: int, tr: seq<Event>)
    requires GoodJob(j) && Ready(j, d, i, tr)
    requires Valid(d)
    ensures var t := OnReadRegs(d); Sending(j, t, i, 0, tr) && t.cnt == 0 && t.state == READ_SEND
  {
    hide GetLba, NthSector, First, JobSpan, NextLba, Data, Valid, OnReadRegs, ServedRegs, Served;
    var t := OnReadRegs(d);
    SectorAt(j, i);
    LookUpRegs(d);
    LookUpKeeps(j, d);
    assert tr == Served(j, i) + Data(j, i)[..0];
    assert Frame(j, t) && t.words == Pointer(j, i) && t.regs == RegsAt(j, i + 1);
    hide Pointer, RegsAt, Frame;
    assert Sending(j, t, i, 0, tr);
  }

  lemma DataAt(j: Job, i: nat, k: int)
    requires 0 <= k < 256
    ensures Data(j, i)[k] == BusWrite((j.base + 255) % U16, LoadWord(j.image, Pointer(j, i), k))
  {
    hide LoadWord, NthSector, First, JobSpan;
    var m := 256 * i + k;
    assert m / 256 == i && m % 256 == k;
    assert Data(j, i)[k] == DataWord(j, m);
    assert WordAt(j.image, First(j), JobSpan(j), m) == LoadWord(j.image, Pointer(j, i), k);
  }

  lemma DataStep(j: Job, s: Sys, i: int, tr: seq<Event>)
    requires GoodJob(j) && Valid(s.d) && s.d.state == READ_SEND && Sending(j, s.d, i, s.d.cnt, tr) && s.d.cnt < 256
    ensures var t := OnReadSend(s);
            t.d == s.d.(cnt := s.d.cnt + 1) && Sending(j, t.d, i, t.d.cnt, tr + Emitted(t.bus))
  {
    DataAt(j, i, s.d.cnt);
    var e := Data(j, i);
    PrefixGrows(e, s.d.cnt);
    assert Served(j, i) + e[..s.d.cnt] + [e[s.d.cnt]] == Served(j, i) + (e[..s.d.cnt] + [e[s.d.cnt]]);
    hide Served, Data, RegsAt, Valid, LoadWord, Pointer;
  }

  lemma SentStep(j: Job, s: Sys, i: int, tr: seq<Event>)
    requires GoodJob(j) && Valid(s.d) && s.d.state == READ_SEND && Sending(j, s.d, i, s.d.cnt, tr) && s.d.cnt >= 256
    ensures var t := OnReadSend(s); t.bus == s.bus && t.d.state == SET_REGS && t.d.regs == s.d.regs && Publishing(j, t.d, i, 0, tr)
  {
    var e := Data(j, i);
    assert e[..256] == e;
    assert tr == Served(j, i) + e + Block(j.base, s.d.regs)[..0];
    hide Served, Data, Block, Valid;
  }

  lemma ServedStatus(j: Job, i: nat)
    requires ValidDrive(j.g) && i > 0
    ensures RegsAt(j, i).status == if i == j.r.sectorCount then RDY + DRQ + IRQ + END else RDY + DRQ + IRQ
  {
    assert RegsAt(j, i) == ServedRegs(RegsAt(j, i - 1), j.g, j.r.sectorCount - i);
    hide RegsAt, NextLba;
  }

  lemma PublishStep(j: Job, d: Device, i: int, tr: seq<Event>)
    requires GoodJob(j) && Publishing(j, d, i, 0, tr)
    ensures var t := OnSetRegs(d);
            t.regs == d.regs && t.next == d.next && t.cnt == 0 && t.state == SET_REGS_SEND
            && t.buf == RegBytes(t.regs, false) && Publishing(j, t, i, 0, tr)
  {
    hide Served, Data, Block, RegsAt, RegBytes;
    ServedStatus(j, i + 1);
    assert d.regs.status / DRQ % 2 == 1;
    assert !d.cdrom && SettledRegs(d.regs, false) == d.regs;
  }

  lemma CountsStep(j: Job, d: Device, i: int, tr: seq<Event>)
    requires GoodJob(j) && 0 <= d.cnt < 6 && Publishing(j, d, i, d.cnt, tr)
    ensures Publishing(j, d.(cnt := d.cnt + 1), i, d.cnt + 1, tr + [Block(d.base, d.regs)[d.cnt]])
  {
    var b := Block(d.base, d.regs);
    PrefixGrows(b, d.cnt);
    hide Served, Data, RegsAt, Block;
    var a := Served(j, i) + Data(j, i);
    assert a + b[..d.cnt] + [b[d.cnt]] == a + (b[..d.cnt] + [b[d.cnt]]);
  }

  lemma PublishedStep(j: Job, d: Device, i: int, tr: seq<Event>)
    requires GoodJob(j) && Publishing(j, d, i, 6, tr)
    ensures var t := d.(cnt := 0, state := d.next);
            if i + 1 < j.r.sectorCount then t.state == READ_WAIT_REQ && Ready(j, t, i + 1, tr)
            else t.state == IDLE && Finished(j, t, tr)
  {
    var b := Block(j.base, d.regs);
    assert b[..6] == b;
    assert Served(j, i + 1) == Served(j, i) + Data(j, i) + Block(j.base, RegsAt(j, i + 1));
    hide Served, Data, RegsAt, Block;
  }

  // ---------------------------------------------------------------- one acting tick

  /** How many acting ticks the command still needs. */
  function ReadLeft(d: Device): int {
    match d.state
    case READ => 267 * d.regs.sectorCount
    case READ_REGS => 267 * d.regs.sectorCount - 1
    case READ_SEND => 267 * d.regs.sectorCount + 265 - d.cnt
    case SET_REGS => 267 * d.regs.sectorCount + 8
    case SET_REGS_SEND => 267 * d.regs.sectorCount + 7 - d.cnt
    case READ_WAIT_REQ => 267 * d.regs.sectorCount
    case _ => 0
  }

  predicate Advances(j: Job, s: Sys, t: Sys, tr: seq<Event>)
    requires GoodJob(j)
  {
    ReadInv(j, t.d, tr + Emitted(t.bus)) && ReadLeft(t.d) == ReadLeft(s.d) - 1
  }

  lemma InvControl(j: Job, d: Device, tr: seq<Event>)
    requires GoodJob(j) && ReadInv(j, d, tr)
    ensures d.base == j.base && !d.cdrom
    ensures d.state == SET_REGS_SEND ==> 0 <= d.cnt <= 6 && d.buf == RegBytes(d.regs, false)
    ensures d.state == READ_SEND ==> 0 <= d.cnt <= 256
  {
    hide Served, Data, Block, RegBytes, Pointer, RegsAt;
  }

  lemma IndexOf(j: Job, d: Device, i: int, k: int, tr: seq<Event>)
    requires GoodJob(j)
    ensures Ready(j, d, i, tr) ==> Index(j, d) == i
    ensures Sending(j, d, i, k, tr) ==> Index(j, d) == i + 1
    ensures Publishing(j, d, i, k, tr) ==> Index(j, d) == i + 1
  {
    hide Served, Data, Block, Pointer;
  }

  lemma LookUpAdvances(j: Job, s: Sys, tr: seq<Event>)
    requires GoodJob(j) && Valid(s.d) && s.d.state == READ_REGS && !s.bus.write && ReadInv(j, s.d, tr)
    ensures Advances(j, s, Sys(OnReadRegs(s.d), s.bus), tr)
  {
    hide Valid, Ready, Sending, Publishing, Finished, OnReadRegs;
    assert tr + [] == tr;
    LookUpStep(j, s.d, Index(j, s.d), tr);
    IndexOf(j, OnReadRegs(s.d), Index(j, s.d), 0, tr);
  }

  lemma DataAdvances(j: Job, s: Sys, tr: seq<Event>)
    requires GoodJob(j) && Valid(s.d) && s.d.state == READ_SEND && !s.bus.write && ReadInv(j, s.d, tr)
    ensures Advances(j, s, OnReadSend(s), tr)
  {
    hide Valid, Ready, Sending, Publishing, Finished, OnReadSend;
    assert tr + [] == tr;
    InvControl(j, s.d, tr);
    if s.d.cnt < 256 { DataStep(j, s, Index(j, s.d) - 1, tr); } else { SentStep(j, s, Index(j, s.d) - 1, tr); }
  }

  lemma PublishAdvances(j: Job, s: Sys, tr: seq<Event>)
    requires GoodJob(j) && s.d.state == SET_REGS && !s.bus.write && ReadInv(j, s.d, tr)
    ensures Advances(j, s, Sys(OnSetRegs(s.d), s.bus), tr)
  {
    hide Ready, Sending, Publishing, Finished, OnSetRegs, RegBytes;
    assert tr + [] == tr;
    PublishStep(j, s.d, Index(j, s.d) - 1, tr);
  }

  lemma SendAdvances(j: Job, s: Sys, tr: seq<Event>)
    requires GoodJob(j) && Valid(s.d) && s.d.state == SET_REGS_SEND && !s.bus.write && ReadInv(j, s.d, tr)
    ensures Advances(j, s, OnSetRegsSend(s), tr)
  {
    hide Valid, Ready, Sending, Publishing, Finished, OnSetRegsSend, RegBytes, BlockOf;
    assert tr + [] == tr;
    InvControl(j, s.d, tr);
    if s.d.cnt < 6 {
      SendStep(s);
      CountsStep(j, s.d, Index(j, s.d) - 1, tr);
    } else {
      SentControl(s);
      PublishedStep(j, s.d, Index(j, s.d) - 1, tr);
      LastHasNoneLeft(j, s.d, Index(j, s.d) - 1, tr);
    }
  }

  lemma LastHasNoneLeft(j: Job, d: Device, i: int, tr: seq<Event>)
    requires GoodJob(j) && Publishing(j, d, i, 6, tr)
    ensures i + 1 == j.r.sectorCount - d.regs.sectorCount && 0 <= d.regs.sectorCount
  {
    hide Served, Data, Block;
  }

  // ---------------------------------------------------------------- one tick of any kind

  lemma DispatchAdvances(j: Job, s: Sys, i: Input, tr: seq<Event>)
    requires GoodJob(j) && Valid(s.d) && !s.bus.write && !s.bus.read && ReadInv(j, s.d, tr)
    requires s.d.state != IDLE && (Waiting(s.d) ==> Request(s.d, i) == 5)
    ensures Advances(j, s, Dispatch(s, i), tr)
  {
    hide Valid, OnReadRegs, OnReadSend, OnSetRegs, OnSetRegsSend, Request, Ready, Sending, Publishing, Finished;
    match s.d.state
    case READ | READ_WAIT_REQ => StartAdvances(j, s, tr);
    case READ_REGS => LookUpAdvances(j, s, tr); hide Advances, ReadInv;
    case READ_SEND => DataAdvances(j, s, tr); hide Advances, ReadInv;
    case SET_REGS => PublishAdvances(j, s, tr); hide Advances, ReadInv;
    case SET_REGS_SEND => SendAdvances(j, s, tr); hide Advances, ReadInv;
    case _ =>
  }

  lemma StartAdvances(j: Job, s: Sys, tr: seq<Event>)
    requires GoodJob(j) && (s.d.state == READ || s.d.state == READ_WAIT_REQ) && !s.bus.write && ReadInv(j, s.d, tr)
    ensures Advances(j, s, Sys(s.d.(state := READ_REGS), s.bus), tr)
  {
    assert tr + [] == tr;
    hide Served, RegsAt;
  }

  lemma RestIsInvisible(j: Job, d: Device, c: bool, k: int, tr: seq<Event>)
    requires GoodJob(j)
    ensures ReadInv(j, d.(cooldown := c, jitterDelay := k), tr) == ReadInv(j, d, tr)
    ensures ReadLeft(d.(cooldown := c, jitterDelay := k)) == ReadLeft(d)
  {
    hide Served, Data, Block, RegBytes, Pointer, RegsAt;
  }

  lemma WorkRemains(j: Job, d: Device, tr: seq<Event>)
    requires GoodJob(j) && ReadInv(j, d, tr)
    ensures if d.state == IDLE then ReadLeft(d) == 0 else ReadLeft(d) > 0
  {
    hide Frame, Served, Data, Block, RegBytes, Pointer;
  }

  lemma OnlyReadStates(j: Job, d: Device, tr: seq<Event>)
    requires GoodJob(j) && ReadInv(j, d, tr)
    ensures d.state == READ || d.state == READ_REGS || d.state == READ_SEND || d.state == SET_REGS
            || d.state == SET_REGS_SEND || d.state == READ_WAIT_REQ || d.state == IDLE
  {
  }
}
