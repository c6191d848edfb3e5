/**
  WRITE SECTORS refines the byte array of `SectorStore`: on every attended run, with any
  jitter, the device takes 256 words a sector, stores them where `Written` says, and
  publishes one register block before each sector and one after the last.
 */
module IdeWrite {
  import opened IdeModel
  import opened IdeValid
  import opened IdeRuns
  import opened IdeJob
  import opened IdeAddress
  import opened SectorStore

  function PendingAt(i: int): int {
    if i == 0 then 0 else IRQ
  }

  /** The registers that announce a sector: data request, interrupt on all but the first. */
  function Announced(r: Regs, i: int): Regs {
    r.(status := RDY + DRQ + PendingAt(i), ioSize := 1)
  }

  /** The registers before sector i is announced. */
  function RegsAt(j: Job, i: nat): (r: Regs)
    requires ValidDrive(j.g)
    ensures r.sectorCount == j.r.sectorCount - i && r.lba == j.r.lba
  {
    if i == 0 then j.r
    else NextLba(Announced(RegsAt(j, i - 1), i - 1), j.g).(sectorCount := j.r.sectorCount - i)
  }

  function AnnouncedAt(j: Job, i: nat): Regs
    requires ValidDrive(j.g)
  {
    Announced(RegsAt(j, i), i)
  }

  /** The registers at the end of the command. */
  function DoneRegs(j: Job): Regs
    requires GoodJob(j)
  {
    RegsAt(j, j.r.sectorCount).(status := RDY + IRQ)
  }

  function Announcements(j: Job, i: nat): seq<Event>
    requires ValidDrive(j.g)
  {
    if i == 0 then [] else Announcements(j, i - 1) + Block(j.base, AnnouncedAt(j, i - 1))
  }

  /** Everything a WRITE puts on the bus. */
  function WriteTrace(j: Job): seq<Event>
    requires GoodJob(j)
  {
    Announcements(j, j.r.sectorCount) + Block(j.base, SettledRegs(DoneRegs(j), false))
  }

  lemma {:induction false} SectorAt(j: Job, i: nat)
    requires ValidDrive(j.g)
    ensures GetLba(RegsAt(j, i), j.g) == NthSector(First(j), JobSpan(j), i)
    ensures GetLba(AnnouncedAt(j, i), j.g) == NthSector(First(j), JobSpan(j), i)
  {
    SameLba(RegsAt(j, i), AnnouncedAt(j, i), j.g);
    hide GetLba, NextLba, NthSector, ValidDrive, Span, First;
    if i == 0 {
      SectorAtStart(j);
    } else {
      SectorAt(j, i - 1);
      var p := AnnouncedAt(j, i - 1);
      var q := NextLba(p, j.g);
      assert RegsAt(j, i) == q.(sectorCount := j.r.sectorCount - i);
      hide RegsAt, AnnouncedAt;
      NextLbaSteps(p, j.g);
      NthSectorSteps(First(j), JobSpan(j), i - 1);
      SameLba(q, q.(sectorCount := j.r.sectorCount - i), j.g);
    }
  }

  lemma SectorAtStart(j: Job)
    requires ValidDrive(j.g)
    ensures RegsAt(j, 0) == j.r && GetLba(j.r, j.g) == NthSector(First(j), JobSpan(j), 0)
  {
    GetLbaInSpan(j.r, j.g);
    hide GetLba;
  }

  // ---------------------------------------------------------------- the invariant

  /** What does not depend on the state: the words taken so far are in the image. */
  predicate Frame(j: Job, d: Device, ws: seq<int>) {
    && d.drive == j.g
    && d.base == j.base
    && !d.cdrom
    && d.image == Written(j.image, First(j), JobSpan(j), ws)
  }

  /** Sector i is about to be announced. */
  predicate Ready(j: Job, d: Device, i: int, ws: seq<int>, tr: seq<Event>)
    requires GoodJob(j)
  {
    && Frame(j, d, ws)
    && 0 <= i < j.r.sectorCount
    && d.regs == RegsAt(j, i)
    && d.irqPending == PendingAt(i)
    && |ws| == 256 * i
    && tr == Announcements(j, i)
  }

  /** Sector i is announced, its data not yet asked for; `k` words of its block are out. */
  predicate Announcing(j: Job, d: Device, i: int, k: int, ws: seq<int>, tr: seq<Event>)
    requires GoodJob(j)
  {
    && Frame(j, d, ws)
    && 0 <= i < j.r.sectorCount
    && d.regs == AnnouncedAt(j, i)
    && d.irqPending == IRQ
    && d.words == Pointer(j, i)
    && d.next == WRITE_WAIT_REQ
    && |ws| == 256 * i
    && 0 <= k <= 6
    && tr == Announcements(j, i) + Block(j.base, d.regs)[..k]
  }

  /** Sector i is arriving; `k` of its words are taken. */
  predicate Receiving(j: Job, d: Device, i: int, k: int, ws: seq<int>, tr: seq<Event>)
    requires GoodJob(j)
  {
    && Frame(j, d, ws)
    && 0 <= i < j.r.sectorCount
    && d.regs == AnnouncedAt(j, i)
    && d.irqPending == IRQ
    && d.words == Pointer(j, i)
    && 0 <= k < 256
    && |ws| == 256 * i + k
    && tr == Announcements(j, i + 1)
  }

  /** All sectors are taken; `k` words of the closing block are out. */
  predicate Closing(j: Job, d: Device, r: Regs, k: int, ws: seq<int>, tr: seq<Event>)
    requires GoodJob(j)
  {
    && Frame(j, d, ws)
    && d.regs == r
    && d.next == IDLE
    && |ws| == 256 * j.r.sectorCount
    && 0 <= k <= 6
    && tr == Announcements(j, j.r.sectorCount) + Block(j.base, r)[..k]
  }

  predicate Started(j: Job, d: Device, ws: seq<int>, tr: seq<Event>) {
    Frame(j, d, ws) && d.regs == j.r && ws == [] && tr == []
  }

  predicate Finished(j: Job, d: Device, ws: seq<int>, tr: seq<Event>)
    requires GoodJob(j)
  {
    Frame(j, d, ws) && |ws| == 256 * j.r.sectorCount && tr == WriteTrace(j)
  }

  function Index(j: Job, d: Device): int {
    j.r.sectorCount - d.regs.sectorCount
  }

  /** What the device looks like after taking `ws` and emitting `tr`. */
  predicate WriteInv(j: Job, d: Device, ws: seq<int>, tr: seq<Event>)
    requires GoodJob(j)
  {
    var i := Index(j, d);
    match d.state
    case WRITE => Started(j, d, ws, tr)
    case WRITE_REGS => Ready(j, d, i, ws, tr)
    case SET_REGS => Announcing(j, d, i, 0, ws, tr) || Closing(j, d, DoneRegs(j), 0, ws, tr)
    case SET_REGS_SEND =>
      d.buf == RegBytes(d.regs, false)
      && (Announcing(j, d, i, d.cnt, ws, tr) || Closing(j, d, SettledRegs(DoneRegs(j), false), d.cnt, ws, tr))
    case WRITE_WAIT_REQ => Announcing(j, d, i, 6, ws, tr)
    case WRITE_RECV => Receiving(j, d, i, if d.cnt == 0 then 0 else d.cnt - 1, ws, tr)
    case IDLE => Finished(j, d, ws, tr)
    case _ => false
  }

  // ---------------------------------------------------------------- one acting tick, state by state

  lemma StartStep(j: Job, d: Device, ws: seq<int>, tr: seq<Event>)
    requires GoodJob(j) && Started(j, d, ws, tr)
    ensures Ready(j, d.(irqPending := 0, state := WRITE_REGS), 0, ws, tr)
  {
    hide GetLba, Written;
  }

  lemma AnnounceStep(j: Job, d: Device, i: int, ws: seq<int>, tr: seq<Event>)
    requires GoodJob(j) && Ready(j, d, i, ws, tr)
    ensures Announcing(j, OnWriteRegs(d), i, 0, ws, tr)
  {
    SectorAt(j, i);
    hide GetLba, NthSector, Written, Announcements, RegsAt, First, JobSpan, Block;
    assert SectorPointer(d.image, NthSector(First(j), JobSpan(j), i)) == Pointer(j, i);
  }

  lemma PublishStep(j: Job, d: Device, i: int, ws: seq<int>, tr: seq<Event>)
    requires GoodJob(j)
    ensures Announcing(j, d, i, 0, ws, tr) ==> Announcing(j, OnSetRegs(d), i, 0, ws, tr)
    ensures Closing(j, d, DoneRegs(j), 0, ws, tr)
            ==> Closing(j, OnSetRegs(d), SettledRegs(DoneRegs(j), false), 0, ws, tr)
  {
    hide Written, Announcements, RegsAt, Block, RegBytes;
  }

  lemma CountsStep(j: Job, d: Device, i: int, r: Regs, ws: seq<int>, tr: seq<Event>)
    requires GoodJob(j) && 0 <= d.cnt < 6
    ensures var t := d.(cnt := d.cnt + 1); var out := tr + [Block(d.base, d.regs)[d.cnt]];
            && (Announcing(j, d, i, d.cnt, ws, tr) ==> Announcing(j, t, i, t.cnt, ws, out))
            && (Closing(j, d, r, d.cnt, ws, tr) ==> Closing(j, t, r, t.cnt, ws, out))
  {
    var b := Block(d.base, d.regs);
    PrefixGrows(b, d.cnt);
    hide Written, Announcements, RegsAt, Block, Pointer, First, JobSpan;
    assert tr + [b[d.cnt]] == tr + [b[d.cnt]];
    forall a: seq<Event> ensures a + b[..d.cnt] + [b[d.cnt]] == a + b[..d.cnt + 1] {
      assert a + b[..d.cnt] + [b[d.cnt]] == a + (b[..d.cnt] + [b[d.cnt]]);
    }
  }

  /** The block is out. */
  lemma SentStep(j: Job, s: Sys, i: int, ws: seq<int>, tr: seq<Event>)
    requires GoodJob(j) && Valid(s.d) && s.d.state == SET_REGS_SEND && s.d.cnt >= 6
    ensures var t := OnSetRegsSend(s);
            && t.bus == s.bus && t.d.state == s.d.next
            && (Announcing(j, s.d, i, s.d.cnt, ws, tr) ==> Announcing(j, t.d, i, 6, ws, tr))
            && (Closing(j, s.d, SettledRegs(DoneRegs(j), false), s.d.cnt, ws, tr) ==> Finished(j, t.d, ws, tr))
  {
    hide Written, Announcements, RegsAt, RegBytes, Valid;
    var b := Block(j.base, SettledRegs(DoneRegs(j), false));
    assert b[..6] == b;
  }

  lemma GrantStep(j: Job, d: Device, i: int, ws: seq<int>, tr: seq<Event>)
    requires GoodJob(j) && Announcing(j, d, i, 6, ws, tr)
    ensures Receiving(j, d.(cnt := 0, state := WRITE_RECV), i, 0, ws, tr)
  {
    var b := Block(j.base, AnnouncedAt(j, i));
    assert b[..6] == b;
    hide Written, RegsAt, Block;
  }

  lemma WrittenGrows(image: seq<int>, first: int, span: int, ws: seq<int>, w: int, i: int, k: int)
    requires span > 0 && 0 <= k < 256 && 0 <= i && |ws| == 256 * i + k
    ensures var before := Written(image, first, span, ws);
            Written(image, first, span, ws + [w]) == StoreWord(before, SectorPointer(before, NthSector(first, span, i)), k, w)
  {
    var all := ws + [w];
    assert all[..|all| - 1] == ws && |ws| / 256 == i && |ws| % 256 == k && all[|ws|] == w;
    hide StoreWord, SectorPointer, NthSector;
  }

  lemma StoreStep(j: Job, d: Device, i: int, k: int, ws: seq<int>, tr: seq<Event>, w: int)
    requires GoodJob(j) && Valid(d) && 0 <= k < 256 && Receiving(j, d, i, k, ws, tr)
    ensures StoreWord(d.image, d.words, k, w) == Written(j.image, First(j), JobSpan(j), ws + [w])
  {
    hide StoreWord, NthSector, RegsAt, Announcements, First, JobSpan, Written;
    WrittenGrows(j.image, First(j), JobSpan(j), ws, w, i, k);
    assert Pointer(j, i) == SectorPointer(d.image, NthSector(First(j), JobSpan(j), i));
  }

  function TakenNow(d: Device, w: int): seq<int> {
    if d.cnt > 0 then [w] else []
  }

  /** A word of sector i arrives and more are to come. */
  lemma ReceiveStep(j: Job, s: Sys, i: Input, k: int, ws: seq<int>, tr: seq<Event>)
    requires GoodJob(j) && Valid(s.d) && s.d.state == WRITE_RECV && s.d.cnt < 256
    requires Receiving(j, s.d, k, if s.d.cnt == 0 then 0 else s.d.cnt - 1, ws, tr)
    ensures var t := OnWriteRecv(s, i);
            t.d.cnt == s.d.cnt + 1 && t.d.state == WRITE_RECV && t.bus.write == false
            && Receiving(j, t.d, k, t.d.cnt - 1, ws + TakenNow(s.d, i.readdata), tr)
  {
    if s.d.cnt > 0 { StoreStep(j, s.d, k, s.d.cnt - 1, ws, tr, i.readdata); }
    hide StoreWord, Written, RegsAt, Announcements, Valid, First, JobSpan, GetLba;
    assert ws + [] == ws;
  }

  /** What the last word of a sector does, with the registers spelled out. */
  lemma LastWord(s: Sys, i: Input)
    requires Valid(s.d) && s.d.state == WRITE_RECV && s.d.cnt == 256 && 1 <= s.d.regs.sectorCount <= 256
    ensures var d := s.d.(image := StoreWord(s.d.image, s.d.words, 255, i.readdata), cnt := 0);
            var r := NextLba(s.d.regs, s.d.drive).(sectorCount := s.d.regs.sectorCount - 1);
            OnWriteRecv(s, i) ==
              Sys(if r.sectorCount != 0 then d.(regs := r, state := WRITE_REGS)
                  else d.(regs := r.(status := RDY + IRQ), state := SET_REGS, next := IDLE), s.bus)
  {
    hide StoreWord, PutLba, GetLba;
  }

  lemma NextSectorReady(j: Job, d: Device, k: int, ws: seq<int>, tr: seq<Event>, image: seq<int>, w: int)
    requires GoodJob(j) && Receiving(j, d, k, 255, ws, tr) && image == Written(j.image, First(j), JobSpan(j), ws + [w])
    ensures var r := NextLba(d.regs, d.drive).(sectorCount := d.regs.sectorCount - 1);
            && (k + 1 < j.r.sectorCount
                ==> Ready(j, d.(image := image, cnt := 0, regs := r, state := WRITE_REGS), k + 1, ws + [w], tr))
            && (k + 1 == j.r.sectorCount
                ==> Closing(j, d.(image := image, cnt := 0, regs := r.(status := RDY + IRQ), state := SET_REGS, next := IDLE),
                            DoneRegs(j), 0, ws + [w], tr))
  {
    assert RegsAt(j, k + 1) == NextLba(d.regs, d.drive).(sectorCount := j.r.sectorCount - (k + 1));
    hide Written, RegsAt, Announcements, First, JobSpan, NextLba, Block, Pointer;
  }

  /** The last word of sector k arrives. */
  lemma SectorDoneStep(j: Job, s: Sys, i: Input, k: int, ws: seq<int>, tr: seq<Event>)
    requires GoodJob(j) && Valid(s.d) && s.d.state == WRITE_RECV && s.d.cnt == 256
    requires Receiving(j, s.d, k, 255, ws, tr)
    ensures var t := OnWriteRecv(s, i); var all := ws + [i.readdata];
            t.bus == s.bus &&
            if k + 1 < j.r.sectorCount then t.d.state == WRITE_REGS && Ready(j, t.d, k + 1, all, tr)
            else t.d.state == SET_REGS && Closing(j, t.d, DoneRegs(j), 0, all, tr)
  {
    assert s.d.regs.sectorCount == j.r.sectorCount - k && 0 <= k < j.r.sectorCount <= 256;
    StoreStep(j, s.d, k, 255, ws, tr, i.readdata);
    NextSectorReady(j, s.d, k, ws, tr, StoreWord(s.d.image, s.d.words, 255, i.readdata), i.readdata);
    LastWord(s, i);
    hide OnWriteRecv, StoreWord, Written, RegsAt, Announcements, Valid, First, JobSpan, NextLba, Ready, Closing, Receiving, DoneRegs;
  }

  // ---------------------------------------------------------------- one acting tick

  /** How many acting ticks the command still needs. */
  function WriteLeft(d: Device): int {
    var later := 267 * (d.regs.sectorCount - 1) + 8;
    match d.state
    case WRITE => 268 + later
    case WRITE_REGS => 267 + later
    case SET_REGS => if d.next == IDLE then 8 else 266 + later
    case SET_REGS_SEND => 7 - d.cnt + (if d.next == IDLE then 0 else 258 + later)
    case WRITE_WAIT_REQ => 258 + later
    case WRITE_RECV => 257 - d.cnt + later
    case _ => 0
  }

  function WriteTaken(d: Device, w: int): seq<int> {
    if d.state == WRITE_RECV && d.cnt > 0 then [w] else []
  }

  /** One tick's part of the refinement: the invariant moves on and the count goes down. */
  predicate Advances(j: Job, s: Sys, i: Input, t: Sys, ws: seq<int>, tr: seq<Event>)
    requires GoodJob(j)
  {
    && WriteInv(j, t.d, ws + WriteTaken(s.d, i.readdata), tr + Emitted(t.bus))
    && WriteLeft(t.d) == WriteLeft(s.d) - 1
  }

  lemma StartAdvances(j: Job, s: Sys, i: Input, ws: seq<int>, tr: seq<Event>)
    requires GoodJob(j) && s.d.state == WRITE && !s.bus.write && WriteInv(j, s.d, ws, tr)
    ensures Advances(j, s, i, Sys(s.d.(irqPending := 0, state := WRITE_REGS), s.bus), ws, tr)
  {
    StartStep(j, s.d, ws, tr);
    assert ws + [] == ws && tr + [] == tr;
    hide Ready, Started, Announcing, Closing, Receiving, Finished;
  }

  lemma AnnounceAdvances(j: Job, s: Sys, i: Input, ws: seq<int>, tr: seq<Event>)
    requires GoodJob(j) && s.d.state == WRITE_REGS && !s.bus.write && WriteInv(j, s.d, ws, tr)
    ensures Advances(j, s, i, Sys(OnWriteRegs(s.d), s.bus), ws, tr)
  {
    hide Ready, Started, Announcing, Closing, Receiving, Finished, SetFlag, GetLba, SectorPointer, DoneRegs;
    AnnounceStep(j, s.d, Index(j, s.d), ws, tr);
    assert ws + [] == ws && tr + [] == tr;
  }

  /** What every state's part of the invariant says about the control fields. */
  lemma InvControl(j: Job, d: Device, ws: seq<int>, tr: seq<Event>)
    requires GoodJob(j) && WriteInv(j, d, ws, tr)
    ensures d.base == j.base && !d.cdrom
    ensures d.state == SET_REGS_SEND ==> 0 <= d.cnt <= 6 && d.buf == RegBytes(d.regs, false)
    ensures d.state == WRITE_RECV ==> 0 <= d.cnt <= 256 && 1 <= d.regs.sectorCount <= 256
  {
    hide Written, Announcements, Block, RegBytes, Pointer, First, JobSpan;
  }

  lemma PublishAdvances(j: Job, s: Sys, i: Input, ws: seq<int>, tr: seq<Event>)
    requires GoodJob(j) && s.d.state == SET_REGS && !s.bus.write && WriteInv(j, s.d, ws, tr)
    ensures Advances(j, s, i, Sys(OnSetRegs(s.d), s.bus), ws, tr)
  {
    hide Ready, Started, Closing, Announcing, Receiving, Finished, RegBytes, DoneRegs, SettledRegs;
    PublishStep(j, s.d, Index(j, s.d), ws, tr);
    SettledCount(s.d.regs, s.d.cdrom);
    InvControl(j, s.d, ws, tr);
    assert ws + [] == ws && tr + [] == tr;
  }

  lemma SendAdvances(j: Job, s: Sys, i: Input, ws: seq<int>, tr: seq<Event>)
    requires GoodJob(j) && Valid(s.d) && s.d.state == SET_REGS_SEND && !s.bus.write && WriteInv(j, s.d, ws, tr)
    ensures Advances(j, s, i, OnSetRegsSend(s), ws, tr)
  {
    hide Valid, Ready, Started, Closing, Announcing, Receiving, Finished, RegBytes, DoneRegs, SettledRegs, OnSetRegsSend, BlockOf;
    InvControl(j, s.d, ws, tr);
    assert ws + [] == ws && tr + [] == tr;
    if s.d.cnt < 6 {
      SendStep(s);
      CountsStep(j, s.d, Index(j, s.d), SettledRegs(DoneRegs(j), false), ws, tr);
    } else {
      SentStep(j, s, Index(j, s.d), ws, tr);
      SentControl(s);
      NextState(j, s.d, ws, tr);
    }
  }

  lemma NextState(j: Job, d: Device, ws: seq<int>, tr: seq<Event>)
    requires GoodJob(j)
    ensures Announcing(j, d, Index(j, d), d.cnt, ws, tr) ==> d.next == WRITE_WAIT_REQ
    ensures Closing(j, d, SettledRegs(DoneRegs(j), false), d.cnt, ws, tr) ==> d.next == IDLE
  {
    hide Frame, Announcements, Block;
  }

  lemma GrantAdvances(j: Job, s: Sys, i: Input, ws: seq<int>, tr: seq<Event>)
    requires GoodJob(j) && s.d.state == WRITE_WAIT_REQ && !s.bus.write && WriteInv(j, s.d, ws, tr)
    ensures Advances(j, s, i, Sys(s.d.(cnt := 0, state := WRITE_RECV), s.bus), ws, tr)
  {
    hide Ready, Started, Announcing, Closing, Receiving, Finished;
    GrantStep(j, s.d, Index(j, s.d), ws, tr);
    assert ws + [] == ws && tr + [] == tr;
  }

  lemma MoreWords(s: Sys, i: Input)
    requires Valid(s.d) && s.d.state == WRITE_RECV && s.d.cnt < 256
    ensures OnWriteRecv(s, i).d.regs == s.d.regs
  {
    hide StoreWord;
  }

  lemma ReceiveAdvances(j: Job, s: Sys, i: Input, ws: seq<int>, tr: seq<Event>)
    requires GoodJob(j) && Valid(s.d) && s.d.state == WRITE_RECV && !s.bus.write && WriteInv(j, s.d, ws, tr)
    ensures Advances(j, s, i, OnWriteRecv(s, i), ws, tr)
  {
    hide Valid, OnWriteRecv, Ready, Started, Announcing, Closing, Receiving, Finished, NextLba, StoreWord, DoneRegs;
    var k := Index(j, s.d);
    assert tr + [] == tr;
    InvControl(j, s.d, ws, tr);
    if s.d.cnt < 256 {
      ReceiveStep(j, s, i, k, ws, tr);
      MoreWords(s, i);
    } else {
      SectorDoneStep(j, s, i, k, ws, tr);
      LastWord(s, i);
    }
  }

  // ---------------------------------------------------------------- one tick of any kind

  lemma DispatchAdvances(j: Job, s: Sys, i: Input, ws: seq<int>, tr: seq<Event>)
    requires GoodJob(j) && Valid(s.d) && !s.bus.write && !s.bus.read && WriteInv(j, s.d, ws, tr)
    requires s.d.state != IDLE && (Waiting(s.d) ==> Request(s.d, i) == 5)
    ensures Advances(j, s, i, Dispatch(s, i), ws, tr)
  {
    hide WriteInv, Advances, Valid, OnWriteRegs, OnSetRegs, OnSetRegsSend, OnWriteRecv, Request;
    match s.d.state
    case WRITE => StartAdvances(j, s, i, ws, tr);
    case WRITE_REGS => AnnounceAdvances(j, s, i, ws, tr);
    case SET_REGS => PublishAdvances(j, s, i, ws, tr);
    case SET_REGS_SEND => SendAdvances(j, s, i, ws, tr);
    case WRITE_WAIT_REQ => GrantAdvances(j, s, i, ws, tr);
    case WRITE_RECV => ReceiveAdvances(j, s, i, ws, tr);
    case _ => OnlyWriteStates(j, s.d, ws, tr);
  }

  lemma OnlyWriteStates(j: Job, d: Device, ws: seq<int>, tr: seq<Event>)
    requires GoodJob(j) && WriteInv(j, d, ws, tr)
    ensures d.state == WRITE || d.state == WRITE_REGS || d.state == SET_REGS || d.state == SET_REGS_SEND
            || d.state == WRITE_WAIT_REQ || d.state == WRITE_RECV || d.state == IDLE
  {
  }

  /** The rest after a transfer is not part of the invariant. */
  lemma RestIsInvisible(j: Job, d: Device, c: bool, k: int, ws: seq<int>, tr: seq<Event>)
    requires GoodJob(j)
    ensures WriteInv(j, d.(cooldown := c, jitterDelay := k), ws, tr) == WriteInv(j, d, ws, tr)
    ensures WriteLeft(d.(cooldown := c, jitterDelay := k)) == WriteLeft(d)
  {
    hide Written, Announcements, Block, RegBytes, Pointer, RegsAt, DoneRegs, SettledRegs;
  }

  lemma WorkRemains(j: Job, d: Device, ws: seq<int>, tr: seq<Event>)
    requires GoodJob(j) && WriteInv(j, d, ws, tr)
    ensures if d.state == IDLE then WriteLeft(d) == 0 else WriteLeft(d) > 0
  {
    hide Frame, Announcements, Block, RegBytes, Pointer;
  }
}
