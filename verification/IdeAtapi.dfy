/**
  READ(10) and READ(12) on a CD image: whatever the chunking, the data port carries the
  named 2048-byte sectors, whole and in order, up to the first chunk that leaves the image;
  the command ends without an error if there is none, and with the range error if there is.
 */
module IdeAtapi {
  import opened Arithmetic
  import opened IdeModel
  import opened IdeValid
  import opened IdeRuns
  import opened IdeJob

  /** A read of `n` sectors as it was asked for, of which `got` are handed over; `limit` is the byte count the guest
      allows a chunk. */
  datatype Stream = Stream(r: Regs, base: int, image: seq<int>, lba: int, n: int, got: int, limit: int)

  /** A byte-count limit that no chunk is cut by; what is handed over is whole chunks of the image, all of the read or
      all before the first chunk that is not in the image; and sector numbers that do not wrap. */
  predicate GoodStream(j: Stream) {
    && 0 <= j.lba < U32 && 0 <= j.got <= j.n
    && (j.limit == 0 || CD_SECTOR <= j.limit < U16)
    && (j.got > 0 ==> (j.lba + j.got) * CD_SECTOR <= |j.image|)
    && (j.got < j.n ==>
          && j.got % Width(j.limit) == 0 && j.lba + j.got < U32
          && (j.lba + j.got + (if j.n - j.got < Width(j.limit) then j.n - j.got else Width(j.limit))) * CD_SECTOR > |j.image|)
    && j.lba + j.got <= U32
    && 0 <= j.r.head < 16
  }

  /** The sectors a full chunk carries. */
  function Width(limit: int): (w: int)
    requires limit == 0 || CD_SECTOR <= limit
    ensures 1 <= w <= 8
    ensures limit != 0 ==> w * CD_SECTOR <= limit
  {
    if CD_SECTOR <= limit && limit / CD_SECTOR < 8 then limit / CD_SECTOR else 8
  }

  /** The size of the chunk that is sent when `left` sectors are left. */
  function ChunkOf(j: Stream, left: int): (c: int)
    requires GoodStream(j) && 0 < left
    ensures 1 <= c <= 8 && c <= left && (j.limit != 0 ==> c * CD_SECTOR <= j.limit)
  {
    if left < Width(j.limit) then left else Width(j.limit)
  }

  lemma ChunkIs(j: Stream, p: Packet)
    requires GoodStream(j) && p.limit == j.limit && 0 < p.remaining
    ensures ChunkSectors(p) == ChunkOf(j, p.remaining)
  {
  }

  /** Bytes a to b (in sectors of the read) as words. */
  function ChunkWords(j: Stream, a: int, b: int): (ws: seq<int>)
    requires GoodStream(j) && 0 <= a <= b <= j.got
    ensures |ws| == (b - a) * 1024
  {
    var from := (j.lba + a) * CD_SECTOR;
    seq((b - a) * 1024, k requires 0 <= k < (b - a) * 1024 => Word(j.image[from + 2 * k], j.image[from + 2 * k + 1]))
  }

  function OnDataPort(base: int, ws: seq<int>): (e: seq<Event>)
    ensures |e| == |ws|
  {
    seq(|ws|, k requires 0 <= k < |ws| => BusWrite((base + 255) % U16, ws[k]))
  }

  function ChunkBytes(j: Stream, a: int, b: int): (data: seq<int>)
    requires GoodStream(j) && 0 <= a < b <= j.got
    ensures |data| == (b - a) * CD_SECTOR
  {
    j.image[(j.lba + a) * CD_SECTOR..(j.lba + b) * CD_SECTOR]
  }

  /** The registers that announce a chunk of c sectors. */
  function ChunkRegs(r: Regs, c: int): Regs {
    r.(pktIoSize := c * 1024, cylinder := c * CD_SECTOR, sectorCount := 2, error := 0, status := RDY + DRQ + IRQ)
  }

  function CdBlock(base: int, r: Regs): (e: seq<Event>)
    ensures |e| == 6
  {
    BlockOf(base, RegBytes(r, true))
  }

  /** Where the chunk that ends after m sectors began. */
  function Begin(j: Stream, m: int): (a: int)
    requires GoodStream(j) && 0 < m
    ensures 0 <= a < m && m - a <= 8
    ensures a % Width(j.limit) == 0
  {
    BeginBounds(m, Width(j.limit));
    (m - 1) / Width(j.limit) * Width(j.limit)
  }

  lemma BeginBounds(m: int, w: int)
    requires 0 < m && 0 < w
    ensures var a := (m - 1) / w * w; 0 <= a < m && m - a <= w && a % w == 0
  {
    var q := (m - 1) / w;
    DivMod(m - 1, w);
    DivBounds(m - 1, w);
    DivUnique(q * w, w, q, 0);
  }

  /** A place where one chunk ends and the next begins. */
  predicate Boundary(j: Stream, m: int)
    requires GoodStream(j)
  {
    0 <= m <= j.got && (m % Width(j.limit) == 0 || m == j.n)
  }

  lemma NextMultiple(m: int, g: int, w: int)
    requires w > 0 && m % w == 0 && g % w == 0 && m < g
    ensures m + w <= g
  {
    DivMod(m, w);
    DivMod(g, w);
    var a, b := m / w, g / w;
    if b <= a { MulLe(b, a, w); }
    MulLe(a + 1, b, w);
    assert (a + 1) * w == w * a + w && b * w == w * b;
  }

  lemma RoundDown(m: int, w: int, c: int)
    requires w > 0 && m % w == 0 && 1 <= c <= w
    ensures (m + c - 1) / w * w == m && (c == w ==> (m + c) % w == 0)
  {
    var q := m / w;
    DivMod(m, w);
    DivUnique(m + c - 1, w, q, c - 1);
    if c == w { DivUnique(m + c, w, q + 1, 0); }
  }

  lemma BeginOfNext(j: Stream, m: int)
    requires GoodStream(j) && Boundary(j, m) && m < j.got
    ensures var b := m + ChunkOf(j, j.n - m); Boundary(j, b) && Begin(j, b) == m
  {
    var w, c := Width(j.limit), ChunkOf(j, j.n - m);
    assert (c == w || m + c == j.n) && c <= w;
    if j.got < j.n { NextMultiple(m, j.got, w); }
    hide Width, ChunkOf;
    RoundDown(m, w, c);
  }

  /** Everything on the bus when the first m sectors are out and announced. */
  function Streamed(j: Stream, m: int): seq<Event>
    requires GoodStream(j) && m <= j.got
    decreases m
  {
    if m <= 0 then []
    else
      var a := Begin(j, m);
      Streamed(j, a) + OnDataPort(j.base, ChunkWords(j, a, m)) + CdBlock(j.base, ChunkRegs(j.r, m - a))
  }

  /** The registers once m sectors are out. */
  function StreamRegs(j: Stream, m: int): Regs
    requires GoodStream(j)
  {
    if m <= 0 then j.r else ChunkRegs(j.r, m - Begin(j, m))
  }

  /** What the read ends with: nothing, or a range that leaves the image. */
  function EndSense(j: Stream): Sense {
    if j.got == j.n then NO_SENSE else Sense(5, 0x21, 0)
  }

  /** The registers at the end: ready and interrupt, and the error if the range leaves the image. */
  function EndRegs(j: Stream): Regs
    requires GoodStream(j)
  {
    StreamRegs(j, j.got).(sectorCount := 3, pktIoSize := 0,
                          error := if j.got == j.n then 0 else 0x50,
                          status := if j.got == j.n then RDY + IRQ else RDY + IRQ + ERR)
  }

  // ---------------------------------------------------------------- the invariant

  /** m sectors are taken from the image. */
  predicate At(j: Stream, d: Device, m: int)
    requires GoodStream(j)
  {
    && d.base == j.base && d.cdrom && d.image == j.image && d.packet.limit == j.limit
    && Boundary(j, m)
    && d.packet.remaining == j.n - m
    && (m < j.n ==> d.packet.lba == j.lba + m)
  }

  predicate Sending(j: Stream, d: Device, m: int, k: int, tr: seq<Event>)
    requires GoodStream(j)
  {
    && At(j, d, m) && 0 < m
    && var a := Begin(j, m);
    && d.packet.data == ChunkBytes(j, a, m)
    && d.regs == StreamRegs(j, m)
    && 0 <= k <= (m - a) * 1024
    && tr == Streamed(j, a) + OnDataPort(j.base, ChunkWords(j, a, m))[..k]
  }

  predicate Publishing(j: Stream, d: Device, m: int, k: int, tr: seq<Event>)
    requires GoodStream(j)
  {
    && At(j, d, m) && 0 < m
    && var a := Begin(j, m);
    && d.regs == StreamRegs(j, m)
    && d.next == PACKET_READ_WAIT_REQ
    && 0 <= k <= 6
    && tr == Streamed(j, a) + OnDataPort(j.base, ChunkWords(j, a, m)) + CdBlock(j.base, d.regs)[..k]
  }

  predicate Ready(j: Stream, d: Device, m: int, tr: seq<Event>)
    requires GoodStream(j)
  {
    At(j, d, m) && d.regs == StreamRegs(j, m) && tr == Streamed(j, m)
  }

  predicate Closing(j: Stream, d: Device, k: int, tr: seq<Event>)
    requires GoodStream(j)
  {
    && At(j, d, j.got)
    && d.regs == EndRegs(j)
    && d.next == IDLE
    && d.sense == EndSense(j)
    && 0 <= k <= 6
    && tr == Streamed(j, j.got) + CdBlock(j.base, d.regs)[..k]
  }

  predicate Finished(j: Stream, d: Device, tr: seq<Event>)
    requires GoodStream(j)
  {
    At(j, d, j.got) && d.regs == EndRegs(j) && d.sense == EndSense(j)
    && tr == Streamed(j, j.got) + CdBlock(j.base, EndRegs(j))
  }

  function Done(j: Stream, d: Device): int {
    j.n - d.packet.remaining
  }

  predicate StreamInv(j: Stream, d: Device, tr: seq<Event>)
    requires GoodStream(j)
  {
    var m := Done(j, d);
    match d.state
    case PACKET_SEND => Sending(j, d, m, d.cnt, tr)
    case SET_REGS => Publishing(j, d, m, 0, tr) || Closing(j, d, 0, tr)
    case SET_REGS_SEND =>
      d.buf == RegBytes(d.regs, true) && (Publishing(j, d, m, d.cnt, tr) || Closing(j, d, d.cnt, tr))
    case PACKET_READ_WAIT_REQ => Ready(j, d, m, tr)
    case IDLE => Finished(j, d, tr)
    case _ => false
  }

  // ---------------------------------------------------------------- preparing a chunk

  lemma SentUncut(d: Device, data: seq<int>, c: int)
    requires 0 < c <= 8 && |data| == c * CD_SECTOR && (d.packet.limit == 0 || |data| <= d.packet.limit)
    ensures SendPacketData(d, data) ==
              d.(packet := d.packet.(data := data), regs := ChunkRegs(d.regs, c), cnt := 0, state := PACKET_SEND)
  {
    assert Truncate(data, d.packet.limit) == data && PadEven(data) == data;
    hide Truncate, PadEven;
    assert |data| / 2 % U16 == c * 1024 && |data| % U32 == c * CD_SECTOR;
  }

  /** The next chunk does not go past what is handed over. */
  lemma ChunkFits(j: Stream, m: int)
    requires GoodStream(j) && Boundary(j, m) && m < j.got
    ensures m + ChunkOf(j, j.n - m) <= j.got
  {
    BeginOfNext(j, m);
    hide ChunkOf, Begin;
  }

  lemma ChunkFound(j: Stream, d: Device, m: int)
    requires GoodStream(j) && At(j, d, m) && m < j.got
    ensures var c := ChunkOf(j, j.n - m);
            && m + c <= j.got
            && d.packet.remaining > 0 && ChunkInImage(d) && ChunkData(d) == ChunkBytes(j, m, m + c)
            && AdvanceChunk(d.packet) == d.packet.(lba := (j.lba + m + c) % U32, remaining := j.n - (m + c))
  {
    ChunkIs(j, d.packet);
    ChunkFits(j, m);
    hide ChunkSectors, ChunkOf, Boundary, Width;
  }

  /** The device as `PrepareCdromRead` leaves it when a chunk goes out. */
  function WithChunk(j: Stream, d: Device, m: int): Device
    requires GoodStream(j) && Boundary(j, m) && m < j.got
  {
    var c := ChunkOf(j, j.n - m);
    ChunkFits(j, m);
    d.(packet := d.packet.(lba := (j.lba + m + c) % U32, remaining := j.n - (m + c), data := ChunkBytes(j, m, m + c)),
       regs := ChunkRegs(d.regs, c), cnt := 0, state := PACKET_SEND)
  }

  /** No byte of a chunk is cut off or padded. */
  lemma ChunkIsSent(j: Stream, d: Device, m: int)
    requires GoodStream(j) && At(j, d, m) && m < j.got
    ensures PrepareCdromRead(d) == WithChunk(j, d, m)
  {
    var c := ChunkOf(j, j.n - m);
    ChunkFound(j, d, m);
    SentUncut(d.(packet := AdvanceChunk(d.packet)), ChunkBytes(j, m, m + c), c);
    hide ChunkSectors, ChunkOf, ChunkData, ChunkBytes, ChunkInImage, Boundary, AdvanceChunk, SendPacketData, ChunkRegs, FinishPacket;
  }

  lemma ChunkAt(j: Stream, d: Device, m: int)
    requires GoodStream(j) && At(j, d, m) && m < j.got && d.regs == StreamRegs(j, m)
    ensures var b := m + ChunkOf(j, j.n - m); var t := WithChunk(j, d, m);
            At(j, t, b) && t.regs == StreamRegs(j, b) && t.packet.data == ChunkBytes(j, m, b) && 0 < b && Begin(j, b) == m
  {
    BeginOfNext(j, m);
    StreamRegsNext(j, m);
    hide ChunkOf, ChunkBytes, Boundary, StreamRegs, Begin, ChunkRegs;
    var b := m + ChunkOf(j, j.n - m);
    assert b < j.n ==> (j.lba + b) % U32 == j.lba + b;
  }

  lemma ChunkStarts(j: Stream, d: Device, m: int, tr: seq<Event>)
    requires GoodStream(j) && Ready(j, d, m, tr) && m < j.got
    ensures var t := PrepareCdromRead(d); var b := m + ChunkOf(j, j.n - m);
            t.state == PACKET_SEND && t.cnt == 0 && Sending(j, t, b, 0, tr)
  {
    var b, t := m + ChunkOf(j, j.n - m), WithChunk(j, d, m);
    ChunkIsSent(j, d, m);
    ChunkAt(j, d, m);
    var e := OnDataPort(j.base, ChunkWords(j, m, b));
    assert tr == Streamed(j, m) + e[..0];
    assert t.state == PACKET_SEND && t.cnt == 0;
    hide ChunkOf, ChunkBytes, At, PrepareCdromRead, Streamed, OnDataPort, ChunkWords, StreamRegs, Begin, WithChunk;
    assert Sending(j, t, b, 0, tr);
  }

  /** With everything handed over there is nothing left, or nothing more in the image. */
  lemma StreamStops(j: Stream, d: Device, tr: seq<Event>)
    requires GoodStream(j) && Valid(d) && Ready(j, d, j.got, tr)
    ensures PrepareCdromRead(d) == FinishPacket(d, EndSense(j))
  {
    if j.got < j.n {
      ChunkIs(j, d.packet);
      hide ChunkSectors, Streamed, StreamRegs, Boundary, FinishPacket, Valid, Width;
      assert !ChunkInImage(d);
    } else {
      hide Streamed, StreamRegs, Boundary, FinishPacket, Valid;
    }
  }

  lemma StreamEnds(j: Stream, d: Device, tr: seq<Event>)
    requires GoodStream(j) && Valid(d) && Ready(j, d, j.got, tr)
    ensures var t := PrepareCdromRead(d); t.state == SET_REGS && Closing(j, t, 0, tr)
  {
    var t := FinishPacket(d, EndSense(j));
    assert PrepareCdromRead(d) == t by { StreamStops(j, d, tr); }
    assert CdBlock(j.base, EndRegs(j))[..0] == [] && Streamed(j, j.got) + [] == Streamed(j, j.got);
    hide Boundary, PrepareCdromRead, Streamed, CdBlock, StreamRegs;
    assert Closing(j, t, 0, tr);
  }

  lemma StreamRegsNext(j: Stream, m: int)
    requires GoodStream(j) && Boundary(j, m) && m < j.got
    ensures var c := ChunkOf(j, j.n - m); StreamRegs(j, m + c) == ChunkRegs(StreamRegs(j, m), c)
  {
    BeginOfNext(j, m);
    hide ChunkOf, Boundary, Begin;
  }

  // ---------------------------------------------------------------- one acting tick, state by state

  lemma ChunkWordAt(j: Stream, a: int, b: int, k: int)
    requires GoodStream(j) && 0 <= a < b <= j.got && 0 <= k < (b - a) * 1024
    ensures var data := ChunkBytes(j, a, b);
            OnDataPort(j.base, ChunkWords(j, a, b))[k] == BusWrite((j.base + 255) % U16, Word(data[2 * k], data[2 * k + 1]))
  {
  }

  lemma PacketWordOut(s: Sys)
    requires Valid(s.d) && s.d.state == PACKET_SEND && s.d.cnt < s.d.regs.pktIoSize
    ensures var t := OnPacketSend(s); var k := s.d.cnt;
            && 0 <= 2 * k && 2 * k + 1 < |s.d.packet.data|
            && t.d == s.d.(cnt := k + 1)
            && Emitted(t.bus) == [BusWrite((s.d.base + 255) % U16, Word(s.d.packet.data[2 * k], s.d.packet.data[2 * k + 1]))]
  {
    hide ValidDrive, ValidPacket, PointerInImage;
  }

  lemma SendingGrows(j: Stream, d: Device, m: int, tr: seq<Event>)
    requires GoodStream(j) && Sending(j, d, m, d.cnt, tr) && d.cnt < (m - Begin(j, m)) * 1024
    ensures Sending(j, d.(cnt := d.cnt + 1), m, d.cnt + 1, tr + [OnDataPort(j.base, ChunkWords(j, Begin(j, m), m))[d.cnt]])
  {
    var a, k := Begin(j, m), d.cnt;
    var e := OnDataPort(j.base, ChunkWords(j, a, m));
    PrefixGrows(e, k);
    assert Streamed(j, a) + e[..k] + [e[k]] == Streamed(j, a) + (e[..k] + [e[k]]);
    hide Boundary, Streamed, OnDataPort, ChunkWords, ChunkBytes, StreamRegs, Begin;
    assert Sending(j, d.(cnt := k + 1), m, k + 1, tr + [e[k]]);
  }

  lemma SendingFacts(j: Stream, d: Device, m: int, k: int, tr: seq<Event>)
    requires GoodStream(j) && Sending(j, d, m, k, tr)
    ensures 0 < m <= j.got && d.base == j.base && d.packet.data == ChunkBytes(j, Begin(j, m), m)
    ensures d.regs.pktIoSize == (m - Begin(j, m)) * 1024
  {
    hide Streamed, OnDataPort, ChunkWords, ChunkBytes, Begin;
  }

  lemma DataStep(j: Stream, s: Sys, m: int, tr: seq<Event>)
    requires GoodStream(j) && Valid(s.d) && s.d.state == PACKET_SEND && Sending(j, s.d, m, s.d.cnt, tr)
    requires s.d.cnt < s.d.regs.pktIoSize
    ensures var t := OnPacketSend(s);
            t.d == s.d.(cnt := s.d.cnt + 1) && Sending(j, t.d, m, t.d.cnt, tr + Emitted(t.bus))
  {
    hide Valid, Sending, OnDataPort, ChunkWords, ChunkBytes, Begin, OnPacketSend, Emitted, GoodStream;
    SendingFacts(j, s.d, m, s.d.cnt, tr);
    assert 0 <= s.d.cnt by { CntNatural(s.d); }
    PacketWordOut(s);
    ChunkWordAt(j, Begin(j, m), m, s.d.cnt);
    SendingGrows(j, s.d, m, tr);
  }

  lemma CntNatural(d: Device)
    requires Valid(d)
    ensures 0 <= d.cnt
  {
  }

  lemma SentStep(j: Stream, s: Sys, m: int, tr: seq<Event>)
    requires GoodStream(j) && Valid(s.d) && s.d.state == PACKET_SEND && Sending(j, s.d, m, s.d.cnt, tr)
    requires s.d.cnt >= s.d.regs.pktIoSize
    ensures var t := OnPacketSend(s); t.bus == s.bus && t.d.state == SET_REGS && t.d.packet == s.d.packet && Publishing(j, t.d, m, 0, tr)
  {
    var a := Begin(j, m);
    var e := OnDataPort(j.base, ChunkWords(j, a, m));
    assert s.d.regs.pktIoSize == (m - a) * 1024;
    assert e[..s.d.cnt] == e;
    assert CdBlock(j.base, s.d.regs)[..0] == [] && tr + [] == tr;
    hide Boundary, Streamed, OnDataPort, ChunkWords, ChunkBytes, StreamRegs, Begin, Valid, CdBlock;
    assert Publishing(j, OnPacketSend(s).d, m, 0, tr);
  }

  lemma PublishStep(j: Stream, d: Device, m: int, tr: seq<Event>)
    requires GoodStream(j)
    requires d.cdrom
    ensures var t := OnSetRegs(d);
            && t == d.(buf := RegBytes(d.regs, true), cnt := 0, state := SET_REGS_SEND)
            && (Publishing(j, d, m, 0, tr) ==> Publishing(j, t, m, 0, tr))
            && (Closing(j, d, 0, tr) ==> Closing(j, t, 0, tr))
  {
    hide Boundary, Streamed, OnDataPort, ChunkWords, StreamRegs, Begin, CdBlock, RegBytes;
  }

  lemma CountsStep(j: Stream, d: Device, m: int, tr: seq<Event>)
    requires GoodStream(j) && 0 <= d.cnt < 6
    ensures var t := d.(cnt := d.cnt + 1); var out := tr + [CdBlock(d.base, d.regs)[d.cnt]];
            && (Publishing(j, d, m, d.cnt, tr) ==> Publishing(j, t, m, t.cnt, out))
            && (Closing(j, d, d.cnt, tr) ==> Closing(j, t, t.cnt, out))
  {
    var b := CdBlock(d.base, d.regs);
    PrefixGrows(b, d.cnt);
    hide Boundary, Streamed, OnDataPort, ChunkWords, StreamRegs, Begin, CdBlock;
    forall a: seq<Event> ensures a + b[..d.cnt] + [b[d.cnt]] == a + b[..d.cnt + 1] {
      assert a + b[..d.cnt] + [b[d.cnt]] == a + (b[..d.cnt] + [b[d.cnt]]);
    }
  }

  lemma PublishedStep(j: Stream, d: Device, m: int, tr: seq<Event>)
    requires GoodStream(j)
    ensures var t := d.(cnt := 0, state := d.next);
            && (Publishing(j, d, m, 6, tr) ==> t.state == PACKET_READ_WAIT_REQ && Ready(j, t, m, tr))
            && (Closing(j, d, 6, tr) ==> t.state == IDLE && Finished(j, t, tr))
  {
    var b := CdBlock(d.base, d.regs);
    assert b[..6] == b;
    hide Boundary, OnDataPort, ChunkWords, CdBlock, EndRegs;
  }

  // ---------------------------------------------------------------- one acting tick

  /** Acting ticks for the chunks still handed over when `left` sectors of the read remain, and for the ending. */
  function ChunksLeft(j: Stream, left: int): int
    requires GoodStream(j)
    decreases left
  {
    if left <= j.n - j.got then 8 else 1024 * ChunkOf(j, left) + 10 + ChunksLeft(j, left - ChunkOf(j, left))
  }

  function StreamLeft(j: Stream, d: Device): int
    requires GoodStream(j)
  {
    var later := 1 + ChunksLeft(j, d.packet.remaining);
    match d.state
    case PACKET_SEND => d.regs.pktIoSize - d.cnt + 9 + later
    case SET_REGS => if d.next == IDLE then 8 else 8 + later
    case SET_REGS_SEND => 7 - d.cnt + (if d.next == IDLE then 0 else later)
    case PACKET_READ_WAIT_REQ => later
    case _ => 0
  }

  predicate Advances(j: Stream, s: Sys, t: Sys, tr: seq<Event>)
    requires GoodStream(j)
  {
    && StreamInv(j, t.d, tr + Emitted(t.bus))
    && StreamLeft(j, t.d) == StreamLeft(j, s.d) - 1
    && t.d.packet.remaining <= s.d.packet.remaining
  }

  lemma InvControl(j: Stream, d: Device, tr: seq<Event>)
    requires GoodStream(j) && StreamInv(j, d, tr)
    ensures d.base == j.base && d.cdrom
    ensures d.state == PACKET_SEND ==> d.cnt <= d.regs.pktIoSize
    ensures d.state == SET_REGS_SEND ==>
              d.buf == RegBytes(d.regs, true) && 0 <= d.cnt <= 6
              && (Publishing(j, d, Done(j, d), d.cnt, tr) ==> d.next == PACKET_READ_WAIT_REQ)
              && (Closing(j, d, d.cnt, tr) ==> d.next == IDLE && d.packet.remaining == j.n - j.got)
    ensures d.state == PACKET_READ_WAIT_REQ ==> 0 <= d.packet.remaining
  {
    hide Streamed, OnDataPort, ChunkWords, ChunkBytes, Begin, CdBlock, RegBytes, EndRegs;
  }

  lemma AtIs(j: Stream, d: Device, m: int, k: int, tr: seq<Event>)
    requires GoodStream(j) && (Sending(j, d, m, k, tr) || Publishing(j, d, m, k, tr) || Ready(j, d, m, tr))
    ensures Done(j, d) == m && d.packet.remaining == j.n - m && Boundary(j, m)
  {
    hide Streamed, OnDataPort, ChunkWords, ChunkBytes, Begin, CdBlock, StreamRegs, Boundary;
  }

  lemma DataAdvances(j: Stream, s: Sys, tr: seq<Event>)
    requires GoodStream(j) && Valid(s.d) && s.d.state == PACKET_SEND && !s.bus.write && StreamInv(j, s.d, tr)
    ensures Advances(j, s, OnPacketSend(s), tr)
  {
    hide Valid, Sending, Publishing, Ready, Closing, Finished, OnPacketSend, ChunksLeft, GoodStream;
    assert tr + [] == tr;
    var m := Done(j, s.d);
    InvControl(j, s.d, tr);
    if s.d.cnt < s.d.regs.pktIoSize {
      DataStep(j, s, m, tr);
    } else {
      SentStep(j, s, m, tr);
      PacketSent(s);
    }
  }

  lemma PacketSent(s: Sys)
    requires Valid(s.d) && s.d.state == PACKET_SEND && s.d.cnt >= s.d.regs.pktIoSize
    ensures OnPacketSend(s) == Sys(s.d.(cnt := 0, state := SET_REGS, next := PACKET_READ_WAIT_REQ), s.bus)
  {
    hide Valid;
  }

  lemma PublishAdvances(j: Stream, s: Sys, tr: seq<Event>)
    requires GoodStream(j) && s.d.state == SET_REGS && !s.bus.write && StreamInv(j, s.d, tr)
    ensures Advances(j, s, Sys(OnSetRegs(s.d), s.bus), tr)
  {
    hide Sending, Publishing, Ready, Closing, Finished, OnSetRegs, ChunksLeft, GoodStream, RegBytes;
    assert tr + [] == tr;
    InvControl(j, s.d, tr);
    PublishStep(j, s.d, Done(j, s.d), tr);
  }

  lemma SendAdvances(j: Stream, s: Sys, tr: seq<Event>)
    requires GoodStream(j) && Valid(s.d) && s.d.state == SET_REGS_SEND && !s.bus.write && StreamInv(j, s.d, tr)
    ensures Advances(j, s, OnSetRegsSend(s), tr)
  {
    hide Valid, Sending, Publishing, Ready, Closing, Finished, OnSetRegsSend, ChunksLeft, GoodStream, RegBytes, BlockOf;
    assert tr + [] == tr;
    InvControl(j, s.d, tr);
    if s.d.cnt < 6 {
      SendStep(s);
      CountsStep(j, s.d, Done(j, s.d), tr);
    } else {
      SentControl(s);
      PublishedStep(j, s.d, Done(j, s.d), tr);
    }
  }

  lemma ChunkAdvances(j: Stream, s: Sys, t: Device, m: int, tr: seq<Event>)
    requires GoodStream(j) && s.d.state == PACKET_READ_WAIT_REQ && !s.bus.write && 0 <= m < j.got && Boundary(j, m)
    requires s.d.packet.remaining == j.n - m
    requires t.state == PACKET_SEND && t.cnt == 0 && Sending(j, t, m + ChunkOf(j, j.n - m), 0, tr)
    ensures Advances(j, s, Sys(t, s.bus), tr) && t.packet.remaining < s.d.packet.remaining
  {
    var c := ChunkOf(j, j.n - m);
    AtIs(j, t, m + c, 0, tr);
    SendingSize(j, t, m, tr);
    assert ChunksLeft(j, j.n - m) == 1024 * c + 10 + ChunksLeft(j, j.n - m - c);
    hide Sending, Publishing, Ready, Closing, Finished, GoodStream, ChunkOf, Boundary, ChunksLeft;
    assert tr + [] == tr;
    assert StreamInv(j, t, tr);
  }

  lemma EndAdvances(j: Stream, s: Sys, t: Device, tr: seq<Event>)
    requires GoodStream(j) && s.d.state == PACKET_READ_WAIT_REQ && !s.bus.write && s.d.packet.remaining == j.n - j.got
    requires t.state == SET_REGS && Closing(j, t, 0, tr)
    ensures Advances(j, s, Sys(t, s.bus), tr)
  {
    ClosingControl(j, t, tr);
    hide Sending, Publishing, Ready, Closing, Finished, GoodStream, ChunkOf, Boundary;
    assert tr + [] == tr;
    assert StreamInv(j, t, tr);
  }

  lemma PrepareAdvances(j: Stream, s: Sys, tr: seq<Event>)
    requires GoodStream(j) && Valid(s.d) && s.d.state == PACKET_READ_WAIT_REQ && !s.bus.write && StreamInv(j, s.d, tr)
    ensures Advances(j, s, Sys(PrepareCdromRead(s.d), s.bus), tr)
    ensures s.d.packet.remaining > j.n - j.got ==> PrepareCdromRead(s.d).packet.remaining < s.d.packet.remaining
  {
    var t := PrepareCdromRead(s.d);
    var m := Done(j, s.d);
    hide Valid, Sending, Publishing, Ready, Closing, Finished, PrepareCdromRead, ChunkOf, Advances, Boundary, ChunksLeft, StreamLeft;
    InvControl(j, s.d, tr);
    AtIs(j, s.d, m, 0, tr);
    BoundaryInRange(j, m);
    hide GoodStream;
    if m < j.got {
      ChunkStarts(j, s.d, m, tr);
      ChunkAdvances(j, s, t, m, tr);
    } else {
      StreamEnds(j, s.d, tr);
      EndAdvances(j, s, t, tr);
    }
  }

  lemma BoundaryInRange(j: Stream, m: int)
    requires GoodStream(j) && Boundary(j, m)
    ensures 0 <= m <= j.got <= j.n
  {
  }

  lemma SendingSize(j: Stream, d: Device, m: int, tr: seq<Event>)
    requires GoodStream(j) && Boundary(j, m) && m < j.got && Sending(j, d, m + ChunkOf(j, j.n - m), 0, tr)
    ensures d.regs.pktIoSize == 1024 * ChunkOf(j, j.n - m)
  {
    BeginOfNext(j, m);
    SendingFacts(j, d, m + ChunkOf(j, j.n - m), 0, tr);
    hide Sending, Begin, ChunkOf, ChunkBytes;
  }

  lemma ClosingControl(j: Stream, d: Device, tr: seq<Event>)
    requires GoodStream(j) && Closing(j, d, 0, tr)
    ensures d.next == IDLE && d.packet.remaining == j.n - j.got
  {
    hide Streamed, CdBlock, EndRegs, Boundary;
  }
}
