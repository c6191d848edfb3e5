/**
  The transition function of the simulated IDE/ATAPI device: one application of `Step`
  is one call of the device's tick on the shared management bus.

  Everything here is a value.  `IdeDevice` holds the object whose fields the device
  updates in place; its methods are proved against the functions of this module.
  Numbers are unbounded: every truncation of the original's integer types is written
  out, and `IdeWidths` proves that each field stays within its type.
 */
module IdeModel {

  datatype Option<+T> = None | Some(value: T)

  const RDY := 0x40
  const DSC := 0x10
  const DRQ := 0x08
  const IRQ := 0x04
  const END := 0x02
  const ERR := 0x01
  const SECTOR := 512
  const CD_SECTOR := 2048
  const U16 := 0x1_0000
  const U32 := 0x1_0000_0000
  const ZERO12: seq<int> := [0, 0, 0, 0, 0, 0, 0, 0, 0, 0, 0, 0]

  datatype State =
    | INITIAL | IDLE | GET_RESET_DRIVE | RESET_SET | GET_CMD | DO_CMD | SEND_ID
    | SET_REGS | SET_REGS_SEND
    | READ | READ_REGS | READ_SEND | READ_WAIT_REQ
    | WRITE | WRITE_REGS | WRITE_WAIT_REQ | WRITE_RECV
    | PACKET_WAIT_REQ | PACKET_RECV | PACKET_SEND | PACKET_READ_WAIT_REQ | PACKET_HANDLE

  datatype Regs = Regs(ioSize: int, error: int, sectorCount: int, sector: int, cylinder: int,
                       head: int, drv: int, lba: int, cmd: int, pktIoSize: int, status: int)

  datatype Drive = Drive(present: bool, cylinders: int, heads: int, spt: int,
                         totalSectors: int, spb: int, id: seq<int>)

  /** The task file while it is fetched, and the command byte. */
  datatype Latch = Latch(sector: int, sectorCount: int, cylinder: int,
                         drvAddr: int, cmd: int, features: int)

  datatype Packet = Packet(cdb: seq<int>, data: seq<int>, lba: int, remaining: int, limit: int)

  datatype Sense = Sense(key: int, asc: int, ascq: int)

  /** `words` is the sector pointer, as a byte offset into `image`. */
  datatype Device = Device(
    id: int, base: int, state: State, next: State, regs: Regs, drive: Drive,
    image: seq<int>, name: seq<int>, words: Option<int>, latch: Latch, buf: seq<int>,
    packet: Packet, sense: Sense, cnt: int, irqPending: int, cooldown: bool,
    jitterDelay: int, debug: bool, cdrom: bool)

  /** The device's outputs; address and data keep their values between transfers. */
  datatype Bus = Bus(address: int, writedata: int, read: bool, write: bool)

  datatype Sys = Sys(d: Device, bus: Bus)

  /** What one tick sees: the core's outputs, and the jitter generator's next value (0 when
      jitter is off). */
  datatype Input = Input(reset: bool, request0: int, request1: int, readdata: int,
                         jitter: int)

  const RESET_REGS := Regs(0, 0, 1, 1, 0, 0, 0, 0, 0, 0, RDY)
  const NO_SENSE := Sense(0, 0, 0)

  predicate Bytes(s: seq<int>) {
    forall k | 0 <= k < |s| :: 0 <= s[k] < 0x100
  }

  predicate ValidDrive(g: Drive) {
    1 <= g.heads <= 16 && 1 <= g.spt <= 255 && |g.id| == 256
  }

  predicate ValidPacket(p: Packet) {
    |p.cdb| == 12 && Bytes(p.cdb) && 0 <= p.lba && 0 <= p.remaining && 0 <= p.limit
  }

  predicate PointerInImage(image: seq<int>, p: Option<int>) {
    p.Some? ==> 0 <= p.value && p.value + SECTOR <= |image|
  }

  predicate ValidCount(d: Device) {
    && 0 <= d.cnt
    && (d.state == WRITE_RECV ==> d.cnt <= 256)
    && (d.state == PACKET_RECV ==> d.cnt <= 6)
    && (d.state == PACKET_SEND ==> 2 * d.regs.pktIoSize <= |d.packet.data|)
  }

  /** The states a published register block can hand over to. */
  predicate FollowsPublishing(n: State) {
    n == IDLE || n == RESET_SET || n == READ_WAIT_REQ || n == WRITE_WAIT_REQ
    || n == PACKET_WAIT_REQ || n == PACKET_READ_WAIT_REQ
  }

  /** What a device has when it is made around a good drive, and every tick keeps; `Step` needs it for its indices. */
  predicate Valid(d: Device) {
    && ValidDrive(d.drive)
    && 0 <= d.regs.head < 16
    && (d.irqPending == 0 || d.irqPending == IRQ)
    && PointerInImage(d.image, d.words)
    && |d.buf| == 12
    && ValidPacket(d.packet)
    && ValidCount(d)
    && FollowsPublishing(d.next)
  }

  /** The device as its object is made, around an image and a drive. */
  function Made(id: int, base: int, image: seq<int>, name: seq<int>, cdrom: bool, drive: Drive): Device {
    Device(id, base, INITIAL, IDLE, RESET_REGS, drive, image, name, None, Latch(0, 0, 0, 0, 0, 0), ZERO12,
           Packet(ZERO12, [], 0, 0, 0), NO_SENSE, 0, 0, false, 0, false, cdrom)
  }

  function Request(d: Device, i: Input): int {
    if d.id != 0 then i.request1 else i.request0
  }

  function Word(lo: int, hi: int): int {
    lo + 0x100 * hi
  }

  // ---------------------------------------------------------------- bus pulses

  function PulseRead(b: Bus, addr: int): Bus {
    Bus(addr % U16, b.writedata, true, false)
  }

  function PulseWrite(b: Bus, addr: int, data: int): Bus {
    Bus(addr % U16, data, false, true)
  }

  // ---------------------------------------------------------------- sector addresses

  function GetLba(r: Regs, g: Drive): int {
    if r.lba != 0 then
      r.sector % 0x100 + r.cylinder % U16 * 0x100 + r.head % 0x10 * 0x100_0000
    else
      var track := ((r.cylinder * g.heads) % U32 + r.head) % U32;
      ((track * g.spt) % U32 + r.sector - 1) % U32
  }

  function PutLba(r: Regs, g: Drive, lba: int): Regs
    requires g.heads > 0 && g.spt > 0
  {
    if r.lba != 0 then
      r.(sector := lba % 0x100, cylinder := lba / 0x100 % U16, head := lba / 0x100_0000 % 0x10)
    else
      var hspt := g.heads * g.spt;
      assert hspt > 0;
      r.(cylinder := lba / hspt,
         head := lba % hspt / g.spt % 0x100,
         sector := (lba % hspt % g.spt + 1) % U16)
  }

  function NextLba(r: Regs, g: Drive): Regs
    requires g.heads > 0 && g.spt > 0
  {
    PutLba(r, g, (GetLba(r, g) + 1) % U32)
  }

  function SetGeometry(d: Device, sectors: int, heads: int): Device
    requires sectors >= 0 && heads >= 0
  {
    var h := if heads != 0 then heads else 16;
    var s := if sectors != 0 then sectors else 63;
    assert h * s > 0;
    var c := d.drive.totalSectors / (h * s);
    var g := d.drive.(heads := h, spt := s, cylinders := if c > 0xFFFF then 0xFFFF else c);
    d.(drive := g.(id := Identify(d, g)))
  }

  // ---------------------------------------------------------------- IDENTIFY table of a disk

  /** Two characters of a string padded with blanks, the first in the high byte. */
  function IdentChars(text: seq<int>, k: nat): int {
    Word(if 2 * k + 1 < |text| then text[2 * k + 1] else 0x20,
         if 2 * k < |text| then text[2 * k] else 0x20)
  }

  const SERIAL_HD: seq<int> := [0x41, 0x4F, 0x48, 0x44, 0x30, 0x30, 0x30, 0x30]

  function IdentifyWord(name: seq<int>, g: Drive, k: nat): int {
    if k == 0 then 0x0040
    else if k == 1 || k == 54 then g.cylinders
    else if k == 3 || k == 55 then g.heads
    else if k == 4 then 512 * g.spt % U16
    else if k == 5 || k == 21 then 512
    else if k == 6 || k == 56 then g.spt
    else if 10 <= k < 20 then IdentChars(SERIAL_HD, k - 10)
    else if k == 20 then 3
    else if k == 22 then 4
    else if 23 <= k < 27 then IdentChars([], k - 23)
    else if 27 <= k < 47 then IdentChars(name, k - 27)
    else if k == 47 then 0x8020
    else if k == 48 then 1
    else if k == 49 then 0x0200
    else if k == 50 then 0x4001
    else if k == 51 || k == 52 then 0x0200
    else if k == 53 then 7
    else if k == 57 || k == 60 || k == 100 then g.totalSectors % U16
    else if k == 58 || k == 61 || k == 101 then g.totalSectors / U16
    else if k == 59 then 0x0110
    else if 65 <= k < 69 then 120
    else if k == 80 then 0x007E
    else if k == 82 || k == 85 then 0x4200
    else if k == 83 || k == 86 then 0x7000
    else if k == 84 || k == 87 then 0x4000
    else if k == 93 then 0x630B
    else 0
  }

  function Identify(d: Device, g: Drive): (id: seq<int>)
    ensures |id| == 256
  {
    seq(256, k requires k >= 0 => IdentifyWord(d.name, g, k))
  }

  /** A drive as it is declared, of `total` sectors. */
  function NewDrive(total: int): Drive {
    Drive(true, 0, 16, 63, total, 16, seq(256, k => 0))
  }

  /** A device that has opened a disk image. */
  function OpenedDisk(id: int, base: int, image: seq<int>, name: seq<int>): Device {
    SetGeometry(Made(id, base, image, name, false, NewDrive(|image| / SECTOR % U32)), 63, 16)
  }

  const SERIAL_CD: seq<int> := [0x41, 0x4F, 0x43, 0x44, 0x30, 0x30, 0x30, 0x30, 0x30]
  const REVISION_CD: seq<int> := [0x31, 0x2E, 0x30]
  const MODEL_CD: seq<int> := [0x4D, 0x69, 0x53, 0x54, 0x65, 0x72, 0x20, 0x43, 0x44, 0x52, 0x4F, 0x4D]

  function CdIdentifyWord(k: nat): int {
    if k == 0 then 0x8580
    else if 10 <= k < 20 then IdentChars(SERIAL_CD, k - 10)
    else if 23 <= k < 27 then IdentChars(REVISION_CD, k - 23)
    else if 27 <= k < 47 then IdentChars(MODEL_CD, k - 27)
    else if k == 49 then 0x0200
    else if k == 53 then 7
    else if 65 <= k < 69 then 120
    else if k == 80 then 0x007E
    else if k == 82 then 0x0210
    else if k == 83 || k == 84 || k == 87 then 0x4000
    else if k == 85 then 0x4210
    else if k == 93 then 0x630B
    else 0
  }

  /** A device that has opened a CD image: one that is empty or not of whole sectors is refused. */
  function OpenedCd(id: int, base: int, image: seq<int>, name: seq<int>): Option<Device> {
    if |image| == 0 || |image| % CD_SECTOR != 0 then None
    else Some(Made(id, base, image, name, true,
                   NewDrive(|image| / CD_SECTOR % U32).(id := seq(256, k requires k >= 0 => CdIdentifyWord(k)))))
  }

  // ---------------------------------------------------------------- register block

  /** `status | flag`, for a flag that is a single bit, or no bit at all. */
  function SetFlag(status: int, flag: int): int {
    if flag == 0 || status / flag % 2 == 1 then status else status + flag
  }

  /** The drive/head byte; the head is below 16, so its bits are free. */
  function DriveHead(r: Regs): int {
    (if r.lba != 0 then 0xE0 else 0xA0) + (if r.drv != 0 then 0x10 else 0) + r.head
  }

  /** The twelve bytes the device publishes at the end of a step of a command. */
  function RegBytes(r: Regs, cdrom: bool): (b: seq<int>)
    ensures |b| == 12
  {
    [if cdrom then 0x80 else r.ioSize, r.error, r.sectorCount % 0x100, r.sector % 0x100,
     r.cylinder % 0x100, r.cylinder / 0x100 % 0x100, r.cylinder / 0x1_0000 % 0x100, r.cylinder / 0x100_0000 % 0x100,
     r.pktIoSize % 0x100, r.pktIoSize / 0x100 % 0x100, DriveHead(r), r.status]
  }

  function BufWord(b: seq<int>, k: int): int
    requires |b| == 12 && 0 <= k < 6
  {
    Word(b[2 * k], b[2 * k + 1])
  }

  function SettledRegs(r: Regs, cdrom: bool): Regs {
    if !cdrom && r.status / DRQ % 2 == 0 then r.(status := SetFlag(r.status, DSC)) else r
  }

  // ---------------------------------------------------------------- sector data

  predicate SectorInImage(image: seq<int>, lba: int) {
    0 <= lba && (lba + 1) * SECTOR <= |image|
  }

  function SectorPointer(image: seq<int>, lba: int): Option<int> {
    if SectorInImage(image, lba) then Some(lba * SECTOR) else None
  }

  function LoadWord(image: seq<int>, p: Option<int>, k: int): int
    requires PointerInImage(image, p) && 0 <= k < 256
  {
    if p.None? then 0 else Word(image[p.value + 2 * k], image[p.value + 2 * k + 1])
  }

  function StoreWord(image: seq<int>, p: Option<int>, k: int, v: int): (r: seq<int>)
    requires PointerInImage(image, p) && 0 <= k < 256
    ensures |r| == |image|
  {
    if p.None? then image
    else image[p.value + 2 * k := v % 0x100][p.value + 2 * k + 1 := v / 0x100 % 0x100]
  }

  // ---------------------------------------------------------------- ATAPI

  function Be16(s: seq<int>, k: int): int
    requires 0 <= k && k + 1 < |s|
  {
    Word(s[k + 1], s[k]) % U16
  }

  function Be32(s: seq<int>, k: int): int
    requires 0 <= k && k + 3 < |s|
  {
    (Be16(s, k) * U16 + Be16(s, k + 2)) % U32
  }

  function Truncate(data: seq<int>, limit: int): seq<int>
    requires 0 <= limit
  {
    if limit != 0 && |data| > limit then data[..limit] else data
  }

  function PadEven(data: seq<int>): seq<int> {
    if |data| % 2 == 1 then data + [0] else data
  }

  function SendPacketData(d: Device, data: seq<int>): Device
    requires 0 <= d.packet.limit
  {
    var out := PadEven(Truncate(data, d.packet.limit));
    d.(packet := d.packet.(data := out),
       regs := d.regs.(pktIoSize := |out| / 2 % U16, cylinder := |out| % U32,
                       sectorCount := 2, error := 0, status := RDY + DRQ + IRQ),
       cnt := 0,
       state := PACKET_SEND)
  }

  function FinishPacket(d: Device, s: Sense): Device {
    d.(sense := s,
       regs := d.regs.(sectorCount := 3, pktIoSize := 0, error := s.key * 16 % 0x100,
                       status := RDY + IRQ + (if s.key != 0 then ERR else 0)),
       state := SET_REGS, next := IDLE)
  }

  /** How many 2048-byte sectors the next chunk of a read carries. */
  function ChunkSectors(p: Packet): int {
    var s := if p.remaining < 8 then p.remaining else 8;
    var t := if CD_SECTOR <= p.limit && p.limit / CD_SECTOR < s then p.limit / CD_SECTOR else s;
    if t == 0 then 1 else t
  }

  predicate ChunkInImage(d: Device) {
    d.packet.lba * CD_SECTOR + ChunkSectors(d.packet) * CD_SECTOR <= |d.image|
  }

  function ChunkData(d: Device): seq<int>
    requires 0 <= d.packet.lba && 0 <= d.packet.remaining && 0 <= d.packet.limit && ChunkInImage(d)
  {
    var offset := d.packet.lba * CD_SECTOR;
    d.image[offset..offset + ChunkSectors(d.packet) * CD_SECTOR]
  }

  function AdvanceChunk(p: Packet): Packet {
    p.(lba := (p.lba + ChunkSectors(p)) % U32, remaining := p.remaining - ChunkSectors(p))
  }

  function PrepareCdromRead(d: Device): Device
    requires 0 <= d.packet.limit && 0 <= d.packet.lba && 0 <= d.packet.remaining
  {
    if d.packet.remaining == 0 then FinishPacket(d, NO_SENSE)
    else if !ChunkInImage(d) then FinishPacket(d, Sense(5, 0x21, 0))
    else SendPacketData(d.(packet := AdvanceChunk(d.packet)), ChunkData(d))
  }

  function SenseData(s: Sense): seq<int> {
    [0x70, 0, s.key % 0x10, 0, 0, 0, 0, 10, 0, 0, 0, 0, s.asc, s.ascq, 0, 0, 0, 0]
  }

  predicate NoDataOpcode(op: int) {
    op == 0x00 || op == 0x1B || op == 0x1E || op == 0x2B || op == 0x35
    || op == 0x45 || op == 0x47 || op == 0x4B || op == 0x4E
  }

  /** INQUIRY, READ CAPACITY, READ SUB-CHANNEL, READ TOC, GET CONFIGURATION, MODE SENSE(10). */
  predicate ReplyOpcode(op: int) {
    op == 0x12 || op == 0x25 || op == 0x42 || op == 0x43 || op == 0x46 || op == 0x5A
  }

  /** The table-of-contents format a READ TOC packet asks for. */
  function TocFormat(cdb: seq<int>): int
    requires |cdb| == 12
  {
    if cdb[9] / 0x40 != 0 then cdb[9] / 0x40 else cdb[2] % 0x10
  }

  function RequestSense(d: Device): Device
    requires Valid(d)
  {
    var data, n := SenseData(d.sense), d.packet.cdb[4];
    SendPacketData(d, if n < |data| then data[..n] else data).(sense := NO_SENSE)
  }

  function StartRead(d: Device, lba: int, count: int): Device
    requires 0 <= d.packet.limit && 0 <= lba && 0 <= count
  {
    PrepareCdromRead(d.(packet := d.packet.(lba := lba, remaining := count)))
  }

  // ---------------------------------------------------------------- replies of a CD drive

  /** The four bytes of a number, highest first. */
  function Big32(v: int): (b: seq<int>)
    ensures |b| == 4
  {
    [v / 0x100_0000 % 0x100, v / 0x1_0000 % 0x100, v / 0x100 % 0x100, v % 0x100]
  }

  function Cut(data: seq<int>, allocation: int): seq<int> {
    if 0 <= allocation < |data| then data[..allocation] else data
  }

  /** A length that leaves out the first `from + 2` bytes, in bytes `from` and `from + 1`, as far as they are there. */
  function WithLength(data: seq<int>, from: int): (r: seq<int>)
    requires 0 <= from
    ensures |r| == |data|
  {
    var n := if |data| >= from + 2 then |data| - (from + 2) else 0;
    var high := if |data| > from then data[from := n / 0x100 % 0x100] else data;
    if |high| > from + 1 then high[from + 1 := n % 0x100] else high
  }

  const INQUIRY_DATA: seq<int> :=
    [5, 0x80, 0, 0x21, 31, 0, 0, 0, 0x4D, 0x69, 0x53, 0x54, 0x65, 0x72, 0x20, 0x20, 0x43, 0x44, 0x52, 0x4F, 0x4D,
     0x20, 0x20, 0x20, 0x20, 0x20, 0x20, 0x20, 0x20, 0x20, 0x20, 0x20, 0, 0, 0, 0]

  const CONFIGURATION_DATA: seq<int> := [0, 0, 0, 12, 0, 0, 0, 8, 0, 0, 3, 4, 0, 8, 1, 0]

  const CAPABILITIES: seq<int> :=
    [0x2A, 0x14, 0x3B, 0, 0x71, 0x60, 0x29, 0, 2, 0xC0, 0, 2, 2, 0, 2, 0xC0, 0, 0, 0, 0, 0, 0]

  /** The address of the last sector, and the sector size. */
  function CapacityData(total: int): seq<int> {
    Big32(if total != 0 then total - 1 else 0) + Big32(CD_SECTOR)
  }

  function TocAddress(lba: int, msf: bool): (b: seq<int>)
    ensures |b| == 4
  {
    var frame := (lba + 150) % U32;
    if msf then [0, frame / 4500 % 0x100, frame / 75 % 60, frame % 75] else Big32(lba)
  }

  function TocDescriptor(track: int, lba: int, msf: bool): (b: seq<int>)
    ensures |b| == 8
  {
    [0, 0x14, track, 0] + TocAddress(lba, msf)
  }

  /** One data track and the lead-out, or the one session they make. */
  function TocData(cdb: seq<int>, total: int): seq<int>
    requires |cdb| == 12
  {
    var msf := cdb[1] / 2 % 2 == 1;
    if TocFormat(cdb) == 0 then
      [0, 0, 1, 1] + (if cdb[6] <= 1 then TocDescriptor(1, 0, msf) else []) + TocDescriptor(0xAA, total, msf)
    else [0, 0x0A, 1, 1, 0, 0, 0, 0, 0, 0, 0, 0]
  }

  function SubchannelData(cdb: seq<int>): seq<int>
    requires |cdb| == 12
  {
    if cdb[2] / 0x40 % 2 == 1 then [0, 0x13, 0, 0, 1, 0x14, 1, 1, 0, 0, 0, 0, 0, 0, 0, 0] else [0, 0x13, 0, 0]
  }

  function ModeData(cdb: seq<int>): seq<int>
    requires |cdb| == 12
  {
    var page := cdb[2] % 0x40;
    if page == 0x2A || page == 0x3F then [0, 0, 0x70, 0, 0, 0, 0, 0] + CAPABILITIES
    else [0, 0, 0, 0, 0, 0, 0, 0, page, 6, 0, 0, 0, 0, 0, 0]
  }

  /** What the drive answers a packet with that asks for data about it. */
  function Reply(cdb: seq<int>, total: int): seq<int>
    requires |cdb| == 12
  {
    var allocation := Be16(cdb, 7);
    if cdb[0] == 0x12 then Cut(INQUIRY_DATA, cdb[4])
    else if cdb[0] == 0x25 then CapacityData(total)
    else if cdb[0] == 0x42 then WithLength(Cut(SubchannelData(cdb), allocation), 2)
    else if cdb[0] == 0x43 then WithLength(Cut(TocData(cdb, total), allocation), 0)
    else if cdb[0] == 0x46 then Cut(CONFIGURATION_DATA, allocation)
    else WithLength(Cut(ModeData(cdb), allocation), 0)
  }

  function HandlePacket(d: Device): Device
    requires Valid(d)
  {
    var cdb := d.packet.cdb;
    var op := cdb[0];
    if NoDataOpcode(op) then FinishPacket(d, NO_SENSE)
    else if op == 0x03 then RequestSense(d)
    else if op == 0x28 then StartRead(d, Be32(cdb, 2), Be16(cdb, 7))
    else if op == 0xA8 then StartRead(d, Be32(cdb, 2), Be32(cdb, 6))
    else if op == 0x43 && TocFormat(cdb) > 1 then FinishPacket(d, Sense(5, 0x24, 0))
    else if ReplyOpcode(op) then SendPacketData(d, Reply(cdb, d.drive.totalSectors))
    else FinishPacket(d, Sense(5, 0x20, 0))
  }

  // ---------------------------------------------------------------- commands

  function Publish(d: Device, r: Regs): Device {
    d.(regs := r, state := SET_REGS, next := IDLE)
  }

  function HandleCdromCmd(d: Device): Device {
    var cmd := d.latch.cmd;
    if cmd == 0xA1 then
      d.(regs := RESET_REGS.(drv := d.regs.drv, pktIoSize := 256, status := RDY + DRQ + IRQ + END),
         cnt := 0, state := SEND_ID)
    else if cmd == 0xA0 then
      if d.latch.features % 2 == 1 then FinishPacket(d, Sense(5, 0x20, 0))
      else
        var limit := d.regs.cylinder % U16;
        d.(packet := d.packet.(limit := if limit == 0 then 32 * SECTOR else limit),
           regs := d.regs.(pktIoSize := 6, sectorCount := 1, error := 0, status := RDY + DRQ),
           state := SET_REGS, next := PACKET_WAIT_REQ)
    else if cmd == 0x08 then
      Publish(d, d.regs.(error := 1, sectorCount := 1, sector := 1, cylinder := 0xEB14, head := 0,
                         pktIoSize := 0, status := 0))
    else if cmd == 0xEF then
      Publish(d, d.regs.(error := 0, status := RDY + IRQ))
    else
      Publish(d, d.regs.(error := 4, sectorCount := 1, sector := 1, cylinder := 0xEB14, status := RDY + ERR + IRQ))
  }

  predicate Counted(cmd: int) {
    cmd == 0x20 || cmd == 0x21 || cmd == 0x30 || cmd == 0x31 || cmd == 0xC4 || cmd == 0xC5
  }

  /** The task file reduced to its legacy 28-bit part; a count of 0 means 256. */
  function MaskedRegs(r: Regs, cmd: int): Regs {
    var count := r.sectorCount % 0x100;
    r.(sectorCount := if Counted(cmd) && count == 0 then 256 else count,
       sector := r.sector % 0x100,
       cylinder := r.cylinder % U16)
  }

  function HandleDiskCmd(d: Device): Device
    requires d.regs.head >= 0
  {
    var cmd := d.latch.cmd;
    var r := MaskedRegs(d.regs, cmd);
    if cmd == 0xEC then
      d.(regs := RESET_REGS.(drv := r.drv, ioSize := 1, status := RDY + DRQ + IRQ + END),
         state := SEND_ID, cnt := 0)
    else if cmd == 0x20 || cmd == 0x21 then d.(regs := r, state := READ)
    else if cmd == 0x30 || cmd == 0x31 then d.(regs := r, state := WRITE)
    else if cmd == 0x91 then
      Publish(SetGeometry(d, r.sectorCount, r.head + 1), r.(status := RDY + IRQ))
    else if 0x10 <= cmd <= 0x1F then Publish(d, r.(status := RDY + IRQ, cylinder := 0))
    else if cmd == 0x40 then Publish(d, r.(status := RDY + IRQ))
    else Publish(d, r.(error := 4, status := RDY + ERR + IRQ))
  }

  function HandleCmd(d: Device): Device
    requires d.regs.head >= 0
  {
    if !d.drive.present || d.regs.drv != 0 then Publish(d, d.regs.(error := 4, status := RDY + ERR + IRQ))
    else if d.cdrom then HandleCdromCmd(d)
    else HandleDiskCmd(d)
  }

  // ---------------------------------------------------------------- one tick, state by state

  function OnIdle(s: Sys, i: Input): Sys {
    if Request(s.d, i) == 4 then Sys(s.d.(state := GET_CMD), PulseRead(s.bus, s.d.base))
    else if Request(s.d, i) == 6 then Sys(s.d.(state := GET_RESET_DRIVE), PulseRead(s.bus, s.d.base + 5))
    else s
  }

  function OnGetResetDrive(d: Device, i: Input): Device {
    var a := i.readdata % 0x100;
    var drv := a / 0x10 % 2;
    d.(latch := d.latch.(drvAddr := a),
       regs := d.regs.(drv := drv, lba := a / 0x40 % 2, head := 0, error := if d.cdrom then 1 else 0,
                       sector := 1, sectorCount := 1,
                       cylinder := if d.drive.present && drv == 0 then (if d.cdrom then 0xEB14 else 0) else 0xFFFF,
                       status := if d.cdrom then 0 else RDY),
       state := SET_REGS, next := RESET_SET)
  }

  /** One word of the task file into the latch. */
  function LatchWord(l: Latch, k: int, w: int): Latch {
    if k == 0 then l.(features := w / 0x100 % 0x100)
    else if k == 1 then l.(sectorCount := w % 0x100, sector := w / 0x100)
    else if k == 2 then l.(cylinder := w)
    else if k == 3 then
      l.(sector := (l.sector + w / 0x100 * 0x100) % U32, sectorCount := (l.sectorCount + w % 0x100 * 0x100) % U32)
    else if k == 4 then l.(cylinder := (l.cylinder + w * U16) % U32)
    else l.(drvAddr := w % 0x100, cmd := w / 0x100 % 0x100)
  }

  function LatchedRegs(r: Regs, l: Latch): Regs {
    r.(sectorCount := l.sectorCount % U16, sector := l.sector % U16, cylinder := l.cylinder,
       head := l.drvAddr % 0x10, drv := l.drvAddr / 0x10 % 2, lba := l.drvAddr / 0x40 % 2)
  }

  function OnGetCmd(s: Sys, i: Input): Sys {
    var k := s.bus.address % 0x10;
    if k <= 5 then
      var d := s.d.(latch := LatchWord(s.d.latch, k, i.readdata));
      if k < 5 then Sys(d, PulseRead(s.bus, s.bus.address + 1))
      else Sys(d.(regs := LatchedRegs(d.regs, d.latch), state := DO_CMD), s.bus)
    else Sys(s.d.(state := IDLE), s.bus)
  }

  function OnSendId(s: Sys): Sys
    requires Valid(s.d)
  {
    if s.d.cnt < 256 then
      Sys(s.d.(cnt := s.d.cnt + 1), PulseWrite(s.bus, s.d.base + 255, s.d.drive.id[s.d.cnt]))
    else Sys(s.d.(state := SET_REGS, next := IDLE), s.bus)
  }

  function OnSetRegs(d: Device): Device {
    var r := SettledRegs(d.regs, d.cdrom);
    d.(regs := r, buf := RegBytes(r, d.cdrom), cnt := 0, state := SET_REGS_SEND)
  }

  function OnSetRegsSend(s: Sys): Sys
    requires Valid(s.d)
  {
    if s.d.cnt < 6 then
      Sys(s.d.(cnt := s.d.cnt + 1), PulseWrite(s.bus, s.d.base + s.d.cnt, BufWord(s.d.buf, s.d.cnt)))
    else Sys(s.d.(cnt := 0, state := s.d.next), s.bus)
  }

  function OnReadRegs(d: Device): Device
    requires Valid(d)
  {
    var lba := GetLba(d.regs, d.drive);
    var count := (d.regs.sectorCount - 1) % U16;
    d.(buf := if SectorInImage(d.image, lba) then d.buf else ZERO12,
       words := SectorPointer(d.image, lba),
       regs := NextLba(d.regs, d.drive)
               .(sectorCount := count, ioSize := 1,
                 status := if count == 0 then RDY + DRQ + IRQ + END else RDY + DRQ + IRQ),
       cnt := 0, state := READ_SEND)
  }

  function OnReadSend(s: Sys): Sys
    requires Valid(s.d)
  {
    var d := s.d;
    if d.cnt < 256 then
      Sys(d.(cnt := d.cnt + 1), PulseWrite(s.bus, d.base + 255, LoadWord(d.image, d.words, d.cnt)))
    else
      Sys(d.(cnt := 0, state := SET_REGS, next := if d.regs.sectorCount != 0 then READ_WAIT_REQ else IDLE), s.bus)
  }

  /** A wait state: request 5 is served, any other abandons the command, 0 keeps waiting. */
  function Await(d: Device, i: Input, served: Device): Device {
    if Request(d, i) == 5 then served
    else if Request(d, i) != 0 then d.(state := IDLE)
    else d
  }

  function OnWriteRegs(d: Device): Device {
    d.(words := SectorPointer(d.image, GetLba(d.regs, d.drive)),
       regs := d.regs.(status := SetFlag(RDY + DRQ, d.irqPending), ioSize := 1),
       irqPending := IRQ,
       state := SET_REGS, next := WRITE_WAIT_REQ)
  }

  /** The word asked for on the previous tick goes to its place in the sector. */
  function WordStored(d: Device, w: int): Device
    requires Valid(d) && d.state == WRITE_RECV
  {
    if d.cnt > 0 then d.(image := StoreWord(d.image, d.words, d.cnt - 1, w)) else d
  }

  /** A whole sector is in: on to the next one, or to the end of the command. */
  function SectorStored(d: Device): Device
    requires Valid(d)
  {
    var count := (d.regs.sectorCount - 1) % U16;
    var r := NextLba(d.regs, d.drive).(sectorCount := count);
    if count != 0 then d.(cnt := 0, regs := r, state := WRITE_REGS)
    else d.(cnt := 0, regs := r.(status := RDY + IRQ), state := SET_REGS, next := IDLE)
  }

  function OnWriteRecv(s: Sys, i: Input): Sys
    requires Valid(s.d) && s.d.state == WRITE_RECV
  {
    var d := WordStored(s.d, i.readdata);
    if d.cnt < 256 then Sys(d.(cnt := d.cnt + 1), PulseRead(s.bus, d.base + 255))
    else Sys(SectorStored(d), s.bus)
  }

  function OnPacketRecv(s: Sys, i: Input): Sys
    requires Valid(s.d) && s.d.state == PACKET_RECV
  {
    var k := s.d.cnt;
    var cdb := if k > 0 then
                 s.d.packet.cdb[2 * (k - 1) := i.readdata % 0x100][2 * (k - 1) + 1 := i.readdata / 0x100 % 0x100]
               else s.d.packet.cdb;
    var d := s.d.(packet := s.d.packet.(cdb := cdb));
    if k < 6 then Sys(d.(cnt := k + 1), PulseRead(s.bus, d.base + 255))
    else Sys(d.(cnt := 0, state := PACKET_HANDLE), PulseWrite(s.bus, d.base + 7, 0))
  }

  function OnPacketSend(s: Sys): Sys
    requires Valid(s.d) && s.d.state == PACKET_SEND
  {
    var d, k := s.d, s.d.cnt;
    if k < d.regs.pktIoSize then
      Sys(d.(cnt := k + 1), PulseWrite(s.bus, d.base + 255, Word(d.packet.data[2 * k], d.packet.data[2 * k + 1])))
    else Sys(d.(cnt := 0, state := SET_REGS, next := PACKET_READ_WAIT_REQ), s.bus)
  }

  /** The switch of the tick; `s.bus` has its strobes low. */
  function Dispatch(s: Sys, i: Input): Sys
    requires Valid(s.d)
  {
    var d, b := s.d, s.bus;
    match d.state
    case INITIAL => Sys(d.(state := IDLE), PulseWrite(b, d.base + 6, if d.drive.present then 9 else 8))
    case IDLE => OnIdle(s, i)
    case GET_RESET_DRIVE => Sys(OnGetResetDrive(d, i), b)
    case RESET_SET => Sys(d.(state := IDLE), b)
    case GET_CMD => OnGetCmd(s, i)
    case DO_CMD => Sys(HandleCmd(d), b)
    case SEND_ID => OnSendId(s)
    case SET_REGS => Sys(OnSetRegs(d), b)
    case SET_REGS_SEND => OnSetRegsSend(s)
    case READ => Sys(d.(state := READ_REGS), b)
    case READ_REGS => Sys(OnReadRegs(d), b)
    case READ_SEND => OnReadSend(s)
    case READ_WAIT_REQ => Sys(Await(d, i, d.(state := READ_REGS)), b)
    case WRITE => Sys(d.(irqPending := 0, state := WRITE_REGS), b)
    case WRITE_REGS => Sys(OnWriteRegs(d), b)
    case WRITE_WAIT_REQ => Sys(Await(d, i, d.(cnt := 0, state := WRITE_RECV)), b)
    case WRITE_RECV => OnWriteRecv(s, i)
    case PACKET_WAIT_REQ =>
      Sys(Await(d, i, d.(cnt := 0, packet := d.packet.(cdb := ZERO12), state := PACKET_RECV)), b)
    case PACKET_RECV => OnPacketRecv(s, i)
    case PACKET_HANDLE => Sys(HandlePacket(d), b)
    case PACKET_SEND => OnPacketSend(s)
    case PACKET_READ_WAIT_REQ => Sys(Await(d, i, PrepareCdromRead(d)), b)
  }

  function OnReset(d: Device): Device {
    d.(state := INITIAL, regs := RESET_REGS.(status := if d.cdrom then 0 else RDY),
       cooldown := false, jitterDelay := 0, next := IDLE)
  }

  /** After a bus transfer the device rests one tick, and longer when jitter asks for it. */
  function Rest(s: Sys, i: Input): Sys {
    if s.bus.read || s.bus.write then s.(d := s.d.(cooldown := true, jitterDelay := i.jitter)) else s
  }

  /** A tick that only counts the rest down. */
  predicate Held(d: Device) {
    d.cooldown || d.jitterDelay > 0
  }

  function CountDown(d: Device): Device {
    if d.cooldown then d.(cooldown := false) else d.(jitterDelay := d.jitterDelay - 1)
  }

  function Step(s: Sys, i: Input): Sys
    requires Valid(s.d)
  {
    var b := s.bus.(read := false, write := false);
    if i.reset then Sys(OnReset(s.d), b)
    else if Held(s.d) then Sys(CountDown(s.d), b)
    else Rest(Dispatch(Sys(s.d, b), i), i)
  }
}
