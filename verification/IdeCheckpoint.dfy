/** Saving a device to a stream and loading it back. */
module IdeCheckpoint {
  import opened Sequences
  import opened IdeModel
  import opened IdeStream
  import opened IdeValid
  import opened IdeWidths
  import opened IdeRuns
  import opened IdeRest

  const MAGIC := 0x48494445
  const U64 := 0x1_0000_0000_0000_0000

  const HEADER_WIDTHS: seq<nat> := [4, 4]
  const STATE_WIDTHS: seq<nat> := [1, 2, 4, 4]
  const REGS_WIDTHS: seq<nat> := [1, 1, 2, 2, 4, 1, 1, 1, 1, 2, 1]
  const DRIVE_WIDTHS: seq<nat> := [1, 2, 2, 2, 4, 4]
  const LATCH_WIDTHS: seq<nat> := [8, 4, 4, 4, 1, 1]
  const COUNT_WIDTHS: seq<nat> := [4, 1, 1, 1]
  const KIND_WIDTHS: seq<nat> := [1, 1]
  const PACKET_WIDTHS: seq<nat> := [4, 4, 2, 1, 1, 1]

  /** The IDENTIFY table: 256 words. */
  function IdWidths(): (w: seq<nat>)
    ensures |w| == 256 && forall k | 0 <= k < 256 :: w[k] == 2
  {
    seq(256, _ => 2)
  }

  // ---------------------------------------------------------------- fields as numbers

  function StateCode(s: State): (c: int)
    ensures 0 <= c < 22
  {
    match s
    case INITIAL => 0 case IDLE => 1 case GET_RESET_DRIVE => 2 case RESET_SET => 3 case GET_CMD => 4
    case DO_CMD => 5 case SEND_ID => 6 case SET_REGS => 7 case SET_REGS_SEND => 8 case READ => 9
    case READ_REGS => 10 case READ_SEND => 11 case READ_WAIT_REQ => 12 case WRITE => 13 case WRITE_REGS => 14
    case WRITE_WAIT_REQ => 15 case WRITE_RECV => 16 case PACKET_WAIT_REQ => 17 case PACKET_RECV => 18
    case PACKET_SEND => 19 case PACKET_READ_WAIT_REQ => 20 case PACKET_HANDLE => 21
  }

  const STATES: seq<State> :=
    [INITIAL, IDLE, GET_RESET_DRIVE, RESET_SET, GET_CMD, DO_CMD, SEND_ID, SET_REGS, SET_REGS_SEND, READ, READ_REGS,
     READ_SEND, READ_WAIT_REQ, WRITE, WRITE_REGS, WRITE_WAIT_REQ, WRITE_RECV, PACKET_WAIT_REQ, PACKET_RECV,
     PACKET_SEND, PACKET_READ_WAIT_REQ, PACKET_HANDLE]

  function Flag(b: bool): int {
    if b then 1 else 0
  }

  /** A 32-bit pattern as a signed number. */
  function Signed(v: int): int {
    if v < 0x8000_0000 then v else v - U32
  }

  function RegsValues(r: Regs): seq<int> {
    [r.ioSize, r.error, r.sectorCount, r.sector, r.cylinder, r.head, r.drv, r.lba, r.cmd, r.pktIoSize, r.status]
  }

  function RegsOf(v: seq<int>): Regs
    requires |v| == 11
  {
    Regs(v[0], v[1], v[2], v[3], v[4], v[5], v[6], v[7], v[8], v[9], v[10])
  }

  function DriveValues(g: Drive): seq<int> {
    [Flag(g.present), g.cylinders, g.heads, g.spt, g.totalSectors, g.spb]
  }

  function DriveOf(v: seq<int>, id: seq<int>): Drive
    requires |v| == 6
  {
    Drive(v[0] != 0, v[1], v[2], v[3], v[4], v[5], id)
  }

  /** The sector pointer as it is written: its offset, or all ones when it points nowhere in the image. */
  function OffsetOf(image: seq<int>, p: Option<int>): int {
    if p.Some? && 0 <= p.value < |image| then p.value else U64 - 1
  }

  function PointerAt(image: seq<int>, offset: int): Option<int> {
    if offset != U64 - 1 && (offset + SECTOR) % U64 <= |image| then Some(offset) else None
  }

  function LatchValues(offset: int, l: Latch): seq<int> {
    [offset, l.sector, l.sectorCount, l.cylinder, l.drvAddr, l.cmd]
  }

  function PacketValues(p: Packet, s: Sense): seq<int> {
    [p.lba, p.remaining, p.limit, s.key, s.asc, s.ascq]
  }

  // ---------------------------------------------------------------- save

  function SaveAtapi(d: Device, tail: seq<int>): seq<int> {
    WriteAll(KIND_WIDTHS, [Flag(d.cdrom), d.latch.features],
             d.packet.cdb + WriteSized(8, d.packet.data, WriteAll(PACKET_WIDTHS, PacketValues(d.packet, d.sense), tail)))
  }

  function SaveTask(d: Device, offset: int, tail: seq<int>): seq<int> {
    WriteAll(LATCH_WIDTHS, LatchValues(offset, d.latch),
             d.buf + WriteAll(COUNT_WIDTHS, [d.cnt % U32, d.irqPending, Flag(d.cooldown), Flag(d.debug)], tail))
  }

  function SaveMedia(d: Device, tail: seq<int>): seq<int>
    requires |d.drive.id| == 256
  {
    WriteAll(REGS_WIDTHS, RegsValues(d.regs),
             WriteAll(DRIVE_WIDTHS, DriveValues(d.drive),
                      WriteAll(IdWidths(), d.drive.id, WriteSized(8, d.image, WriteSized(4, d.name, tail)))))
  }

  /** A checkpoint of the device that says its sector pointer is at `offset`. */
  function SaveAt(d: Device, offset: int, tail: seq<int>): seq<int>
    requires |d.drive.id| == 256
  {
    WriteAll(HEADER_WIDTHS, [MAGIC, 2],
             WriteAll(STATE_WIDTHS, [d.id, d.base, StateCode(d.state), StateCode(d.next)],
                      SaveMedia(d, SaveTask(d, offset, SaveAtapi(d, tail)))))
  }

  /** What the device writes, ahead of whatever the simulator writes next. */
  function Save(d: Device, tail: seq<int>): seq<int>
    requires |d.drive.id| == 256
  {
    SaveAt(d, OffsetOf(d.image, d.words), tail)
  }

  // ---------------------------------------------------------------- load

  /** What loading comes to; `Unknown` is a state code that names no state. */
  datatype Outcome = Rejected | Unknown | Loaded(device: Device, left: In)

  function LoadMedia(d: Device, s: In): Got<Device>
    requires |d.drive.id| == 256
  {
    var r := ReadAll(REGS_WIDTHS, RegsValues(d.regs), s);
    var g := ReadAll(DRIVE_WIDTHS, DriveValues(d.drive), r.left);
    var id := ReadAll(IdWidths(), d.drive.id, g.left);
    var image := ReadSized(8, d.image, id.left);
    var name := ReadSized(4, d.name, image.left);
    Got(d.(regs := RegsOf(r.value), drive := DriveOf(g.value, id.value), image := image.value, name := name.value), name.left)
  }

  function LoadTask(d: Device, s: In): Got<Device>
    requires |d.buf| == 12
  {
    var l := ReadAll(LATCH_WIDTHS, LatchValues(U64 - 1, d.latch), s);
    var buf := ReadRaw(d.buf, l.left);
    var c := ReadAll(COUNT_WIDTHS, [d.cnt % U32, d.irqPending, Flag(d.cooldown), Flag(d.debug)], buf.left);
    Got(d.(words := PointerAt(d.image, l.value[0]),
           latch := Latch(l.value[1], l.value[2], l.value[3], l.value[4], l.value[5], d.latch.features),
           buf := buf.value,
           cnt := Signed(c.value[0]), irqPending := c.value[1], cooldown := c.value[2] != 0, debug := c.value[3] != 0), c.left)
  }

  function LoadAtapi(d: Device, s: In): Got<Device>
    requires |d.packet.cdb| == 12
  {
    var k := ReadAll(KIND_WIDTHS, [Flag(d.cdrom), d.latch.features], s);
    var cdb := ReadRaw(d.packet.cdb, k.left);
    var data := ReadSized(8, d.packet.data, cdb.left);
    var p := ReadAll(PACKET_WIDTHS, PacketValues(d.packet, d.sense), data.left);
    Got(d.(cdrom := k.value[0] != 0, latch := d.latch.(features := k.value[1]),
           packet := Packet(cdb.value, data.value, p.value[0], p.value[1], p.value[2]),
           sense := Sense(p.value[3], p.value[4], p.value[5])), p.left)
  }

  /** All that follows the states. */
  function LoadBody(d: Device, version: int, s: In): Got<Device>
    requires |d.drive.id| == 256 && |d.buf| == 12 && |d.packet.cdb| == 12
  {
    var m := LoadMedia(d, s);
    var t := LoadTask(m.value, m.left);
    if version == 2 then LoadAtapi(t.value, t.left) else t
  }

  /** Loads over the device `d`; version 1 has no ATAPI section, so those fields keep their values. */
  function Load(d: Device, s: In): Outcome
    requires |d.drive.id| == 256 && |d.buf| == 12 && |d.packet.cdb| == 12
  {
    var h := ReadAll(HEADER_WIDTHS, [0, 0], s);
    if h.value[0] != MAGIC || (h.value[1] != 1 && h.value[1] != 2) then Rejected
    else
      var c := ReadAll(STATE_WIDTHS, [d.id, d.base, 0, 0], h.left);
      if !(0 <= c.value[2] < 22 && 0 <= c.value[3] < 22) then Unknown
      else
        var e := d.(id := c.value[0], base := c.value[1], state := STATES[c.value[2]], next := STATES[c.value[3]]);
        var b := LoadBody(e, h.value[1], c.left);
        Loaded(b.value, b.left)
  }

  /** The place of the sector pointer as the stream gives it; all ones if the stream ends before it. */
  function OffsetField(d: Device, s: In): int
    requires |d.drive.id| == 256
  {
    var h := ReadAll(HEADER_WIDTHS, [0, 0], s);
    var m := LoadMedia(d, ReadAll(STATE_WIDTHS, [d.id, d.base, 0, 0], h.left).left);
    ReadAll(LATCH_WIDTHS, LatchValues(U64 - 1, m.value.latch), m.left).value[0]
  }

  // ---------------------------------------------------------------- round trip

  /** The lengths fit the fields they are written in. */
  predicate Sizes(d: Device) {
    |d.image| + SECTOR < U64 && |d.name| < U32 && |d.packet.data| < U64
  }

  lemma Powers()
    ensures Pow256(1) == 0x100 && Pow256(2) == U16 && Pow256(4) == U32 && Pow256(8) == U64
  {
    assert Pow256(3) == 0x100_0000;
    assert Pow256(5) == 0x100_0000_0000 && Pow256(6) == 0x1_0000_0000_0000;
  }

  lemma StateCodes(s: State)
    ensures STATES[StateCode(s)] == s
  {
  }

  lemma RegsFit(r: Regs)
    requires WideRegs(r)
    ensures Fit(REGS_WIDTHS, RegsValues(r)) && RegsOf(RegsValues(r)) == r
  {
    Powers();
    hide Pow256;
  }

  lemma DriveFit(g: Drive)
    requires WideDrive(g)
    ensures Fit(DRIVE_WIDTHS, DriveValues(g)) && DriveOf(DriveValues(g), g.id) == g && Fit(IdWidths(), g.id)
  {
    Powers();
    hide Pow256;
  }

  lemma MediaBack(d: Device, e: Device, tail: seq<int>)
    requires Widths(d) && Sizes(d) && |e.drive.id| == 256
    ensures LoadMedia(e, In(SaveMedia(d, tail), true))
            == Got(e.(regs := d.regs, drive := d.drive, image := d.image, name := d.name), In(tail, true))
  {
    Powers();
    RegsFit(d.regs);
    DriveFit(d.drive);
    var t1 := WriteSized(4, d.name, tail);
    var t2 := WriteSized(8, d.image, t1);
    var t3 := WriteAll(IdWidths(), d.drive.id, t2);
    var t4 := WriteAll(DRIVE_WIDTHS, DriveValues(d.drive), t3);
    AllBack(REGS_WIDTHS, RegsValues(e.regs), RegsValues(d.regs), t4);
    AllBack(DRIVE_WIDTHS, DriveValues(e.drive), DriveValues(d.drive), t3);
    AllBack(IdWidths(), e.drive.id, d.drive.id, t2);
    SizedBack(8, e.image, d.image, t1);
    SizedBack(4, e.name, d.name, tail);
    hide ReadAll, WriteAll, ReadSized, WriteSized, Fit, RegsValues, RegsOf, DriveValues, DriveOf, Pow256, Widths;
  }

  lemma TaskFit(d: Device, offset: int)
    requires Widths(d) && 0 <= offset < U64
    ensures Fit(LATCH_WIDTHS, LatchValues(offset, d.latch))
    ensures Fit(COUNT_WIDTHS, [d.cnt % U32, d.irqPending, Flag(d.cooldown), Flag(d.debug)])
    ensures Signed(d.cnt % U32) == d.cnt && |d.buf| == 12
  {
    Powers();
    hide Pow256, WideRegs, WideDrive, WidePacket, WideSense, Bytes;
  }

  lemma AtapiFit(d: Device)
    requires Widths(d) && Sizes(d)
    ensures Fit(KIND_WIDTHS, [Flag(d.cdrom), d.latch.features]) && |d.packet.cdb| == 12
    ensures Fit(PACKET_WIDTHS, PacketValues(d.packet, d.sense)) && |d.packet.data| < Pow256(8)
  {
    Powers();
    hide Pow256, WideRegs, WideDrive, Bytes;
  }

  /** What a pointer becomes: itself when its sector is in the image, null otherwise. */
  function Kept(image: seq<int>, p: Option<int>): Option<int> {
    if p.Some? && PointerInImage(image, p) then p else None
  }

  lemma PointerBack(image: seq<int>, p: Option<int>)
    requires |image| + SECTOR < U64
    ensures PointerAt(image, OffsetOf(image, p)) == Kept(image, p) && 0 <= OffsetOf(image, p) < U64
  {
  }

  lemma TaskBack(d: Device, e: Device, offset: int, tail: seq<int>)
    requires Widths(d) && 0 <= offset < U64 && |e.buf| == 12
    ensures LoadTask(e, In(SaveTask(d, offset, tail), true))
            == Got(e.(words := PointerAt(e.image, offset), latch := d.latch.(features := e.latch.features), buf := d.buf,
                      cnt := d.cnt, irqPending := d.irqPending, cooldown := d.cooldown, debug := d.debug), In(tail, true))
  {
    TaskFit(d, offset);
    var counts := [d.cnt % U32, d.irqPending, Flag(d.cooldown), Flag(d.debug)];
    var t1 := WriteAll(COUNT_WIDTHS, counts, tail);
    AllBack(LATCH_WIDTHS, LatchValues(U64 - 1, e.latch), LatchValues(offset, d.latch), d.buf + t1);
    RawBack(e.buf, d.buf, t1);
    AllBack(COUNT_WIDTHS, [e.cnt % U32, e.irqPending, Flag(e.cooldown), Flag(e.debug)], counts, tail);
    hide ReadAll, WriteAll, ReadRaw, Fit, Widths, PointerAt, Signed;
  }

  lemma AtapiBack(d: Device, e: Device, tail: seq<int>)
    requires Widths(d) && Sizes(d) && |e.packet.cdb| == 12
    ensures LoadAtapi(e, In(SaveAtapi(d, tail), true))
            == Got(e.(cdrom := d.cdrom, latch := e.latch.(features := d.latch.features), packet := d.packet, sense := d.sense),
                   In(tail, true))
  {
    AtapiFit(d);
    var t1 := WriteAll(PACKET_WIDTHS, PacketValues(d.packet, d.sense), tail);
    var t2 := WriteSized(8, d.packet.data, t1);
    AllBack(KIND_WIDTHS, [Flag(e.cdrom), e.latch.features], [Flag(d.cdrom), d.latch.features], d.packet.cdb + t2);
    RawBack(e.packet.cdb, d.packet.cdb, t2);
    SizedBack(8, e.packet.data, d.packet.data, t1);
    AllBack(PACKET_WIDTHS, PacketValues(e.packet, e.sense), PacketValues(d.packet, d.sense), tail);
    hide ReadAll, WriteAll, ReadRaw, ReadSized, WriteSized, Fit, Widths, Pow256;
  }

  lemma HeadFits(d: Device)
    requires Widths(d)
    ensures Fit(STATE_WIDTHS, [d.id, d.base, StateCode(d.state), StateCode(d.next)]) && Fit(HEADER_WIDTHS, [MAGIC, 2])
  {
    Powers();
    hide Pow256, WideRegs, WideDrive, WideLatch, WidePacket, WideSense, Bytes, StateCode;
  }

  lemma BodyBack(d: Device, e: Device, offset: int, tail: seq<int>)
    requires Widths(d) && Sizes(d) && 0 <= offset < U64
    requires |e.drive.id| == 256 && |e.buf| == 12 && |e.packet.cdb| == 12
    requires e.id == d.id && e.base == d.base && e.state == d.state && e.next == d.next
    ensures LoadBody(e, 2, In(SaveMedia(d, SaveTask(d, offset, SaveAtapi(d, tail))), true))
            == Got(d.(words := PointerAt(d.image, offset), jitterDelay := e.jitterDelay), In(tail, true))
  {
    var t1 := SaveAtapi(d, tail);
    var t2 := SaveTask(d, offset, t1);
    MediaBack(d, e, t2);
    var g := e.(regs := d.regs, drive := d.drive, image := d.image, name := d.name);
    TaskBack(d, g, offset, t1);
    var h := g.(words := PointerAt(d.image, offset), latch := d.latch.(features := g.latch.features), buf := d.buf,
                cnt := d.cnt, irqPending := d.irqPending, cooldown := d.cooldown, debug := d.debug);
    AtapiBack(d, h, tail);
    hide SaveAtapi, SaveTask, SaveMedia, LoadAtapi, LoadTask, LoadMedia, Widths, PointerAt;
  }

  /** Loading a checkpoint restores every field but the jitter delay and leaves the rest of the stream; the pointer is
      the one its offset stands for. */
  lemma SaveAtThenLoad(d: Device, e: Device, offset: int, tail: seq<int>)
    requires Widths(d) && Sizes(d) && 0 <= offset < U64
    requires |e.drive.id| == 256 && |e.buf| == 12 && |e.packet.cdb| == 12
    ensures Load(e, In(SaveAt(d, offset, tail), true))
            == Loaded(d.(words := PointerAt(d.image, offset), jitterDelay := e.jitterDelay), In(tail, true))
  {
    HeadFits(d);
    var codes := [d.id, d.base, StateCode(d.state), StateCode(d.next)];
    var t3 := SaveMedia(d, SaveTask(d, offset, SaveAtapi(d, tail)));
    AllBack(HEADER_WIDTHS, [0, 0], [MAGIC, 2], WriteAll(STATE_WIDTHS, codes, t3));
    AllBack(STATE_WIDTHS, [e.id, e.base, 0, 0], codes, t3);
    StateCodes(d.state);
    StateCodes(d.next);
    BodyBack(d, e.(id := d.id, base := d.base, state := d.state, next := d.next), offset, tail);
    hide ReadAll, WriteAll, SaveAtapi, SaveTask, SaveMedia, LoadBody, Fit, Widths, PointerAt, StateCode;
  }

  /** Loading what was saved restores every field but the jitter delay, and leaves the rest of the stream;
      a pointer outside the image comes back null. */
  lemma SaveThenLoad(d: Device, e: Device, tail: seq<int>)
    requires Widths(d) && Sizes(d)
    requires |e.drive.id| == 256 && |e.buf| == 12 && |e.packet.cdb| == 12
    ensures Load(e, In(Save(d, tail), true))
            == Loaded(d.(words := Kept(d.image, d.words), jitterDelay := e.jitterDelay), In(tail, true))
  {
    PointerBack(d.image, d.words);
    SaveAtThenLoad(d, e, OffsetOf(d.image, d.words), tail);
    hide Load, SaveAt, Widths, Kept, OffsetOf, PointerAt;
  }

  // ---------------------------------------------------------------- what any stream can leave behind

  /** The offsets for which the sum in the bound check wraps to something the image is large enough for. */
  predicate Wraps(image: seq<int>, offset: int) {
    offset != U64 - 1 && U64 <= offset + SECTOR <= U64 + |image|
  }

  lemma PointerIff(image: seq<int>, offset: int)
    requires 0 <= offset < U64 && |image| < U64
    ensures PointerInImage(image, PointerAt(image, offset)) <==> !Wraps(image, offset)
  {
  }

  lemma MediaSize(d: Device, s: In)
    requires |d.drive.id| == 256
    ensures |LoadMedia(d, s).value.image| < U64
    ensures LoadMedia(d, s).value.buf == d.buf && LoadMedia(d, s).value.packet == d.packet
  {
    Powers();
    var r := ReadAll(REGS_WIDTHS, RegsValues(d.regs), s);
    var g := ReadAll(DRIVE_WIDTHS, DriveValues(d.drive), r.left);
    SizedInRange(8, d.image, ReadAll(IdWidths(), d.drive.id, g.left).left);
    hide ReadAll, ReadSized, Pow256, RegsValues, DriveValues, RegsOf, DriveOf;
  }

  lemma TaskPointer(d: Device, s: In)
    requires |d.buf| == 12
    ensures var t, k := LoadTask(d, s).value, ReadAll(LATCH_WIDTHS, LatchValues(U64 - 1, d.latch), s).value[0];
            t.image == d.image && t.packet == d.packet && t.words == PointerAt(d.image, k) && 0 <= k < U64
  {
    Powers();
    AllInRange(LATCH_WIDTHS, LatchValues(U64 - 1, d.latch), s);
    hide ReadAll, ReadRaw, Fit, Pow256, LatchValues, PointerAt;
    assert Fit(LATCH_WIDTHS, ReadAll(LATCH_WIDTHS, LatchValues(U64 - 1, d.latch), s).value);
    FirstFits(LATCH_WIDTHS, ReadAll(LATCH_WIDTHS, LatchValues(U64 - 1, d.latch), s).value);
  }

  lemma FirstFits(widths: seq<nat>, values: seq<int>)
    requires |widths| > 0 && Fit(widths, values)
    ensures 0 <= values[0] < Pow256(widths[0])
  {
  }

  lemma BodyPointer(d: Device, version: int, s: In)
    requires |d.drive.id| == 256 && |d.buf| == 12 && |d.packet.cdb| == 12
    ensures var t, m := LoadBody(d, version, s).value, LoadMedia(d, s);
            var k := ReadAll(LATCH_WIDTHS, LatchValues(U64 - 1, m.value.latch), m.left).value[0];
            t.words == PointerAt(t.image, k) && |t.image| < U64 && 0 <= k < U64
  {
    var m := LoadMedia(d, s);
    MediaSize(d, s);
    TaskPointer(m.value, m.left);
    hide ReadAll, ReadRaw, ReadSized, LoadMedia, LoadTask, PointerAt, PacketValues;
  }

  /** Where the pointer section begins does not depend on the device's number and states. */
  lemma MediaAlike(d: Device, s: In, id: int, base: int, state: State, next: State)
    requires |d.drive.id| == 256
    ensures var m, n := LoadMedia(d, s), LoadMedia(d.(id := id, base := base, state := state, next := next), s);
            m.left == n.left && m.value.latch == n.value.latch
  {
    hide ReadAll, ReadSized, RegsValues, DriveValues, RegsOf, DriveOf;
  }

  /** Whatever the stream holds, the pointer that comes back is the one its offset field stands for; it is null or names
      a whole sector of the restored image exactly when the bound check's sum does not wrap on that field. */
  lemma LoadedPointer(e: Device, s: In)
    requires |e.drive.id| == 256 && |e.buf| == 12 && |e.packet.cdb| == 12
    ensures var o, k := Load(e, s), OffsetField(e, s);
            o.Loaded? ==>
              && o.device.words == PointerAt(o.device.image, k)
              && (PointerInImage(o.device.image, o.device.words) <==> !Wraps(o.device.image, k))
  {
    var h := ReadAll(HEADER_WIDTHS, [0, 0], s);
    var c := ReadAll(STATE_WIDTHS, [e.id, e.base, 0, 0], h.left);
    if 0 <= c.value[2] < 22 && 0 <= c.value[3] < 22 {
      var f := e.(id := c.value[0], base := c.value[1], state := STATES[c.value[2]], next := STATES[c.value[3]]);
      BodyPointer(f, h.value[1], c.left);
      MediaAlike(e, c.left, c.value[0], c.value[1], STATES[c.value[2]], STATES[c.value[3]]);
      PointerIff(LoadBody(f, h.value[1], c.left).value.image, OffsetField(e, s));
    }
    hide ReadAll, LoadBody, LoadMedia, PointerInImage, PointerAt, Wraps, STATES, LatchValues;
  }

  /** A device that has opened an empty disk. */
  function Blank(): Device {
    OpenedDisk(0, 0x1F0, [], [])
  }

  lemma BlankIsWide()
    ensures Widths(Blank()) && Sizes(Blank()) && Blank().image == []
    ensures |Blank().drive.id| == 256 && |Blank().buf| == 12 && |Blank().packet.cdb| == 12
  {
    OpenedDiskIsWide(0, 0x1F0, [], []);
    hide Identify;
  }

  /** The check does wrap: in a checkpoint of an empty disk that puts the pointer a sector before 2^64, the pointer
      comes back, and the image has no such sector. */
  lemma WrappedPointer(tail: seq<int>)
    ensures |Blank().drive.id| == 256 && |Blank().buf| == 12 && |Blank().packet.cdb| == 12
    ensures var o := Load(Blank(), In(SaveAt(Blank(), U64 - SECTOR, tail), true));
            o.Loaded? && o.device.words == Some(U64 - SECTOR) && !PointerInImage(o.device.image, o.device.words)
  {
    BlankIsWide();
    var b := Blank();
    assert PointerAt(b.image, U64 - SECTOR) == Some(U64 - SECTOR);
    hide Blank, Load, SaveAt, Widths, Sizes, PointerAt, Valid;
    SaveAtThenLoad(b, b, U64 - SECTOR, tail);
  }

  /** A checkpoint of the first format leaves the ATAPI fields as they were. */
  lemma FirstFormat(e: Device, tail: seq<int>)
    requires |e.drive.id| == 256 && |e.buf| == 12 && |e.packet.cdb| == 12
    ensures var o := Load(e, In(WriteAll(HEADER_WIDTHS, [MAGIC, 1], tail), true));
            o != Rejected
            && (o.Loaded? ==> o.device.cdrom == e.cdrom && o.device.packet == e.packet && o.device.sense == e.sense
                              && o.device.latch.features == e.latch.features)
  {
    Powers();
    assert Fit(HEADER_WIDTHS, [MAGIC, 1]) by { hide Pow256; }
    AllBack(HEADER_WIDTHS, [0, 0], [MAGIC, 1], tail);
    hide ReadAll, ReadRaw, ReadSized, WriteAll, STATES, PointerAt, Pow256, Fit, RegsOf, DriveOf, Signed;
  }

  // ---------------------------------------------------------------- resuming a run

  lemma {:induction false} RunSplit(s: Sys, xs: seq<Input>, ys: seq<Input>)
    requires Valid(s.d)
    ensures Run(s, xs + ys) == Run(Run(s, xs), ys)
    ensures Trace(s, xs + ys) == Trace(s, xs) + Trace(Run(s, xs), ys)
  {
    hide Step, Valid, Emitted;
    if ys == [] {
      assert xs + ys == xs;
    } else {
      RunSplit(s, xs, Front(ys));
      assert Front(xs + ys) == xs + Front(ys) && Last(xs + ys) == Last(ys);
    }
  }

  predicate WideInputs(ins: seq<Input>) {
    forall k | 0 <= k < |ins| :: WideInput(ins[k])
  }

  lemma {:induction false} RunKeepsWidths(s: Sys, ins: seq<Input>)
    requires Valid(s.d) && Widths(s.d) && WideInputs(ins)
    ensures Widths(Run(s, ins).d)
  {
    if ins != [] {
      var p := Run(s, Front(ins));
      RunKeepsWidths(s, Front(ins));
      assert WideInput(Last(ins));
      StepKeepsWidths(p, Last(ins));
      hide Step, Widths, Valid;
    }
  }

  /** What a tick may see while jitter is off. */
  predicate Quiet(ins: seq<Input>) {
    forall k | 0 <= k < |ins| :: ins[k].jitter == 0
  }

  lemma StepKeepsCalm(s: Sys, i: Input)
    requires Valid(s.d) && i.jitter == 0 && s.d.jitterDelay == 0
    ensures Step(s, i).d.jitterDelay == 0
  {
    var t := Dispatch(LowStrobes(s), i);
    DispatchRests(LowStrobes(s), i);
    hide Dispatch, Valid;
  }

  lemma {:induction false} QuietStaysCalm(s: Sys, ins: seq<Input>)
    requires Valid(s.d) && Quiet(ins) && s.d.jitterDelay == 0
    ensures Run(s, ins).d.jitterDelay == 0
  {
    if ins != [] {
      var p := Run(s, Front(ins));
      QuietStaysCalm(s, Front(ins));
      assert Last(ins).jitter == 0;
      StepKeepsCalm(p, Last(ins));
      hide Step, Valid;
    }
  }

  lemma KeptWhole(d: Device)
    requires Valid(d)
    ensures Kept(d.image, d.words) == d.words && |d.drive.id| == 256
  {
  }

  /** The object that loads has the saved state exactly when it has no other jitter delay pending than was pending at
      the save. */
  lemma RestoresExactly(s: Sys, xs: seq<Input>, e: Device, tail: seq<int>)
    requires Valid(s.d) && Widths(s.d) && WideInputs(xs) && Sizes(Run(s, xs).d)
    requires |e.drive.id| == 256 && |e.buf| == 12 && |e.packet.cdb| == 12
    ensures var d := Run(s, xs).d;
            |d.drive.id| == 256
            && (Load(e, In(Save(d, tail), true)) == Loaded(d, In(tail, true)) <==> e.jitterDelay == d.jitterDelay)
  {
    RunKeepsWidths(s, xs);
    var d := Run(s, xs).d;
    KeptWhole(d);
    SaveThenLoad(d, e, tail);
    hide *;
    assert d.(words := d.words, jitterDelay := d.jitterDelay) == d;
  }

  /** Saving a device in mid-run, jitter on or off, and carrying on in an object with the same jitter delay pending is
      invisible on the bus: the run after the restore and the uninterrupted run end in the same state and leave the
      same trace. */
  lemma ResumeInvisible(s: Sys, xs: seq<Input>, ys: seq<Input>, e: Device, tail: seq<int>)
    requires Valid(s.d) && Widths(s.d) && WideInputs(xs) && Sizes(Run(s, xs).d)
    requires |e.drive.id| == 256 && |e.buf| == 12 && |e.packet.cdb| == 12 && e.jitterDelay == Run(s, xs).d.jitterDelay
    ensures var m := Run(s, xs);
            |m.d.drive.id| == 256
            && var o := Load(e, In(Save(m.d, tail), true));
            o.Loaded? && o.left == In(tail, true) && Valid(o.device)
            && Run(Sys(o.device, m.bus), ys) == Run(s, xs + ys)
            && Trace(s, xs) + Trace(Sys(o.device, m.bus), ys) == Trace(s, xs + ys)
  {
    RestoresExactly(s, xs, e, tail);
    RunSplit(s, xs, ys);
    hide *;
  }
}
