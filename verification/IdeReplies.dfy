/** The data a CD drive answers packets with: it fits what was asked for, says how long it is, and agrees with itself. */
module IdeReplies {
  import opened IdeModel

  /** No reply is longer than the packet allows, and a shorter allowance gets the front of it. */
  lemma ReplyFits(cdb: seq<int>, total: int)
    requires |cdb| == 12 && Bytes(cdb)
    ensures cdb[0] == 0x12 ==> |Reply(cdb, total)| <= cdb[4] && Reply(cdb, total) == INQUIRY_DATA[..|Reply(cdb, total)|]
    ensures cdb[0] == 0x42 || cdb[0] == 0x43 || cdb[0] == 0x46 || cdb[0] == 0x5A ==> |Reply(cdb, total)| <= Be16(cdb, 7)
  {
    hide Be16, TocData, SubchannelData, ModeData;
    assert 0 <= Be16(cdb, 7) by { Allowance(cdb); }
  }

  lemma Allowance(cdb: seq<int>)
    requires |cdb| == 12 && Bytes(cdb)
    ensures Be16(cdb, 7) == 0x100 * cdb[7] + cdb[8] >= 0
  {
  }

  lemma LengthIs(data: seq<int>, from: int)
    requires 0 <= from && from + 2 <= |data| < 0x1_0000
    ensures var r := WithLength(data, from); 0x100 * r[from] + r[from + 1] == |r| - (from + 2)
  {
  }

  /** The length a reply carries is the length of what follows it, in the reply as it was cut. */
  lemma LengthReported(cdb: seq<int>, total: int)
    requires |cdb| == 12 && Bytes(cdb)
    ensures var r := Reply(cdb, total);
            && ((cdb[0] == 0x43 || cdb[0] == 0x5A) && |r| >= 2 ==> 0x100 * r[0] + r[1] == |r| - 2)
            && (cdb[0] == 0x42 && |r| >= 4 ==> 0x100 * r[2] + r[3] == |r| - 4)
  {
    var n := Be16(cdb, 7);
    assert |TocData(cdb, total)| <= 20 && |SubchannelData(cdb)| <= 16 && |ModeData(cdb)| <= 30;
    hide Be16, TocData, SubchannelData, ModeData, WithLength;
    if |Cut(TocData(cdb, total), n)| >= 2 { LengthIs(Cut(TocData(cdb, total), n), 0); }
    if |Cut(ModeData(cdb), n)| >= 2 { LengthIs(Cut(ModeData(cdb), n), 0); }
    if |Cut(SubchannelData(cdb), n)| >= 4 { LengthIs(Cut(SubchannelData(cdb), n), 2); }
  }

  function FromBig(b: seq<int>, k: int): int
    requires 0 <= k && k + 3 < |b|
  {
    b[k] * 0x100_0000 + b[k + 1] * 0x1_0000 + b[k + 2] * 0x100 + b[k + 3]
  }

  lemma BigBack(v: int)
    requires 0 <= v < U32
    ensures FromBig(Big32(v), 0) == v
  {
    var a, b := v / 0x100, v / 0x1_0000;
    var c := v / 0x100_0000;
    assert a == 0x100 * b + a % 0x100 by { Nested(v, 0x100); }
    assert b == 0x100 * c + b % 0x100 by { Nested(v, 0x1_0000); }
    assert v == 0x100 * a + v % 0x100 && c % 0x100 == c;
  }

  lemma Nested(v: int, d: int)
    requires 0 <= v && (d == 0x100 || d == 0x1_0000)
    ensures v / d == 0x100 * (v / (0x100 * d)) + v / d % 0x100
  {
  }

  /** The four bytes at `k` tell the address: as a number, or two seconds later in minutes, seconds and frames, which
      say it exactly as long as the minutes fit their byte. */
  ghost predicate TellsAddress(b: seq<int>, k: int, lba: int, msf: bool)
    requires 0 <= k && k + 3 < |b|
  {
    if msf then
      && b[k + 2] < 60 && b[k + 3] < 75
      && (4500 * b[k + 1] + 75 * b[k + 2] + b[k + 3] == lba + 150 <==> lba + 150 < 0x100 * 4500)
    else FromBig(b, k) == lba
  }

  /** READ CAPACITY and READ TOC tell of the same disc: the lead-out begins behind the last sector. */
  lemma CapacityAgreesWithToc(c: seq<int>, t: seq<int>, total: int)
    requires |c| == 12 && |t| == 12 && Bytes(t) && 0 < total < U32
    requires c[0] == 0x25 && t[0] == 0x43 && TocFormat(t) == 0 && Be16(t, 7) >= 20
    ensures var last, toc := Reply(c, total), Reply(t, total);
            && |last| == 8 && FromBig(last, 0) == total - 1 && FromBig(last, 4) == CD_SECTOR
            && |toc| == (if t[6] <= 1 then 20 else 12) && toc[2] == toc[3] == 1
            && var k := |toc| - 8;
            toc[k + 2] == 0xAA
            && TellsAddress(toc, k + 4, total, t[1] / 2 % 2 == 1)
  {
    CapacityIs(total);
    TocIs(t, total);
    hide Be16, CapacityData, TocData;
    var toc := TocData(t, total);
    assert Cut(toc, Be16(t, 7)) == toc;
    LengthKeeps(toc);
  }

  lemma LengthKeeps(data: seq<int>)
    requires |data| >= 2
    ensures forall k | 2 <= k < |data| :: WithLength(data, 0)[k] == data[k]
  {
  }

  lemma CapacityIs(total: int)
    requires 0 < total < U32
    ensures var c := CapacityData(total); |c| == 8 && FromBig(c, 0) == total - 1 && FromBig(c, 4) == CD_SECTOR
  {
    BigBack(total - 1);
    BigBack(CD_SECTOR);
    hide Big32;
  }

  lemma TocIs(t: seq<int>, total: int)
    requires |t| == 12 && 0 < total < U32 && TocFormat(t) == 0
    ensures var toc := TocData(t, total); var k := |toc| - 8;
            && |toc| == (if t[6] <= 1 then 20 else 12) && toc[2] == toc[3] == 1 && toc[k + 2] == 0xAA
            && toc[k + 4..] == TocAddress(total, t[1] / 2 % 2 == 1)
            && TellsAddress(toc, k + 4, total, t[1] / 2 % 2 == 1)
  {
    var msf := t[1] / 2 % 2 == 1;
    var a := TocAddress(total, msf);
    AddressIs(total, msf);
    hide TocAddress, TocFormat;
    var toc := TocData(t, total);
    var k := |toc| - 8;
    assert toc[k + 4] == a[0] && toc[k + 5] == a[1] && toc[k + 6] == a[2] && toc[k + 7] == a[3];
  }

  lemma AddressIs(total: int, msf: bool)
    requires 0 < total < U32
    ensures TellsAddress(TocAddress(total, msf), 0, total, msf)
  {
    if msf {
      MinutesFit(total, (total + 150) % U32);
    } else {
      BigBack(total);
    }
  }

  lemma MinutesFit(total: int, frame: int)
    requires 0 < total < U32 && frame == (total + 150) % U32
    ensures var m, s, f := frame / 4500 % 0x100, frame / 75 % 60, frame % 75;
      4500 * m + 75 * s + f == total + 150 <==> total + 150 < 0x100 * 4500
  {
    var m, s, f := frame / 4500 % 0x100, frame / 75 % 60, frame % 75;
    assert frame / 4500 == frame / 75 / 60;
    assert frame == 75 * (frame / 75) + f && frame / 75 == 60 * (frame / 75 / 60) + s;
    assert m <= 255 && s <= 59 && f <= 74;
  }
}
