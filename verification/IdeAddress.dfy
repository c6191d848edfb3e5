/** The address registers: writing a sector number and reading it back. */
module IdeAddress {
  import opened Arithmetic
  import opened IdeModel

  /** How many sector numbers the registers can tell apart. */
  function Span(lba: int): (n: int)
    ensures n > 0
  {
    if lba != 0 then 0x1000_0000 else U32
  }

  /** The sector i places after `first`, as the registers count. */
  function NthSector(first: int, span: int, i: int): int
    requires span > 0
  {
    (first + i) % span
  }

  /** Cylinder, head and sector of a sector number, by repeated division. */
  lemma ChsDigits(lba: int, heads: int, spt: int)
    requires 0 <= lba && heads > 0 && spt > 0 && heads * spt > 0
    ensures var c, h, e := lba / (heads * spt), lba % (heads * spt) / spt, lba % (heads * spt) % spt;
            0 <= c <= lba && 0 <= h < heads && 0 <= e < spt && lba == (c * heads + h) * spt + e
  {
    var track := heads * spt;
    var c, t := lba / track, lba % track;
    DivMod(lba, track);
    DivBounds(lba, track);
    DivMod(t, spt);
    DivBounds(t, spt);
    TrackSum(c, t / spt, t % spt, heads, spt);
    if t / spt >= heads { MulLe(heads, t / spt, spt); }
  }

  lemma TrackSum(c: int, h: int, e: int, heads: int, spt: int)
    ensures (c * heads + h) * spt + e == (heads * spt) * c + (spt * h + e)
  {
    assert (c * heads + h) * spt == c * heads * spt + h * spt;
    assert c * heads * spt == (heads * spt) * c by { MulThree(c, heads, spt); }
  }

  lemma MulThree(a: int, b: int, c: int)
    ensures a * b * c == (b * c) * a
  {
  }

  lemma ChsFields(r: Regs, g: Drive, lba: int)
    requires ValidDrive(g) && r.lba == 0 && 0 <= lba < U32
    ensures var p := PutLba(r, g, lba);
            && p.lba == 0
            && 0 <= p.cylinder <= lba
            && 0 <= p.head < g.heads
            && 1 <= p.sector <= g.spt
            && lba == (p.cylinder * g.heads + p.head) * g.spt + (p.sector - 1)
  {
    assert g.heads * g.spt > 0;
    ChsDigits(lba, g.heads, g.spt);
    var c, h, e := lba / (g.heads * g.spt), lba % (g.heads * g.spt) / g.spt, lba % (g.heads * g.spt) % g.spt;
    assert PutLba(r, g, lba) == r.(cylinder := c, head := h % 0x100, sector := (e + 1) % U16);
  }

  /** In CHS mode no field is truncated and the sector number comes back whole; in LBA
      mode it comes back modulo 2^28. */
  lemma {:induction false} AddressRoundTrip(r: Regs, g: Drive, lba: int)
    requires ValidDrive(g) && 0 <= lba < U32
    ensures GetLba(PutLba(r, g, lba), g) == lba % Span(r.lba)
    ensures r.lba == 0 ==>
              var p := PutLba(r, g, lba);
              0 <= p.head < g.heads && 1 <= p.sector <= g.spt
              && lba == (p.cylinder * g.heads + p.head) * g.spt + (p.sector - 1)
  {
    if r.lba == 0 {
      hide GetLba, PutLba;
      ChsFields(r, g, lba);
      ChsReads(PutLba(r, g, lba), g, lba);
    } else {
      hide GetLba, PutLba;
      LbaReads(r, g, lba);
    }
  }

  lemma LbaReads(r: Regs, g: Drive, lba: int)
    requires ValidDrive(g) && r.lba != 0 && 0 <= lba < U32
    ensures GetLba(PutLba(r, g, lba), g) == lba % 0x1000_0000
  {
    LbaDigits(lba);
    var a, b, c := lba % 0x100, lba / 0x100 % U16, lba / 0x100_0000 % 0x10;
    assert a % 0x100 == a && b % U16 == b && c % 0x10 == c;
  }

  lemma LbaDigits(lba: int)
    requires 0 <= lba < U32
    ensures lba % 0x100 + lba / 0x100 % U16 * 0x100 + lba / 0x100_0000 % 0x10 * 0x100_0000 == lba % 0x1000_0000
  {
  }

  lemma ChsFormula(p: Regs, g: Drive, x: int, track: int, y: int)
    requires p.lba == 0 && x == p.cylinder * g.heads && track == x + p.head && y == track * g.spt
    requires 0 <= x <= track <= y && 1 <= p.sector && y + p.sector - 1 < U32
    ensures GetLba(p, g) == y + p.sector - 1
  {
    assert x % U32 == x && track % U32 == track && y % U32 == y;
  }

  /** No intermediate product of the CHS formula wraps when the result fits 32 bits. */
  lemma ChsReads(p: Regs, g: Drive, lba: int)
    requires ValidDrive(g) && p.lba == 0 && 0 <= lba < U32
    requires 0 <= p.cylinder && 0 <= p.head && 1 <= p.sector
    requires lba == (p.cylinder * g.heads + p.head) * g.spt + (p.sector - 1)
    ensures GetLba(p, g) == lba
  {
    var x := p.cylinder * g.heads;
    var track := x + p.head;
    MulLe(0, p.cylinder, g.heads);
    MulMono(track, g.spt);
    hide GetLba;
    ChsFormula(p, g, x, track, track * g.spt);
  }

  /** Stepping the registers to the next sector steps the sector number, within its span. */
  lemma NextLbaSteps(r: Regs, g: Drive)
    requires ValidDrive(g)
    ensures GetLba(NextLba(r, g), g) == (GetLba(r, g) + 1) % Span(r.lba)
  {
    GetLbaInSpan(r, g);
    hide GetLba, PutLba;
    var l := GetLba(r, g);
    AddressRoundTrip(r, g, (l + 1) % U32);
    assert r.lba != 0 ==> (l + 1) % U32 == l + 1;
  }

  lemma GetLbaInSpan(r: Regs, g: Drive)
    ensures 0 <= GetLba(r, g) < Span(r.lba)
  {
  }

  lemma NthSectorSteps(first: int, span: int, i: int)
    requires span > 0
    ensures (NthSector(first, span, i) + 1) % span == NthSector(first, span, i + 1)
  {
    var q := (first + i) / span;
    DivMod(first + i, span);
    DivMod(NthSector(first, span, i) + 1, span);
    var k, e := (NthSector(first, span, i) + 1) / span, (NthSector(first, span, i) + 1) % span;
    assert first + i + 1 == span * (q + k) + e;
    DivUnique(first + i + 1, span, q + k, e);
  }
}
