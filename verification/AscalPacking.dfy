/**
  How the scaler packs pixels into memory words and takes them out again.  A bit vector
  whose bits are only ever moved in whole bytes is a sequence of bytes, its leftmost first.
 */
module AscalPacking {

  datatype Pix = Pix(r: int, g: int, b: int)

  /** Bytes in a memory word. */
  function WordBytes(wide: bool): int {
    if wide then 16 else 8
  }

  /** Formats as the scaler codes them: 1 is 24 bits a pixel, 2 is 32, anything else 16. */
  function PixelBytes(format: int): int {
    if format == 1 then 3 else if format == 2 then 4 else 2
  }

  function Bits565(p: Pix): seq<int> {
    [p.g / 4 % 8 * 32 + p.r / 8, p.b / 8 * 8 + p.g / 32]
  }

  predicate PixInRange(p: Pix) {
    0 <= p.r < 256 && 0 <= p.g < 256 && 0 <= p.b < 256
  }

  // ---------------------------------------------------------------- into memory

  function ShiftIn(shift: seq<int>, p: Pix, format: int): (s: seq<int>)
    requires |shift| == 15
    ensures |s| == 15
  {
    if format == 1 then shift[3..] + [p.r, p.g, p.b]
    else if format == 2 then shift[4..] + [p.r, p.g, p.b, 0]
    else shift[2..] + Bits565(p)
  }

  function PackIn(wide: bool, dw: seq<int>, acpt: int, shift: seq<int>, p: Pix, format: int): (w: seq<int>)
    requires |shift| == 15 && |dw| == WordBytes(wide)
    ensures |w| == WordBytes(wide)
  {
    if format == 1 then
      if wide then
        if acpt == 5 then shift + [p.r]
        else if acpt == 10 then shift[1..] + [p.r, p.g]
        else if acpt == 15 then shift[2..] + [p.r, p.g, p.b]
        else dw
      else
        if acpt % 8 == 2 then shift[9..] + [p.r, p.g]
        else if acpt % 8 == 5 then shift[8..] + [p.r]
        else if acpt % 8 == 7 then shift[10..] + [p.r, p.g, p.b]
        else dw
    else if format == 2 then
      if wide && acpt % 4 == 3 then shift[3..] + [p.r, p.g, p.b, 0]
      else if !wide && acpt % 8 == 7 then shift[11..] + [p.r, p.g, p.b, 0]
      else dw
    else
      if wide && acpt % 8 == 7 then shift[1..] + Bits565(p)
      else if !wide && acpt % 4 == 3 then shift[9..] + Bits565(p)
      else dw
  }

  /** Whether this pixel completes a word that is pushed. */
  predicate NextIn(wide: bool, acpt: int, format: int) {
    if format == 1 then
      (wide && (acpt == 5 || acpt == 10 || acpt == 15))
      || (!wide && (acpt % 8 == 2 || acpt % 8 == 5 || acpt % 8 == 7))
    else if format == 2 then
      (wide && acpt % 4 == 3) || (!wide && acpt % 2 == 1)
    else
      (wide && acpt % 8 == 7) || (!wide && acpt % 4 == 3)
  }

  // ---------------------------------------------------------------- out of memory

  /** The output side's format: what it reads back is what the input side was told to write. */
  function OutCode(format: int): int {
    4 + format
  }

  function PackOut(wide: bool, acpt: int, shift: seq<int>, dr: seq<int>, code: int): (s: seq<int>)
    requires |shift| == WordBytes(wide) + 2 && |dr| == WordBytes(wide)
    ensures |s| == WordBytes(wide) + 2
  {
    var n := WordBytes(wide);
    if code == 4 then
      if (wide && acpt % 8 == 0) || (!wide && acpt % 4 == 0) then dr + dr[n - 2..] else shift[2..] + dr[n - 2..]
    else if code == 5 then
      if wide then
        if acpt == 0 then dr + dr[n - 2..]
        else if acpt == 5 then shift[3..4] + dr + dr[n - 1..]
        else if acpt == 10 then shift[3..5] + dr
        else shift[3..] + dr[n - 3..]
      else
        if acpt % 8 == 0 then dr + dr[n - 2..]
        else if acpt % 8 == 2 then shift[3..5] + dr
        else if acpt % 8 == 5 then shift[3..4] + dr + dr[n - 1..]
        else shift[3..] + dr[n - 3..]
    else
      if (wide && acpt % 4 == 0) || (!wide && acpt % 2 == 0) then dr + dr[n - 2..] else shift[4..] + dr[n - 4..]
  }

  /** Whether this pixel needs the next word. */
  predicate NextOut(wide: bool, acpt: int, code: int) {
    if code == 4 then (wide && acpt % 8 == 0) || (!wide && acpt % 4 == 0)
    else if code == 5 then
      (wide && (acpt == 0 || acpt == 5 || acpt == 10))
      || (!wide && (acpt % 8 == 0 || acpt % 8 == 2 || acpt % 8 == 5))
    else (wide && acpt % 4 == 0) || (!wide && acpt % 2 == 0)
  }

  function PixOut(shift: seq<int>, code: int): Pix
    requires |shift| >= 3
  {
    if code == 4 then
      var r, g, b := shift[0] % 32, shift[1] % 8 * 8 + shift[0] / 32, shift[1] / 8;
      Pix(r * 8 + r / 4, g * 4 + g / 16, b * 8 + b / 4)
    else Pix(shift[0], shift[1], shift[2])
  }

  // ---------------------------------------------------------------- byte order in memory

  function Swap(byteSwap: bool, d: seq<int>): (e: seq<int>)
    ensures |e| == |d|
  {
    if byteSwap then seq(|d|, i requires 0 <= i < |d| => d[|d| - 1 - i]) else d
  }

  lemma SwapTwice(byteSwap: bool, d: seq<int>)
    ensures Swap(byteSwap, Swap(byteSwap, d)) == d
  {
  }

  // ---------------------------------------------------------------- what packing means

  /** A pixel as the bytes it takes in memory. */
  function PixBytes(format: int, p: Pix): (b: seq<int>)
    ensures |b| == PixelBytes(format)
  {
    if format == 1 then [p.r, p.g, p.b] else if format == 2 then [p.r, p.g, p.b, 0] else Bits565(p)
  }

  /** Bytes in `k` pixels. */
  function PixelSpan(format: int, k: int): int {
    if format == 1 then 3 * k else if format == 2 then 4 * k else 2 * k
  }

  /** Bytes in `k` words. */
  function WordSpan(wide: bool, k: int): int {
    if wide then 16 * k else 8 * k
  }

  /** A line as one stream of bytes. */
  function Stream(format: int, line: seq<Pix>): (s: seq<int>)
    ensures |s| == PixelSpan(format, |line|)
  {
    if line == [] then []
    else Stream(format, line[..|line| - 1]) + PixBytes(format, line[|line| - 1])
  }

  /** The formats and widths for which packing and unpacking agree. */
  predicate Supported(format: int, wide: bool) {
    format == 0 || format == 1 || (format == 2 && wide)
  }

  /** Bytes of this pixel's word that earlier pixels have filled. */
  function Phase(format: int, wide: bool, acpt: int): int {
    if format == 1 then (if wide then 3 * acpt % 16 else 3 * acpt % 8)
    else if format == 2 then (if wide then 4 * (acpt % 4) else 4 * (acpt % 2))
    else (if wide then 2 * (acpt % 8) else 2 * (acpt % 4))
  }

  /** Bytes the current word still lacks before this pixel. */
  function Lacking(format: int, wide: bool, acpt: int): int {
    WordBytes(wide) - Phase(format, wide, acpt)
  }

  predicate Cuts(wide: bool, dw: seq<int>, acpt: int, shift: seq<int>, p: Pix, format: int, t: int)
    requires |shift| == 15 && |dw| == WordBytes(wide)
  {
    && (NextIn(wide, acpt, format) <==> t <= PixelBytes(format))
    && 1 <= t <= WordBytes(wide)
    && (NextIn(wide, acpt, format) ==>
          PackIn(wide, dw, acpt, shift, p, format) == shift[15 - (WordBytes(wide) - t)..] + PixBytes(format, p)[..t])
  }

  /** Where the words of sixteen 24-bit pixels end. */
  lemma Phase24Wide(acpt: int)
    requires 0 <= acpt < 16
    ensures Phase(1, true, acpt) == if acpt < 6 then 3 * acpt else if acpt < 11 then 3 * acpt - 16 else 3 * acpt - 32
  {
  }

  lemma Phase24Narrow(acpt: int)
    requires 0 <= acpt < 16
    ensures var a := if acpt < 8 then acpt else acpt - 8;
            acpt % 8 == a && Phase(1, false, acpt) == if a < 3 then 3 * a else if a < 6 then 3 * a - 8 else 3 * a - 16
  {
    if acpt >= 8 { assert 3 * acpt == 3 * (acpt - 8) + 24; }
  }

  lemma Cuts24Wide(dw: seq<int>, acpt: int, shift: seq<int>, p: Pix)
    requires 0 <= acpt < 16 && |shift| == 15 && |dw| == 16
    ensures Cuts(true, dw, acpt, shift, p, 1, Lacking(1, true, acpt))
  {
    Phase24Wide(acpt);
    hide Phase;
    assert shift[0..] == shift;
  }

  lemma Cuts24Narrow(dw: seq<int>, acpt: int, shift: seq<int>, p: Pix)
    requires 0 <= acpt < 16 && |shift| == 15 && |dw| == 8
    ensures Cuts(false, dw, acpt, shift, p, 1, Lacking(1, false, acpt))
  {
    Phase24Narrow(acpt);
    hide Phase;
  }

  lemma CutsEven(wide: bool, dw: seq<int>, acpt: int, shift: seq<int>, p: Pix, format: int)
    requires 0 <= acpt < 16 && |shift| == 15 && |dw| == WordBytes(wide) && (format == 0 || (format == 2 && wide))
    ensures Cuts(wide, dw, acpt, shift, p, format, Lacking(format, wide, acpt))
  {
    var t, b := Lacking(format, wide, acpt), PixelBytes(format);
    if NextIn(wide, acpt, format) {
      assert t == b;
      assert PixBytes(format, p)[..b] == PixBytes(format, p);
      hide Lacking, Bits565;
    } else {
      assert t > b;
      hide Lacking, Bits565, PackIn;
    }
  }

  /** Packing cuts the stream: a word is pushed when this pixel's bytes reach its end, and takes what it lacks. */
  lemma PackCuts(wide: bool, dw: seq<int>, acpt: int, shift: seq<int>, p: Pix, format: int)
    requires 0 <= acpt < 16 && |shift| == 15 && |dw| == WordBytes(wide) && Supported(format, wide)
    ensures Cuts(wide, dw, acpt, shift, p, format, Lacking(format, wide, acpt))
  {
    hide Cuts, Lacking;
    if format != 1 { CutsEven(wide, dw, acpt, shift, p, format); }
    else if wide { Cuts24Wide(dw, acpt, shift, p); }
    else { Cuts24Narrow(dw, acpt, shift, p); }
  }

  lemma ShiftInIs(shift: seq<int>, p: Pix, format: int)
    requires |shift| == 15
    ensures ShiftIn(shift, p, format) == shift[PixelBytes(format)..] + PixBytes(format, p)
  {
  }

  /** Bytes left over of the words read so far, before this pixel. */
  function LeftOver(format: int, wide: bool, acpt: int): int {
    if Phase(format, wide, acpt) == 0 then 0 else Lacking(format, wide, acpt)
  }

  predicate Keeps(wide: bool, acpt: int, shift: seq<int>, dr: seq<int>, format: int, u: int)
    requires |shift| == WordBytes(wide) + 2 && |dr| == WordBytes(wide)
  {
    var b, s := PixelBytes(format), PackOut(wide, acpt, shift, dr, OutCode(format));
    && (NextOut(wide, acpt, OutCode(format)) <==> u < b)
    && 0 <= u < WordBytes(wide) && b + u <= WordBytes(wide) + 2
    && (if u < b then u <= 2 && s[..u + WordBytes(wide)] == shift[b..b + u] + dr else s[..u] == shift[b..b + u])
  }

  lemma Keeps24Wide(acpt: int, shift: seq<int>, dr: seq<int>)
    requires 0 <= acpt < 16 && |shift| == 18 && |dr| == 16
    ensures Keeps(true, acpt, shift, dr, 1, LeftOver(1, true, acpt))
  {
    Phase24Wide(acpt);
    hide Phase;
  }

  lemma Keeps24Narrow(acpt: int, shift: seq<int>, dr: seq<int>)
    requires 0 <= acpt < 16 && |shift| == 10 && |dr| == 8
    ensures Keeps(false, acpt, shift, dr, 1, LeftOver(1, false, acpt))
  {
    Phase24Narrow(acpt);
    hide Phase;
  }

  /** A word holds a whole number of 16-bit and of 32-bit pixels. */
  lemma LeftOverEven(wide: bool, acpt: int, format: int)
    requires 0 <= acpt < 16 && (format == 0 || format == 2)
    ensures var u, b := LeftOver(format, wide, acpt), PixelBytes(format);
            if NextOut(wide, acpt, OutCode(format)) then u == 0 else b <= u && b + u <= WordBytes(wide)
  {
  }

  lemma KeepsEven(wide: bool, acpt: int, shift: seq<int>, dr: seq<int>, format: int)
    requires 0 <= acpt < 16 && |shift| == WordBytes(wide) + 2 && |dr| == WordBytes(wide) && (format == 0 || format == 2)
    ensures Keeps(wide, acpt, shift, dr, format, LeftOver(format, wide, acpt))
  {
    LeftOverEven(wide, acpt, format);
    hide LeftOver;
    var b := PixelBytes(format);
    if NextOut(wide, acpt, OutCode(format)) {
      assert shift[b..b] + dr == dr;
    } else {
      assert PackOut(wide, acpt, shift, dr, OutCode(format)) == shift[b..] + dr[WordBytes(wide) - b..];
    }
  }

  /** Unpacking keeps the bytes left over in front and reads a word when they do not make a pixel. */
  lemma UnpackKeeps(wide: bool, acpt: int, shift: seq<int>, dr: seq<int>, format: int)
    requires 0 <= acpt < 16 && |shift| == WordBytes(wide) + 2 && |dr| == WordBytes(wide) && 0 <= format <= 2
    ensures Keeps(wide, acpt, shift, dr, format, LeftOver(format, wide, acpt))
  {
    hide Keeps, LeftOver;
    if format != 1 { KeepsEven(wide, acpt, shift, dr, format); }
    else if wide { Keeps24Wide(acpt, shift, dr); }
    else { Keeps24Narrow(acpt, shift, dr); }
  }
}
