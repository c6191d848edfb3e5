/** Whole lines through the scaler's packing, and back. */
module AscalLines {
  import opened Sequences
  import opened AscalPacking

  /** The input side's shift register, word register and pixel counter. */
  datatype Packer = Packer(shift: seq<int>, dw: seq<int>, acpt: int)

  predicate ValidPacker(wide: bool, s: Packer) {
    |s.shift| == 15 && |s.dw| == WordBytes(wide) && 0 <= s.acpt < 16
  }

  function Accept(format: int, wide: bool, s: Packer, p: Pix): (t: Packer)
    requires ValidPacker(wide, s)
    ensures ValidPacker(wide, t)
  {
    Packer(ShiftIn(s.shift, p, format), PackIn(wide, s.dw, s.acpt, s.shift, p, format), (s.acpt + 1) % 16)
  }

  function Packed(format: int, wide: bool, s: Packer, line: seq<Pix>): (t: Packer)
    requires ValidPacker(wide, s)
    ensures ValidPacker(wide, t)
  {
    if line == [] then s else Accept(format, wide, Packed(format, wide, s, Front(line)), Last(line))
  }

  /** The words a line pushes to memory. */
  function Words(format: int, wide: bool, s: Packer, line: seq<Pix>): (w: seq<seq<int>>)
    requires ValidPacker(wide, s)
    ensures forall k | 0 <= k < |w| :: |w[k]| == WordBytes(wide)
  {
    if line == [] then []
    else
      var t := Packed(format, wide, s, Front(line));
      Words(format, wide, s, Front(line))
      + (if NextIn(wide, t.acpt, format) then [Accept(format, wide, t, Last(line)).dw] else [])
  }

  function Flat(words: seq<seq<int>>): seq<int> {
    if words == [] then [] else Flat(Front(words)) + Last(words)
  }

  // ---------------------------------------------------------------- packing

  lemma PhaseSteps(format: int, wide: bool, acpt: int)
    requires 0 <= acpt < 16
    ensures var e, b := Phase(format, wide, acpt), PixelBytes(format);
            0 <= e < WordBytes(wide)
            && Phase(format, wide, (acpt + 1) % 16) == if e + b >= WordBytes(wide) then e + b - WordBytes(wide) else e + b
  {
    var next := if acpt == 15 then 0 else acpt + 1;
    assert (acpt + 1) % 16 == next;
    if format == 1 && wide {
      Phase24Wide(acpt);
      Phase24Wide(next);
      hide Phase;
    } else if format == 1 {
      Phase24Narrow(acpt);
      Phase24Narrow(next);
      hide Phase;
    } else {
      Quarters(acpt, next);
    }
  }

  lemma Quarters(a: int, next: int)
    requires 0 <= a < 16 && next == if a == 15 then 0 else a + 1
    ensures next % 8 == (if a % 8 == 7 then 0 else a % 8 + 1)
    ensures next % 4 == (if a % 4 == 3 then 0 else a % 4 + 1)
    ensures next % 2 == (if a % 2 == 1 then 0 else a % 2 + 1)
  {
  }

  /** What is pushed is the stream, up to the bytes of the word still being filled; those are in the shift register. */
  predicate Packing(format: int, wide: bool, t: Packer, words: seq<seq<int>>, was: seq<int>, stream: seq<int>, n: nat)
    requires ValidPacker(wide, t) && |was| == 15
  {
    var e := Phase(format, wide, t.acpt);
    && t.acpt == n % 16
    && |stream| == PixelSpan(format, n)
    && t.shift == (was + stream)[|stream|..]
    && 0 <= e <= |stream| && e < WordBytes(wide)
    && Flat(words) == stream[..|stream| - e]
  }

  /** The last bytes of a history, one pixel later. */
  lemma TailShifts(was: seq<int>, stream: seq<int>, bytes: seq<int>, shift: seq<int>)
    requires |was| == 15 && |bytes| <= 15 && shift == (was + stream)[|stream|..]
    ensures shift[|bytes|..] + bytes == (was + (stream + bytes))[|stream + bytes|..]
  {
    var hist := was + stream;
    var b := |bytes|;
    assert was + (stream + bytes) == hist + bytes;
    assert (hist + bytes)[|stream| + b..] == hist[|stream| + b..] + bytes;
    assert hist[|stream|..][b..] == hist[|stream| + b..];
  }

  lemma TailOf(was: seq<int>, stream: seq<int>, shift: seq<int>, e: int)
    requires |was| == 15 && shift == (was + stream)[|stream|..] && 0 <= e <= |stream| && e <= 15
    ensures shift[15 - e..] == stream[|stream| - e..]
  {
    var hist := was + stream;
    assert hist[|stream|..][15 - e..] == hist[|stream| + 15 - e..];
    assert hist[|stream| + 15 - e..] == stream[|stream| - e..];
  }

  lemma WordJoins(words: seq<seq<int>>, stream: seq<int>, bytes: seq<int>, word: seq<int>, e: int, lacks: int)
    requires 0 <= e <= |stream| && 0 <= lacks <= |bytes| && Flat(words) == stream[..|stream| - e]
    requires word == stream[|stream| - e..] + bytes[..lacks]
    ensures Flat(words + [word]) == (stream + bytes)[..|stream| + lacks]
  {
    assert Front(words + [word]) == words;
    assert stream[..|stream| - e] + word == stream + bytes[..lacks];
  }

  lemma PackingShift(format: int, wide: bool, t: Packer, was: seq<int>, stream: seq<int>, p: Pix)
    requires ValidPacker(wide, t) && |was| == 15 && t.shift == (was + stream)[|stream|..]
    ensures var bytes, u := PixBytes(format, p), Accept(format, wide, t, p);
            u.shift == (was + (stream + bytes))[|stream + bytes|..] && u.acpt == (t.acpt + 1) % 16
  {
    ShiftInIs(t.shift, p, format);
    hide PackIn, ShiftIn, PixBytes;
    TailShifts(was, stream, PixBytes(format, p), t.shift);
  }

  /** The word pushed is what the stream has of it, and the first bytes of the pixel. */
  lemma WordCut(format: int, wide: bool, t: Packer, was: seq<int>, stream: seq<int>, p: Pix, e: int)
    requires ValidPacker(wide, t) && |was| == 15 && t.shift == (was + stream)[|stream|..] && Supported(format, wide)
    requires e == Phase(format, wide, t.acpt) && 0 <= e <= |stream| && e < WordBytes(wide)
    ensures var lacks := WordBytes(wide) - e;
            && (NextIn(wide, t.acpt, format) <==> lacks <= PixelBytes(format))
            && (NextIn(wide, t.acpt, format) ==>
                  Accept(format, wide, t, p).dw == stream[|stream| - e..] + PixBytes(format, p)[..lacks])
  {
    PackCuts(wide, t.dw, t.acpt, t.shift, p, format);
    TailOf(was, stream, t.shift, e);
    var lacks := Lacking(format, wide, t.acpt);
    assert 15 - (WordBytes(wide) - lacks) == 15 - e;
    hide PackIn, ShiftIn, NextIn, Phase, PixBytes, Lacking, Supported, PixelBytes;
  }

  lemma CountStep(format: int, n: nat)
    ensures (n % 16 + 1) % 16 == (n + 1) % 16 && PixelSpan(format, n + 1) == PixelSpan(format, n) + PixelBytes(format)
  {
  }

  lemma PackingStep(format: int, wide: bool, t: Packer, words: seq<seq<int>>, was: seq<int>, stream: seq<int>, n: nat, p: Pix)
    requires ValidPacker(wide, t) && |was| == 15 && Supported(format, wide)
    requires Packing(format, wide, t, words, was, stream, n)
    ensures var u := Accept(format, wide, t, p);
            Packing(format, wide, u, words + (if NextIn(wide, t.acpt, format) then [u.dw] else []), was,
                    stream + PixBytes(format, p), n + 1)
  {
    var e, bytes := Phase(format, wide, t.acpt), PixBytes(format, p);
    PhaseSteps(format, wide, t.acpt);
    PackingShift(format, wide, t, was, stream, p);
    WordCut(format, wide, t, was, stream, p, e);
    CountStep(format, n);
    hide Accept, NextIn, Phase, PixBytes, Flat, PixelSpan;
    var u := Accept(format, wide, t, p);
    if NextIn(wide, t.acpt, format) {
      WordJoins(words, stream, bytes, u.dw, e, WordBytes(wide) - e);
    } else {
      assert words + [] == words;
      assert (stream + bytes)[..|stream| - e] == stream[..|stream| - e];
    }
  }

  lemma {:induction false} LinePacks(format: int, wide: bool, s: Packer, line: seq<Pix>)
    requires ValidPacker(wide, s) && s.acpt == 0 && Supported(format, wide)
    ensures Packing(format, wide, Packed(format, wide, s, line), Words(format, wide, s, line), s.shift,
                    Stream(format, line), |line|)
  {
    if line == [] {
      assert s.shift + [] == s.shift;
    } else {
      LinePacks(format, wide, s, Front(line));
      hide Packing, Accept;
      PackingStep(format, wide, Packed(format, wide, s, Front(line)), Words(format, wide, s, Front(line)), s.shift,
                  Stream(format, Front(line)), |line| - 1, Last(line));
    }
  }

  // ---------------------------------------------------------------- unpacking

  /** The output side's shift register, pixel counter and word address. */
  datatype Reader = Reader(shift: seq<int>, acpt: int, ad: nat)

  predicate ValidReader(wide: bool, r: Reader) {
    |r.shift| == WordBytes(wide) + 2 && 0 <= r.acpt < 16
  }

  predicate WholeWords(wide: bool, mem: seq<seq<int>>) {
    forall k | 0 <= k < |mem| :: |mem[k]| == WordBytes(wide)
  }

  /** The word at the output side's address; past the line's words, anything will do. */
  function WordAt(wide: bool, mem: seq<seq<int>>, ad: nat): (w: seq<int>)
    requires WholeWords(wide, mem)
    ensures |w| == WordBytes(wide)
  {
    if ad < |mem| then mem[ad] else seq(WordBytes(wide), _ => 0)
  }

  function Take(format: int, wide: bool, mem: seq<seq<int>>, r: Reader): (u: Reader)
    requires ValidReader(wide, r) && WholeWords(wide, mem)
    ensures ValidReader(wide, u)
  {
    Reader(PackOut(wide, r.acpt, r.shift, WordAt(wide, mem, r.ad), OutCode(format)),
           (r.acpt + 1) % 16,
           if NextOut(wide, r.acpt, OutCode(format)) then r.ad + 1 else r.ad)
  }

  function Taken(format: int, wide: bool, mem: seq<seq<int>>, r: Reader, k: nat): (u: Reader)
    requires ValidReader(wide, r) && WholeWords(wide, mem)
    ensures ValidReader(wide, u)
  {
    if k == 0 then r else Take(format, wide, mem, Taken(format, wide, mem, r, k - 1))
  }

  /** The `k`-th pixel that comes out. */
  function Shown(format: int, wide: bool, mem: seq<seq<int>>, r: Reader, k: nat): Pix
    requires ValidReader(wide, r) && WholeWords(wide, mem)
  {
    PixOut(Taken(format, wide, mem, r, k + 1).shift, OutCode(format))
  }

  lemma LeftOverSteps(format: int, wide: bool, acpt: int)
    requires 0 <= acpt < 16
    ensures var u, b := LeftOver(format, wide, acpt), PixelBytes(format);
            0 <= u && LeftOver(format, wide, (acpt + 1) % 16) == if u < b then u + WordBytes(wide) - b else u - b
  {
    PhaseSteps(format, wide, acpt);
    hide Phase;
  }

  lemma InFront(s: seq<int>, t: seq<int>, i: int, j: int)
    requires 0 <= i <= j <= |s|
    ensures (s + t)[i..j] == s[i..j]
  {
  }

  lemma {:induction false} FlatAt(wide: bool, mem: seq<seq<int>>, j: nat)
    requires WholeWords(wide, mem) && j < |mem|
    ensures |Flat(mem)| == WordSpan(wide, |mem|) && WordSpan(wide, j + 1) <= WordSpan(wide, |mem|)
    ensures Flat(mem)[WordSpan(wide, j)..WordSpan(wide, j + 1)] == mem[j]
  {
    var m := Front(mem);
    FlatLength(wide, m);
    FlatLength(wide, mem);
    var at, end := WordSpan(wide, j), WordSpan(wide, j + 1);
    assert Flat(mem) == Flat(m) + Last(mem);
    if j < |m| {
      FlatAt(wide, m, j);
      InFront(Flat(m), Last(mem), at, end);
      assert m[j] == mem[j];
    } else {
      assert at == |Flat(m)| && end == |Flat(mem)|;
    }
  }

  lemma {:induction false} FlatLength(wide: bool, mem: seq<seq<int>>)
    requires WholeWords(wide, mem)
    ensures |Flat(mem)| == WordSpan(wide, |mem|)
  {
    if mem != [] { FlatLength(wide, Front(mem)); }
  }

  /** The front of the shift register is the stream, from the pixel taken last to the end of the words read. */
  predicate Reading(format: int, wide: bool, mem: seq<seq<int>>, r: Reader, k: nat)
    requires ValidReader(wide, r)
  {
    var left, b, flat := LeftOver(format, wide, r.acpt), PixelBytes(format), Flat(mem);
    && r.acpt == k % 16 && 0 <= left && b + left <= WordBytes(wide) + 2
    && WordSpan(wide, r.ad) == PixelSpan(format, k) + left <= |flat|
    && (k > 0 ==> r.shift[..b + left] == flat[PixelSpan(format, k - 1)..WordSpan(wide, r.ad)])
  }

  lemma ReadingStarts(format: int, wide: bool, mem: seq<seq<int>>, r: Reader)
    requires ValidReader(wide, r) && r.acpt == 0 && r.ad == 0
    ensures Reading(format, wide, mem, r, 0)
  {
    assert LeftOver(format, wide, 0) == 0;
    hide LeftOver;
  }

  /** What is left over of the last read. */
  lemma Remains(shift: seq<int>, flat: seq<int>, a: nat, b: nat, left: nat)
    requires b + left <= |shift| && a + b + left <= |flat| && shift[..b + left] == flat[a..a + b + left]
    ensures shift[b..b + left] == flat[a + b..a + b + left]
  {
    assert shift[b..b + left] == shift[..b + left][b..];
    assert flat[a + b..a + b + left] == flat[a..a + b + left][b..];
  }

  lemma LeftIs(format: int, wide: bool, mem: seq<seq<int>>, r: Reader, k: nat)
    requires ValidReader(wide, r) && Reading(format, wide, mem, r, k)
    ensures var left, b := LeftOver(format, wide, r.acpt), PixelBytes(format);
            0 <= left && b + left <= WordBytes(wide) + 2
            && PixelSpan(format, k) + left <= |Flat(mem)|
            && r.shift[b..b + left] == Flat(mem)[PixelSpan(format, k)..PixelSpan(format, k) + left]
  {
    var left, b := LeftOver(format, wide, r.acpt), PixelBytes(format);
    if k > 0 {
      assert PixelSpan(format, k) == PixelSpan(format, k - 1) + b;
      hide LeftOver, Flat, PixelSpan;
      Remains(r.shift, Flat(mem), PixelSpan(format, k - 1), b, left);
    } else {
      assert left == 0;
    }
  }

  /** When the left-over bytes make a pixel, nothing is read. */
  lemma TakeKeeps(format: int, wide: bool, mem: seq<seq<int>>, r: Reader, left: int)
    requires ValidReader(wide, r) && WholeWords(wide, mem) && 0 <= format <= 2
    requires left == LeftOver(format, wide, r.acpt) >= PixelBytes(format)
    ensures var b, u := PixelBytes(format), Take(format, wide, mem, r);
            b + left <= WordBytes(wide) + 2 && u.ad == r.ad && u.shift[..left] == r.shift[b..b + left]
  {
    UnpackKeeps(wide, r.acpt, r.shift, WordAt(wide, mem, r.ad), format);
    hide LeftOver, PackOut, NextOut, PixelBytes, WordBytes, WordAt;
  }

  /** When they do not, the next word follows them. */
  lemma TakeReads(format: int, wide: bool, mem: seq<seq<int>>, r: Reader, left: int)
    requires ValidReader(wide, r) && WholeWords(wide, mem) && 0 <= format <= 2
    requires left == LeftOver(format, wide, r.acpt) < PixelBytes(format)
    ensures var b, u := PixelBytes(format), Take(format, wide, mem, r);
            0 <= left <= 2 && u.ad == r.ad + 1
            && u.shift[..left + WordBytes(wide)] == r.shift[b..b + left] + WordAt(wide, mem, r.ad)
  {
    UnpackKeeps(wide, r.acpt, r.shift, WordAt(wide, mem, r.ad), format);
    hide LeftOver, PackOut, NextOut, PixelBytes, WordAt;
  }

  lemma JoinAt(flat: seq<int>, at: nat, left: nat, w: nat)
    requires at + left + w <= |flat|
    ensures flat[at..at + left] + flat[at + left..at + left + w] == flat[at..at + left + w]
  {
  }

  lemma ReadingReads(format: int, wide: bool, mem: seq<seq<int>>, r: Reader, k: nat, left: int)
    requires ValidReader(wide, r) && WholeWords(wide, mem) && 0 <= format <= 2
    requires Reading(format, wide, mem, r, k) && PixelSpan(format, k + 1) <= |Flat(mem)|
    requires left == LeftOver(format, wide, r.acpt) < PixelBytes(format)
    ensures var u, at := Take(format, wide, mem, r), PixelSpan(format, k);
            0 <= left <= 2 && u.ad == r.ad + 1 && WordSpan(wide, u.ad) == at + left + WordBytes(wide) <= |Flat(mem)|
            && u.shift[..left + WordBytes(wide)] == Flat(mem)[at..at + left + WordBytes(wide)]
  {
    var at := PixelSpan(format, k);
    LeftIs(format, wide, mem, r, k);
    CountStep(format, k);
    FlatLength(wide, mem);
    TakeReads(format, wide, mem, r, left);
    assert r.ad < |mem|;
    FlatAt(wide, mem, r.ad);
    hide LeftOver, PackOut, NextOut, Flat, PixelSpan, PixelBytes, Take;
    JoinAt(Flat(mem), at, left, WordBytes(wide));
  }

  lemma ReadingKeeps(format: int, wide: bool, mem: seq<seq<int>>, r: Reader, k: nat, left: int)
    requires ValidReader(wide, r) && WholeWords(wide, mem) && 0 <= format <= 2
    requires Reading(format, wide, mem, r, k) && PixelSpan(format, k + 1) <= |Flat(mem)|
    requires left == LeftOver(format, wide, r.acpt) >= PixelBytes(format)
    ensures var u, at := Take(format, wide, mem, r), PixelSpan(format, k);
            left <= WordBytes(wide) + 2 && u.ad == r.ad && WordSpan(wide, u.ad) == at + left <= |Flat(mem)|
            && u.shift[..left] == Flat(mem)[at..at + left]
  {
    LeftIs(format, wide, mem, r, k);
    TakeKeeps(format, wide, mem, r, left);
    hide LeftOver, PackOut, NextOut, Flat, PixelSpan, PixelBytes, Take;
  }

  lemma ReadingIs(format: int, wide: bool, mem: seq<seq<int>>, u: Reader, k: nat, left: int)
    requires ValidReader(wide, u) && u.acpt == (k + 1) % 16 && left == LeftOver(format, wide, u.acpt) && 0 <= left
    requires var b, at := PixelBytes(format), PixelSpan(format, k);
             b + left <= WordBytes(wide) + 2 && WordSpan(wide, u.ad) == at + b + left <= |Flat(mem)|
             && u.shift[..b + left] == Flat(mem)[at..at + b + left]
    ensures Reading(format, wide, mem, u, k + 1)
  {
    CountStep(format, k);
    hide LeftOver, Flat, PixelSpan, WordSpan, PixelBytes;
  }

  lemma NextLeft(format: int, wide: bool, mem: seq<seq<int>>, r: Reader, k: nat)
    requires ValidReader(wide, r) && WholeWords(wide, mem) && r.acpt == k % 16
    ensures var left, b, u := LeftOver(format, wide, r.acpt), PixelBytes(format), Take(format, wide, mem, r);
            0 <= left && u.acpt == (k + 1) % 16
            && LeftOver(format, wide, u.acpt) == if left < b then left + WordBytes(wide) - b else left - b
  {
    LeftOverSteps(format, wide, r.acpt);
    CountStep(format, k);
    hide LeftOver, PackOut, NextOut, WordAt;
  }

  lemma ReadingStep(format: int, wide: bool, mem: seq<seq<int>>, r: Reader, k: nat)
    requires ValidReader(wide, r) && WholeWords(wide, mem) && 0 <= format <= 2
    requires Reading(format, wide, mem, r, k) && PixelSpan(format, k + 1) <= |Flat(mem)|
    ensures Reading(format, wide, mem, Take(format, wide, mem, r), k + 1)
  {
    assert r.acpt == k % 16;
    assert PixelBytes(format) > 0 && WordBytes(wide) >= 8 >= 2 * PixelBytes(format);
    hide *;
    NextLeft(format, wide, mem, r, k);
    var left, b := LeftOver(format, wide, r.acpt), PixelBytes(format);
    var u := Take(format, wide, mem, r);
    if left < b {
      ReadingReads(format, wide, mem, r, k, left);
      ReadingIs(format, wide, mem, u, k, left + WordBytes(wide) - b);
    } else {
      ReadingKeeps(format, wide, mem, r, k, left);
      ReadingIs(format, wide, mem, u, k, left - b);
    }
  }

  lemma {:induction false} LineReads(format: int, wide: bool, mem: seq<seq<int>>, r: Reader, k: nat)
    requires ValidReader(wide, r) && r.acpt == 0 && r.ad == 0 && WholeWords(wide, mem) && 0 <= format <= 2
    requires PixelSpan(format, k) <= |Flat(mem)|
    ensures Reading(format, wide, mem, Taken(format, wide, mem, r, k), k)
  {
    hide Reading, Take;
    if k == 0 {
      ReadingStarts(format, wide, mem, r);
    } else {
      LineReads(format, wide, mem, r, k - 1);
      ReadingStep(format, wide, mem, Taken(format, wide, mem, r, k - 1), k - 1);
    }
  }
}
