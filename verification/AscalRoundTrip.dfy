/** What goes into memory comes out again: for which formats and widths, and exactly when. */
module AscalRoundTrip {
  import opened Sequences
  import opened AscalPacking
  import opened AscalLines

  /** The `k`-th pixel behind a line of `n` completes a word. */
  predicate Completes(format: int, wide: bool, n: nat, k: nat) {
    NextIn(wide, (n + k) % 16, format)
  }

  /** Pixels pushed behind the line until the last word is complete. */
  predicate Flushes(format: int, wide: bool, n: nat, junk: seq<Pix>) {
    && junk != []
    && Completes(format, wide, n, |junk| - 1)
    && forall k | 0 <= k < |junk| - 1 :: !Completes(format, wide, n, k)
  }

  function SwapAll(byteSwap: bool, words: seq<seq<int>>): (w: seq<seq<int>>)
    ensures |w| == |words| && forall k | 0 <= k < |w| :: w[k] == Swap(byteSwap, words[k])
  {
    seq(|words|, k requires 0 <= k < |words| => Swap(byteSwap, words[k]))
  }

  /** The words that come back from memory: swapped on the way there and again on the way back. */
  function Stored(byteSwap: bool, words: seq<seq<int>>): (w: seq<seq<int>>)
    ensures w == words
  {
    var there := SwapAll(byteSwap, words);
    var back := SwapAll(byteSwap, there);
    assert forall k | 0 <= k < |words| :: back[k] == words[k] by {
      forall k | 0 <= k < |words| ensures back[k] == words[k] { SwapTwice(byteSwap, words[k]); }
    }
    back
  }

  /** A pixel of five, six and five bits, its top bits repeated below them. */
  function Quantised(p: Pix): Pix {
    Pix(p.r / 8 * 8 + p.r / 8 / 4, p.g / 4 * 4 + p.g / 4 / 16, p.b / 8 * 8 + p.b / 8 / 4)
  }

  /** What the format can keep of a pixel. */
  function Restored(format: int, p: Pix): Pix {
    if format == 1 || format == 2 then p else Quantised(p)
  }

  predicate InRange(line: seq<Pix>) {
    forall k | 0 <= k < |line| :: PixInRange(line[k])
  }

  // ---------------------------------------------------------------- one pixel

  lemma BitsBack(p: Pix, shift: seq<int>)
    requires PixInRange(p) && |shift| >= 3 && shift[..2] == Bits565(p)
    ensures PixOut(shift, 4) == Quantised(p)
  {
    assert shift[0] == shift[..2][0] && shift[1] == shift[..2][1];
    Fields(p.r, p.g, p.b);
  }

  lemma Fields(r: int, g: int, b: int)
    requires 0 <= r < 256 && 0 <= g < 256 && 0 <= b < 256
    ensures (g / 4 % 8 * 32 + r / 8) % 32 == r / 8 && (g / 4 % 8 * 32 + r / 8) / 32 == g / 4 % 8
    ensures (b / 8 * 8 + g / 32) % 8 == g / 32 && (b / 8 * 8 + g / 32) / 8 == b / 8
    ensures g / 32 * 8 + g / 4 % 8 == g / 4
  {
  }

  lemma PixelBack(format: int, p: Pix, shift: seq<int>)
    requires 0 <= format <= 2 && PixInRange(p) && |shift| >= 4 && shift[..PixelBytes(format)] == PixBytes(format, p)
    ensures PixOut(shift, OutCode(format)) == Restored(format, p)
  {
    if format == 0 {
      BitsBack(p, shift);
      hide Bits565, Quantised, PixOut;
    } else {
      var b := shift[..PixelBytes(format)];
      assert shift[0] == b[0] && shift[1] == b[1] && shift[2] == b[2];
    }
  }

  /** Sending a restored line again changes nothing: it packs to the same bytes. */
  lemma Repacks(format: int, p: Pix)
    requires PixInRange(p)
    ensures PixInRange(Restored(format, p)) && PixBytes(format, Restored(format, p)) == PixBytes(format, p)
    ensures Restored(format, Restored(format, p)) == Restored(format, p)
  {
    Fives(p.r);
    Fives(p.b);
    Sixes(p.g);
    var q := Quantised(p);
    assert q.r / 8 == p.r / 8 && q.b / 8 == p.b / 8 && q.g / 4 == p.g / 4 && q.g / 32 == p.g / 32;
    SameQuantum(q, p);
    hide Quantised, Bits565;
  }

  lemma SameQuantum(q: Pix, p: Pix)
    requires q.r / 8 == p.r / 8 && q.b / 8 == p.b / 8 && q.g / 4 == p.g / 4 && q.g / 32 == p.g / 32
    ensures Quantised(q) == Quantised(p) && Bits565(q) == Bits565(p)
  {
  }

  lemma Fives(x: int)
    requires 0 <= x < 256
    ensures var y := x / 8 * 8 + x / 8 / 4; 0 <= y < 256 && y / 8 == x / 8
  {
  }

  lemma Sixes(x: int)
    requires 0 <= x < 256
    ensures var y := x / 4 * 4 + x / 4 / 16; 0 <= y < 256 && y / 4 == x / 4 && y / 32 == x / 32
  {
  }

  // ---------------------------------------------------------------- lines

  lemma {:induction false} StreamAt(format: int, line: seq<Pix>, k: nat)
    requires k < |line|
    ensures PixelSpan(format, k + 1) <= |Stream(format, line)|
    ensures Stream(format, line)[PixelSpan(format, k)..PixelSpan(format, k + 1)] == PixBytes(format, line[k])
  {
    var f := Front(line);
    hide PixBytes;
    if k < |f| {
      StreamAt(format, f, k);
      InFront(Stream(format, f), PixBytes(format, Last(line)), PixelSpan(format, k), PixelSpan(format, k + 1));
    } else {
      assert Stream(format, line) == Stream(format, f) + PixBytes(format, Last(line));
    }
  }

  /** Behind a pixel that completes a word, less than a pixel is pending. */
  lemma PendingAfter(format: int, wide: bool, acpt: int)
    requires 0 <= acpt < 16 && Supported(format, wide) && NextIn(wide, acpt, format)
    ensures Phase(format, wide, (acpt + 1) % 16) < PixelBytes(format)
  {
    PhaseSteps(format, wide, acpt);
    var zeros := Packer(seq(15, _ => 0), seq(WordBytes(wide), _ => 0), acpt);
    PackCuts(wide, zeros.dw, acpt, zeros.shift, Pix(0, 0, 0), format);
    hide Phase, NextIn, PackIn;
  }

  lemma LastCompletes(format: int, wide: bool, m: nat, junk: seq<Pix>, n: nat)
    requires Flushes(format, wide, m, junk) && n + 1 == m + |junk|
    ensures m <= n && NextIn(wide, n % 16, format)
  {
    assert n == m + (|junk| - 1);
    hide NextIn;
  }

  /** The words of a flushed line hold every pixel of it. */
  lemma FlushedWords(format: int, wide: bool, s: Packer, line: seq<Pix>, junk: seq<Pix>)
    requires ValidPacker(wide, s) && s.acpt == 0 && Supported(format, wide) && Flushes(format, wide, |line|, junk)
    ensures var flat, all := Flat(Words(format, wide, s, line + junk)), Stream(format, line + junk);
            PixelSpan(format, |line|) <= |flat| <= |all| && flat == all[..|flat|]
  {
    assert |s.shift| == 15;
    hide *;
    var all := line + junk;
    LinePacks(format, wide, s, all);
    NonEmpty(format, wide, |line|, junk);
    var n: nat := |all| - 1;
    LastCompletes(format, wide, |line|, junk, n);
    Covers(format, wide, Packed(format, wide, s, all), Words(format, wide, s, all), s.shift, Stream(format, all), |all|, n, |line|);
  }

  lemma NonEmpty(format: int, wide: bool, m: nat, junk: seq<Pix>)
    requires Flushes(format, wide, m, junk)
    ensures |junk| > 0
  {
  }

  lemma Covers(format: int, wide: bool, t: Packer, words: seq<seq<int>>, was: seq<int>, stream: seq<int>, total: nat, n: nat, m: nat)
    requires ValidPacker(wide, t) && |was| == 15 && Packing(format, wide, t, words, was, stream, total)
    requires total == n + 1 && m <= n && Supported(format, wide) && NextIn(wide, n % 16, format)
    ensures PixelSpan(format, m) <= |Flat(words)| <= |stream| && Flat(words) == stream[..|Flat(words)|]
  {
    PendingAfter(format, wide, n % 16);
    SpanGrows(format, m, n);
    CountStep(format, n);
    hide Flat, Phase, PixelSpan, NextIn;
  }

  lemma SpanGrows(format: int, m: nat, n: nat)
    requires m <= n
    ensures PixelSpan(format, m) <= PixelSpan(format, n)
  {
  }

  /** The pixel's bytes are at the front of the output register when it is shown. */
  lemma BytesArrive(format: int, wide: bool, s: Packer, r: Reader, line: seq<Pix>, junk: seq<Pix>, k: nat)
    requires ValidPacker(wide, s) && s.acpt == 0 && ValidReader(wide, r) && r.acpt == 0 && r.ad == 0
    requires Supported(format, wide) && Flushes(format, wide, |line|, junk) && k < |line|
    ensures var mem := Words(format, wide, s, line + junk);
            Taken(format, wide, mem, r, k + 1).shift[..PixelBytes(format)] == PixBytes(format, line[k])
  {
    var all := line + junk;
    var mem := Words(format, wide, s, all);
    FlushedWords(format, wide, s, line, junk);
    StreamAt(format, all, k);
    CountStep(format, k);
    assert PixelSpan(format, k + 1) <= PixelSpan(format, |line|);
    LineReads(format, wide, mem, r, k + 1);
    hide *;
    var u := Taken(format, wide, mem, r, k + 1);
    ReadingShows(format, wide, mem, u, k, Stream(format, all));
    assert all[k] == line[k];
  }

  lemma ReadingShows(format: int, wide: bool, mem: seq<seq<int>>, u: Reader, k: nat, stream: seq<int>)
    requires ValidReader(wide, u) && Reading(format, wide, mem, u, k + 1)
    requires |Flat(mem)| <= |stream| && Flat(mem) == stream[..|Flat(mem)|]
    ensures PixelSpan(format, k + 1) <= |stream| && PixelBytes(format) <= |u.shift|
    ensures u.shift[..PixelBytes(format)] == stream[PixelSpan(format, k)..PixelSpan(format, k + 1)]
  {
    CountStep(format, k);
    assert PixelSpan(format, k) >= 0;
    hide Flat, PixelSpan, WordSpan, LeftOver;
    FrontOf(u.shift, Flat(mem), stream, PixelSpan(format, k), PixelBytes(format), LeftOver(format, wide, u.acpt));
  }

  /** Every pixel of a line of any length comes back as the format keeps it, whatever was in the registers before
      and whatever is pushed behind the line to complete its last word. */
  lemma RoundTrip(format: int, wide: bool, byteSwap: bool, s: Packer, r: Reader, line: seq<Pix>, junk: seq<Pix>, k: nat)
    requires ValidPacker(wide, s) && s.acpt == 0 && ValidReader(wide, r) && r.acpt == 0 && r.ad == 0
    requires Supported(format, wide) && InRange(line) && Flushes(format, wide, |line|, junk) && k < |line|
    ensures Shown(format, wide, Stored(byteSwap, Words(format, wide, s, line + junk)), r, k) == Restored(format, line[k])
  {
    BytesArrive(format, wide, s, r, line, junk, k);
    hide Taken, PixOut, PixBytes, Flushes, Words, Restored, PixelBytes;
    PixelBack(format, line[k], Taken(format, wide, Words(format, wide, s, line + junk), r, k + 1).shift);
  }

  lemma FrontOf(shift: seq<int>, flat: seq<int>, stream: seq<int>, at: nat, b: nat, left: nat)
    requires b + left <= |shift| && at + b + left <= |flat| <= |stream| && flat == stream[..|flat|]
    requires shift[..b + left] == flat[at..at + b + left]
    ensures shift[..b] == stream[at..at + b]
  {
    assert shift[..b] == shift[..b + left][..b];
    assert flat[at..at + b] == flat[at..at + b + left][..b];
  }

  /** A restored line packs to the same words, so sending it round again loses nothing more. */
  function RestoredLine(format: int, line: seq<Pix>): (r: seq<Pix>)
    ensures |r| == |line|
  {
    seq(|line|, k requires 0 <= k < |line| => Restored(format, line[k]))
  }

  lemma {:induction false} SamePacking(format: int, wide: bool, s: Packer, line: seq<Pix>)
    requires ValidPacker(wide, s) && InRange(line)
    ensures Packed(format, wide, s, RestoredLine(format, line)) == Packed(format, wide, s, line)
    ensures Words(format, wide, s, RestoredLine(format, line)) == Words(format, wide, s, line)
  {
    if line != [] {
      SamePacking(format, wide, s, Front(line));
      assert Front(RestoredLine(format, line)) == RestoredLine(format, Front(line));
      var t := Packed(format, wide, s, Front(line));
      SameAccept(format, wide, t, Last(line));
      hide Accept, NextIn, Restored;
    }
  }

  lemma SameAccept(format: int, wide: bool, t: Packer, p: Pix)
    requires ValidPacker(wide, t) && PixInRange(p)
    ensures Accept(format, wide, t, Restored(format, p)) == Accept(format, wide, t, p)
  {
    Repacks(format, p);
    if format != 1 && format != 2 { assert Bits565(Restored(format, p)) == Bits565(p); }
    hide Restored, Bits565;
  }

  /** The flush ends: a word is complete by the sixteenth pixel at the latest. */
  lemma FlushEnds(format: int, wide: bool, n: nat)
    ensures exists junk :: Flushes(format, wide, n, junk) && |junk| <= 16 - n % 16
  {
    var f := FlushLength(format, wide, n, 0);
    var junk := seq(f, _ => Pix(0, 0, 0));
    assert Flushes(format, wide, n, junk);
  }

  lemma SumMod(n: nat, k: nat)
    requires n % 16 + k < 16
    ensures (n + k) % 16 == n % 16 + k
  {
  }

  /** How many pixels it takes, when the first `k` of them do not complete a word. */
  function FlushLength(format: int, wide: bool, n: nat, k: nat): (f: nat)
    requires n % 16 + k < 16 && forall j | 0 <= j < k :: !Completes(format, wide, n, j)
    ensures k < f <= 16 - n % 16 && Completes(format, wide, n, f - 1)
    ensures forall j | 0 <= j < f - 1 :: !Completes(format, wide, n, j)
    decreases 16 - k
  {
    SumMod(n, k);
    if Completes(format, wide, n, k) then k + 1
    else
      assert !NextIn(wide, n % 16 + k, format);
      FlushLength(format, wide, n, k + 1)
  }

  // ---------------------------------------------------------------- exactly when

  /** Pixel `k` of a line comes back as the format keeps it. */
  predicate Faithful(format: int, wide: bool, s: Packer, r: Reader, line: seq<Pix>, junk: seq<Pix>, k: nat) {
    ValidPacker(wide, s) && s.acpt == 0 && ValidReader(wide, r) && r.acpt == 0 && r.ad == 0
    && InRange(line) && Flushes(format, wide, |line|, junk) && k < |line|
    ==> Shown(format, wide, Stored(true, Words(format, wide, s, line + junk)), r, k) == Restored(format, line[k])
  }

  /** Every line comes back, whatever the registers hold and whatever completes the last word. */
  ghost predicate RoundTrips(format: int, wide: bool) {
    forall s, r, line, junk, k: nat :: Faithful(format, wide, s, r, line, junk, k)
  }

  const BLACK := Pix(0, 0, 0)
  const WHITE := Pix(255, 255, 255)

  function Zeros(n: nat): (z: seq<int>)
    ensures |z| == n && forall k | 0 <= k < n :: z[k] == 0
  {
    seq(n, _ => 0)
  }

  lemma AcceptCounts(format: int, wide: bool, s: Packer, p: Pix)
    requires ValidPacker(wide, s)
    ensures Accept(format, wide, s, p).acpt == (s.acpt + 1) % 16
  {
  }

  lemma TwoPixels(format: int, wide: bool, s: Packer, p: Pix, q: Pix)
    requires ValidPacker(wide, s) && s.acpt == 0 && !NextIn(wide, 0, format) && NextIn(wide, 1, format)
    ensures Words(format, wide, s, [p] + [q]) == [Accept(format, wide, Accept(format, wide, s, p), q).dw]
  {
    assert Front([p] + [q]) == [p] && Front([p]) == [];
    hide ShiftIn, PackIn, NextIn, Accept;
    var t := Accept(format, wide, s, p);
    assert t.acpt == 1 by { AcceptCounts(format, wide, s, p); }
    assert Packed(format, wide, s, []) == s;
    assert Packed(format, wide, s, [p]) == t;
    assert Words(format, wide, s, [p]) == [];
  }

  /** The first pixel of a line shown from its first word. */
  lemma FirstShown(format: int, wide: bool, mem: seq<seq<int>>, r: Reader)
    requires ValidReader(wide, r) && WholeWords(wide, mem) && mem != [] && r.acpt == 0 && r.ad == 0 && OutCode(format) != 4
    ensures Shown(format, wide, mem, r, 0) == Pix(mem[0][0], mem[0][1], mem[0][2])
  {
    assert Taken(format, wide, mem, r, 0) == r;
    var u := Take(format, wide, mem, r);
    assert Taken(format, wide, mem, r, 1) == u;
    assert u.shift[..3] == mem[0][..3];
    hide PackOut;
    assert u.shift[0] == u.shift[..3][0] && u.shift[1] == u.shift[..3][1] && u.shift[2] == u.shift[..3][2];
  }

  /** The word pushed behind the second pixel is the one that was there before. */
  lemma NarrowStale(s: Packer)
    requires ValidPacker(false, s) && s.acpt == 0
    ensures Words(2, false, s, [WHITE] + [BLACK]) == [s.dw]
  {
    TwoPixels(2, false, s, WHITE, BLACK);
    var t := Accept(2, false, s, WHITE);
    assert t.dw == s.dw && t.acpt == 1;
    assert Accept(2, false, t, BLACK).dw == s.dw;
    hide Words;
  }

  lemma NarrowFlushes()
    ensures Flushes(2, false, 1, [BLACK]) && InRange([WHITE]) && Restored(2, WHITE) == WHITE
  {
    assert Completes(2, false, 1, 0);
  }

  /** 32 bits a pixel in 64-bit words: a word is pushed every other pixel but filled only every eighth. */
  lemma NarrowLosesPixels()
    ensures !RoundTrips(2, false)
  {
    var s, r := Packer(Zeros(15), Zeros(8), 0), Reader(Zeros(10), 0, 0);
    assert ValidPacker(false, s) && ValidReader(false, r) && OutCode(2) == 6;
    hide *;
    NarrowStale(s);
    NarrowFlushes();
    FirstShown(2, false, Words(2, false, s, [WHITE] + [BLACK]), r);
    Disproved(2, false, s, r, [WHITE], [BLACK], 0);
  }

  lemma Disproved(format: int, wide: bool, s: Packer, r: Reader, line: seq<Pix>, junk: seq<Pix>, k: nat)
    requires ValidPacker(wide, s) && s.acpt == 0 && ValidReader(wide, r) && r.acpt == 0 && r.ad == 0
    requires InRange(line) && Flushes(format, wide, |line|, junk) && k < |line|
    requires Shown(format, wide, Words(format, wide, s, line + junk), r, k) != Restored(format, line[k])
    ensures !RoundTrips(format, wide)
  {
    assert !Faithful(format, wide, s, r, line, junk, k) by { hide Shown, Words, Restored, Flushes, InRange; }
    hide Faithful;
  }

  lemma {:induction false} ThreePacksAsZero(wide: bool, s: Packer, line: seq<Pix>)
    requires ValidPacker(wide, s)
    ensures Packed(3, wide, s, line) == Packed(0, wide, s, line) && Words(3, wide, s, line) == Words(0, wide, s, line)
  {
    if line != [] { ThreePacksAsZero(wide, s, Front(line)); }
  }

  lemma FirstWord(wide: bool, s: Packer, all: seq<Pix>)
    requires ValidPacker(wide, s) && s.acpt == 0 && |all| == if wide then 8 else 4
    ensures var words := Words(0, wide, s, all);
            |words| == 1 && |words[0]| >= 4 && words[0][..2] == Bits565(all[0]) && words[0][2..4] == Bits565(all[1])
  {
    var words, stream := Words(0, wide, s, all), Stream(0, all);
    LinePacks(0, wide, s, all);
    FlatLength(wide, words);
    assert Phase(0, wide, |all| % 16) == 0;
    FlatAt(wide, words, 0);
    StreamAt(0, all, 0);
    StreamAt(0, all, 1);
    hide Words, Stream, Flat, Packed, Bits565;
    assert words[0] == stream;
  }

  /** The first pixel shown takes its third byte from the second pixel packed. */
  lemma FourthShown(wide: bool, s: Packer, r: Reader, all: seq<Pix>)
    requires ValidPacker(wide, s) && s.acpt == 0 && ValidReader(wide, r) && r.acpt == 0 && r.ad == 0
    requires |all| == if wide then 8 else 4
    ensures Shown(3, wide, Words(3, wide, s, all), r, 0).b == Bits565(all[1])[0]
  {
    ThreePacksAsZero(wide, s, all);
    FirstWord(wide, s, all);
    var mem := Words(3, wide, s, all);
    hide Words, Shown, Bits565;
    FirstShown(3, wide, mem, r);
    assert mem[0][2] == mem[0][2..4][0];
  }

  lemma Bright(p: Pix)
    requires p.r == 255 && p.g == 255
    ensures Bits565(p)[0] == 255
  {
    assert p.r / 8 == 31 && p.g / 4 == 63;
  }

  lemma Dark(p: Pix)
    requires p.b == 0
    ensures Restored(3, p).b == 0
  {
    assert p.b / 8 == 0;
  }

  lemma BlackAndWhite()
    ensures InRange([BLACK, WHITE]) && Bits565(WHITE)[0] == 255 && Restored(3, BLACK).b == 0
  {
    hide Bits565, Restored;
    Bright(WHITE);
    Dark(BLACK);
  }

  lemma FourthMixes(wide: bool, s: Packer, r: Reader, junk: seq<Pix>)
    requires ValidPacker(wide, s) && s.acpt == 0 && ValidReader(wide, r) && r.acpt == 0 && r.ad == 0
    requires |junk| == if wide then 6 else 2
    ensures !RoundTrips(3, wide)
  {
    hide *;
    var line := [BLACK, WHITE];
    assert (line + junk)[1] == WHITE;
    BlackAndWhite();
    FourthFlushes(wide, junk);
    FourthShown(wide, s, r, line + junk);
    Disproved(3, wide, s, r, line, junk, 0);
  }

  /** The fourth code is packed as 16 bits a pixel and read back as 32. */
  lemma FourthCodeMixesPixels(wide: bool)
    ensures !RoundTrips(3, wide)
  {
    var s, r := Packer(Zeros(15), Zeros(WordBytes(wide)), 0), Reader(Zeros(WordBytes(wide) + 2), 0, 0);
    FourthMixes(wide, s, r, seq(if wide then 6 else 2, _ => BLACK));
  }

  lemma FourthFlushes(wide: bool, junk: seq<Pix>)
    requires |junk| == if wide then 6 else 2
    ensures Flushes(3, wide, 2, junk)
  {
  }

  lemma SupportedIsFaithful(format: int, wide: bool, s: Packer, r: Reader, line: seq<Pix>, junk: seq<Pix>, k: nat)
    requires Supported(format, wide)
    ensures Faithful(format, wide, s, r, line, junk, k)
  {
    hide Supported, Shown, Restored, Flushes, InRange;
    if ValidPacker(wide, s) && s.acpt == 0 && ValidReader(wide, r) && r.acpt == 0 && r.ad == 0
       && InRange(line) && Flushes(format, wide, |line|, junk) && k < |line| {
      RoundTrip(format, wide, true, s, r, line, junk, k);
    }
  }

  lemma SupportedRoundTrips(format: int, wide: bool)
    requires Supported(format, wide)
    ensures RoundTrips(format, wide)
  {
    forall s, r, line, junk, k: nat ensures Faithful(format, wide, s, r, line, junk, k) {
      hide Faithful, Supported;
      SupportedIsFaithful(format, wide, s, r, line, junk, k);
    }
  }

  /** Packing and unpacking agree for 16 and 24 bits a pixel, and for 32 in 128-bit words: for these and no others. */
  lemma RoundTripsExactly(format: int, wide: bool)
    requires 0 <= format <= 3
    ensures RoundTrips(format, wide) <==> Supported(format, wide)
  {
    hide RoundTrips;
    if Supported(format, wide) {
      SupportedRoundTrips(format, wide);
    } else if format == 3 {
      FourthCodeMixesPixels(wide);
    } else {
      NarrowLosesPixels();
    }
  }
}
