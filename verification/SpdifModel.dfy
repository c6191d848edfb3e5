/** The S/PDIF transmitter, and what a subframe looks like on the line (section 4 of IEC 60958-1). */
module SpdifModel {

  /** The three preambles: a channel A subframe, a channel B subframe, a channel A subframe that opens a block. */
  datatype Preamble = NONE | X | Y | Z

  /** A subframe as it is loaded: sixteen sample bits, least significant first, and the channel status bit. */
  datatype Subframe = Subframe(preamble: Preamble, audio: seq<bool>, status: bool)

  /** A pair of samples: channel A is the low half of the word. */
  datatype Sample = Sample(low: seq<bool>, high: seq<bool>)

  datatype State = State(audio: seq<bool>, sampleBuf: seq<bool>, request: bool, subframeCount: int, load: bool,
                         preamble: Preamble, status: bool, bitCount: int, toggle: bool, out: bool, parity: int)

  /** One clock: the bit-rate enable and the word at the audio interface. */
  datatype Input = Input(enable: bool, sample: Sample)

  const SILENCE: seq<bool> := 
    [false, false, false, false, false, false, false, false, false, false, false, false, false, false, false, false]
  const RESET := State(SILENCE, SILENCE, false, 0, true, NONE, false, 0, false, false, 0)

  predicate ValidState(s: State) {
    |s.audio| == 16 && |s.sampleBuf| == 16 && 0 <= s.bitCount < 64 && 0 <= s.parity < 64 && 0 <= s.subframeCount < 384
  }

  predicate ValidInput(i: Input) {
    |i.sample.low| == 16 && |i.sample.high| == 16
  }

  /** Bit `c` of the preamble registers, least significant first. */
  function PreambleBit(p: Preamble, c: int): bool {
    match p
    case NONE => false
    case X => c < 3 || c == 6
    case Y => c < 3 || c == 5
    case Z => c < 3 || c == 4
  }

  function PreambleFor(count: int): Preamble {
    if count == 0 then Z else if count % 2 == 1 then Y else X
  }

  predicate StatusFor(count: int) {
    count / 2 == 2 || count / 2 == 15 || count / 2 == 25
  }

  /** The word a subframe is sent from; its parity slot is filled in on the way out. */
  function WordBit(audio: seq<bool>, status: bool, slot: int): bool
    requires |audio| == 16
  {
    if 12 <= slot < 28 then audio[slot - 12] else slot == 30 && status
  }

  /** The level of the next cell. */
  function CellOut(s: State): bool
    requires ValidState(s)
  {
    if s.bitCount < 8 then PreambleBit(s.preamble, s.bitCount)
    else if s.bitCount < 62 then
      if WordBit(s.audio, s.status, s.bitCount / 2) || !s.toggle then !s.out else s.out
    else
      if s.parity % 2 == 1 || !s.toggle then !s.out else s.out
  }

  function ParityNext(s: State): int
    requires ValidState(s)
  {
    if s.bitCount < 8 then 0
    else if s.bitCount < 62 && s.bitCount % 2 == 0 && WordBit(s.audio, s.status, s.bitCount / 2) then (s.parity + 1) % 64
    else s.parity
  }

  /** What a pending load puts in the registers. */
  function Loaded(s: State, sample: Sample): (t: State)
    requires ValidState(s) && |sample.low| == 16 && |sample.high| == 16
    ensures ValidState(t)
  {
    var c := s.subframeCount;
    s.(subframeCount := if c == 383 then 0 else c + 1,
       preamble := PreambleFor(c), status := StatusFor(c),
       audio := if c % 2 == 0 then sample.low else s.sampleBuf,
       sampleBuf := if c % 2 == 0 then sample.high else s.sampleBuf,
       request := c % 2 == 0)
  }

  /** Every register reads the others as they were before the clock. */
  function Next(s: State, i: Input): (t: State)
    requires ValidState(s) && ValidInput(i)
    ensures ValidState(t)
  {
    var t := if s.load then Loaded(s, i.sample) else s.(request := false);
    if i.enable then
      t.(bitCount := (s.bitCount + 1) % 64, load := s.bitCount == 63, toggle := !s.toggle,
         out := CellOut(s), parity := ParityNext(s))
    else t.(load := false)
  }

  class Spdif {
    var audio: seq<bool>
    var sampleBuf: seq<bool>
    var request: bool
    var subframeCount: int
    var load: bool
    var preamble: Preamble
    var status: bool
    var bitCount: int
    var toggle: bool
    var out: bool
    var parity: int

    function Value(): State
      reads this
    {
      State(audio, sampleBuf, request, subframeCount, load, preamble, status, bitCount, toggle, out, parity)
    }

    constructor ()
      ensures Value() == RESET
    {
      audio, sampleBuf, request, subframeCount, load := SILENCE, SILENCE, false, 0, true;
      preamble, status, bitCount, toggle, out, parity := NONE, false, 0, false, false, 0;
    }

    method LoadSubframe(sample: Sample)
      requires ValidState(Value()) && |sample.low| == 16 && |sample.high| == 16
      modifies this`audio, this`sampleBuf, this`request, this`subframeCount, this`preamble, this`status
      ensures Value() == Loaded(old(Value()), sample)
    {
      if subframeCount % 2 == 0 {
        audio := sample.low;
        sampleBuf := sample.high;
        request := true;
      } else {
        audio := sampleBuf;
        request := false;
      }
      preamble := PreambleFor(subframeCount);
      status := StatusFor(subframeCount);
      subframeCount := if subframeCount == 383 then 0 else subframeCount + 1;
    }

    method Clock(enable: bool, sample: Sample)
      requires ValidState(Value()) && |sample.low| == 16 && |sample.high| == 16
      modifies this
      ensures ValidState(Value()) && Value() == Next(old(Value()), Input(enable, sample))
    {
      var cell, counted, wasLoad := CellOut(Value()), ParityNext(Value()), load;
      hide CellOut, ParityNext, Loaded;
      if wasLoad { LoadSubframe(sample); } else { request := false; }
      if enable {
        load := bitCount == 63;
        bitCount := (bitCount + 1) % 64;
        toggle := !toggle;
        out := cell;
        parity := counted;
      } else {
        load := false;
      }
    }
  }

  // ---------------------------------------------------------------- a subframe on the line

  predicate ValidSubframe(f: Subframe) {
    |f.audio| == 16 && f.preamble != NONE
  }

  /** How many ones there are in slots 4 up to `slot`. */
  function Ones(f: Subframe, slot: int): (n: int)
    requires ValidSubframe(f)
    ensures slot >= 4 ==> 0 <= n <= slot - 4
    decreases slot
  {
    if slot <= 4 then 0 else Ones(f, slot - 1) + (if WordBit(f.audio, f.status, slot - 1) then 1 else 0)
  }

  /** A time slot: auxiliary bits, sample, validity, user and status bits, and even parity over slots 4 to 31. */
  function Slot(f: Subframe, slot: int): bool
    requires ValidSubframe(f)
  {
    if slot == 31 then Ones(f, 31) % 2 == 1 else WordBit(f.audio, f.status, slot)
  }

  /** The level of each half slot of a subframe that starts from level 0: the preamble, then biphase mark. */
  function Cell(f: Subframe, c: nat): bool
    requires ValidSubframe(f)
  {
    if c < 8 then PreambleBit(f.preamble, c)
    else if c % 2 == 0 || Slot(f, c / 2) then !Cell(f, c - 1)
    else Cell(f, c - 1)
  }
}
