/** Which subframes are loaded: sample pairs, blocks of 192 frames, channel status. */
module SpdifSamples {
  import opened SpdifModel
  import opened SpdifLine

  /** The words taken from the audio interface, one a frame. */
  function Captured(ins: seq<Input>, k: nat): seq<Sample>
    requires k <= |ins| && ValidInputs(ins)
  {
    if k == 0 then []
    else
      var s := After(ins, k - 1);
      Captured(ins, k - 1) + (if s.load && s.subframeCount % 2 == 0 then [ins[k - 1].sample] else [])
  }

  /** Subframe `n` of a stream that carries the words `ws`. */
  function Expected(ws: seq<Sample>, n: nat): Subframe
    requires n / 2 < |ws|
  {
    Subframe(PreambleFor(n % 384), if n % 2 == 0 then ws[n / 2].low else ws[n / 2].high, StatusFor(n % 384))
  }

  predicate Pairs(fs: seq<Subframe>, ws: seq<Sample>) {
    |ws| == (|fs| + 1) / 2 && forall n | 0 <= n < |fs| :: fs[n] == Expected(ws, n)
  }

  predicate Buffered(s: State, fs: seq<Subframe>, ws: seq<Sample>)
    requires ValidState(s)
  {
    && s.subframeCount == |fs| % 384
    && (|fs| % 2 == 1 ==> ws != [] && s.sampleBuf == ws[|ws| - 1].high)
  }

  lemma CountStep(n: nat)
    ensures (n + 1) % 384 == (if n % 384 == 383 then 0 else n % 384 + 1)
    ensures n % 384 % 2 == n % 2
  {
  }

  lemma PairsMore(s: State, i: Input, fs: seq<Subframe>, ws: seq<Sample>)
    requires ValidState(s) && ValidInput(i) && Pairs(fs, ws) && Buffered(s, fs, ws)
    ensures var vs := if s.subframeCount % 2 == 0 then ws + [i.sample] else ws;
            Pairs(fs + [NewSubframe(s, i)], vs) && Buffered(Loaded(s, i.sample), fs + [NewSubframe(s, i)], vs)
  {
    CountStep(|fs|);
    var vs := if s.subframeCount % 2 == 0 then ws + [i.sample] else ws;
    var gs := fs + [NewSubframe(s, i)];
    hide PreambleFor, StatusFor;
    forall n | 0 <= n < |gs| ensures gs[n] == Expected(vs, n) {
      if n < |fs| { assert fs[n] == Expected(ws, n); }
    }
  }

  lemma SameBuffer(s: State, i: Input)
    requires ValidState(s) && ValidInput(i)
    ensures var u, t := if s.load then Loaded(s, i.sample) else s, Next(s, i);
            t.subframeCount == u.subframeCount && t.sampleBuf == u.sampleBuf
    ensures Next(s, i).request == (s.load && s.subframeCount % 2 == 0)
  {
    hide CellOut, ParityNext, PreambleFor, StatusFor;
  }

  lemma BufferIs(s: State, t: State, fs: seq<Subframe>, ws: seq<Sample>)
    requires ValidState(s) && ValidState(t) && Buffered(s, fs, ws)
    requires t.subframeCount == s.subframeCount && t.sampleBuf == s.sampleBuf
    ensures Buffered(t, fs, ws)
  {
  }

  /** Both subframes of a frame carry the halves of one word, a block starts every 384 subframes, and the status bits
      are those of frames 2, 15 and 25 of the block. */
  lemma {:induction false} LoadsPair(ins: seq<Input>, k: nat)
    requires ValidInputs(ins) && k <= |ins|
    ensures Pairs(Loads(ins, k), Captured(ins, k)) && Buffered(After(ins, k), Loads(ins, k), Captured(ins, k))
  {
    if k > 0 {
      LoadsPair(ins, k - 1);
      var s, i, fs, ws := After(ins, k - 1), ins[k - 1], Loads(ins, k - 1), Captured(ins, k - 1);
      assert After(ins, k) == Next(s, i);
      assert Loads(ins, k) == if s.load then fs + [NewSubframe(s, i)] else fs;
      assert Captured(ins, k) == if s.load && s.subframeCount % 2 == 0 then ws + [i.sample] else ws;
      hide After, Loads, Captured, Next, NewSubframe, Pairs, Buffered, Loaded;
      SameBuffer(s, i);
      if s.load {
        PairsMore(s, i, fs, ws);
        BufferIs(Loaded(s, i.sample), Next(s, i), Loads(ins, k), Captured(ins, k));
      } else {
        BufferIs(s, Next(s, i), fs, ws);
      }
    }
  }

  /** A new word is asked for exactly when one has just been taken. */
  lemma {:induction false} Requests(ins: seq<Input>, k: nat)
    requires ValidInputs(ins) && 0 < k <= |ins|
    ensures After(ins, k).request <==> |Captured(ins, k)| == |Captured(ins, k - 1)| + 1
  {
    SameBuffer(After(ins, k - 1), ins[k - 1]);
    hide Next;
  }

  /** Behind its preamble a subframe never holds a level for three cells, as every preamble does. */
  lemma NoFalsePreamble(f: Subframe, c: nat)
    requires ValidSubframe(f) && 7 <= c
    ensures !(Cell(f, c) == Cell(f, c + 1) && Cell(f, c + 1) == Cell(f, c + 2))
    ensures Cell(f, 0) == Cell(f, 1) == Cell(f, 2)
  {
    hide Slot;
    if c % 2 == 1 { SlotFlips(f, (c + 1) / 2); } else { SlotFlips(f, (c + 2) / 2); }
  }
}
