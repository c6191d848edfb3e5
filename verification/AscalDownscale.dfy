/** The accumulator that drops pixels of a line when the picture is made narrower. */
module AscalDownscale {
  import opened Arithmetic

  const WRAP := 8192

  /** The accumulator, and whether the last enabled pixel was kept. */
  datatype State = State(hacc: int, hnp: bool)

  /** One enabled clock: the line may start, or a displayed pixel may arrive. */
  datatype Input = Input(start: bool, ven: bool)

  function Next(s: State, hsize: int, ohsize: int, hdown: bool, i: Input): State {
    var t := if !i.ven then s
             else if s.hacc + 2 * ohsize < 2 * hsize then State((s.hacc + 2 * ohsize) % WRAP, false)
             else State((s.hacc + 2 * ohsize - 2 * hsize + WRAP) % WRAP, true);
    var u := if hdown then t else t.(hnp := true);
    if i.start then u.(hacc := (hsize - ohsize + WRAP) % WRAP) else u
  }

  class HorizontalDownscaler {
    var hacc: int
    var hnp: bool

    function Value(): State
      reads this
    {
      State(hacc, hnp)
    }

    method Clock(hsize: int, ohsize: int, hdown: bool, i: Input)
      modifies this
      ensures Value() == Next(old(Value()), hsize, ohsize, hdown, i)
    {
      if i.ven {
        if hacc + 2 * ohsize < 2 * hsize {
          hacc := (hacc + 2 * ohsize) % WRAP;
          hnp := false;
        } else {
          hacc := (hacc + 2 * ohsize - 2 * hsize + WRAP) % WRAP;
          hnp := true;
        }
      }
      if !hdown { hnp := true; }
      if i.start { hacc := (hsize - ohsize + WRAP) % WRAP; }
    }
  }

  /** The state after the first `k` clocks. */
  function After(s: State, hsize: int, ohsize: int, ins: seq<Input>, k: nat): State
    requires k <= |ins|
  {
    if k == 0 then s else Next(After(s, hsize, ohsize, ins, k - 1), hsize, ohsize, true, ins[k - 1])
  }

  /** Pixels that have arrived. */
  function Arrived(ins: seq<Input>, k: nat): nat
    requires k <= |ins|
  {
    if k == 0 then 0 else Arrived(ins, k - 1) + (if ins[k - 1].ven then 1 else 0)
  }

  /** Pixels that were kept. */
  function Kept(s: State, hsize: int, ohsize: int, ins: seq<Input>, k: nat): nat
    requires k <= |ins|
  {
    if k == 0 then 0
    else
      Kept(s, hsize, ohsize, ins, k - 1)
      + (if ins[k - 1].ven && After(s, hsize, ohsize, ins, k).hnp then 1 else 0)
  }

  /** How many of the first `n` pixels an even spread keeps, rounded to nearest. */
  function Spread(hsize: int, ohsize: int, n: int): int
    requires hsize > 0
  {
    (hsize - ohsize + 2 * Times(ohsize, n)) / (2 * hsize)
  }

  /** A line in progress: it has started, and does not start again. */
  predicate Line(s: State, hsize: int, ohsize: int, ins: seq<Input>) {
    && 1 <= hsize <= 4095 && 0 <= ohsize <= hsize && s.hacc == hsize - ohsize
    && forall k | 0 <= k < |ins| :: !ins[k].start
  }

  lemma StepTracks(s: State, hsize: int, ohsize: int, ven: bool)
    requires 1 <= hsize <= 4095 && 0 <= ohsize <= hsize && 0 <= s.hacc < 2 * hsize
    ensures var t := Next(s, hsize, ohsize, true, Input(false, ven));
            && 0 <= t.hacc < 2 * hsize < WRAP
            && (ven ==> t.hacc == s.hacc + 2 * ohsize - (if t.hnp then 2 * hsize else 0))
            && (!ven ==> t == s)
  {
  }

  /** With any pauses, the accumulator is what the even spread leaves over; it never wraps. */
  lemma {:induction false} Tracks(s: State, hsize: int, ohsize: int, ins: seq<Input>, k: nat)
    requires Line(s, hsize, ohsize, ins) && k <= |ins|
    ensures var t, n := After(s, hsize, ohsize, ins, k), Arrived(ins, k);
            && 0 <= t.hacc < 2 * hsize
            && t.hacc == hsize - ohsize + 2 * Times(ohsize, n) - 2 * Times(hsize, Kept(s, hsize, ohsize, ins, k))
  {
    TimesNext(ohsize, 0);
    TimesNext(hsize, 0);
    if k > 0 {
      Tracks(s, hsize, ohsize, ins, k - 1);
      StepTracks(After(s, hsize, ohsize, ins, k - 1), hsize, ohsize, ins[k - 1].ven);
      assert ins[k - 1] == Input(false, ins[k - 1].ven);
      hide Next, Times;
      TimesNext(ohsize, Arrived(ins, k - 1));
      TimesNext(hsize, Kept(s, hsize, ohsize, ins, k - 1));
    }
  }

  lemma SpreadIs(hsize: int, ohsize: int, n: int, m: int, rest: int)
    requires hsize > 0 && 0 <= rest < 2 * hsize
    requires rest == hsize - ohsize + 2 * Times(ohsize, n) - 2 * Times(hsize, m)
    ensures Spread(hsize, ohsize, n) == m
  {
    assert 2 * hsize * m == 2 * Times(hsize, m);
    hide Times;
    DivUnique(hsize - ohsize + 2 * Times(ohsize, n), 2 * hsize, m, rest);
  }

  /** After any number of pixels exactly the even spread is kept. */
  lemma KeepsSpread(s: State, hsize: int, ohsize: int, ins: seq<Input>, k: nat)
    requires Line(s, hsize, ohsize, ins) && k <= |ins|
    ensures Kept(s, hsize, ohsize, ins, k) == Spread(hsize, ohsize, Arrived(ins, k))
  {
    Tracks(s, hsize, ohsize, ins, k);
    hide After, Arrived, Kept, Times, Spread;
    SpreadIs(hsize, ohsize, Arrived(ins, k), Kept(s, hsize, ohsize, ins, k), After(s, hsize, ohsize, ins, k).hacc);
  }

  /** A whole line keeps exactly `ohsize` of its `hsize` pixels and leaves the accumulator where it began. */
  lemma WholeLine(s: State, hsize: int, ohsize: int, ins: seq<Input>, k: nat)
    requires Line(s, hsize, ohsize, ins) && k <= |ins| && Arrived(ins, k) == hsize
    ensures Kept(s, hsize, ohsize, ins, k) == ohsize && After(s, hsize, ohsize, ins, k).hacc == s.hacc
  {
    Tracks(s, hsize, ohsize, ins, k);
    KeepsSpread(s, hsize, ohsize, ins, k);
    assert Times(ohsize, hsize) == Times(hsize, ohsize);
    hide After, Arrived, Kept, Times, Spread;
    SpreadIs(hsize, ohsize, hsize, ohsize, hsize - ohsize);
  }

  /** The start of a line sets the accumulator to where every line begins, whatever it was. */
  lemma StartsLine(s: State, hsize: int, ohsize: int, hdown: bool, ven: bool)
    requires 1 <= hsize <= 4095 && 0 <= ohsize <= hsize
    ensures Next(s, hsize, ohsize, hdown, Input(true, ven)).hacc == hsize - ohsize
  {
  }
}
