/** How fast the handshake goes: every sample held is loaded, and the next one taken, while both clocks run. */
module CdcProgress {
  import opened Arithmetic
  import opened CdcHandshake

  // ---------------------------------------------------------------- where the boundary is

  /** The first place from `i` on that differs from the first bit; the length if there is none. */
  function Lead(r: seq<bool>, i: int): (p: int)
    requires 1 <= i <= |r|
    ensures i <= p <= |r|
    decreases |r| - i
  {
    if i == |r| || r[i] != r[0] then i else Lead(r, i + 1)
  }

  lemma {:induction false} LeadFinds(r: seq<bool>, i: int, p: int)
    requires 1 <= i <= p <= |r| && (forall m | i <= m < p :: r[m] == r[0]) && (p < |r| ==> r[p] != r[0])
    ensures Lead(r, i) == p
    decreases p - i
  {
    if i < p { LeadFinds(r, i + 1, p); }
  }

  lemma {:induction false} LeadIs(r: seq<bool>, i: int)
    requires 1 <= i <= |r|
    ensures var p := Lead(r, i); (forall m | i <= m < p :: r[m] == r[0]) && (p < |r| ==> r[p] != r[0])
    decreases |r| - i
  {
    if i < |r| && r[i] == r[0] { LeadIs(r, i + 1); }
  }

  function Size<T>(s: State<T>): (n: int)
    ensures n >= 1
  {
    1 + |s.outChain| + |s.ackChain|
  }

  function Boundary<T>(s: State<T>): (p: int)
    requires ValidState(s)
    ensures 1 <= p <= Size(s)
  {
    Lead(Ring(s), 1)
  }

  /** The clock whose edge moves the boundary: the output's while it is in the chain there, the input's while it is in
      the chain back or all the way round. */
  predicate Needed<T>(s: State<T>, e: Event<T>)
    requires ValidState(s)
  {
    if Boundary(s) <= |s.outChain| then e.clkOut else e.clkIn
  }

  /** Moves of the boundary until the next capture: the ones go round, then the zeros. */
  function Distance<T>(s: State<T>): (n: int)
    requires ValidState(s)
    ensures 1 <= n <= 2 * Size(s)
  {
    Size(s) + 1 - Boundary(s) + (if s.newValue then Size(s) else 0)
  }

  // ---------------------------------------------------------------- one event

  /** Where bit `i` of the ring comes from, when the chain up to `d` moves with `out` and the rest with `back`. */
  function Source(d: int, out: bool, back: bool, i: int): int {
    if (if i <= d then out else back) then i - 1 else i
  }

  predicate Moved(r: seq<bool>, q: seq<bool>, d: int, out: bool, back: bool)
    requires |r| == |q| && 1 <= d < |r|
  {
    && q[0] == (if back then !r[|r| - 1] else r[0])
    && (forall i | 1 <= i < |r| :: q[i] == r[Source(d, out, back, i)])
  }

  /** The ring bit by bit after an event. */
  lemma RingIs<T>(s: State<T>, e: Event<T>)
    requires ValidState(s)
    ensures |Ring(Next(s, e))| == |Ring(s)| == Size(s)
    ensures Moved(Ring(s), Ring(Next(s, e)), |s.outChain|, e.clkOut, e.clkIn)
  {
    var r, t, d := Ring(s), Next(s, e), |s.outChain|;
    var q := Ring(t);
    assert r[|r| - 1] == Oldest(s.ackChain) && r[d] == Oldest(s.outChain);
    forall i | 1 <= i < |r| ensures q[i] == r[Source(d, e.clkOut, e.clkIn, i)] {
      if i <= d { OutBit(s, e, i); } else { AckBit(s, e, i); }
    }
  }

  lemma OutBit<T>(s: State<T>, e: Event<T>, i: int)
    requires ValidState(s) && 1 <= i <= |s.outChain|
    ensures Ring(Next(s, e))[i] == if e.clkOut then Ring(s)[i - 1] else Ring(s)[i]
  {
    assert Ring(s)[i] == s.outChain[i - 1] && Ring(Next(s, e))[i] == Next(s, e).outChain[i - 1];
    assert Ring(s)[i - 1] == if i == 1 then s.newValue else s.outChain[i - 2];
  }

  lemma AckBit<T>(s: State<T>, e: Event<T>, i: int)
    requires ValidState(s) && |s.outChain| < i < Size(s)
    ensures Ring(Next(s, e))[i] == if e.clkIn then Ring(s)[i - 1] else Ring(s)[i]
  {
    var d := |s.outChain|;
    assert Ring(s)[i] == s.ackChain[i - 1 - d] && Ring(Next(s, e))[i] == Next(s, e).ackChain[i - 1 - d];
    assert Ring(s)[i - 1] == if i == d + 1 then Oldest(s.outChain) else s.ackChain[i - 2 - d];
  }

  lemma BoundaryMoves(r: seq<bool>, q: seq<bool>, d: int, out: bool, back: bool)
    requires |r| == |q| && 1 <= d < |r| && OneBoundary(r) && Moved(r, q, d, out, back)
    ensures var p, n := Lead(r, 1), |r|;
            var moves := if p <= d then out else back;
            && Lead(q, 1) == (if !moves then p else if p < n then p + 1 else 1)
            && (q[0] != r[0] <==> moves && p == n)
            && (p == n <==> r[n - 1] == r[0])
  {
    var p, n := Lead(r, 1), |r|;
    LeadIs(r, 1);
    forall m | 0 <= m < n ensures r[m] == r[0] <==> m < p {
      if m >= p { Behind(r, p, m); }
    }
    var moves := if p <= d then out else back;
    var p' := if !moves then p else if p < n then p + 1 else 1;
    forall i | 1 <= i < n ensures q[i] == r[0] <==> Source(d, out, back, i) < p {
      assert q[i] == r[Source(d, out, back, i)];
    }
    hide Lead, OneBoundary, Moved;
    LeadFinds(q, 1, p');
  }

  /** Every event either moves the boundary by one, on the edge it waits for, or leaves it; what ends the way round is
      the next capture. */
  lemma EventMoves<T>(s: State<T>, e: Event<T>)
    requires ValidState(s) && OneBoundary(Ring(s))
    ensures var t := Next(s, e);
            && Size(t) == Size(s)
            && (Captures(s, e) <==> Needed(s, e) && Distance(s) == 1)
            && Distance(t) == (if !Needed(s, e) then Distance(s) else if Distance(s) == 1 then 2 * Size(s) else Distance(s) - 1)
            && (!Needed(s, e) ==> Boundary(t) == Boundary(s) && |t.outChain| == |s.outChain|)
  {
    var r, q := Ring(s), Ring(Next(s, e));
    RingIs(s, e);
    assert r[|r| - 1] == Oldest(s.ackChain);
    BoundaryMoves(r, q, |s.outChain|, e.clkOut, e.clkIn);
    assert r[0] == s.newValue && q[0] == Next(s, e).newValue;
    hide Next, Ring, Lead, OneBoundary, Moved;
  }

  // ---------------------------------------------------------------- whole runs

  /** Rounds so far, and which clocks have had an edge in the round that is on: a round is over once both have. */
  datatype Rounds = Rounds(done: nat, sawIn: bool, sawOut: bool)

  function AfterEvent<T>(r: Rounds, e: Event<T>): Rounds {
    if (r.sawIn || e.clkIn) && (r.sawOut || e.clkOut) then Rounds(r.done + 1, false, false)
    else Rounds(r.done, r.sawIn || e.clkIn, r.sawOut || e.clkOut)
  }

  function RoundsOf<T>(es: seq<Event<T>>, k: nat): Rounds
    requires k <= |es|
  {
    if k == 0 then Rounds(0, false, false) else AfterEvent(RoundsOf(es, k - 1), es[k - 1])
  }

  /** Moves of the boundary so far, when `held` samples have been captured. */
  function Travelled<T>(t: State<T>, held: int): int
    requires ValidState(t)
  {
    Times(2 * Size(t), held) + 1 - Distance(t)
  }

  /** Every round has moved the boundary, and the one that is on has too, or has not had the edge it waits for. */
  predicate KeepsUp<T>(t: State<T>, held: int, r: Rounds)
    requires ValidState(t)
  {
    || r.done < Travelled(t, held)
    || (r.done == Travelled(t, held) && !(if Boundary(t) <= |t.outChain| then r.sawOut else r.sawIn))
  }

  lemma KeepsUpStep<T>(t: State<T>, e: Event<T>, held: int, r: Rounds)
    requires ValidState(t) && OneBoundary(Ring(t)) && KeepsUp(t, held, r)
    ensures KeepsUp(Next(t, e), if Captures(t, e) then held + 1 else held, AfterEvent(r, e))
  {
    EventMoves(t, e);
    TimesNext(2 * Size(t), held);
    hide Next, Captures, OneBoundary, Ring, Lead, Distance, Times, Boundary;
  }

  lemma StartKeepsUp<T>(zero: T, outDepth: nat, ackDepth: nat)
    requires outDepth >= 1 && ackDepth >= 1
    ensures KeepsUp(Start(zero, outDepth, ackDepth), 0, Rounds(0, false, false))
  {
    var s := Start(zero, outDepth, ackDepth);
    LeadFinds(Ring(s), 1, Size(s));
    TimesNext(2 * Size(s), 0);
    hide Lead, Times;
  }

  lemma {:induction false} RunKeepsUp<T>(zero: T, outDepth: nat, ackDepth: nat, es: seq<Event<T>>, k: nat)
    requires outDepth >= 1 && ackDepth >= 1 && k <= |es|
    ensures var s := Start(zero, outDepth, ackDepth); var t := After(s, es, k);
            && OneBoundary(Ring(t)) && KeepsUp(t, |Held(s, es, k)|, RoundsOf(es, k)) && Size(t) == 1 + outDepth + ackDepth
  {
    var s := Start(zero, outDepth, ackDepth);
    if k == 0 {
      StartsLow(zero, outDepth, ackDepth);
      StartKeepsUp(zero, outDepth, ackDepth);
      hide KeepsUp, OneBoundary, Ring;
    } else {
      RunKeepsUp(zero, outDepth, ackDepth, es, k - 1);
      var t := After(s, es, k - 1);
      hide Start, KeepsUp, OneBoundary, Ring, Captures, Next, AfterEvent;
      StepKeepsBoundary(t, es[k - 1]);
      KeepsUpStep(t, es[k - 1], |Held(s, es, k - 1)|, RoundsOf(es, k - 1));
      SameSize(t, es[k - 1]);
    }
  }

  lemma SameSize<T>(t: State<T>, e: Event<T>)
    requires ValidState(t)
    ensures Size(Next(t, e)) == Size(t)
  {
  }

  /** While both clocks run samples keep being taken: one for every twice the length of the ring rounds, at least. */
  lemma KeepsCapturing<T>(zero: T, outDepth: nat, ackDepth: nat, es: seq<Event<T>>, k: nat)
    requires outDepth >= 1 && ackDepth >= 1 && k <= |es|
    ensures RoundsOf(es, k).done
            <= Times(2 * (1 + outDepth + ackDepth), |Held(Start(zero, outDepth, ackDepth), es, k)|)
  {
    RunKeepsUp(zero, outDepth, ackDepth, es, k);
    hide Start, After, Held, RoundsOf, Times, Boundary, Distance, OneBoundary, Ring;
  }

  lemma {:induction false} TagsCover(tags: seq<int>, n: nat, j: int)
    requires InOrder(tags) && n <= |tags| && 0 <= j <= Before(tags, n)
    ensures exists i :: 0 <= i < n && tags[i] == j
  {
    if n > 0 {
      assert StepsFrom(Before(tags, n - 1), tags[n - 1]);
      assert Before(tags, n) == tags[n - 1];
      if tags[n - 1] != j { TagsCover(tags, n - 1, j); }
    }
  }

  lemma TimesLess(a: int, b: int, c: int)
    requires a > 0 && Times(a, b) < Times(a, c)
    ensures b < c
  {
    if c <= b { MulLe(c, b, a); }
  }

  /** Every sample held is loaded: the `j`-th, counting from 0, by the time so many rounds are over. */
  lemma EverySampleLoaded<T>(zero: T, outDepth: nat, ackDepth: nat, es: seq<Event<T>>, k: nat, j: nat)
    requires outDepth >= 1 && ackDepth >= 1 && k <= |es|
    requires RoundsOf(es, k).done > Times(2 * (1 + outDepth + ackDepth), j + 1)
    ensures var s := Start(zero, outDepth, ackDepth);
            && j + 1 < |Held(s, es, k)| && |Loaded(s, es, k)| == |Tags(s, es, k)|
            && exists i :: 0 <= i < |Tags(s, es, k)| && Tags(s, es, k)[i] == j && Loaded(s, es, k)[i] == Held(s, es, k)[j]
  {
    var s := Start(zero, outDepth, ackDepth);
    KeepsCapturing(zero, outDepth, ackDepth, es, k);
    TimesLess(2 * (1 + outDepth + ackDepth), j + 1, |Held(s, es, k)|);
    Delivers(zero, outDepth, ackDepth, es, k);
    var tags := Tags(s, es, k);
    hide Start, After, Held, Loaded, Tags, RoundsOf, Times, OneBoundary, Ring, AllLow, InOrder;
    assert LastTag(tags) >= j;
    TagsCover(tags, |tags|, j);
  }
}
