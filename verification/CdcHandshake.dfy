/** Passing a value between two clocks: a flag goes round through two synchronizer chains while the value holds still. */
module CdcHandshake {

  /** The flag, the held value and the output, with the chain of flops towards each clock, oldest flop last. */
  datatype State<T> = State(newValue: bool, hold: T, dataOut: T, outChain: seq<bool>, ackChain: seq<bool>)

  /** Which clocks have an edge now, and what stands at the input. */
  datatype Event<T> = Event(clkIn: bool, clkOut: bool, data: T)

  predicate ValidState<T>(s: State<T>) {
    |s.outChain| >= 1 && |s.ackChain| >= 1
  }

  /** The flop the other clock reads. */
  function Oldest(chain: seq<bool>): bool
    requires |chain| >= 1
  {
    chain[|chain| - 1]
  }

  function Shift(chain: seq<bool>, b: bool): (c: seq<bool>)
    requires |chain| >= 1
    ensures |c| == |chain| && c[0] == b && forall i | 0 < i < |c| :: c[i] == chain[i - 1]
  {
    [b] + chain[..|chain| - 1]
  }

  /** The held value changes on this event. */
  predicate Captures<T>(s: State<T>, e: Event<T>)
    requires ValidState(s)
  {
    e.clkIn && !Oldest(s.ackChain) && !s.newValue
  }

  /** The output takes the held value on this event. */
  predicate Loads<T>(s: State<T>, e: Event<T>)
    requires ValidState(s)
  {
    e.clkOut && Oldest(s.outChain)
  }

  /** Both processes read the registers of before the event. */
  function Next<T>(s: State<T>, e: Event<T>): (t: State<T>)
    requires ValidState(s)
    ensures ValidState(t) && |t.outChain| == |s.outChain| && |t.ackChain| == |s.ackChain|
  {
    State(if !e.clkIn then s.newValue else if Oldest(s.ackChain) then false else true,
          if Captures(s, e) then e.data else s.hold,
          if Loads(s, e) then s.hold else s.dataOut,
          if e.clkOut then Shift(s.outChain, s.newValue) else s.outChain,
          if e.clkIn then Shift(s.ackChain, Oldest(s.outChain)) else s.ackChain)
  }

  class Handshake<T> {
    var newValue: bool
    var hold: T
    var dataOut: T
    var outChain: seq<bool>
    var ackChain: seq<bool>

    function Value(): State<T>
      reads this
    {
      State(newValue, hold, dataOut, outChain, ackChain)
    }

    constructor (zero: T, outDepth: nat, ackDepth: nat)
      requires outDepth >= 1 && ackDepth >= 1
      ensures Value() == Start(zero, outDepth, ackDepth)
    {
      newValue, hold, dataOut := false, zero, zero;
      outChain, ackChain := seq(outDepth, _ => false), seq(ackDepth, _ => false);
    }

    method Edge(e: Event<T>)
      requires ValidState(Value())
      modifies this
      ensures Value() == Next(old(Value()), e)
    {
      var flag, held, atOut, atIn := newValue, hold, Oldest(outChain), Oldest(ackChain);
      if e.clkIn {
        if atIn {
          newValue := false;
        } else if !newValue {
          newValue := true;
          hold := e.data;
        }
        ackChain := Shift(ackChain, atOut);
      }
      if e.clkOut {
        if atOut { dataOut := held; }
        outChain := Shift(outChain, flag);
      }
    }
  }

  function Start<T>(zero: T, outDepth: nat, ackDepth: nat): (s: State<T>)
    requires outDepth >= 1 && ackDepth >= 1
    ensures ValidState(s)
  {
    State(false, zero, zero, seq(outDepth, _ => false), seq(ackDepth, _ => false))
  }

  // ---------------------------------------------------------------- one boundary

  /** The flag and both chains, in the order the flag travels. */
  function Ring<T>(s: State<T>): seq<bool> {
    [s.newValue] + s.outChain + s.ackChain
  }

  /** Behind the first bit that differs from the flag, all differ. */
  predicate OneBoundary(r: seq<bool>) {
    forall i, j | 0 <= i <= j < |r| :: r[i] != r[0] ==> r[j] != r[0]
  }

  predicate AllLow(r: seq<bool>) {
    forall i | 0 <= i < |r| :: !r[i]
  }

  /** Every bit takes its own old value or that of the bit before it, and bits next to each other in the same chain move
      together; the first bit flips only when the last agrees with it. */
  lemma RingMoves<T>(s: State<T>, e: Event<T>)
    requires ValidState(s)
    ensures var r, q := Ring(s), Ring(Next(s, e));
            && |q| == |r| >= 3
            && (forall i | 0 < i < |r| :: q[i] == r[i] || q[i] == r[i - 1])
            && (q[0] != r[0] ==> r[|r| - 1] == r[0])
  {
    var r, q := Ring(s), Ring(Next(s, e));
    var d := |s.outChain|;
    forall i | 0 < i < |r| ensures q[i] == r[i] || q[i] == r[i - 1] {
      if i <= d {
        assert r[i] == s.outChain[i - 1] && q[i] == Next(s, e).outChain[i - 1];
        assert r[i - 1] == if i == 1 then s.newValue else s.outChain[i - 2];
      } else {
        assert r[i] == s.ackChain[i - 1 - d] && q[i] == Next(s, e).ackChain[i - 1 - d];
        assert r[i - 1] == if i == d + 1 then s.outChain[d - 1] else s.ackChain[i - 2 - d];
      }
    }
    assert r[|r| - 1] == Oldest(s.ackChain);
  }

  lemma BoundaryStays(r: seq<bool>, q: seq<bool>)
    requires |q| == |r| >= 3 && OneBoundary(r)
    requires forall i | 0 < i < |r| :: q[i] == r[i] || q[i] == r[i - 1]
    requires q[0] != r[0] ==> r[|r| - 1] == r[0]
    ensures OneBoundary(q)
  {
    if q[0] != r[0] {
      Constant(r);
      assert forall i | 0 < i < |q| :: q[i] == r[i] || q[i] == r[i - 1];
      assert forall i | 0 < i < |q| :: q[i] == r[0] by {
        forall i | 0 < i < |q| ensures q[i] == r[0] {
          assert r[i] == r[0] && r[i - 1] == r[0];
        }
      }
    } else {
      forall i, j | 0 <= i <= j < |q| && q[i] != q[0] ensures q[j] != q[0] {
        if i < j {
          assert q[i] == r[i] || q[i] == r[i - 1];
          Behind(r, if r[i] != r[0] then i else i - 1, j);
          Behind(r, if r[i] != r[0] then i else i - 1, j - 1);
        }
      }
    }
  }

  lemma Behind(r: seq<bool>, i: int, j: int)
    requires OneBoundary(r) && 0 <= i <= j < |r| && r[i] != r[0]
    ensures r[j] != r[0]
  {
  }

  lemma Constant(r: seq<bool>)
    requires OneBoundary(r) && |r| >= 1 && r[|r| - 1] == r[0]
    ensures forall i | 0 <= i < |r| :: r[i] == r[0]
  {
    forall i | 0 <= i < |r| ensures r[i] == r[0] {
      if r[i] != r[0] { Behind(r, i, |r| - 1); }
    }
  }

  // ---------------------------------------------------------------- nothing torn

  lemma StartsLow<T>(zero: T, outDepth: nat, ackDepth: nat)
    requires outDepth >= 1 && ackDepth >= 1
    ensures OneBoundary(Ring(Start(zero, outDepth, ackDepth)))
  {
  }

  lemma StepKeepsBoundary<T>(s: State<T>, e: Event<T>)
    requires ValidState(s) && OneBoundary(Ring(s))
    ensures OneBoundary(Ring(Next(s, e)))
  {
    RingMoves(s, e);
    hide Next, OneBoundary, Ring;
    BoundaryStays(Ring(s), Ring(Next(s, e)));
  }

  /** The held value changes only when every bit of the ring is low: when the output side has seen the last value and
      let go of it, and never on the event that loads it. */
  lemma CapturesLow<T>(s: State<T>, e: Event<T>)
    requires ValidState(s) && OneBoundary(Ring(s)) && Captures(s, e)
    ensures AllLow(Ring(s)) && !Loads(s, e)
  {
    var r := Ring(s);
    assert r[|r| - 1] == Oldest(s.ackChain) && r[0] == s.newValue && r[|s.outChain|] == Oldest(s.outChain);
    Constant(r);
  }

  // ---------------------------------------------------------------- nothing lost, nothing out of order

  /** The state after the first `k` events. */
  function After<T>(s: State<T>, es: seq<Event<T>>, k: nat): (t: State<T>)
    requires ValidState(s) && k <= |es|
    ensures ValidState(t)
  {
    if k == 0 then s else Next(After(s, es, k - 1), es[k - 1])
  }

  /** The samples held, in order. */
  function Held<T>(s: State<T>, es: seq<Event<T>>, k: nat): seq<T>
    requires ValidState(s) && k <= |es|
  {
    if k == 0 then []
    else Held(s, es, k - 1) + (if Captures(After(s, es, k - 1), es[k - 1]) then [es[k - 1].data] else [])
  }

  /** The values the output takes, in order. */
  function Loaded<T>(s: State<T>, es: seq<Event<T>>, k: nat): seq<T>
    requires ValidState(s) && k <= |es|
  {
    if k == 0 then []
    else Loaded(s, es, k - 1) + (if Loads(After(s, es, k - 1), es[k - 1]) then [After(s, es, k).dataOut] else [])
  }

  /** Which held sample each load is of. */
  function Tags<T>(s: State<T>, es: seq<Event<T>>, k: nat): seq<int>
    requires ValidState(s) && k <= |es|
  {
    if k == 0 then []
    else Tags(s, es, k - 1) + (if Loads(After(s, es, k - 1), es[k - 1]) then [|Held(s, es, k - 1)| - 1] else [])
  }

  function LastTag(tags: seq<int>): int {
    if tags == [] then -1 else tags[|tags| - 1]
  }

  /** Loads go through the held samples from the first on, in order, each at least once. */
  predicate InOrder(tags: seq<int>) {
    forall i | 0 <= i < |tags| :: StepsFrom(Before(tags, i), tags[i]) && tags[i] >= 0
  }

  function Before(tags: seq<int>, i: nat): int
    requires i <= |tags|
  {
    if i == 0 then -1 else tags[i - 1]
  }

  lemma InOrderMore(tags: seq<int>, tag: int)
    requires InOrder(tags) && StepsFrom(LastTag(tags), tag) && tag >= 0
    ensures InOrder(tags + [tag]) && LastTag(tags + [tag]) == tag
  {
    var more := tags + [tag];
    forall i | 0 <= i < |more| ensures StepsFrom(Before(more, i), more[i]) && more[i] >= 0 {
      if i < |tags| { assert StepsFrom(Before(tags, i), tags[i]) && Before(more, i) == Before(tags, i); }
    }
  }

  predicate StepsFrom(a: int, b: int) {
    b == a || b == a + 1
  }

  /** The last sample held is the one at hand, it or the one before was loaded last, and it was once the flag is back. */
  ghost predicate Delivering<T>(t: State<T>, held: seq<T>, tags: seq<int>)
    requires ValidState(t)
  {
    && OneBoundary(Ring(t))
    && (held != [] ==> t.hold == held[|held| - 1])
    && (held == [] ==> AllLow(Ring(t)))
    && (held == [] ==> tags == [])
    && StepsFrom(LastTag(tags), |held| - 1)
    && (!t.newValue && !Oldest(t.outChain) ==> LastTag(tags) == |held| - 1)
  }

  lemma DeliverStep<T>(t: State<T>, e: Event<T>, held: seq<T>, tags: seq<int>)
    requires ValidState(t) && Delivering(t, held, tags) && InOrder(tags)
    ensures var held' := held + (if Captures(t, e) then [e.data] else []);
            var tags' := tags + (if Loads(t, e) then [|held| - 1] else []);
            Delivering(Next(t, e), held', tags') && InOrder(tags')
            && (Captures(t, e) ==> LastTag(tags) == |held| - 1)
            && (Loads(t, e) ==> held != [] && Next(t, e).dataOut == held[|held| - 1])
  {
    StepKeepsBoundary(t, e);
    FlagsFollow(t, e);
    if Captures(t, e) { CapturesLow(t, e); }
    assert tags + [] == tags && held + [] == held;
    hide OneBoundary, Ring, AllLow;
    assert Captures(t, e) ==> LastTag(tags) == |held| - 1;
    assert Loads(t, e) ==> held != [];
    if Loads(t, e) {
      InOrderMore(tags, |held| - 1);
    } else if Captures(t, e) {
      assert (held + [e.data])[|held|] == e.data;
    }
  }

  /** A low ring stays low until something is captured; and a flag that comes back low was high all the way round. */
  lemma FlagsFollow<T>(t: State<T>, e: Event<T>)
    requires ValidState(t) && OneBoundary(Ring(t))
    ensures AllLow(Ring(t)) ==> !t.newValue && !Oldest(t.outChain) && (!Captures(t, e) ==> AllLow(Ring(Next(t, e))))
    ensures !Loads(t, e) && !Next(t, e).newValue && !Oldest(Next(t, e).outChain) && !Captures(t, e)
            ==> !t.newValue && !Oldest(t.outChain)
  {
    var r := Ring(t);
    assert r[|r| - 1] == Oldest(t.ackChain) && r[0] == t.newValue && r[|t.outChain|] == Oldest(t.outChain);
    assert r[|t.outChain|] != r[0] ==> r[|r| - 1] != r[0];
    if AllLow(r) { LowStays(t, e); }
    hide OneBoundary, AllLow, Ring;
  }

  lemma LowStays<T>(t: State<T>, e: Event<T>)
    requires ValidState(t) && AllLow(Ring(t))
    ensures !t.newValue && !Oldest(t.outChain) && (!Captures(t, e) ==> AllLow(Ring(Next(t, e))))
  {
    var r := Ring(t);
    assert r[|r| - 1] == Oldest(t.ackChain) && r[0] == t.newValue && r[|t.outChain|] == Oldest(t.outChain);
    if !Captures(t, e) {
      RingMoves(t, e);
      var q := Ring(Next(t, e));
      assert !q[0];
      forall i | 0 < i < |q| ensures !q[i] { assert !r[i] && !r[i - 1]; }
    }
  }

  /** For every interleaving of the two clocks and chains of every depth: each load takes the sample held last, loads
      follow the samples in order from the first, and no sample is replaced before it has been loaded. */
  lemma {:induction false} Delivers<T>(zero: T, outDepth: nat, ackDepth: nat, es: seq<Event<T>>, k: nat)
    requires outDepth >= 1 && ackDepth >= 1 && k <= |es|
    ensures var s := Start(zero, outDepth, ackDepth);
            && Delivering(After(s, es, k), Held(s, es, k), Tags(s, es, k)) && InOrder(Tags(s, es, k))
            && LoadsMatch(Loaded(s, es, k), Tags(s, es, k), Held(s, es, k))
            && (k < |es| && Captures(After(s, es, k), es[k]) ==> LastTag(Tags(s, es, k)) == |Held(s, es, k)| - 1)
  {
    var s := Start(zero, outDepth, ackDepth);
    if k == 0 {
      StartsLow(zero, outDepth, ackDepth);
      assert AllLow(Ring(s));
    } else {
      Delivers(zero, outDepth, ackDepth, es, k - 1);
      var t, e, held, tags := After(s, es, k - 1), es[k - 1], Held(s, es, k - 1), Tags(s, es, k - 1);
      DeliverStep(t, e, held, tags);
      hide Captures, Loads, Delivering, InOrder, Next, Start;
      MatchStep(Loaded(s, es, k - 1), tags, held, Loads(t, e), Next(t, e).dataOut, Captures(t, e), e.data);
    }
    if k < |es| {
      hide Captures, Next, Start, After;
      DeliverStep(After(s, es, k), es[k], Held(s, es, k), Tags(s, es, k));
    }
  }

  /** Load by load, the value is the sample its tag names. */
  ghost predicate LoadsMatch<T>(loaded: seq<T>, tags: seq<int>, held: seq<T>) {
    |loaded| == |tags| && forall i | 0 <= i < |tags| :: 0 <= tags[i] < |held| && loaded[i] == held[tags[i]]
  }

  lemma MatchStep<T>(loaded: seq<T>, tags: seq<int>, held: seq<T>, load: bool, value: T, capture: bool, data: T)
    requires LoadsMatch(loaded, tags, held) && (load ==> held != [] && value == held[|held| - 1])
    ensures LoadsMatch(loaded + (if load then [value] else []), tags + (if load then [|held| - 1] else []),
                       held + (if capture then [data] else []))
  {
  }
}
