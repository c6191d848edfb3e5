/** The adapter in front of a byte memory that answers a read one clock after its strobe. */
module IoBusMemory {
  import opened IoBus
  import opened IoBusRuns

  datatype Board = Board(a: State, mem: seq<int>, shown: int)

  predicate ValidBoard(b: Board) {
    Valid(b.a) && |b.mem| == 0x1_0000
    && (b.a.out.ioRead || b.a.out.ioWrite ==> 0 <= b.a.out.address < 0x1_0000)
  }

  /** Adapter and memory clock together; each sees the other's registers of before the edge. */
  function Step(b: Board, i: Input): Board
    requires ValidBoard(b) && ValidInput(i)
  {
    var o := b.a.out;
    Board(Next(b.a, i.(readData := b.shown)),
          if o.ioWrite then b.mem[o.address := o.writeData] else b.mem,
          if o.ioRead then b.mem[o.address] else b.shown)
  }

  /** The memory once the enabled lanes below `n` have been written. */
  function Written(m: seq<int>, r: Request, n: int): (w: seq<int>)
    requires ValidRequest(r) && |m| == 0x1_0000 && 0 <= n <= 4
    ensures |w| == |m|
  {
    if n == 0 then m
    else
      var w := Written(m, r, n - 1);
      if r.be[n - 1] then w[r.port + n - 1 := r.data[n - 1]] else w
  }

  /** The answer once the enabled lanes below `n` have been read. */
  function Gathered(m: seq<int>, r: Request, n: int): (g: seq<int>)
    requires ValidRequest(r) && |m| == 0x1_0000 && 0 <= n <= 4
    ensures |g| == 4
  {
    if n == 0 then ALL_ONES
    else
      var g := Gathered(m, r, n - 1);
      if r.be[n - 1] then g[n - 1 := m[r.port + n - 1]] else g
  }

  predicate Low(o: Outputs) {
    !o.ioRead && !o.ioWrite
  }

  /** A write in progress; `m` is the memory it started from. */
  predicate Writing(b: Board, m: seq<int>)
    requires ValidBoard(b) && |m| == 0x1_0000
  {
    var r, o := b.a.req, b.a.out;
    !r.read
    && match b.a.phase
       case ISSUE(n) => Low(o) && b.mem == Written(m, r, n)
       case WAIT(n) => r.be[n] && !o.ioRead && o.ioWrite && o.address == r.port + n && o.writeData == r.data[n] && b.mem == Written(m, r, n)
       case DONE => Low(o) && b.mem == Written(m, r, 4)
       case _ => false
  }

  /** A read in progress. */
  predicate Reading(b: Board, m: seq<int>)
    requires ValidBoard(b) && |m| == 0x1_0000
  {
    var r, o := b.a.req, b.a.out;
    r.read && b.mem == m
    && match b.a.phase
       case ISSUE(n) => Low(o) && b.a.accum == Gathered(m, r, n)
       case WAIT(n) => r.be[n] && o.ioRead && !o.ioWrite && o.address == r.port + n && b.a.accum == Gathered(m, r, n)
       case CAP(n) => r.be[n] && Low(o) && b.shown == m[r.port + n] && b.a.accum == Gathered(m, r, n)
       case DONE => Low(o) && b.a.accum == Gathered(m, r, 4)
       case _ => false
  }

  predicate Resting(b: Board) {
    b.a.phase == IDLE && Low(b.a.out)
  }

  lemma StepKeepsBoard(b: Board, i: Input)
    requires ValidBoard(b) && ValidInput(i) && i.resetN
    ensures ValidBoard(Step(b, i))
  {
    StepKeepsValid(b.a, i.(readData := b.shown));
  }

  lemma WriteIssues(b: Board, m: seq<int>, i: Input)
    requires ValidBoard(b) && |m| == 0x1_0000 && ValidInput(i) && i.resetN && Writing(b, m) && b.a.phase.ISSUE?
    ensures ValidBoard(Step(b, i)) && Writing(Step(b, i), m)
  {
    StepKeepsBoard(b, i);
    hide Valid, IdePort;
  }

  lemma WriteWaits(b: Board, m: seq<int>, i: Input)
    requires ValidBoard(b) && |m| == 0x1_0000 && ValidInput(i) && i.resetN && Writing(b, m) && b.a.phase.WAIT?
    ensures ValidBoard(Step(b, i)) && Writing(Step(b, i), m)
  {
    StepKeepsBoard(b, i);
    hide Valid, IdePort;
  }

  lemma ReadIssues(b: Board, m: seq<int>, i: Input)
    requires ValidBoard(b) && |m| == 0x1_0000 && ValidInput(i) && i.resetN && Reading(b, m) && b.a.phase.ISSUE?
    ensures ValidBoard(Step(b, i)) && Reading(Step(b, i), m)
  {
    StepKeepsBoard(b, i);
    hide Valid, IdePort;
  }

  lemma ReadGoesOn(b: Board, m: seq<int>, i: Input)
    requires ValidBoard(b) && |m| == 0x1_0000 && ValidInput(i) && i.resetN && Reading(b, m) && (b.a.phase.WAIT? || b.a.phase.CAP?)
    ensures ValidBoard(Step(b, i)) && Reading(Step(b, i), m)
  {
    StepKeepsBoard(b, i);
    hide Valid, IdePort;
  }

  /** The cycle is over: a write has put its lanes into memory, a read has the answer. */
  predicate Served(b: Board, m: seq<int>)
    requires ValidBoard(b) && |m| == 0x1_0000
  {
    && Resting(b) && b.a.out.ready && b.a.wasActive
    && b.mem == (if b.a.req.read then m else Written(m, b.a.req, 4))
    && (b.a.req.read ==> b.a.out.dout == Gathered(m, b.a.req, 4))
  }

  lemma LastStep(b: Board, m: seq<int>, i: Input)
    requires ValidBoard(b) && |m| == 0x1_0000 && ValidInput(i) && i.resetN && (Writing(b, m) || Reading(b, m)) && b.a.phase == DONE
    ensures ValidBoard(Step(b, i)) && Served(Step(b, i), m)
  {
    StepKeepsBoard(b, i);
    hide Valid, IdePort, Written, Gathered;
  }

  predicate Serving(b: Board, m: seq<int>)
    requires ValidBoard(b) && |m| == 0x1_0000
  {
    Writing(b, m) || Reading(b, m)
  }

  /** Every clock of a cycle brings it one step on, or to its end. */
  lemma ServingStep(b: Board, m: seq<int>, i: Input)
    requires ValidBoard(b) && |m| == 0x1_0000 && ValidInput(i) && i.resetN && Serving(b, m)
    ensures var c := Step(b, i);
            && ValidBoard(c) && c.a.req == b.a.req && ClocksLeft(c.a) == ClocksLeft(b.a) - 1
            && (if ClocksLeft(b.a) == 1 then Served(c, m) else Serving(c, m))
            && (Serving(c, m) ==> ClocksLeft(c.a) > 0)
  {
    StepProgress(b.a, i.(readData := b.shown));
    if b.a.phase == DONE {
      LastStep(b, m, i);
      hide Next, LaneClocks, Valid, Written, Gathered;
    } else {
      if b.a.phase.ISSUE? && b.a.req.read { ReadIssues(b, m, i); }
      else if b.a.phase.ISSUE? { WriteIssues(b, m, i); }
      else if b.a.req.read { ReadGoesOn(b, m, i); }
      else { WriteWaits(b, m, i); }
      MoreToCome(b.a);
      hide Next, LaneClocks, Valid, Written, Gathered, ClocksLeft;
    }
  }

  lemma MoreToCome(s: State)
    requires Valid(s) && (s.phase.ISSUE? || s.phase.WAIT? || s.phase.CAP?)
    ensures ClocksLeft(s) > 1
  {
    if s.phase.ISSUE? { LaneStep(s.req, s.phase.lane); }
  }

  // ---------------------------------------------------------------- whole cycles

  /** The board after the first `k` clocks. */
  function Ran(b: Board, ins: seq<Input>, k: nat): (c: Board)
    requires ValidBoard(b) && ValidInputs(ins) && k <= |ins|
    ensures ValidBoard(c)
  {
    if k == 0 then b
    else
      StepKeepsBoard(Ran(b, ins, k - 1), ins[k - 1]);
      Step(Ran(b, ins, k - 1), ins[k - 1])
  }

  lemma RanNext(b: Board, ins: seq<Input>, k: nat)
    requires ValidBoard(b) && ValidInputs(ins) && 0 < k <= |ins|
    ensures ValidInput(ins[k - 1]) && ins[k - 1].resetN && Ran(b, ins, k) == Step(Ran(b, ins, k - 1), ins[k - 1])
    ensures Ran(b, ins, 0) == b
  {
    hide Step;
  }

  lemma Begins(b: Board, i: Input)
    requires ValidBoard(b) && ValidInput(i) && i.resetN && Resting(b) && Accepts(b.a, i) && !IdePort(i.port, i.be)
    ensures var c := Step(b, i);
            ValidBoard(c) && Serving(c, b.mem) && c.a.req == Latched(i) && ClocksLeft(c.a) == LaneClocks(Latched(i), 0) + 1
  {
    StepKeepsBoard(b, i);
    hide Valid, LaneClocks;
  }

  /** A cycle asks for something at once, and the board is given the clocks it takes. */
  predicate OneCycle(ins: seq<Input>) {
    && ValidInputs(ins) && ins != [] && (ins[0].rd || ins[0].wr) && !IdePort(ins[0].port, ins[0].be)
    && |ins| == LaneClocks(Latched(ins[0]), 0) + 2
  }

  lemma {:induction false} CycleGoesOn(b: Board, ins: seq<Input>, k: nat)
    requires ValidBoard(b) && Resting(b) && !b.a.wasActive && OneCycle(ins) && 1 <= k < |ins|
    ensures var c := Ran(b, ins, k);
            Serving(c, b.mem) && c.a.req == Latched(ins[0]) && ClocksLeft(c.a) == |ins| - k
  {
    hide *;
    FirstInput(b, ins);
    RanNext(b, ins, k);
    if k == 1 {
      Begins(b, ins[0]);
    } else {
      CycleGoesOn(b, ins, k - 1);
      ServingStep(Ran(b, ins, k - 1), b.mem, ins[k - 1]);
    }
  }

  lemma FirstInput(b: Board, ins: seq<Input>)
    requires ValidBoard(b) && Resting(b) && !b.a.wasActive && OneCycle(ins)
    ensures ValidInputs(ins) && |ins| == LaneClocks(Latched(ins[0]), 0) + 2 >= 2 && |b.mem| == 0x1_0000
    ensures ValidInput(ins[0]) && ins[0].resetN && Accepts(b.a, ins[0]) && !IdePort(ins[0].port, ins[0].be)
  {
  }

  /** Whatever the processor's lines do meanwhile, a cycle ends with its one answer and its lanes in memory, or read. */
  lemma CycleServes(b: Board, ins: seq<Input>)
    requires ValidBoard(b) && Resting(b) && !b.a.wasActive && OneCycle(ins)
    ensures ValidInputs(ins) && |b.mem| == 0x1_0000
    ensures Served(Ran(b, ins, |ins|), b.mem) && Ran(b, ins, |ins|).a.req == Latched(ins[0])
    ensures forall k | 0 < k < |ins| :: !Ran(b, ins, k).a.out.ready
  {
    hide *;
    FirstInput(b, ins);
    var n := |ins|;
    CycleGoesOn(b, ins, n - 1);
    RanNext(b, ins, n);
    ServingStep(Ran(b, ins, n - 1), b.mem, ins[n - 1]);
    forall k | 0 < k < n ensures !Ran(b, ins, k).a.out.ready {
      NotYet(b, ins, k);
    }
  }

  lemma NotYet(b: Board, ins: seq<Input>, k: nat)
    requires ValidBoard(b) && Resting(b) && !b.a.wasActive && OneCycle(ins) && 0 < k < |ins|
    ensures !Ran(b, ins, k).a.out.ready
  {
    hide *;
    FirstInput(b, ins);
    RanNext(b, ins, k);
    if k == 1 {
      QuietStart(b, ins[0]);
    } else {
      CycleGoesOn(b, ins, k - 1);
      CycleGoesOn(b, ins, k);
      QuietBusy(Ran(b, ins, k - 1), ins[k - 1]);
    }
  }

  lemma QuietStart(b: Board, i: Input)
    requires ValidBoard(b) && ValidInput(i) && i.resetN && Resting(b)
    ensures !Step(b, i).a.out.ready
  {
    hide Valid;
  }

  lemma QuietBusy(b: Board, i: Input)
    requires ValidBoard(b) && ValidInput(i) && i.resetN && ClocksLeft(b.a) > 1
    ensures !Step(b, i).a.out.ready
  {
    hide LaneClocks, Valid;
  }

  // ---------------------------------------------------------------- write, let go, read

  /** The processor holds its request for a while, and lets go on the last clock. */
  predicate LetsGo(ins: seq<Input>) {
    && ValidInputs(ins) && ins != []
    && (forall k | 0 <= k < |ins| - 1 :: ins[k].rd || ins[k].wr)
    && !ins[|ins| - 1].rd && !ins[|ins| - 1].wr
  }

  /** Between cycles, with memory `m`, waiting for the request to go (`active`) or ready for the next. */
  predicate Waits(b: Board, m: seq<int>, active: bool) {
    Resting(b) && b.mem == m && b.a.wasActive == active
  }

  lemma RestStep(b: Board, m: seq<int>, i: Input)
    requires ValidBoard(b) && ValidInput(i) && i.resetN && Waits(b, m, true)
    ensures ValidBoard(Step(b, i)) && Waits(Step(b, i), m, i.rd || i.wr)
  {
    StepKeepsBoard(b, i);
    hide Valid;
  }

  lemma {:induction false} Rests(b: Board, ins: seq<Input>, k: nat, m: seq<int>)
    requires ValidBoard(b) && Waits(b, m, true) && LetsGo(ins) && k <= |ins|
    ensures ValidInputs(ins) && Waits(Ran(b, ins, k), m, k < |ins|)
  {
    assert ValidInputs(ins) && |ins| > 0;
    hide *;
    RanNext(b, ins, if k > 0 then k else 1);
    if k > 0 {
      Rests(b, ins, k - 1, m);
      HeldUntilLast(ins, k - 1);
      RestStep(Ran(b, ins, k - 1), m, ins[k - 1]);
    }
  }

  lemma HeldUntilLast(ins: seq<Input>, k: nat)
    requires LetsGo(ins) && k < |ins|
    ensures (ins[k].rd || ins[k].wr) == (k < |ins| - 1)
  {
  }

  lemma {:induction false} ReadsWhatWasWritten(m: seq<int>, w: Request, r: Request, n: int)
    requires ValidRequest(w) && ValidRequest(r) && |m| == 0x1_0000 && 0 <= n <= 4 && r.port == w.port && r.be == w.be
    ensures var g := Gathered(Written(m, w, 4), r, n);
            forall j | 0 <= j < 4 :: g[j] == if j < n && w.be[j] then w.data[j] else 0xFF
  {
    if n > 0 {
      ReadsWhatWasWritten(m, w, r, n - 1);
      WrittenAt(m, w, 4, n - 1);
      hide Written;
    }
  }

  lemma {:induction false} WrittenAt(m: seq<int>, w: Request, n: int, j: int)
    requires ValidRequest(w) && |m| == 0x1_0000 && 0 <= j < n <= 4
    ensures Written(m, w, n)[w.port + j] == if w.be[j] then w.data[j] else m[w.port + j]
  {
    if j == n - 1 { NotWritten(m, w, n - 1, w.port + j); } else { WrittenAt(m, w, n - 1, j); }
  }

  /** A write leaves every address but those of its enabled lanes alone. */
  lemma {:induction false} NotWritten(m: seq<int>, w: Request, n: int, a: int)
    requires ValidRequest(w) && |m| == 0x1_0000 && 0 <= n <= 4 && 0 <= a < |m|
    requires forall j | 0 <= j < n && w.be[j] :: a != w.port + j
    ensures Written(m, w, n)[a] == m[a]
  {
    if n > 0 { NotWritten(m, w, n - 1, a); }
  }

  /** A write, and after the request has been let go a read of the same lanes, returns what was written there and ones
      elsewhere; the read leaves memory as the write left it. */
  lemma WriteThenRead(b: Board, w: seq<Input>, h: seq<Input>, r: seq<Input>)
    requires ValidBoard(b) && Resting(b) && !b.a.wasActive
    requires OneCycle(w) && !w[0].rd && LetsGo(h) && OneCycle(r) && r[0].rd && r[0].port == w[0].port && r[0].be == w[0].be
    ensures ValidInputs(w) && ValidInputs(h) && ValidInputs(r)
    ensures var c := Ran(Ran(Ran(b, w, |w|), h, |h|), r, |r|);
            && c.a.out.ready && |c.a.out.dout| == 4 && |w[0].be| == 4 && |w[0].din| == 4
            && (forall j | 0 <= j < 4 :: c.a.out.dout[j] == if w[0].be[j] then w[0].din[j] else 0xFF)
            && ValidRequest(Latched(w[0])) && |b.mem| == 0x1_0000 && c.mem == Written(b.mem, Latched(w[0]), 4)
  {
    CycleServes(b, w);
    var b1 := Ran(b, w, |w|);
    assert Resting(b1) && b1.a.wasActive && ValidBoard(b1);
    Rests(b1, h, |h|, b1.mem);
    var b2 := Ran(b1, h, |h|);
    CycleServes(b2, r);
    hide Ran, Written, Gathered, LaneClocks;
    ReadsWhatWasWritten(b.mem, Latched(w[0]), Latched(r[0]), 4);
  }

  // ---------------------------------------------------------------- the wide path

  /** A cycle on a disk's data port is one wide access on the clock it is accepted, no byte access at all, and an answer
      two clocks later, with the disk's data if it is a read. */
  lemma WideCycle(s: State, i: Input, j: Input, k: Input)
    requires Valid(s) && ValidInput(i) && ValidInput(j) && ValidInput(k) && i.resetN && j.resetN && k.resetN
    requires Accepts(s, i) && IdePort(i.port, i.be)
    ensures var t := Next(s, i);
            && Valid(t) && Issued(t.out) == [if i.rd then WideRead else WideWrite(i.din)]
            && t.out.ide32 == (i.be == [true, true, true, true]) && !t.out.ready
            && Valid(Next(t, j)) && Issued(Next(t, j).out) == [] && !Next(t, j).out.ready
            && var u := Next(Next(t, j), k);
            Issued(u.out) == [] && u.out.ready && u.phase == IDLE && (i.rd ==> u.out.dout == k.ideReadData)
  {
  }
}
