/** What the adapter does over whole runs: every cycle is served once, lane by lane. */
module IoBusRuns {
  import opened IoBus

  /** One access to the peripherals: a byte, or the wide path of the disks. */
  datatype Strobe = ByteRead(address: int) | ByteWrite(address: int, data: int) | WideRead | WideWrite(words: seq<int>)

  function Issued(o: Outputs): seq<Strobe> {
    if o.ioRead then [ByteRead(o.address)]
    else if o.ioWrite then [ByteWrite(o.address, o.writeData)]
    else if o.ideRead then [WideRead]
    else if o.ideWrite then [WideWrite(o.ideData)]
    else []
  }

  /** The accesses a cycle is due, from lane `n` on, in ascending order of address. */
  function Lanes(r: Request, n: int): seq<Strobe>
    requires ValidRequest(r) && 0 <= n <= 4
    decreases 4 - n
  {
    if n == 4 then []
    else
      (if !r.be[n] then []
       else if r.read then [ByteRead(r.port + n)] else [ByteWrite(r.port + n, r.data[n])]) + Lanes(r, n + 1)
  }

  function Due(r: Request): seq<Strobe>
    requires ValidRequest(r)
  {
    if IdePort(r.port, r.be) then (if r.read then [WideRead] else [WideWrite(r.data)]) else Lanes(r, 0)
  }

  /** The accesses still to come. */
  function Remaining(s: State): seq<Strobe>
    requires Valid(s)
  {
    match s.phase
    case ISSUE(n) => Lanes(s.req, n)
    case WAIT(n) => Lanes(s.req, n + 1)
    case CAP(n) => Lanes(s.req, n + 1)
    case _ => []
  }

  /** How many clocks a cycle still takes before it is answered. */
  function ClocksLeft(s: State): (n: int)
    requires Valid(s)
    ensures n >= 0
  {
    match s.phase
    case IDLE => 0
    case ISSUE(n) => LaneClocks(s.req, n) + 1
    case WAIT(n) => (if s.req.read then 2 else 1) + LaneClocks(s.req, n + 1) + 1
    case CAP(n) => 1 + LaneClocks(s.req, n + 1) + 1
    case DONE => 1
    case IDE32 => 2
    case IDE32W => 1
  }

  /** One clock for a lane that is off, three for a read, two for a write. */
  function LaneClocks(r: Request, n: int): (c: int)
    requires ValidRequest(r) && 0 <= n <= 4
    ensures 0 <= c <= 3 * (4 - n)
    decreases 4 - n
  {
    if n == 4 then 0 else (if !r.be[n] then 1 else if r.read then 3 else 2) + LaneClocks(r, n + 1)
  }

  predicate Busy(s: State) {
    s.phase != IDLE
  }

  // ---------------------------------------------------------------- one clock

  predicate Progresses(s: State, t: State)
    requires Valid(s) && Valid(t)
  {
    && t.req == s.req
    && ClocksLeft(t) == ClocksLeft(s) - 1
    && Issued(t.out) + Remaining(t) == Remaining(s)
    && (t.out.ready <==> !Busy(t)) && (t.out.ready ==> t.wasActive)
  }

  lemma LaneStep(r: Request, n: int)
    requires ValidRequest(r) && 0 <= n < 4
    ensures Lanes(r, 4) == [] && LaneClocks(r, 4) == 0
    ensures LaneClocks(r, n) == (if !r.be[n] then 1 else if r.read then 3 else 2) + LaneClocks(r, n + 1)
    ensures Lanes(r, n) == (if !r.be[n] then [] else if r.read then [ByteRead(r.port + n)] else [ByteWrite(r.port + n, r.data[n])])
                           + Lanes(r, n + 1)
  {
  }

  lemma AtNextLane(t: State, n: int)
    requires Valid(t) && 0 <= n < 4 && t.phase == AfterLane(n)
    ensures Remaining(t) == Lanes(t.req, n + 1) && ClocksLeft(t) == LaneClocks(t.req, n + 1) + 1 && Busy(t)
  {
    if n == 3 { assert Lanes(t.req, 4) == [] && LaneClocks(t.req, 4) == 0; }
    hide Lanes, LaneClocks, ValidRequest;
  }

  lemma IssueStep(s: State, i: Input)
    requires Valid(s) && ValidInput(i) && i.resetN && s.phase.ISSUE? && Valid(Next(s, i))
    ensures Progresses(s, Next(s, i))
  {
    var n, t := s.phase.lane, Next(s, i);
    LaneStep(s.req, n);
    assert t == OnIssue(s, n);
    if !s.req.be[n] {
      AtNextLane(t, n);
      assert Issued(t.out) == [] && !t.out.ready && t.req == s.req;
      AtIssue(s, n);
      hide Lanes, LaneClocks, Valid, ValidInput, Remaining, ClocksLeft, Next, Issued, OnIssue;
    } else {
      AtIssue(s, n);
      hide Lanes, LaneClocks, Valid, ValidInput, Next;
    }
  }

  lemma AtIssue(s: State, n: int)
    requires Valid(s) && s.phase == ISSUE(n)
    ensures Remaining(s) == Lanes(s.req, n) && ClocksLeft(s) == LaneClocks(s.req, n) + 1 && Busy(s)
  {
    hide Lanes, LaneClocks;
  }

  lemma WaitStep(s: State, i: Input)
    requires Valid(s) && ValidInput(i) && i.resetN && (s.phase.WAIT? || s.phase.CAP?) && Valid(Next(s, i))
    ensures Progresses(s, Next(s, i))
  {
    var n, t := s.phase.lane, Next(s, i);
    assert t.phase == (if s.phase.WAIT? && s.req.read then CAP(n) else AfterLane(n));
    assert Issued(t.out) == [] && !t.out.ready && t.req == s.req;
    hide Lanes, LaneClocks, ValidInput, ValidRequest, IdePort, Next, Issued;
    if t.phase == AfterLane(n) { AtNextLane(t, n); }
    assert [] + Remaining(t) == Remaining(t);
    hide Valid;
  }

  lemma LastStep(s: State, i: Input)
    requires Valid(s) && ValidInput(i) && i.resetN && (s.phase == DONE || s.phase == IDE32 || s.phase == IDE32W) && Valid(Next(s, i))
    ensures Progresses(s, Next(s, i))
  {
    hide ValidInput, ValidRequest, IdePort;
  }

  /** A clock of a cycle in progress uses one of the clocks left and issues the next access that is due, if any;
      the answer comes on the last of them. */
  lemma BusyStep(s: State, i: Input)
    requires Valid(s) && ValidInput(i) && i.resetN && Busy(s)
    ensures Valid(Next(s, i)) && Progresses(s, Next(s, i))
  {
    StepKeepsValid(s, i);
    hide Next, Valid, Progresses;
    match s.phase
    case ISSUE(n) => IssueStep(s, i);
    case WAIT(n) => WaitStep(s, i);
    case CAP(n) => WaitStep(s, i);
    case _ => LastStep(s, i);
  }

  /** Between cycles the adapter only starts what is asked for, and only when the last request has been let go. */
  lemma IdleStep(s: State, i: Input)
    requires Valid(s) && ValidInput(i) && i.resetN && !Busy(s)
    ensures var t := Next(s, i);
            && Valid(t) && !t.out.ready
            && (Busy(t) <==> Accepts(s, i))
            && (Accepts(s, i) ==> t.req == Latched(i) && Issued(t.out) + Remaining(t) == Due(t.req))
            && (!Accepts(s, i) ==> Issued(t.out) == [] && Remaining(t) == [] && t.wasActive == (s.wasActive && (i.rd || i.wr)))
  {
    StepKeepsValid(s, i);
    hide Lanes;
  }

  /** Every access is a single clock long: the strobes are low on the clock behind it. */
  lemma StrobesApart(s: State, i: Input, j: Input)
    requires Valid(s) && ValidInput(i) && ValidInput(j)
    ensures Valid(Next(s, i)) && (Issued(Next(s, i).out) != [] ==> Issued(Next(Next(s, i), j).out) == [])
  {
    StepKeepsValid(s, i);
    hide ValidInput, IdePort, Latched;
  }

  // ---------------------------------------------------------------- whole runs

  predicate ValidInputs(ins: seq<Input>) {
    forall k | 0 <= k < |ins| :: ValidInput(ins[k]) && ins[k].resetN
  }

  /** The state after the first `k` clocks. */
  function After(s: State, ins: seq<Input>, k: nat): (t: State)
    requires Valid(s) && ValidInputs(ins) && k <= |ins|
    ensures Valid(t)
  {
    if k == 0 then s
    else
      StepKeepsValid(After(s, ins, k - 1), ins[k - 1]);
      Next(After(s, ins, k - 1), ins[k - 1])
  }

  function Strobes(s: State, ins: seq<Input>, k: nat): seq<Strobe>
    requires Valid(s) && ValidInputs(ins) && k <= |ins|
  {
    if k == 0 then [] else Strobes(s, ins, k - 1) + Issued(After(s, ins, k).out)
  }

  /** Everything due to the cycles accepted so far, in order. */
  function AllDue(s: State, ins: seq<Input>, k: nat): seq<Strobe>
    requires Valid(s) && ValidInputs(ins) && k <= |ins|
  {
    if k == 0 then []
    else AllDue(s, ins, k - 1) + (if Accepts(After(s, ins, k - 1), ins[k - 1]) then Due(Latched(ins[k - 1])) else [])
  }

  function Accepted(s: State, ins: seq<Input>, k: nat): nat
    requires Valid(s) && ValidInputs(ins) && k <= |ins|
  {
    if k == 0 then 0 else Accepted(s, ins, k - 1) + (if Accepts(After(s, ins, k - 1), ins[k - 1]) then 1 else 0)
  }

  function Answered(s: State, ins: seq<Input>, k: nat): nat
    requires Valid(s) && ValidInputs(ins) && k <= |ins|
  {
    if k == 0 then 0 else Answered(s, ins, k - 1) + (if After(s, ins, k).out.ready then 1 else 0)
  }

  lemma Joins(a: seq<Strobe>, b: seq<Strobe>, c: seq<Strobe>, d: seq<Strobe>)
    requires b + c == d
    ensures (a + b) + c == a + d
  {
  }

  /** One clock of the account: `issued` and `due` so far, cycles accepted and answered. */
  lemma AccountStep(t: State, i: Input, issued: seq<Strobe>, due: seq<Strobe>, accepted: nat, answered: nat)
    requires Valid(t) && ValidInput(i) && i.resetN
    requires issued + Remaining(t) == due && accepted == answered + (if Busy(t) then 1 else 0)
    ensures var u := Next(t, i);
            && Valid(u)
            && issued + Issued(u.out) + Remaining(u) == due + (if Accepts(t, i) then Due(Latched(i)) else [])
            && accepted + (if Accepts(t, i) then 1 else 0)
               == answered + (if u.out.ready then 1 else 0) + (if Busy(u) then 1 else 0)
            && (u.out.ready ==> u.wasActive && !Busy(u))
  {
    var u := Next(t, i);
    hide Next, Lanes, Remaining, Issued, Due, Valid, ClocksLeft, ValidInput;
    if Busy(t) {
      BusyStep(t, i);
      NotAccepting(t, i);
      Joins(issued, Issued(u.out), Remaining(u), Remaining(t));
      assert due + [] == due;
    } else {
      IdleStep(t, i);
      NothingLeft(t);
      assert issued + [] == issued;
      if Accepts(t, i) {
        Joins(issued, Issued(u.out), Remaining(u), Due(u.req));
      } else {
        Joins(issued, Issued(u.out), Remaining(u), []);
      }
    }
  }

  lemma AtStart(s: State, ins: seq<Input>)
    requires Valid(s) && ValidInputs(ins)
    ensures After(s, ins, 0) == s && Strobes(s, ins, 0) == [] && AllDue(s, ins, 0) == []
    ensures Accepted(s, ins, 0) == 0 && Answered(s, ins, 0) == 0
  {
  }

  lemma Unfold(s: State, ins: seq<Input>, k: nat)
    requires Valid(s) && ValidInputs(ins) && 0 < k <= |ins|
    ensures var t, i, u := After(s, ins, k - 1), ins[k - 1], After(s, ins, k);
            && u == Next(t, i) && ValidInput(i) && i.resetN
            && Strobes(s, ins, k) == Strobes(s, ins, k - 1) + Issued(u.out)
            && AllDue(s, ins, k) == AllDue(s, ins, k - 1) + (if Accepts(t, i) then Due(Latched(i)) else [])
            && Accepted(s, ins, k) == Accepted(s, ins, k - 1) + (if Accepts(t, i) then 1 else 0)
            && Answered(s, ins, k) == Answered(s, ins, k - 1) + (if u.out.ready then 1 else 0)
  {
    hide Next, Issued, Due, Accepts, Latched;
  }

  /** Over every run: the accesses issued, followed by those still to come, are exactly those due to the cycles accepted,
      in order; and every cycle accepted but the one in progress has been answered once. */
  lemma {:induction false} ServesOnce(s: State, ins: seq<Input>, k: nat)
    requires Valid(s) && ValidInputs(ins) && k <= |ins| && !Busy(s)
    ensures var t := After(s, ins, k);
            && Strobes(s, ins, k) + Remaining(t) == AllDue(s, ins, k)
            && Accepted(s, ins, k) == Answered(s, ins, k) + (if Busy(t) then 1 else 0)
            && (t.out.ready && k > 0 ==> t.wasActive && !Busy(t))
  {
    hide *;
    if k > 0 {
      ServesOnce(s, ins, k - 1);
      Unfold(s, ins, k);
      AccountStep(After(s, ins, k - 1), ins[k - 1], Strobes(s, ins, k - 1), AllDue(s, ins, k - 1),
                  Accepted(s, ins, k - 1), Answered(s, ins, k - 1));
    } else {
      AtStart(s, ins);
      NothingLeft(s);
    }
  }

  lemma NotAccepting(t: State, i: Input)
    requires Busy(t)
    ensures !Accepts(t, i)
  {
  }

  lemma NothingLeft(t: State)
    requires Valid(t) && !Busy(t)
    ensures Remaining(t) == [] && ClocksLeft(t) == 0
  {
  }

  /** A cycle is accepted only if the processor let go of its request at some clock since the last answer. */
  lemma {:induction false} RearmsOnlyWhenDropped(s: State, ins: seq<Input>, j: nat, k: nat)
    requires Valid(s) && ValidInputs(ins) && !Busy(s) && 0 < j <= k < |ins|
    requires After(s, ins, j).out.ready && forall m | j <= m < k :: ins[m].rd || ins[m].wr
    ensures !Busy(After(s, ins, k)) && After(s, ins, k).wasActive && (ins[k].rd || ins[k].wr ==> !Accepts(After(s, ins, k), ins[k]))
  {
    if j == k {
      ServesOnce(s, ins, j);
    } else {
      RearmsOnlyWhenDropped(s, ins, j, k - 1);
      IdleStep(After(s, ins, k - 1), ins[k - 1]);
      hide Next, Lanes, Remaining, Issued, Due, Valid;
      assert ins[k - 1].rd || ins[k - 1].wr;
    }
  }

  /** Every cycle is answered, after exactly the clocks its lanes take. */
  lemma {:induction false} AnswersInTime(s: State, ins: seq<Input>, k: nat)
    requires Valid(s) && ValidInputs(ins) && Busy(s) && k <= |ins| && k <= ClocksLeft(s)
    ensures var t := After(s, ins, k);
            && ClocksLeft(t) == ClocksLeft(s) - k && (Busy(t) <==> k < ClocksLeft(s))
            && (k > 0 ==> (t.out.ready <==> k == ClocksLeft(s)))
            && t.req == s.req
  {
    hide *;
    if k > 0 {
      AnswersInTime(s, ins, k - 1);
      Unfold(s, ins, k);
      StepProgress(After(s, ins, k - 1), ins[k - 1]);
    } else {
      AtStart(s, ins);
      BusyIff(s);
    }
  }

  lemma StepProgress(t: State, i: Input)
    requires Valid(t) && ValidInput(i) && i.resetN && Busy(t)
    ensures var u := Next(t, i);
            Valid(u) && u.req == t.req && ClocksLeft(u) == ClocksLeft(t) - 1
            && (u.out.ready <==> !Busy(u)) && (Busy(u) <==> ClocksLeft(u) > 0)
  {
    BusyStep(t, i);
    BusyIff(Next(t, i));
    hide Next, Remaining, Issued, Valid, ClocksLeft, Busy;
  }

  lemma BusyIff(t: State)
    requires Valid(t)
    ensures Busy(t) <==> ClocksLeft(t) > 0
  {
  }
}
