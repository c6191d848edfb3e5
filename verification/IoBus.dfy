/** The adapter between a processor's four-byte port cycles and byte-wide peripherals. */
module IoBus {

  datatype Phase = IDLE | ISSUE(lane: int) | WAIT(lane: int) | CAP(lane: int) | DONE | IDE32 | IDE32W

  /** What the adapter latches of a cycle: four lanes, the lowest first. */
  datatype Request = Request(port: int, be: seq<bool>, read: bool, data: seq<int>)

  /** The strobes of this clock and the answer to the processor. */
  datatype Outputs = Outputs(ready: bool, dout: seq<int>, address: int, ioRead: bool, ioWrite: bool, writeData: int,
                             ideRead: bool, ideWrite: bool, ideData: seq<int>, ide32: bool)

  datatype State = State(phase: Phase, req: Request, accum: seq<int>, wasActive: bool, out: Outputs)

  /** One clock of the processor's side, and what the peripherals show. */
  datatype Input = Input(resetN: bool, port: int, be: seq<bool>, din: seq<int>, rd: bool, wr: bool,
                         readData: int, ideReadData: seq<int>)

  const ALL_ONES: seq<int> := [0xFF, 0xFF, 0xFF, 0xFF]

  predicate ValidRequest(r: Request) {
    0 <= r.port && r.port % 4 == 0 && r.port + 3 < 0x1_0000 && |r.be| == 4 && |r.data| == 4
  }

  predicate ValidPhase(p: Phase) {
    match p
    case ISSUE(n) => 0 <= n < 4
    case WAIT(n) => 0 <= n < 4
    case CAP(n) => 0 <= n < 4
    case _ => true
  }

  predicate Valid(s: State) {
    ValidRequest(s.req) && ValidPhase(s.phase) && |s.accum| == 4 && |s.out.dout| == 4
  }

  predicate ValidInput(i: Input) {
    0 <= i.port && i.port % 4 == 0 && i.port + 3 < 0x1_0000 && |i.be| == 4 && |i.din| == 4 && |i.ideReadData| == 4
  }

  /** The word-wide data ports of the two disk channels. */
  predicate IdePort(port: int, be: seq<bool>)
    requires |be| == 4
  {
    (port == 0x1F0 || port == 0x170) && be[0]
  }

  function Latched(i: Input): Request {
    Request(i.port, i.be, i.rd, i.din)
  }

  /** All strobes low, everything else as it was. */
  function Quiet(o: Outputs): Outputs {
    o.(ready := false, ioRead := false, ioWrite := false, ideRead := false, ideWrite := false)
  }

  function AfterLane(lane: int): Phase {
    if lane < 3 then ISSUE(lane + 1) else DONE
  }

  predicate Accepts(s: State, i: Input) {
    s.phase == IDLE && !s.wasActive && (i.rd || i.wr)
  }

  function OnIdle(s: State, i: Input): State
    requires Valid(s) && ValidInput(i)
  {
    var o := Quiet(s.out);
    if s.wasActive then s.(out := o, wasActive := i.rd || i.wr)
    else if !(i.rd || i.wr) then s.(out := o)
    else
      var t := s.(req := Latched(i), accum := ALL_ONES);
      if IdePort(i.port, i.be) then
        t.(phase := IDE32,
           out := o.(address := i.port, ide32 := i.be == [true, true, true, true], ideRead := i.rd, ideWrite := !i.rd,
                     ideData := if i.rd then o.ideData else i.din))
      else t.(phase := ISSUE(0), out := o.(address := i.port))
  }

  function OnIssue(s: State, n: int): State
    requires Valid(s) && 0 <= n < 4
  {
    var o := Quiet(s.out);
    if !s.req.be[n] then s.(phase := AfterLane(n), out := o)
    else if s.req.read then s.(phase := WAIT(n), out := o.(address := s.req.port + n, ioRead := true))
    else s.(phase := WAIT(n), out := o.(address := s.req.port + n, ioWrite := true, writeData := s.req.data[n]))
  }

  function Next(s: State, i: Input): State
    requires Valid(s) && ValidInput(i)
  {
    var o := Quiet(s.out);
    if !i.resetN then s.(phase := IDLE, out := o, wasActive := false)
    else match s.phase
      case IDLE => OnIdle(s, i)
      case ISSUE(n) => OnIssue(s, n)
      case WAIT(n) => s.(phase := if s.req.read then CAP(n) else AfterLane(n), out := o)
      case CAP(n) => s.(phase := AfterLane(n), accum := s.accum[n := i.readData], out := o)
      case DONE => s.(phase := IDLE, wasActive := true, out := o.(ready := true, dout := s.accum))
      case IDE32 => s.(phase := IDE32W, out := o)
      case IDE32W =>
        s.(phase := IDLE, wasActive := true, out := o.(ready := true, dout := if s.req.read then i.ideReadData else o.dout))
  }

  lemma StepKeepsValid(s: State, i: Input)
    requires Valid(s) && ValidInput(i)
    ensures Valid(Next(s, i))
  {
  }

  class Adapter {
    var phase: Phase
    var req: Request
    var accum: seq<int>
    var wasActive: bool
    var out: Outputs

    function Value(): State
      reads this
    {
      State(phase, req, accum, wasActive, out)
    }

    method Start(i: Input)
      requires Valid(Value()) && ValidInput(i) && phase == IDLE && out == Quiet(out)
      modifies this
      ensures Value() == OnIdle(old(Value()), i)
    {
      if wasActive {
        wasActive := i.rd || i.wr;
      } else if i.rd || i.wr {
        req := Latched(i);
        accum := ALL_ONES;
        out := out.(address := i.port);
        if IdePort(i.port, i.be) {
          out := out.(ide32 := i.be == [true, true, true, true]);
          if i.rd {
            out := out.(ideRead := true);
          } else {
            out := out.(ideWrite := true, ideData := i.din);
          }
          phase := IDE32;
        } else {
          phase := ISSUE(0);
        }
      }
    }

    method Issue(n: int)
      requires Valid(Value()) && 0 <= n < 4 && out == Quiet(out)
      modifies this
      ensures Value() == OnIssue(old(Value()), n)
    {
      if req.be[n] {
        out := out.(address := req.port + n);
        if req.read {
          out := out.(ioRead := true);
        } else {
          out := out.(ioWrite := true, writeData := req.data[n]);
        }
        phase := WAIT(n);
      } else {
        phase := AfterLane(n);
      }
    }

    method Clock(i: Input)
      requires Valid(Value()) && ValidInput(i)
      modifies this
      ensures Valid(Value()) && Value() == Next(old(Value()), i)
    {
      ghost var s := Value();
      StepKeepsValid(s, i);
      out := Quiet(out);
      QuietTwice(s);
      hide OnIdle, OnIssue, Valid, Quiet;
      if !i.resetN {
        phase := IDLE;
        wasActive := false;
        return;
      }
      match phase {
        case IDLE => Start(i);
        case ISSUE(n) => Issue(n);
        case WAIT(n) => phase := if req.read then CAP(n) else AfterLane(n);
        case CAP(n) =>
          accum := accum[n := i.readData];
          phase := AfterLane(n);
        case DONE =>
          out := out.(dout := accum, ready := true);
          wasActive := true;
          phase := IDLE;
        case IDE32 => phase := IDE32W;
        case IDE32W =>
          if req.read { out := out.(dout := i.ideReadData); }
          out := out.(ready := true);
          wasActive := true;
          phase := IDLE;
      }
    }
  }

  lemma QuietTwice(s: State)
    requires Valid(s)
    ensures Quiet(Quiet(s.out)) == Quiet(s.out) && Valid(s.(out := Quiet(s.out))) && |s.accum| == 4 && ValidPhase(s.phase)
    ensures forall i | ValidInput(i) :: OnIdle(s.(out := Quiet(s.out)), i) == OnIdle(s, i)
    ensures forall n | 0 <= n < 4 :: OnIssue(s.(out := Quiet(s.out)), n) == OnIssue(s, n)
  {
  }
}
