/** Runs of the device against an arbitrary core, and the traces they leave on the bus. */
module IdeRuns {
  import opened Sequences
  import opened IdeModel
  import opened IdeValid

  /** A word the device put on the management bus. */
  datatype Event = BusWrite(address: int, data: int)

  function Emitted(b: Bus): seq<Event> {
    if b.write then [BusWrite(b.address, b.writedata)] else []
  }

  /** The read data a tick uses, if it uses any. */
  function Taken(s: Sys, i: Input): seq<int> {
    if i.reset || Held(s.d) then []
    else if s.d.state == WRITE_RECV && s.d.cnt > 0 then [i.readdata]
    else if s.d.state == PACKET_RECV && s.d.cnt > 0 then [i.readdata]
    else if s.d.state == GET_CMD && s.bus.address % 0x10 <= 5 then [i.readdata]
    else if s.d.state == GET_RESET_DRIVE then [i.readdata]
    else []
  }

  /** The state after the ticks `ins`. */
  function Run(s: Sys, ins: seq<Input>): (r: Sys)
    requires Valid(s.d)
    ensures Valid(r.d)
  {
    if ins == [] then s
    else
      var p := Run(s, Front(ins));
      StepKeepsValid(p, Last(ins));
      Step(p, Last(ins))
  }

  /** Every word put on the bus, in order. */
  function Trace(s: Sys, ins: seq<Input>): seq<Event>
    requires Valid(s.d)
  {
    if ins == [] then [] else Trace(s, Front(ins)) + Emitted(Run(s, ins).bus)
  }

  /** Every word taken from the bus, in order. */
  function Consumed(s: Sys, ins: seq<Input>): seq<int>
    requires Valid(s.d)
  {
    if ins == [] then [] else Consumed(s, Front(ins)) + Taken(Run(s, Front(ins)), Last(ins))
  }

  predicate Waiting(d: Device) {
    d.state == READ_WAIT_REQ || d.state == WRITE_WAIT_REQ || d.state == PACKET_WAIT_REQ || d.state == PACKET_READ_WAIT_REQ
  }

  /** No reset, and a waiting device is only ever asked to go on. */
  predicate Attends(d: Device, i: Input) {
    !i.reset && (Waiting(d) ==> Request(d, i) == 0 || Request(d, i) == 5)
  }

  /** A run on which the core attends to the device and which stops when the command does. */
  predicate Attended(s: Sys, ins: seq<Input>)
    requires Valid(s.d)
  {
    ins == [] || (Attended(s, Front(ins)) && var p := Run(s, Front(ins)); p.d.state != IDLE && Attends(p.d, Last(ins)))
  }

  /** A tick that does something: not held, and not waiting without a request. */
  predicate Acts(d: Device, i: Input) {
    !Held(d) && (Waiting(d) ==> Request(d, i) == 5)
  }

  function LowStrobes(s: Sys): Sys {
    Sys(s.d, s.bus.(read := false, write := false))
  }

  /** The ticks a device may still rest before it acts. */
  function RestLeft(d: Device): int {
    d.jitterDelay + (if d.cooldown then 1 else 0)
  }

  lemma StepActs(s: Sys, i: Input)
    requires Valid(s.d) && !i.reset && !Held(s.d)
    ensures var t := Dispatch(LowStrobes(s), i);
            Step(s, i).bus == t.bus
            && (Step(s, i).d == t.d || Step(s, i).d == t.d.(cooldown := true, jitterDelay := i.jitter))
  {
    hide Dispatch, Valid;
  }

  lemma StepRests(s: Sys, i: Input)
    requires Valid(s.d) && !i.reset && Held(s.d)
    ensures Step(s, i).bus == LowStrobes(s).bus && RestLeft(Step(s, i).d) == RestLeft(s.d) - 1
    ensures Step(s, i).d == s.d.(cooldown := Step(s, i).d.cooldown, jitterDelay := Step(s, i).d.jitterDelay)
  {
    hide Dispatch, Valid;
  }

  /** A waiting device that is not asked for anything only lowers its strobes. */
  lemma StepStalls(s: Sys, i: Input)
    requires Valid(s.d) && !i.reset && !Held(s.d) && Waiting(s.d) && Request(s.d, i) == 0
    ensures Step(s, i) == LowStrobes(s)
  {
    hide Valid, PrepareCdromRead;
  }

  /** How many ticks of a run did something. */
  function ActingTicks(s: Sys, ins: seq<Input>): nat
    requires Valid(s.d)
  {
    if ins == [] then 0
    else ActingTicks(s, Front(ins)) + (if Acts(Run(s, Front(ins)).d, Last(ins)) then 1 else 0)
  }

  predicate SameButRest(d0: Device, d: Device) {
    d0.(cooldown := false, jitterDelay := 0) == d.(cooldown := false, jitterDelay := 0)
  }
}
