/** The bridge from an interrupt controller's handshake to a processor's pairs of acknowledge cycles. */
module PicInta {

  datatype Phase = IDLE | INTA1 | INTA2

  datatype State = State(phase: Phase, responded: bool, intr: bool, done: bool, ready: bool, din: int)

  datatype Input = Input(resetN: bool, interruptDo: bool, vector: int, inta: bool)

  const RESET := State(IDLE, false, false, false, false, 0)

  /** The answer to the acknowledge line. */
  function Answer(s: State, i: Input): State {
    var t := s.(done := false, ready := false, intr := i.interruptDo);
    match s.phase
    case IDLE =>
      if i.inta && !s.responded then t.(din := 0, ready := true, responded := true, phase := INTA1) else t
    case INTA1 =>
      if !i.inta then t.(responded := false, phase := INTA2) else t
    case INTA2 =>
      if i.inta && !s.responded then t.(din := i.vector, ready := true, done := true, responded := true, phase := IDLE)
      else t
  }

  function Next(s: State, i: Input): State {
    if !i.resetN then RESET
    else if !i.inta then Answer(s, i).(responded := false)
    else Answer(s, i)
  }

  class Bridge {
    var phase: Phase
    var responded: bool
    var cpuIntr: bool
    var interruptDone: bool
    var intaReady: bool
    var intaDin: int

    function Value(): State
      reads this
    {
      State(phase, responded, cpuIntr, interruptDone, intaReady, intaDin)
    }

    method Clock(i: Input)
      modifies this
      ensures Value() == Next(old(Value()), i)
    {
      var guard := responded;
      interruptDone := false;
      intaReady := false;
      if !i.resetN {
        phase, cpuIntr, intaDin, responded := IDLE, false, 0, false;
        return;
      }
      cpuIntr := i.interruptDo;
      match phase {
      case IDLE =>
        if i.inta && !guard {
          intaDin := 0;
          intaReady := true;
          responded := true;
          phase := INTA1;
        }
      case INTA1 =>
        if !i.inta {
          responded := false;
          phase := INTA2;
        }
      case INTA2 =>
        if i.inta && !guard {
          intaDin := i.vector;
          intaReady := true;
          interruptDone := true;
          responded := true;
          phase := IDLE;
        }
      }
      if !i.inta { responded := false; }
    }
  }

  // ---------------------------------------------------------------- whole runs

  /** The state after the first `k` clocks from reset. */
  function After(ins: seq<Input>, k: nat): State
    requires k <= |ins|
  {
    if k == 0 then RESET else Next(After(ins, k - 1), ins[k - 1])
  }

  predicate Running(ins: seq<Input>) {
    forall k | 0 <= k < |ins| :: ins[k].resetN
  }

  /** Clock `k` is the first of a period in which the processor holds its acknowledge line. */
  predicate Opens(ins: seq<Input>, k: nat)
    requires k < |ins|
  {
    ins[k].inta && (k == 0 || !ins[k - 1].inta)
  }

  /** Acknowledge periods that have begun. */
  function Periods(ins: seq<Input>, k: nat): nat
    requires k <= |ins|
  {
    if k == 0 then 0 else Periods(ins, k - 1) + (if Opens(ins, k - 1) then 1 else 0)
  }

  function ReadyPulses(ins: seq<Input>, k: nat): nat
    requires k <= |ins|
  {
    if k == 0 then 0 else ReadyPulses(ins, k - 1) + (if After(ins, k).ready then 1 else 0)
  }

  function DonePulses(ins: seq<Input>, k: nat): nat
    requires k <= |ins|
  {
    if k == 0 then 0 else DonePulses(ins, k - 1) + (if After(ins, k).done then 1 else 0)
  }

  /** The guard follows the acknowledge line, and the phase the parity of the answers given. */
  predicate Paired(s: State, held: bool, pulses: nat) {
    && s.responded == held
    && (s.phase == INTA1 ==> held)
    && (s.phase == INTA2 ==> !held)
    && (s.phase == IDLE <==> pulses % 2 == 0)
  }

  lemma StepPairs(s: State, i: Input, held: bool, pulses: nat)
    requires Paired(s, held, pulses) && i.resetN
    ensures var t := Next(s, i);
            && (t.ready <==> i.inta && !held)
            && (t.done <==> t.ready && pulses % 2 == 1)
            && (t.ready ==> t.din == if t.done then i.vector else 0)
            && Paired(t, i.inta, if t.ready then pulses + 1 else pulses)
  {
  }

  lemma {:induction false} RunPairs(ins: seq<Input>, k: nat)
    requires Running(ins) && k <= |ins|
    ensures Paired(After(ins, k), k > 0 && ins[k - 1].inta, ReadyPulses(ins, k))
    ensures DonePulses(ins, k) == ReadyPulses(ins, k) / 2
  {
    if k > 0 {
      RunPairs(ins, k - 1);
      StepPairs(After(ins, k - 1), ins[k - 1], k > 1 && ins[k - 2].inta, ReadyPulses(ins, k - 1));
      hide Next, Paired;
    }
  }

  /** Over every run: each period of the acknowledge line is answered on its first clock and on no other; the answers
      are alternately empty and the vector; the controller is acknowledged with the vector and only then. */
  lemma AnswersOnce(ins: seq<Input>, k: nat)
    requires Running(ins) && k < |ins|
    ensures var t := After(ins, k + 1);
            && (t.ready <==> Opens(ins, k))
            && (t.done <==> t.ready && ReadyPulses(ins, k) % 2 == 1)
            && (t.ready ==> t.din == if t.done then ins[k].vector else 0)
            && t.intr == ins[k].interruptDo
  {
    RunPairs(ins, k);
    StepPairs(After(ins, k), ins[k], k > 0 && ins[k - 1].inta, ReadyPulses(ins, k));
    hide Paired;
  }

  /** One answer a period, and one acknowledgement for every two of them. */
  lemma {:induction false} PeriodsPairUp(ins: seq<Input>, k: nat)
    requires Running(ins) && k <= |ins|
    ensures ReadyPulses(ins, k) == Periods(ins, k) && DonePulses(ins, k) == Periods(ins, k) / 2
  {
    RunPairs(ins, k);
    if k > 0 {
      PeriodsPairUp(ins, k - 1);
      AnswersOnce(ins, k - 1);
      hide Next, Paired, Opens;
    }
  }
}
