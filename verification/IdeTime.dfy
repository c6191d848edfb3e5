/**
  Disk commands and CD reads end, and when: against a core that answers at once, with any jitter up to a bound,
  each is back at idle within a number of ticks that is stated; and from every start there is such a run.
 */
module IdeTime {
  import opened Sequences
  import opened Arithmetic
  import opened IdeModel
  import opened IdeValid
  import opened IdeRuns
  import opened IdeRest
  import opened IdeDisk
  import opened IdeCdRead
  import A = IdeAtapi

  /** The core asks whenever the device waits, and no rest is drawn longer than `most`. */
  predicate Prompt(d: Device, i: Input, most: int) {
    !i.reset && 0 <= i.jitter <= most && (Waiting(d) ==> Request(d, i) == 5)
  }

  /** A run against such a core, which stops when the command does. */
  predicate PromptRun(s: Sys, ins: seq<Input>, most: int)
    requires Valid(s.d)
  {
    ins == []
    || (PromptRun(s, Front(ins), most) && var p := Run(s, Front(ins)); p.d.state != IDLE && Prompt(p.d, Last(ins), most))
  }

  lemma {:induction false} PromptIsAttended(s: Sys, ins: seq<Input>, most: int)
    requires Valid(s.d) && PromptRun(s, ins, most)
    ensures Attended(s, ins)
  {
    if ins != [] {
      PromptIsAttended(s, Front(ins), most);
      hide Run, Valid;
    }
  }

  /** A tick never finds the device idle and never waits: it rests or it acts. */
  lemma ActsOrRests(d: Device, i: Input, most: int)
    requires Prompt(d, i, most)
    ensures Attends(d, i) && (Acts(d, i) <==> !Held(d))
  {
    hide Request;
  }

  /** Ticks a device may still take that has `work` to do: its rest, then for each act the tick and a rest. */
  function Budget(d: Device, work: int, most: int): int {
    RestLeft(d) + Times(most + 2, work)
  }

  /** Every tick spends some of the budget. */
  lemma Spends(s: Sys, i: Input, work: int, rest: int, most: int)
    requires Valid(s.d) && 0 <= s.d.jitterDelay && Prompt(s.d, i, most)
    requires rest == work - (if Acts(s.d, i) then 1 else 0)
    ensures var t := Step(s, i).d;
            0 <= t.jitterDelay && Budget(t, rest, most) <= Budget(s.d, work, most) - 1
  {
    ActsOrRests(s.d, i, most);
    StepRestLeft(s, i);
    TimesNext(most + 2, work);
    assert !Held(s.d) ==> RestLeft(s.d) == 0;
    hide Step, Valid, Times, Held, Acts;
  }

  /** A core that only ever answers. */
  const ANSWER := Input(false, 5, 5, 0, 0)

  lemma AnswerExtends(s: Sys, ins: seq<Input>)
    requires Valid(s.d) && PromptRun(s, ins, 0) && Run(s, ins).d.state != IDLE
    ensures PromptRun(s, ins + [ANSWER], 0)
  {
    assert Front(ins + [ANSWER]) == ins && Last(ins + [ANSWER]) == ANSWER;
    hide Run, Valid;
  }

  ghost predicate CanEnd(s: Sys)
    requires Valid(s.d)
  {
    exists more :: PromptRun(s, more, 0) && Run(s, more).d.state == IDLE
  }

  lemma Ended(s: Sys, ins: seq<Input>)
    requires Valid(s.d) && PromptRun(s, ins, 0) && Run(s, ins).d.state == IDLE
    ensures CanEnd(s)
  {
  }

  // ---------------------------------------------------------------- WRITE

  /** However the ticks fall, there are no more of them than the budget. */
  lemma {:induction false} WriteWithin(s: Sys, ins: seq<Input>, most: int)
    requires Accepts(s.d) && IsWrite(s.d) && 0 <= s.d.jitterDelay && 0 <= most && PromptRun(s, ins, most)
    ensures Attended(s, ins)
    ensures var t := Run(s, ins).d;
            && WriteProgress(s.d, t, Consumed(s, ins), Trace(s, ins)) && 0 <= t.jitterDelay
            && |ins| + Budget(t, WriteWork(s.d, t), most) <= Budget(s.d, WriteWork(s.d, s.d), most)
  {
    PromptIsAttended(s, ins, most);
    WriteRun(s, ins);
    if ins != [] {
      WriteWithin(s, Front(ins), most);
      var p, i := Run(s, Front(ins)), Last(ins);
      ActsOrRests(p.d, i, most);
      assert Run(s, ins) == Step(p, i);
      hide Step, Valid, WriteProgress, WriteWork, Accepts, Budget, Prompt;
      WriteStep(s.d, p, i, Consumed(s, Front(ins)), Trace(s, Front(ins)));
      Spends(p, i, WriteWork(s.d, p.d), WriteWork(s.d, Step(p, i).d), most);
    }
  }

  /** The run ends: it is never longer than its first rest and, for each act, one tick and the longest rest. */
  lemma WriteEnds(s: Sys, ins: seq<Input>, most: int)
    requires Accepts(s.d) && IsWrite(s.d) && 0 <= s.d.jitterDelay && 0 <= most && PromptRun(s, ins, most)
    ensures |ins| <= RestLeft(s.d) + Times(most + 2, WriteWork(s.d, s.d))
  {
    WriteWithin(s, ins, most);
    var t := Run(s, ins).d;
    WriteWorkRemains(s.d, t, Consumed(s, ins), Trace(s, ins));
    TimesNext(most + 2, WriteWork(s.d, t));
    hide Valid, Run, Times, WriteProgress, WriteWork;
  }

  lemma {:induction false} WriteGoesOn(s: Sys, ins: seq<Input>, bound: int)
    requires Valid(s.d) && Accepts(s.d) && IsWrite(s.d) && 0 <= s.d.jitterDelay && PromptRun(s, ins, 0)
    requires bound == RestLeft(s.d) + Times(0 + 2, WriteWork(s.d, s.d))
    ensures CanEnd(s)
    decreases bound - |ins|
  {
    hide *;
    if Run(s, ins).d.state == IDLE {
      Ended(s, ins);
    } else {
      AnswerExtends(s, ins);
      WriteEnds(s, ins + [ANSWER], 0);
      WriteGoesOn(s, ins + [ANSWER], bound);
    }
  }

  /** From every start there is a run that ends at idle: the core only has to answer. */
  lemma WriteCanEnd(s: Sys)
    requires Valid(s.d) && Accepts(s.d) && IsWrite(s.d) && 0 <= s.d.jitterDelay
    ensures CanEnd(s)
  {
    assert PromptRun(s, [], 0);
    hide *;
    WriteGoesOn(s, [], RestLeft(s.d) + Times(0 + 2, WriteWork(s.d, s.d)));
  }

  // ---------------------------------------------------------------- READ

  /** However the ticks fall, there are no more of them than the budget. */
  lemma {:induction false} ReadWithin(s: Sys, ins: seq<Input>, most: int)
    requires Accepts(s.d) && IsRead(s.d) && 0 <= s.d.jitterDelay && 0 <= most && PromptRun(s, ins, most)
    ensures Attended(s, ins)
    ensures var t := Run(s, ins).d;
            && ReadProgress(s.d, t, Trace(s, ins)) && 0 <= t.jitterDelay
            && |ins| + Budget(t, ReadWork(s.d, t), most) <= Budget(s.d, ReadWork(s.d, s.d), most)
  {
    PromptIsAttended(s, ins, most);
    ReadRun(s, ins);
    if ins != [] {
      ReadWithin(s, Front(ins), most);
      var p, i := Run(s, Front(ins)), Last(ins);
      ActsOrRests(p.d, i, most);
      assert Run(s, ins) == Step(p, i);
      hide Step, Valid, ReadProgress, ReadWork, Accepts, Budget, Prompt;
      ReadStep(s.d, p, i, Trace(s, Front(ins)));
      Spends(p, i, ReadWork(s.d, p.d), ReadWork(s.d, Step(p, i).d), most);
    }
  }

  /** The run ends: it is never longer than its first rest and, for each act, one tick and the longest rest. */
  lemma ReadEnds(s: Sys, ins: seq<Input>, most: int)
    requires Accepts(s.d) && IsRead(s.d) && 0 <= s.d.jitterDelay && 0 <= most && PromptRun(s, ins, most)
    ensures |ins| <= RestLeft(s.d) + Times(most + 2, ReadWork(s.d, s.d))
  {
    ReadWithin(s, ins, most);
    var t := Run(s, ins).d;
    ReadWorkRemains(s.d, t, Trace(s, ins));
    TimesNext(most + 2, ReadWork(s.d, t));
    hide Valid, Run, Times, ReadProgress, ReadWork;
  }

  lemma {:induction false} ReadGoesOn(s: Sys, ins: seq<Input>, bound: int)
    requires Valid(s.d) && Accepts(s.d) && IsRead(s.d) && 0 <= s.d.jitterDelay && PromptRun(s, ins, 0)
    requires bound == RestLeft(s.d) + Times(0 + 2, ReadWork(s.d, s.d))
    ensures CanEnd(s)
    decreases bound - |ins|
  {
    hide *;
    if Run(s, ins).d.state == IDLE {
      Ended(s, ins);
    } else {
      AnswerExtends(s, ins);
      ReadEnds(s, ins + [ANSWER], 0);
      ReadGoesOn(s, ins + [ANSWER], bound);
    }
  }

  /** From every start there is a run that ends at idle: the core only has to answer. */
  lemma ReadCanEnd(s: Sys)
    requires Valid(s.d) && Accepts(s.d) && IsRead(s.d) && 0 <= s.d.jitterDelay
    ensures CanEnd(s)
  {
    assert PromptRun(s, [], 0);
    hide *;
    ReadGoesOn(s, [], RestLeft(s.d) + Times(0 + 2, ReadWork(s.d, s.d)));
  }

  // ---------------------------------------------------------------- CD reads

  /** However the ticks fall, there are no more of them than the budget. */
  lemma {:induction false} CdWithin(s: Sys, ins: seq<Input>, most: int)
    requires ReadPacket(s.d) && A.GoodStream(StreamOf(s.d)) && 0 <= s.d.jitterDelay && 0 <= most && PromptRun(s, ins, most)
    ensures Attended(s, ins)
    ensures var t := Run(s, ins).d;
            && CdProgress(s.d, t, Trace(s, ins)) && 0 <= t.jitterDelay
            && |ins| + Budget(t, CdWork(s.d, t), most) <= Budget(s.d, CdWork(s.d, s.d), most)
  {
    PromptIsAttended(s, ins, most);
    CdRun(s, ins);
    if ins != [] {
      CdWithin(s, Front(ins), most);
      var p, i := Run(s, Front(ins)), Last(ins);
      ActsOrRests(p.d, i, most);
      assert Run(s, ins) == Step(p, i);
      hide Step, Valid, CdProgress, CdWork, ReadPacket, A.GoodStream, StreamOf, Budget, Prompt;
      CdStep(s.d, p, i, Trace(s, Front(ins)));
      Spends(p, i, CdWork(s.d, p.d), CdWork(s.d, Step(p, i).d), most);
    }
  }

  lemma CdBudget(s: Sys, ins: seq<Input>, most: int)
    requires ReadPacket(s.d) && A.GoodStream(StreamOf(s.d)) && 0 <= s.d.jitterDelay && 0 <= most && PromptRun(s, ins, most)
    ensures |ins| <= RestLeft(s.d) + Times(most + 2, CdWork(s.d, s.d))
  {
    CdWithin(s, ins, most);
    var t := Run(s, ins).d;
    CdWorkRemains(s.d, t, Trace(s, ins));
    TimesNext(most + 2, CdWork(s.d, t));
    hide Valid, Run, Times, CdProgress, CdWork;
  }

  lemma CdStartWork(d: Device)
    requires Readable(d)
    ensures ReadPacket(d) && A.GoodStream(StreamOf(d)) && CdWork(d, d) == CdTicks(d)
  {
    StreamIsGood(d);
    hide StreamOf, A.GoodStream, A.ChunksLeft, Valid;
  }

  /** The run ends: it is never longer than its first rest and, for each act, one tick and the longest rest. */
  lemma CdEnds(s: Sys, ins: seq<Input>, most: int)
    requires Valid(s.d) && Readable(s.d) && 0 <= s.d.jitterDelay && 0 <= most && PromptRun(s, ins, most)
    ensures |ins| <= RestLeft(s.d) + Times(most + 2, CdTicks(s.d))
  {
    hide *;
    CdStartWork(s.d);
    CdBudget(s, ins, most);
  }

  lemma {:induction false} CdGoesOn(s: Sys, ins: seq<Input>, bound: int)
    requires Valid(s.d) && Readable(s.d) && 0 <= s.d.jitterDelay && PromptRun(s, ins, 0)
    requires bound == RestLeft(s.d) + Times(0 + 2, CdTicks(s.d))
    ensures CanEnd(s)
    decreases bound - |ins|
  {
    hide *;
    if Run(s, ins).d.state == IDLE {
      Ended(s, ins);
    } else {
      AnswerExtends(s, ins);
      CdEnds(s, ins + [ANSWER], 0);
      CdGoesOn(s, ins + [ANSWER], bound);
    }
  }

  /** From every start there is a run that ends at idle: the core only has to answer. */
  lemma CdCanEnd(s: Sys)
    requires Valid(s.d) && Readable(s.d) && 0 <= s.d.jitterDelay
    ensures CanEnd(s)
  {
    assert PromptRun(s, [], 0);
    hide *;
    CdGoesOn(s, [], RestLeft(s.d) + Times(0 + 2, CdTicks(s.d)));
  }
}
