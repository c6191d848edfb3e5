/**
  Whole disk commands, from the decoded task file back to idle: the tick machine
  refines a plain byte array, whatever the jitter, the rests and the moments at which
  the core answers.
 */
module IdeDisk {
  import opened Sequences
  import opened IdeModel
  import opened IdeValid
  import opened IdeRuns
  import opened IdeJob
  import opened IdeAddress
  import opened SectorStore
  import W = IdeWrite
  import R = IdeRead

  /** A disk that has just latched a transfer command. */
  predicate Accepts(d: Device) {
    Valid(d) && d.state == DO_CMD && d.drive.present && d.regs.drv == 0 && !d.cdrom
  }

  predicate IsWrite(d: Device) {
    d.latch.cmd == 0x30 || d.latch.cmd == 0x31
  }

  predicate IsRead(d: Device) {
    d.latch.cmd == 0x20 || d.latch.cmd == 0x21
  }

  /** The transfer a latched command asks for. */
  function JobOf(d: Device): (j: Job)
    requires Accepts(d) && (IsWrite(d) || IsRead(d))
    ensures GoodJob(j) && j.g == d.drive && j.base == d.base && j.image == d.image
    ensures j.r.sectorCount == if d.regs.sectorCount % 0x100 == 0 then 256 else d.regs.sectorCount % 0x100
  {
    Job(MaskedRegs(d.regs, d.latch.cmd), d.drive, d.base, d.image)
  }

  /** The first acting tick decodes the command. */
  lemma DecodeWrite(s: Sys, i: Input)
    requires Accepts(s.d) && IsWrite(s.d) && !s.bus.write
    ensures var t := Dispatch(s, i); t.bus == s.bus && t.d == s.d.(regs := JobOf(s.d).r, state := WRITE)
  {
    hide Valid, MaskedRegs;
  }

  lemma DecodeRead(s: Sys, i: Input)
    requires Accepts(s.d) && IsRead(s.d) && !s.bus.write
    ensures var t := Dispatch(s, i); t.bus == s.bus && t.d == s.d.(regs := JobOf(s.d).r, state := READ)
  {
    hide Valid, MaskedRegs;
  }

  // ---------------------------------------------------------------- WRITE SECTORS

  /** Still undecoded, or somewhere in the transfer. */
  predicate WriteProgress(d0: Device, d: Device, ws: seq<int>, tr: seq<Event>)
    requires Accepts(d0) && IsWrite(d0)
  {
    if d.state == DO_CMD then SameButRest(d0, d) && ws == [] && tr == []
    else W.WriteInv(JobOf(d0), d, ws, tr)
  }

  /** Acting ticks until a WRITE is back at idle: 267 a sector and 10 more. */
  function WriteWork(d0: Device, d: Device): int
    requires Accepts(d0) && IsWrite(d0)
  {
    if d.state == DO_CMD then 267 * JobOf(d0).r.sectorCount + 10 else W.WriteLeft(d)
  }

  lemma WriteDecodes(d0: Device, s: Sys, i: Input)
    requires Accepts(d0) && IsWrite(d0) && Valid(s.d) && s.d.state == DO_CMD && SameButRest(d0, s.d)
    requires !s.bus.write && !s.bus.read
    ensures var t := Dispatch(s, i);
            t.bus == s.bus && t.d.state == WRITE && WriteProgress(d0, t.d, [], []) && WriteWork(d0, t.d) == WriteWork(d0, s.d) - 1
  {
    DecodeWrite(s, i);
    hide Dispatch, Valid, MaskedRegs;
  }

  lemma WriteRestIsInvisible(d0: Device, d: Device, c: bool, k: int, ws: seq<int>, tr: seq<Event>)
    requires Accepts(d0) && IsWrite(d0)
    ensures var e := d.(cooldown := c, jitterDelay := k);
            WriteProgress(d0, e, ws, tr) == WriteProgress(d0, d, ws, tr) && WriteWork(d0, e) == WriteWork(d0, d)
  {
    W.RestIsInvisible(JobOf(d0), d, c, k, ws, tr);
    hide Valid, W.WriteInv, W.WriteLeft;
  }

  lemma WriteDispatches(d0: Device, s: Sys, i: Input, ws: seq<int>, tr: seq<Event>)
    requires Accepts(d0) && IsWrite(d0) && Valid(s.d) && !s.bus.write && !s.bus.read
    requires WriteProgress(d0, s.d, ws, tr) && s.d.state != IDLE && (Waiting(s.d) ==> Request(s.d, i) == 5)
    ensures var t := Dispatch(s, i);
            && WriteProgress(d0, t.d, ws + W.WriteTaken(s.d, i.readdata), tr + Emitted(t.bus))
            && WriteWork(d0, t.d) == WriteWork(d0, s.d) - 1
  {
    assert ws + [] == ws && tr + [] == tr;
    if s.d.state == DO_CMD {
      WriteDecodes(d0, s, i);
      hide Dispatch, Valid, MaskedRegs, W.WriteInv, W.WriteLeft;
    } else {
      W.DispatchAdvances(JobOf(d0), s, i, ws, tr);
      var t := Dispatch(s, i);
      W.OnlyWriteStates(JobOf(d0), t.d, ws + W.WriteTaken(s.d, i.readdata), tr + Emitted(t.bus));
      hide Dispatch, Valid, W.WriteInv, W.WriteLeft, W.WriteTaken;
    }
  }

  lemma WriteTakes(d0: Device, s: Sys, i: Input, ws: seq<int>, tr: seq<Event>)
    requires Accepts(d0) && IsWrite(d0) && WriteProgress(d0, s.d, ws, tr) && !i.reset && !Held(s.d)
    ensures Taken(s, i) == W.WriteTaken(s.d, i.readdata)
  {
    if s.d.state != DO_CMD { W.OnlyWriteStates(JobOf(d0), s.d, ws, tr); }
    hide W.WriteInv, Valid;
  }

  /** Every attended tick keeps the refinement; it works, or rests, or the core lets it wait. */
  lemma WriteStep(d0: Device, s: Sys, i: Input, ws: seq<int>, tr: seq<Event>)
    requires Accepts(d0) && IsWrite(d0) && Valid(s.d) && WriteProgress(d0, s.d, ws, tr)
    requires s.d.state != IDLE && Attends(s.d, i)
    ensures var t := Step(s, i);
            && WriteProgress(d0, t.d, ws + Taken(s, i), tr + Emitted(t.bus))
            && WriteWork(d0, t.d) == WriteWork(d0, s.d) - (if Acts(s.d, i) then 1 else 0)
            && (Held(s.d) ==> RestLeft(t.d) == RestLeft(s.d) - 1)
  {
    hide Step, Dispatch, Valid, WriteProgress, WriteWork, Accepts, IsWrite, W.WriteTaken, Request;
    var t := Step(s, i);
    assert ws + [] == ws && tr + [] == tr;
    if Held(s.d) {
      StepRests(s, i);
      WriteRestIsInvisible(d0, s.d, t.d.cooldown, t.d.jitterDelay, ws, tr);
    } else if Waiting(s.d) && Request(s.d, i) == 0 {
      StepStalls(s, i);
      WaitingTakesNothing(s, i);
    } else {
      StepActs(s, i);
      var l := LowStrobes(s);
      var u := Dispatch(l, i);
      WriteDispatches(d0, l, i, ws, tr);
      WriteTakes(d0, s, i, ws, tr);
      WriteRestIsInvisible(d0, u.d, true, i.jitter, ws + Taken(s, i), tr + Emitted(u.bus));
    }
  }

  lemma WaitingTakesNothing(s: Sys, i: Input)
    requires Waiting(s.d)
    ensures Taken(s, i) == []
  {
  }

  lemma {:induction false} WriteRun(s: Sys, ins: seq<Input>)
    requires Accepts(s.d) && IsWrite(s.d) && Attended(s, ins)
    ensures WriteProgress(s.d, Run(s, ins).d, Consumed(s, ins), Trace(s, ins))
    ensures ActingTicks(s, ins) + WriteWork(s.d, Run(s, ins).d) == 267 * JobOf(s.d).r.sectorCount + 10
  {
    if ins != [] {
      WriteRun(s, Front(ins));
      var p := Run(s, Front(ins));
      assert Run(s, ins) == Step(p, Last(ins));
      WriteStep(s.d, p, Last(ins), Consumed(s, Front(ins)), Trace(s, Front(ins)));
      hide Step, Valid, WriteProgress, WriteWork, Taken, Accepts, JobOf;
    }
  }

  lemma WriteWorkRemains(d0: Device, d: Device, ws: seq<int>, tr: seq<Event>)
    requires Accepts(d0) && IsWrite(d0) && WriteProgress(d0, d, ws, tr)
    ensures if d.state == IDLE then WriteWork(d0, d) == 0 else WriteWork(d0, d) > 0
  {
    if d.state != DO_CMD { W.WorkRemains(JobOf(d0), d, ws, tr); }
    hide W.WriteInv, W.WriteLeft, Valid;
  }

  /** WRITE SECTORS, whole: from the decoded task file to idle the device takes exactly
      256 words a sector, leaves the byte array `Written` by them, and puts exactly
      `WriteTrace` on the bus; it is idle exactly when it has acted on 267 ticks a sector
      and 10 more. */
  lemma WriteCommand(s: Sys, ins: seq<Input>)
    requires Accepts(s.d) && IsWrite(s.d) && Attended(s, ins)
    ensures var j := JobOf(s.d); var ws := Consumed(s, ins); var t := Run(s, ins);
            && (t.d.state == IDLE <==> ActingTicks(s, ins) == 267 * j.r.sectorCount + 10)
            && (t.d.state == IDLE ==>
                  && |ws| == 256 * j.r.sectorCount
                  && t.d.image == Written(s.d.image, First(j), JobSpan(j), ws)
                  && t.d.drive == s.d.drive
                  && Trace(s, ins) == W.WriteTrace(j))
  {
    WriteRun(s, ins);
    WriteWorkRemains(s.d, Run(s, ins).d, Consumed(s, ins), Trace(s, ins));
    hide Run, Trace, Consumed, Attended, ActingTicks, Valid, JobOf, Written, W.WriteTrace, W.WriteLeft, First, JobSpan;
  }

  // ---------------------------------------------------------------- READ SECTORS

  predicate ReadProgress(d0: Device, d: Device, tr: seq<Event>)
    requires Accepts(d0) && IsRead(d0)
  {
    if d.state == DO_CMD then SameButRest(d0, d) && tr == [] else R.ReadInv(JobOf(d0), d, tr)
  }

  /** Acting ticks until a READ is back at idle: 267 a sector and one more. */
  function ReadWork(d0: Device, d: Device): int
    requires Accepts(d0) && IsRead(d0)
  {
    if d.state == DO_CMD then 267 * JobOf(d0).r.sectorCount + 1 else R.ReadLeft(d)
  }

  lemma ReadDecodes(d0: Device, s: Sys, i: Input)
    requires Accepts(d0) && IsRead(d0) && Valid(s.d) && s.d.state == DO_CMD && SameButRest(d0, s.d)
    requires !s.bus.write && !s.bus.read
    ensures var t := Dispatch(s, i);
            t.bus == s.bus && t.d.state == READ && ReadProgress(d0, t.d, []) && ReadWork(d0, t.d) == ReadWork(d0, s.d) - 1
  {
    DecodeRead(s, i);
    hide Dispatch, Valid, MaskedRegs;
  }

  lemma ReadRestIsInvisible(d0: Device, d: Device, c: bool, k: int, tr: seq<Event>)
    requires Accepts(d0) && IsRead(d0)
    ensures var e := d.(cooldown := c, jitterDelay := k);
            ReadProgress(d0, e, tr) == ReadProgress(d0, d, tr) && ReadWork(d0, e) == ReadWork(d0, d)
  {
    R.RestIsInvisible(JobOf(d0), d, c, k, tr);
    hide Valid, R.ReadInv, R.ReadLeft;
  }

  lemma ReadDispatches(d0: Device, s: Sys, i: Input, tr: seq<Event>)
    requires Accepts(d0) && IsRead(d0) && Valid(s.d) && !s.bus.write && !s.bus.read
    requires ReadProgress(d0, s.d, tr) && s.d.state != IDLE && (Waiting(s.d) ==> Request(s.d, i) == 5)
    ensures var t := Dispatch(s, i);
            ReadProgress(d0, t.d, tr + Emitted(t.bus)) && ReadWork(d0, t.d) == ReadWork(d0, s.d) - 1
  {
    assert tr + [] == tr;
    if s.d.state == DO_CMD {
      ReadDecodes(d0, s, i);
      hide Dispatch, Valid, MaskedRegs, R.ReadInv, R.ReadLeft;
    } else {
      R.DispatchAdvances(JobOf(d0), s, i, tr);
      R.OnlyReadStates(JobOf(d0), Dispatch(s, i).d, tr + Emitted(Dispatch(s, i).bus));
      hide Dispatch, Valid, R.ReadInv, R.ReadLeft;
    }
  }

  lemma ReadTakesNothing(d0: Device, s: Sys, i: Input, tr: seq<Event>)
    requires Accepts(d0) && IsRead(d0) && ReadProgress(d0, s.d, tr)
    ensures Taken(s, i) == []
  {
    if s.d.state != DO_CMD { R.OnlyReadStates(JobOf(d0), s.d, tr); }
    hide R.ReadInv, Valid;
  }

  lemma ReadStep(d0: Device, s: Sys, i: Input, tr: seq<Event>)
    requires Accepts(d0) && IsRead(d0) && Valid(s.d) && ReadProgress(d0, s.d, tr)
    requires s.d.state != IDLE && Attends(s.d, i)
    ensures var t := Step(s, i);
            && ReadProgress(d0, t.d, tr + Emitted(t.bus))
            && ReadWork(d0, t.d) == ReadWork(d0, s.d) - (if Acts(s.d, i) then 1 else 0)
            && (Held(s.d) ==> RestLeft(t.d) == RestLeft(s.d) - 1)
  {
    hide Step, Dispatch, Valid, ReadProgress, ReadWork, Accepts, IsRead, Request;
    var t := Step(s, i);
    assert tr + [] == tr;
    if Held(s.d) {
      StepRests(s, i);
      ReadRestIsInvisible(d0, s.d, t.d.cooldown, t.d.jitterDelay, tr);
    } else if Waiting(s.d) && Request(s.d, i) == 0 {
      StepStalls(s, i);
    } else {
      StepActs(s, i);
      var l := LowStrobes(s);
      var u := Dispatch(l, i);
      ReadDispatches(d0, l, i, tr);
      ReadRestIsInvisible(d0, u.d, true, i.jitter, tr + Emitted(u.bus));
    }
  }

  lemma {:induction false} ReadRun(s: Sys, ins: seq<Input>)
    requires Accepts(s.d) && IsRead(s.d) && Attended(s, ins)
    ensures ReadProgress(s.d, Run(s, ins).d, Trace(s, ins)) && Consumed(s, ins) == []
    ensures ActingTicks(s, ins) + ReadWork(s.d, Run(s, ins).d) == 267 * JobOf(s.d).r.sectorCount + 1
  {
    if ins != [] {
      ReadRun(s, Front(ins));
      var p := Run(s, Front(ins));
      assert Run(s, ins) == Step(p, Last(ins));
      ReadStep(s.d, p, Last(ins), Trace(s, Front(ins)));
      ReadTakesNothing(s.d, p, Last(ins), Trace(s, Front(ins)));
      hide Step, Valid, ReadProgress, ReadWork, Taken, Accepts, JobOf;
    }
  }

  lemma ReadWorkRemains(d0: Device, d: Device, tr: seq<Event>)
    requires Accepts(d0) && IsRead(d0) && ReadProgress(d0, d, tr)
    ensures if d.state == IDLE then ReadWork(d0, d) == 0 else ReadWork(d0, d) > 0
  {
    if d.state != DO_CMD { R.WorkRemains(JobOf(d0), d, tr); }
    hide R.ReadInv, R.ReadLeft, Valid;
  }

  /** READ SECTORS, whole: the image is untouched, nothing is taken, and the bus carries
      exactly the sectors' words, each sector followed by its register block; the device
      is idle exactly when it has acted on 267 ticks a sector and one more. */
  lemma ReadCommand(s: Sys, ins: seq<Input>)
    requires Accepts(s.d) && IsRead(s.d) && Attended(s, ins)
    ensures var j := JobOf(s.d); var t := Run(s, ins);
            && Consumed(s, ins) == []
            && (t.d.state == IDLE <==> ActingTicks(s, ins) == 267 * j.r.sectorCount + 1)
            && (t.d.state == IDLE ==> t.d.image == s.d.image && Trace(s, ins) == R.Served(j, j.r.sectorCount))
  {
    ReadRun(s, ins);
    ReadWorkRemains(s.d, Run(s, ins).d, Trace(s, ins));
    hide Run, Trace, Consumed, Attended, ActingTicks, Valid, JobOf, R.Served, R.ReadLeft;
  }

  // ---------------------------------------------------------------- what the guest sees

  /** Of the register blocks a READ publishes, the one behind the last sector and no other carries END. */
  lemma EndMarksLast(j: Job, i: nat)
    requires GoodJob(j) && 1 <= i <= j.r.sectorCount
    ensures R.Served(j, i) == R.Served(j, i - 1) + R.Data(j, i - 1) + Block(j.base, R.RegsAt(j, i))
    ensures RegBytes(R.RegsAt(j, i), false)[11] / END % 2 == 1 <==> i == j.r.sectorCount
  {
    hide NextLba, R.Data, Block;
  }

  /** The n words of a transfer from its word `from` on. */
  function SectorWords(j: Job, from: nat, n: nat): (ws: seq<int>)
    ensures |ws| == n
  {
    seq(n, m requires 0 <= m => WordAt(j.image, First(j), JobSpan(j), from + m))
  }

  lemma {:induction false} DataIsData(j: Job, i: nat, k: int)
    requires 0 <= k <= 256
    ensures DataWords(j.base, R.Data(j, i)[..k]) == SectorWords(j, 256 * i, k)
  {
    hide First, JobSpan, WordAt;
    if k > 0 {
      var b := R.Data(j, i)[..k];
      assert Front(b) == R.Data(j, i)[..k - 1] && Last(b) == R.DataWord(j, 256 * i + (k - 1));
      DataIsData(j, i, k - 1);
      assert SectorWords(j, 256 * i, k) == SectorWords(j, 256 * i, k - 1) + [Last(b).data];
    }
  }

  /** The data port of a READ carries the sectors' words in order, and nothing else. */
  lemma {:induction false} ServedWords(j: Job, i: nat)
    requires GoodJob(j)
    ensures DataWords(j.base, R.Served(j, i)) == SectorWords(j, 0, 256 * i)
  {
    if i > 0 {
      ServedWords(j, i - 1);
      var a, d, b := R.Served(j, i - 1), R.Data(j, i - 1), Block(j.base, R.RegsAt(j, i));
      assert R.Served(j, i) == a + d + b;
      assert SectorWords(j, 0, 256 * i) == SectorWords(j, 0, 256 * (i - 1)) + SectorWords(j, 256 * (i - 1), 256) by { hide WordAt; }
      assert b[..6] == b && d[..256] == d;
      hide *;
      DataIsData(j, i - 1, 256);
      BlockHasNoData(j.base, RegBytes(R.RegsAt(j, i), false), 6);
      DataWordsAppend(j.base, a, d);
      DataWordsAppend(j.base, a + d, b);
    }
  }
}
