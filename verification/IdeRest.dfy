/** Only the end of a tick starts a rest: no state of the machine touches the cooldown or the jitter delay. */
module IdeRest {
  import opened IdeModel
  import opened IdeValid
  import opened IdeRuns

  predicate SameRest(d: Device, e: Device) {
    e.jitterDelay == d.jitterDelay && e.cooldown == d.cooldown
  }

  lemma PacketRests(d: Device)
    requires Valid(d)
    ensures SameRest(d, HandlePacket(d)) && SameRest(d, PrepareCdromRead(d))
  {
    hide PadEven, Truncate, SenseData, ChunkData, ChunkInImage, AdvanceChunk, TocFormat, Reply, Valid;
  }

  lemma CommandRests(d: Device)
    requires d.regs.head >= 0
    ensures SameRest(d, HandleCmd(d))
  {
    hide Identify, Valid;
  }

  lemma TransferRests(s: Sys, i: Input)
    requires Valid(s.d)
    ensures s.d.state == WRITE_RECV ==> SameRest(s.d, OnWriteRecv(s, i).d)
    ensures s.d.state == PACKET_RECV ==> SameRest(s.d, OnPacketRecv(s, i).d)
  {
    hide NextLba, StoreWord;
  }

  lemma FetchRests(s: Sys, i: Input)
    requires Valid(s.d)
    ensures SameRest(s.d, OnReadRegs(s.d)) && SameRest(s.d, OnGetCmd(s, i).d)
  {
    hide NextLba, LatchWord, LatchedRegs, GetLba, SectorPointer, SectorInImage;
  }

  lemma SendRests(s: Sys, i: Input)
    requires Valid(s.d)
    ensures SameRest(s.d, OnSendId(s).d) && SameRest(s.d, OnSetRegsSend(s).d)
    ensures SameRest(s.d, OnReadSend(s).d) && SameRest(s.d, OnIdle(s, i).d)
    ensures s.d.state == PACKET_SEND ==> SameRest(s.d, OnPacketSend(s).d)
  {
    hide BufWord, LoadWord, Word, Request;
  }

  lemma FieldRests(d: Device, i: Input, e: Device)
    ensures SameRest(d, OnSetRegs(d)) && SameRest(d, OnWriteRegs(d))
    ensures SameRest(d, OnGetResetDrive(d, i))
    ensures SameRest(d, e) ==> SameRest(d, Await(d, i, e))
  {
    hide SettledRegs, RegBytes, SetFlag, GetLba, SectorPointer, Request;
  }

  lemma DispatchRests(s: Sys, i: Input)
    requires Valid(s.d)
    ensures SameRest(s.d, Dispatch(s, i).d)
  {
    hide Valid, HandleCmd, HandlePacket, PrepareCdromRead, OnWriteRecv, OnReadRegs, OnWriteRegs, OnPacketRecv,
         OnIdle, OnGetResetDrive, OnGetCmd, OnSendId, OnSetRegs, OnSetRegsSend, OnReadSend, OnPacketSend;
    match s.d.state
    case DO_CMD =>
      ValidHead(s.d);
      CommandRests(s.d);
    case PACKET_HANDLE | PACKET_READ_WAIT_REQ => PacketRests(s.d);
    case READ_REGS | GET_CMD => FetchRests(s, i);
    case WRITE_RECV | PACKET_RECV => TransferRests(s, i);
    case IDLE | SEND_ID | READ_SEND | PACKET_SEND | SET_REGS_SEND => SendRests(s, i);
    case SET_REGS | WRITE_REGS | GET_RESET_DRIVE => FieldRests(s.d, i, s.d);
    case _ =>
  }

  /** A tick that is not reset either counts the rest down by one, or starts one of at most the jitter drawn and a tick. */
  lemma StepRestLeft(s: Sys, i: Input)
    requires Valid(s.d) && !i.reset && 0 <= s.d.jitterDelay && 0 <= i.jitter
    ensures var t := Step(s, i).d;
            && 0 <= t.jitterDelay
            && (if Held(s.d) then RestLeft(t) == RestLeft(s.d) - 1 else RestLeft(t) <= 1 + i.jitter)
  {
    if !Held(s.d) {
      DispatchRests(LowStrobes(s), i);
      StepActs(s, i);
    }
    hide Dispatch, Valid;
  }
}
