# Verified models of the z486 core's state machines

This project models the clocked blocks and the simulated devices of the z486 PC core,
and proves what they promise over whole runs. It is written for Dafny 4.11;
`dafny verify dfyconfig.toml` verifies it.

What is modelled, by repository file:

- `verilator/ide_hps.cpp`, `ide_hps.h`: the simulated IDE/ATAPI device, a 22-state tick machine that moves a
  disk or CD image over a word-wide management bus. `IdeModel` has its transition function, one function a state;
  `IdeDevice` has the object that updates its fields and image in place, proved equal to that function tick by tick.
  The theorems are about runs: writes and reads refine a plain byte array (`SectorStore`, `IdeWrite`, `IdeRead`,
  `IdeDisk`, `IdeGuest`), CD reads stream exactly the named sectors (`IdePacket`, `IdeAtapi`, `IdeCdRead`), a
  checkpoint taken anywhere is invisible (`IdeStream`, `IdeCheckpoint`), commands end in bounded time (`IdeRest`,
  `IdeTime`), IDENTIFY tells the geometry (`IdeIdentify`), the replies of a CD drive agree with each other
  (`IdeReplies`), addresses round trip (`IdeAddress`), and no field leaves
  its type (`IdeWidths`).
- `sys/math.sv`: the sequential divider, multiplier and their composition (`SysUdiv`, `SysUmul`, `SysUmuldiv`).
- `sys/ascal.vhd`: pixel packing and unpacking (`AscalPacking`, `AscalLines`, `AscalRoundTrip`, `AscalInput`),
  triple buffering (`AscalBuffers`), the pixel-dropping accumulator (`AscalDownscale`).
- `sys/spdif.v`: the biphase-mark transmitter of section 4 of IEC 60958-1 (`SpdifModel`, `SpdifLine`, `SpdifDecode`,
  `SpdifSamples`).
- `src/common/cdc_vector_handshake_continuous.sv`: the two-clock handshake (`CdcHandshake`, `CdcProgress`).
- `src/iobus_adapter.sv`, `src/pic_inta_bridge.sv`: the port-cycle sequencer (`IoBus`, `IoBusRuns`, `IoBusMemory`) and
  the interrupt-acknowledge bridge (`PicInta`).
- `sys/sigma_delta_dac.v`, `seed_sweep.py`, `verilator/main.cpp`: the converter (`SigmaDelta`), the parallel build
  sweep (`SeedSweep`) and the mouse packet splitter (`MousePackets`).

Each clocked block has a pure step function that reads the registers of before the edge, a class with the block's
registers whose clock method is proved to move them by that function, and lemmas about runs of the function. Numbers
are unbounded and every truncation of the source is written out. Inputs stand for what cannot be seen: the core's
requests and data, the jitter generator's next value, pixels, samples, completion order.

Where code and comments disagree the code is followed. `sys/spdif.v:298` says an even count is made odd; the slot
makes the total even, which is what the proofs need and the standard asks for. The fourth input format code of the
scaler is packed as 16 bits a pixel but read back as 32 (`sys/ascal.vhd:571`, `sys/ascal.vhd:671`).

Statements that are false of the code come with an input that shows it and the exact condition under which they hold:

| statement | input | condition |
|---|---|---|
| packing and unpacking agree | `AscalRoundTrip.NarrowLosesPixels`, `AscalRoundTrip.FourthCodeMixesPixels` | `AscalRoundTrip.RoundTripsExactly` |
| the buffer written is never shown | `AscalBuffers.FrozenTears` | `AscalBuffers.SeparatedExactly`, `AscalBuffers.TearsExactly` |
| the first subframe has a preamble | `SpdifDecode.LosesFirstPreamble` | `SpdifDecode.FirstReadsBack` |
| no chunk is cut by the byte-count limit | the example device of `IdePacket.LimitKeepsChunks` | `IdePacket.LimitKeepsChunks` |
| a loaded sector pointer is null or in the image | `IdeCheckpoint.WrappedPointer` | `IdeCheckpoint.LoadedPointer` |
| the divider stops | every numerator of 63 bits or more, by `SysUdiv.NeverStops` | `SysUdiv.Divides` |

## Model

| member | source | states |
|---|---|---|
| IdeValid.StepKeepsValid | verilator/ide_hps.cpp:857-1181 | Every tick of every state, on any input, keeps what the device's indices rest on: geometry in range, the sector pointer null or 512 bytes inside the image, counters within their buffers, the packet within its twelve bytes. |
| IdeWidths.StepKeepsWidths | verilator/ide_hps.h:20-116 | Every tick keeps every field within the integer type the header gives it, although the model computes on unbounded numbers and truncates only where the source does. |
| IdeAddress.AddressRoundTrip | verilator/ide_hps.cpp:367-397 | For every geometry a command can set and every 32-bit sector number, writing the address registers and reading them gives the number back in CHS mode, untruncated and with head and sector in range, and modulo 2^28 in LBA mode. |
| IdeAddress.NextLbaSteps | verilator/ide_hps.cpp:1026 | Stepping the registers steps the sector number by one within its span: 2^28 in LBA mode, 2^32 in CHS mode. |
| SectorStore.WrittenBytes | verilator/ide_hps.cpp:1070-1098 | What a stream of words written from a sector on means for each byte: exactly the bytes of the named in-range sectors take the word that lands on them, every other byte keeps its value. |
| SectorStore.SectorIndex | verilator/ide_hps.cpp:1104 | Which sector of a transfer lands on which sector of the disk, across the wrap of the address registers. |
| IdeDisk.WriteCommand | verilator/ide_hps.cpp:1058-1113 | WRITE, whole run, any jitter and any moments at which the core answers: it takes exactly 256 words a sector (a count of 0 is 256 sectors), leaves the image the byte array written by them, and puts exactly the announcing register blocks on the bus; it is idle exactly when it has acted on 267 ticks a sector and 10 more. |
| IdeDisk.ReadCommand | verilator/ide_hps.cpp:1006-1056 | READ, whole run: the image is untouched, nothing is taken from the bus, and the bus carries exactly the sectors' words, each sector followed by its register block; idle exactly when it has acted on 267 ticks a sector and one more. |
| IdeDisk.WriteStep | verilator/ide_hps.cpp:857-879 | Every attended tick of a WRITE keeps the refinement and decreases a lexicographic measure: it does one unit of work, or counts one unit of rest down, or waits because the core asked for nothing. |
| IdeDisk.ReadStep | verilator/ide_hps.cpp:857-879 | The same for a READ. |
| IdeDisk.ServedWords | verilator/ide_hps.cpp:1036-1041 | The data port of a READ carries the words of the named sectors in order and nothing else; a sector outside the image reads as zeros. |
| IdeDisk.EndMarksLast | verilator/ide_hps.cpp:1029-1032 | Of the register blocks a READ publishes, only the one of the last sector has END set. |
| IdeGuest.CommandFetched | verilator/ide_hps.cpp:886-958 | A command fetched from idle is the one its six task-file words spell, in registers, command and features, and fetching it changes nothing else of the device. |
| IdeGuest.WriteSetsExactly | verilator/ide_hps.cpp:1097-1113 | Byte for byte: after a WRITE a byte holds the word sent for it if its sector was named and lies in the image, and its old value otherwise. |
| IdeGuest.WriteThenRead | verilator/ide_hps.cpp:1006-1113 | A READ of the sectors a WRITE named, on any later device with that image, returns the words written, in order, and zeros for the sectors the image does not have. |
| IdePacket.PacketDelivered | verilator/ide_hps.cpp:1115-1144 | A packet is in hand exactly as its six words were sent, low byte first; a byte-count limit of 0 stands for 16384; nothing else of the drive has moved. |
| IdeAtapi.ChunkIsSent | verilator/ide_hps.cpp:399-465 | In a read whose range is in the image, with a limit of 0 or at least 2048, the next chunk goes out uncut and unpadded and the position moves on by exactly its sectors. |
| IdePacket.ChunkBounds | verilator/ide_hps.cpp:441-465 | With such a limit every chunk is a whole number of 2048-byte sectors, at least one, at most the limit and at most eight, straight from the image; what remains shrinks by as many, so it strictly decreases. |
| IdePacket.ChunkUnderLimit | verilator/ide_hps.cpp:399-403 | What any limit does to a chunk: nothing when it is 0 or at least 2048, and otherwise it cuts the chunk and pads it to an even length. |
| IdePacket.LimitKeepsChunks | verilator/ide_hps.cpp:399-403 | Limits of 0 and of 2048 and more, and no others, hand every chunk over whole. |
| IdeCdRead.CdReadCommand | verilator/ide_hps.cpp:441-465 | READ(10) and READ(12) of any range, whole run: idle exactly when the chunks and the ending are served, and then the data port has carried the sectors handed over, whole and in order and nothing else. These are all of the read, without an error, if its range lies in the image; otherwise the whole chunks before the first that leaves it, then the range error with the rest still counted as remaining. The image is intact. |
| IdeCdRead.StreamIsGood | verilator/ide_hps.cpp:447-458 | How many sectors a read hands over, from its range, its limit and the size of the image: all of them, or the whole chunks before the first that is not in the image. |
| IdeCdRead.CdStep | verilator/ide_hps.cpp:1150-1173 | Every attended tick of a CD read keeps the stream and works, rests or waits, with a decreasing measure. |
| IdeTime.WriteEnds | verilator/ide_hps.cpp:857-1181 | Against a core that answers at once and with any jitter up to a bound J, a WRITE of n sectors is over within its first rest and (J + 2) ticks for each of its 267*n + 10 acts. |
| IdeTime.ReadEnds | verilator/ide_hps.cpp:857-1181 | The same for a READ and its 267*n + 1 acts. |
| IdeTime.CdEnds | verilator/ide_hps.cpp:857-1181 | The same for a CD read of any range and the acts of its chunks and its ending. |
| IdeTime.WriteCanEnd | verilator/ide_hps.cpp:1058-1113 | From every accepted WRITE there is a run that reaches idle. |
| IdeTime.ReadCanEnd | verilator/ide_hps.cpp:1006-1056 | From every accepted READ there is a run that reaches idle. |
| IdeTime.CdCanEnd | verilator/ide_hps.cpp:1150-1173 | From every CD read there is a run that reaches idle. |
| IdeRest.StepRestLeft | verilator/ide_hps.cpp:870-879 | A tick either counts the rest down by one or starts a rest of at most the jitter drawn and one tick; no state touches the rest otherwise. |
| IdeIdentify.GeometryReported | verilator/ide_hps.cpp:260-336 | After a change of geometry the IDENTIFY table reports the heads and sectors the address registers count by, a cylinder count that never reaches past the disk and is short of it by less than a cylinder unless clamped, and the capacity in each of its three places. |
| IdeIdentify.IdentifyCommand | verilator/ide_hps.cpp:964-1004 | IDENTIFY of a disk or a CD, whole run: the data port carries the drive's 256 words and nothing else, one register block follows, and drive, image and packet are untouched. |
| IdePacket.ReadStopsExactly | verilator/ide_hps.cpp:453-458 | A CD read goes on exactly while its next chunk lies in the image; otherwise it ends with sense 5/21h, ERR set and what remains kept. |
| IdePacket.SenseReported | verilator/ide_hps.cpp:507-516 | The sense a packet failed with is what the next REQUEST SENSE hands over, and it is cleared by that. |
| IdeStream.AllBack | verilator/ide_hps.cpp:16-98 | Numbers of any widths written one after the other are read back as they were, and the rest of the stream is left. |
| IdeStream.SizedBack | verilator/ide_hps.cpp:26-50 | Length-prefixed bytes are read back over any previous contents. |
| IdeCheckpoint.SaveThenLoad | verilator/ide_hps.cpp:114-215 | Loading what a device saved restores every field but the jitter delay and leaves the rest of the stream; the sector pointer comes back re-based, or null when its sector is not in the image. |
| IdeCheckpoint.RestoresExactly | verilator/ide_hps.cpp:114-215 | After any run, jitter on or off, the object that loads has the saved state exactly when it has the same jitter delay pending as the saved one. |
| IdeCheckpoint.ResumeInvisible | verilator/ide_hps.cpp:114-215 | Then a run that is saved at any tick and carried on by that object ends in the same state and leaves the same bus trace as the uninterrupted run. |
| IdeCheckpoint.QuietStaysCalm | verilator/ide_hps.cpp:876-879 | With jitter off no delay is ever pending, so any freshly made object resumes the run. |
| IdeCheckpoint.LoadedPointer | verilator/ide_hps.cpp:209-214 | Whatever a stream holds, the pointer that comes back is the one its offset field stands for, and it is null or names a whole sector of the restored image exactly when the bound check's 64-bit sum does not wrap on that field to something within the image's size. |
| IdeCheckpoint.WrappedPointer | verilator/ide_hps.cpp:209-211 | A stream on which it does wrap: a checkpoint of an empty disk with the offset a sector short of 2^64. |
| IdeCheckpoint.FirstFormat | verilator/ide_hps.cpp:192-205 | A version 1 checkpoint is accepted and leaves the ATAPI fields as they were. |
| IdeCheckpoint.RunKeepsWidths | verilator/ide_hps.cpp:857-1181 | Along every run all fields stay in their types. |
| IdeDevice.HpsIde.Tick | verilator/ide_hps.cpp:857-1181 | One call of the imperative object, fields and image updated in place, takes device and bus to the state the step function gives, and keeps its invariant. |
| IdeDevice.HpsIde.PutLba | verilator/ide_hps.cpp:382-397 | The shifting and dividing code sets the registers the address round trip is proved for. |
| IdeDevice.HpsIde.SetGeometry | verilator/ide_hps.cpp:260-267 | Geometry with its defaults and cylinder clamp, and the IDENTIFY table that follows from it. |
| IdeDevice.HpsIde.PrepareCdromRead | verilator/ide_hps.cpp:441-465 | The next chunk, the end of the read or the out-of-range error, on the object's fields. |
| IdeDevice.HpsIde.HandlePacket | verilator/ide_hps.cpp:467-665 | Every packet opcode: no-data, sense, reads, the six replies with their bytes, invalid format and unsupported. |
| IdeReplies.ReplyFits | verilator/ide_hps.cpp:518-659 | No reply is longer than the packet's allocation, and a shorter allocation gets the front of it. |
| IdeReplies.LengthReported | verilator/ide_hps.cpp:555-645 | The length a TOC, sub-channel or mode reply carries is the length of what follows it, after the cut. |
| IdeReplies.CapacityAgreesWithToc | verilator/ide_hps.cpp:535-603 | READ CAPACITY and READ TOC tell of the same disc: the lead-out begins behind the last sector, and as minutes, seconds and frames 150 frames later exactly as long as the minutes fit their byte. |
| IdeValid.OpenedDiskIsValid | verilator/ide_hps.cpp:217-236 | A device that has opened any disk image starts with the invariant every tick keeps. |
| IdeValid.OpenedCdIsValid | verilator/ide_hps.cpp:238-258 | And one that has opened any CD image, which must be a whole number of sectors and not empty. |
| IdeWidths.OpenedDiskIsWide | verilator/ide_hps.cpp:217-236 | It also starts with every field in its type. |
| IdeDevice.HpsIde.HandleCmd | verilator/ide_hps.cpp:727-839 | Rejection, masking of the task file, and every disk and CD command. |
| IdeDevice.HpsIde.WriteRecv | verilator/ide_hps.cpp:1097-1113 | The word asked for on the last tick goes to its place in the image, in place, and the sector ends after 256. |
| SysUdiv.Divides | sys/math.sv:22-41 | For numerators of 2 to 62 bits and divisors of any width, from any register contents, with the divisor held: busy for exactly NB_NUM + 2 clocks after the start, and then result = num / div and the remainder port shows the uncorrected remainder. |
| SysUdiv.StepSigned | sys/math.sv:35-38 | One clock doubles the signed partial remainder less or plus the aligned divisor, and no sign is lost in NB_NUM + NB_DIV + 2 bits. |
| SysUdiv.RemainderPort | sys/math.sv:34 | The port shows num mod div when the quotient is odd and that minus div, modulo 2^NB_DIV, when it is even. |
| SysUdiv.Holds | sys/math.sv:27-40 | A finished division stays on the outputs until the next start. |
| SysUdiv.NeverStops | sys/math.sv:32-33 | From 63 bits up the six-bit counter never meets its limit and the unit stays busy for ever: the bound of 62 is exact. |
| SysUdiv.SysUdiv.Clock | sys/math.sv:22-41 | The clocked registers move as the step function does. |
| SysUmul.Multiplies | sys/math.sv:64-80 | The multiplier is busy for the bit length of mul2 plus one clocks, at most NB_MUL2 + 1, and then shows mul1 * mul2. |
| SysUmul.MultiplyingStep | sys/math.sv:74-78 | While map is not 0, result + add * map is the product and neither addition nor shift wraps. |
| SysUmul.SysUmul.Clock | sys/math.sv:64-80 | The clocked registers move as the step function does. |
| SysUmuldiv.Restarts | sys/math.sv:103-107 | The divider is restarted on every clock of the multiplication, stays busy, and latches the final product on the last restart. |
| SysUmuldiv.MultipliesThenDivides | sys/math.sv:103-107 | The composed unit is busy until it shows (mul1 * mul2) / div, after a number of clocks that is stated exactly. |
| SysUmuldiv.SysUmuldiv.Clock | sys/math.sv:98-107 | Both parts clock together on the registers of before the edge. |
| AscalPacking.PackCuts | sys/ascal.vhd:578-626 | For every format and width on which the functions agree, a word is pushed exactly when the pixel's bytes reach its end, and consists of the bytes pending and the first bytes of the pixel. |
| AscalPacking.UnpackKeeps | sys/ascal.vhd:628-698 | Unpacking reads a word exactly when the left-over bytes do not make a pixel, and keeps the bytes in order in front. |
| AscalPacking.SwapTwice | sys/ascal.vhd:734-745 | Byte swapping on the way to memory and back cancels. |
| AscalLines.LinePacks | sys/ascal.vhd:562-626 | The words a line of any length pushes are its byte stream, up to the bytes of the word still being filled. |
| AscalLines.LineReads | sys/ascal.vhd:628-719 | The front of the output register is the byte stream, from the pixel shown to the end of the words read. |
| AscalRoundTrip.RoundTrip | sys/ascal.vhd:562-745 | Every pixel of a line of any length comes back as its format can keep it (unchanged for 24 and 32 bits, 5-6-5 quantised for 16), whatever the registers held and whatever fills the last word. |
| AscalRoundTrip.RoundTripsExactly | sys/ascal.vhd:602-623 | Packing and unpacking agree for 16 and 24 bits a pixel and for 32 in 128-bit words, and for no other combination. |
| AscalRoundTrip.NarrowLosesPixels | sys/ascal.vhd:602-621 | 32 bits a pixel in 64-bit words: a line whose first pixel comes back wrong, because a word is pushed every other pixel and filled every eighth. |
| AscalRoundTrip.FourthCodeMixesPixels | sys/ascal.vhd:671-694 | The fourth format code: a line whose first pixel comes back mixed with the second, because it is packed as 16 bits and read as 32. |
| AscalRoundTrip.SamePacking | sys/ascal.vhd:562-574 | Sending a restored line round again packs to the same words: quantisation is idempotent. |
| AscalRoundTrip.FlushEnds | sys/ascal.vhd:1457-1469 | The flush behind a line completes a word by the sixteenth pixel at the latest. |
| AscalInput.LineArrives | sys/ascal.vhd:1457-1475 | The clocked input side, with any pauses between pixels and any clocks behind the line, as long as there are those its flush takes, pushes exactly the words of the line's pixels followed by those that flush it. |
| AscalInput.FlushIsOver | sys/ascal.vhd:1461-1471 | The flush behind a kept line is going on exactly until a place that the line's length decides, at most sixteen clocks behind it, whatever is at the port. |
| AscalInput.LineReturns | sys/ascal.vhd:1457-1475 | From the clocked pixel port through memory to the pixel shown. |
| AscalInput.InputPacker.Tick | sys/ascal.vhd:1457-1492 | The clocked registers move as the step function does; at the end of a line the later assignment to the flush flag wins. |
| AscalBuffers.SeparatedExactly | sys/ascal.vhd:429-435 | One clock keeps the written and the shown buffer apart in every case but exactly one: frozen, with an input frame end and an output sync on the same clock. |
| AscalBuffers.FieldStep | sys/ascal.vhd:1915-1964 | One clock of an unfrozen field: buffers stay apart, the frame shown never goes back, a change shows the newest complete frame, and the waiting flag stays true to the frames in memory. |
| AscalBuffers.FrameEndSeparates | sys/ascal.vhd:1920-1924 | The first frame end separates the buffers from every start state but the one with both on buffer 1, so in particular from the start state with both on buffer 0. |
| AscalBuffers.FrameEndAgrees | sys/ascal.vhd:1920-1924 | After a frame end from separated buffers the waiting flag tells the truth, whatever it said before. |
| AscalBuffers.TearsExactly | sys/ascal.vhd:1911-1979 | Over every run of progressive input with triple buffering on, frozen or not, the buffer written is shown at no clock exactly when no clock has an input frame end and an output sync under freeze. |
| AscalBuffers.CollisionInputs | sys/ascal.vhd:1911-1934 | What makes such a clock, in terms of the inputs of the two clocks before it. |
| AscalBuffers.FrozenTears | sys/ascal.vhd:1955-1960 | A frozen start and one clock after which the buffer written is the one shown. |
| AscalBuffers.NeverTears | sys/ascal.vhd:1911-1979 | Without freeze no run shows the buffer it writes. |
| AscalBuffers.NeverGoesBack | sys/ascal.vhd:1911-1979 | Along the same runs frame numbers on the output never decrease and every change shows the newest complete frame. |
| AscalBuffers.BufferSwitch.Clock | sys/ascal.vhd:1911-1979 | The clocked registers move as the step function does; later assignments to the same signal win. |
| AscalDownscale.KeepsSpread | sys/ascal.vhd:1358-1370 | After n enabled pixels, with any pauses, floor((hsize - ohsize + 2*ohsize*n) / (2*hsize)) have been kept. |
| AscalDownscale.WholeLine | sys/ascal.vhd:1358-1370 | A line of hsize pixels keeps exactly ohsize of them and returns the accumulator to its initial value. |
| AscalDownscale.Tracks | sys/ascal.vhd:1358-1370 | The accumulator stays below 2*hsize and never wraps modulo 8192. |
| AscalDownscale.StartsLine | sys/ascal.vhd:1487 | The line start sets the accumulator to where every line begins. |
| AscalDownscale.HorizontalDownscaler.Clock | sys/ascal.vhd:1358-1370 | The clocked registers move as the step function does. |
| SpdifDecode.LineCarries | sys/spdif.v:270-316 | For every sample stream and every pattern of bit enables, back to back included, the line carries the loaded subframes cell by cell; only the very first cell after reset can differ. |
| SpdifDecode.ReadsBack | sys/spdif.v:162-316 | Every complete subframe behind the first opens with an edge from level 0, flips at the start of every slot, has even parity over slots 4 to 31, and decodes to the preamble, sample and channel status bit that were loaded. |
| SpdifDecode.FirstReadsBack | sys/spdif.v:229-251 | The first subframe decodes too exactly when the first clock after reset is not an enabled one; otherwise only its preamble is lost. |
| SpdifDecode.LosesFirstPreamble | sys/spdif.v:229-251 | A stream that shows it: enabled on every clock from reset, the first subframe goes out without a preamble. |
| SpdifLine.EndsLow | sys/spdif.v:297-309 | Every subframe ends on level 0: 28 slot flips and an even number of ones, by the parity slot. |
| SpdifLine.CellStep | sys/spdif.v:202-316 | One enabled clock of a subframe: counter, half-slot toggle, parity count and level are those of the next cell. |
| SpdifSamples.LoadsPair | sys/spdif.v:75-126 | Both subframes of a frame carry the halves of one sample word, preamble Z comes every 384 subframes, and the status bits are those of frames 2, 15 and 25 of the block. |
| SpdifSamples.Requests | sys/spdif.v:94-126 | A sample is requested exactly on the clock after one has been taken. |
| SpdifSamples.NoFalsePreamble | sys/spdif.v:155-157 | Behind its preamble a subframe never holds a level for three cells, as every preamble does. |
| SpdifModel.Spdif.Clock | sys/spdif.v:75-316 | The clocked registers move as the step function does. |
| CdcHandshake.Delivers | src/common/cdc_vector_handshake_continuous.sv:23-45 | For any interleaving of the two clocks, simultaneous edges included, and chains of any depth: every load takes the sample held last, loads follow the held samples in order from the first, each at least once, and no sample is replaced before it was loaded. |
| CdcProgress.EventMoves | src/common/cdc_vector_handshake_continuous.sv:23-45 | Every event moves the ring's boundary by one place, on an edge of the clock it waits for, or leaves it; a capture is exactly the move that ends the way round. |
| CdcProgress.KeepsCapturing | src/common/cdc_vector_handshake_continuous.sv:23-45 | While both clocks run, at least one sample is taken for every 2*(1 + depths) rounds in which each clock has had an edge. |
| CdcProgress.EverySampleLoaded | src/common/cdc_vector_handshake_continuous.sv:23-45 | Every sample held is loaded, by a number of rounds that is stated. |
| CdcHandshake.StepKeepsBoundary | src/common/cdc_vector_handshake_continuous.sv:23-41 | The flag and both chains, as one ring, have at most one boundary between ones and zeros. |
| CdcHandshake.CapturesLow | src/common/cdc_vector_handshake_continuous.sv:24-29 | The held vector changes only when the whole ring is 0, and never on the event that loads it. |
| CdcHandshake.Handshake.Edge | src/common/cdc_vector_handshake_continuous.sv:23-45 | An edge of either clock or of both moves the registers as the step function does. |
| IoBusRuns.ServesOnce | src/iobus_adapter.sv:93-268 | Over every run the accesses issued, followed by those still due, are exactly those of the cycles accepted (one per enabled lane, in ascending order of address, or one wide access on a disk data port), and every cycle but the one in progress has been answered once. |
| IoBusRuns.StrobesApart | src/iobus_adapter.sv:102-108 | Every strobe is one clock long with a low clock behind it. |
| IoBusRuns.RearmsOnlyWhenDropped | src/iobus_adapter.sv:111-116 | After an answer no cycle is accepted while the request stays up. |
| IoBusRuns.AnswersInTime | src/iobus_adapter.sv:143-252 | A cycle is answered after exactly the clocks its lanes take: one for a lane that is off, three for a read, two for a write. |
| IoBusMemory.CycleServes | src/iobus_adapter.sv:143-252 | In front of a byte memory with one clock of read latency, a cycle ends with one answer and its lanes written, or read with 0xFF elsewhere, whatever the processor's lines do meanwhile. |
| IoBusMemory.WriteThenRead | src/iobus_adapter.sv:143-252 | A write, then after the request was let go a read with the same enables, returns the lanes written and 0xFF elsewhere; memory is changed in those lanes only. |
| IoBusMemory.NotWritten | src/iobus_adapter.sv:143-237 | A write leaves every address but those of its enabled lanes alone. |
| IoBusMemory.WideCycle | src/iobus_adapter.sv:124-133 | A cycle on port 0x1F0 or 0x170 with lane 0 enabled is one wide access, no byte access, and an answer two clocks later with the disk's data. |
| IoBus.Adapter.Clock | src/iobus_adapter.sv:93-268 | The clocked registers move as the step function does. |
| PicInta.AnswersOnce | src/pic_inta_bridge.sv:37-92 | Each high period of the acknowledge line is answered on its first clock and on no other; answers are alternately empty and the vector, and the controller is acknowledged with the vector only. |
| PicInta.PeriodsPairUp | src/pic_inta_bridge.sv:37-92 | As many answers as periods, and half as many acknowledgements, rounded down. |
| PicInta.Bridge.Clock | src/pic_inta_bridge.sv:37-92 | The clocked registers move as the step function does. |
| SigmaDelta.TracksInput | sys/sigma_delta_dac.v:19-31 | From reset, for every width and input sequence, 0 <= sum of inputs - 2^(MSBI+1) * (clocks with the latch's top bit set) < 2^(MSBI+2). |
| SigmaDelta.TracksWindow | sys/sigma_delta_dac.v:19-31 | On every window the same difference is below 2^(MSBI+2) either way. |
| SigmaDelta.StepAdds | sys/sigma_delta_dac.v:19-21 | The adders feed back exactly one full scale for a top bit, and the latch never wraps. |
| SigmaDelta.SigmaDeltaDac.Clock | sys/sigma_delta_dac.v:23-31 | The clocked registers move as the step function does. |
| SeedSweep.CollectKeeps | seed_sweep.py:541-569 | Processing a completion keeps everything: at most jobs builds run, as many as may; every submission is running or completed, once; results are those of the completions, sorted; stopping is set exactly when a failure was processed under stop-on-fail; and what has been submitted is the first jobs seeds and one for each completion processed before that failure. |
| SeedSweep.NothingAfterFailure | seed_sweep.py:565-569 | Over every run of completions, once a failure has been processed under stop-on-fail the number of submissions is at every later point what it was at the failure. |
| SeedSweep.Sweeper.Run | seed_sweep.py:507-569 | For every order and batching of completions the loop ends with nothing pending and one result for each seed submitted; without a failure under stop-on-fail that is every seed, and with one it is the first jobs seeds and one for each completion processed before the first failure. |
| SeedSweep.InsertSorts | seed_sweep.py:556 | Adding a result keeps the results sorted and loses or repeats none. |
| MousePackets.EncodeMousePackets | verilator/main.cpp:500-517 | The packets decode (nine-bit two's complement) to steps in [-127, 127] that sum to (dx, dy), all carry the same buttons, and there are max(1, ceil(max(abs(dx), abs(dy)) / 127)) of them. |
| MousePackets.Fewest | verilator/main.cpp:500-517 | No fewer packets could carry the movement. |

## Left out

- IdeCdRead.CdReadCommand: is for byte-count limits that cut no chunk and for images below 8 TiB, whose sector numbers do not wrap; what later non-read packets do with the count a range error leaves behind is not claimed.
- IdeTime.WriteEnds: is for a core that asks at every wait state at once; while it asks for nothing the device waits, and any other request abandons the command.
- IdeCheckpoint.SaveThenLoad: assumes lengths that fit their length fields and an image of less than 2^64 - 512 bytes, as any image in memory is.
- Saving and loading are modelled on values; the object of `IdeDevice` has no such methods.
- The sector pointer is an offset into the image and a null pointer is None; saving a pointer into another object is not modelled.
- Several devices on the management bus: one device owns it; another one could move the address during a rest tick.
- The file handling around opening an image, and debug printing.
- The jitter generator itself: every sequence of delays is allowed instead.
- Loading a state code that names no state (the source casts it unchecked) is reported as a separate outcome.
- SysUdiv.Divides: excludes a divisor of 0 and a divisor that changes during the division.
- AscalBuffers.NeverGoesBack: excludes freeze, under which frames are overwritten by design; interlaced input, whose fields are covered one by one by FieldStep; start states with both buffers equal are covered from the first frame end.
- AscalInput.LineArrives: stops at the word register; the register's way into the burst memory, whose writes lag by two clocks, and the Avalon bursts are not modelled.
- AscalLines.LineReads: reads one pixel a step; the output pipeline's delays, its 8-bit palette and 1555 formats and sub-word start offsets are not modelled.
- AscalDownscale.KeepsSpread: is for the horizontal accumulator; the vertical one uses the same arithmetic once a line.
- SpdifDecode.ReadsBack: is about the sequence of cells; the length of a cell is whatever the enable makes it.
- CdcHandshake.Delivers: the synchronizers are chains of flops of any depth that start at 0; `src/common/synchronizer.sv` is the chain of depth 2; metastability is not modelled.
- IoBusMemory.WriteThenRead: is for ports outside the disks' data ports, which take the wide path instead.
- PicInta.AnswersOnce: is about runs without a reset in the middle; the reset state itself is the start state.
- SeedSweep.Sweeper.Run: a build is its submission number and whether it succeeded; reports, logs and exceptions inside a build are not modelled beyond that, and neither is the one-job path without a pool.
- MousePackets.EncodeMousePackets: dx and dy are unbounded integers; the queue the bytes go to is not modelled.
- The remaining scaler pipeline, the OSD, audio filters, FIFOs, chip selects, the Avalon terminator, the boot copy, the simulator's window, sockets and command line: plumbing, or correct only under timing that other modules fix.
