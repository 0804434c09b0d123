# Verified model of the timing and event receiver card

This project models the parts of the SLAC LCLS timing receiver repository that
move data: the PCIe DMA engines of the FPGA firmware, the `tpr` kernel driver,
the `SsiPcie` kernel driver, and the PROM loader. It proves what these parts are
for:

* The receive path (`RxCutter`, `RxDma`, `HostMemory`, `RxPath`) is a memcpy. A
  frame is cut into transactions of at most 32 dwords, each becomes one
  memory-write packet whose payload is shifted by three lanes behind the header,
  and the packets applied in order leave exactly the frame in the host buffer,
  whatever the FIFOs and the sink stall. It also gets there (`RxProgress`): after a
  stated number of clocks in which nobody holds it up, every frame has been sent.
* The transmit path (`TxRequester`, `HostReads`, `TxCollector`, `TxSerialiser`,
  `TxPath`) is a memcpy the other way. The read requests partition the
  descriptor's address range, fewer than 384 dwords are outstanding at any clock,
  and the completions, cut in any way, come out as the descriptor's dwords with SOF
  on the first and EOF on the last. Every descriptor ends (`TxProgress`): 9 clear
  clocks for each dword, 21 for each read request and 8 more are enough.
* The packet controller (`TlpCtrl`) undoes straddling without changing a packet,
  the arbiter (`TlpInbound`) emits whole packets, and the requests are legal
  (`PcieRules`, `HostReads`).
* The descriptor controller (`RxDesc`), clocked together with a receive engine
  (`RxHandover`), hands every freed address to one frame and records every frame
  once, and the register pair through which software reads the records loses and
  repeats nothing. Together with the receive path (`RxDelivery`): frame k of the link
  ends up in memory at the k-th address that the driver has written, and record k
  names its channels, its error flag, its length and its address. That holds behind the
  arbiter too, among the packets of all other sources (`RxMerge`), and the driver's
  interrupt handler collects the records in order while more of them arrive
  (`RxReadout`). With enough free addresses every frame of a stream is delivered and
  recorded, within a stated number of clocks (`RxService`).
* For frames that may be too long for their buffer, `RxLimit` says exactly which of
  them are reported as errors and how far they write; for frames without SOF, `RxDump`
  says what is thrown away and when the FIFOs are in step afterwards.
* The `tpr` driver demultiplexes events (`TprQueues`, `TprDma`): the index rings
  agree with filtering the message log by the bits of each event's first word, DMA
  buffers are processed in fill order, the client nodes stay partitioned among their
  lists (`TprClients`), a wake-up is lost only if the client under the walk's cursor is
  released (`TprWake`), and the handler as a whole sets the flags of exactly the clients
  that the messages in its buffers are for (`TprHandler`).
* The `SsiPcie` driver (`BufferRing`, `SsiDriver`) never has a buffer queued twice
  or owned by both sides but in the window between posting a descriptor and
  advancing the read pointer; its rings never overflow.
* The PROM loader (`IntelHex`, `McsReader`, `PromLoader`) inverts the printing of an
  MCS file, and erasing, writing and verifying an image ends with the image in the
  flash and a positive answer; a positive answer always means that the flash holds
  the file.

## How to read it

A clocked process is a class whose field `r` is the process's register record and
whose method `Clock` is one clock edge: inputs are parameters, combinatorial outputs
are results. Ghost fields record what has been accepted and put out; `Valid()` ties
registers to these histories and is kept by every clock for every input the
neighbours may offer. State-by-state work is in methods over register values, so
that each has its own contract. The kernel drivers are classes with the fields of
the driver's structures; a `ghost` history again says what the fields mean. Words of
a beat are lanes of 32 bits; a lane counts as kept iff its four byte enables are set,
which is all that the firmware looks at.

Assumptions about the environment are `requires` clauses or, for the DMA engines, the
ghost flag `legal`, which an input outside the assumptions clears for good. The
vendor's FIFOs are ideal queues with arbitrary delays and stalls. What the flash does
with a command that it is not made for, how often a command fails and what a failed
attempt leaves behind are arbitrary functions.

Where the code and what one would expect differ, the model follows the code. The
members named show the difference and say exactly when the code does what one would
expect:

* The End Of File record's check sum leaves out the record's data
  (`IntelHex.EndOfFileUnsummed`, `IntelHex.EndOfFileSums`).
* Addresses of data records are or-ed together (`McsReader.UnalignedRecord`,
  `McsReader.AddressExact`).
* A file of odd length has its last byte used twice (`PromLoader.OddLength`).
* The padding of a short last block fills one slot only (`PromLoader.StaleSlot`,
  `PromLoader.TwoRanges`, `PromLoader.PaddingHarmless`).
* Verification of a file that cannot be opened is a success
  (`PromLoader.VerifyBootProm`; of a file that can be opened, success means that the
  flash holds it).
* The size check of an event multiplies in 32 bits (`TprDma.EventSizedExact`).
* Closing a channel copies the control register of channel 0
  (`TprClients.ClosedCopies`, `TprClients.ClosedExact`).
* The wake loops take no lock (`TprWake.LostWake`, `TprWake.Waker.Leave`).
* The size check of a write multiplies in 32 bits, and the length field has 24
  (`SsiDriver.WrappedSize`, `SsiDriver.RefusalExact`, `SsiDriver.SentWhole`).
* The length limit of the receive engine does not catch every frame that is too long,
  nor stop all that it catches at the end of the buffer (`RxLimit.SlipsPast`,
  `RxLimit.OverLong`), and a flag set by a frame's last beat is shown a clock late
  (`RxLimit.FlagShownLate`).
* Throwing away a frame without SOF takes one beat too many from every transaction but
  the last, so that descriptors are left behind if the last one is too short
  (`RxDump.StaleTransaction`, `RxDump.InStepExact`, `RxDump.Dump`).
* A transmit descriptor of no dwords is requested as length field 0, which stands for
  1024 (`TxRequester.AskForNothing`, `HostReads.ReadTlpDecodes`).

## Model

| member | source | states |
|---|---|---|
| `TlpCtrl.PassBeat` | firmware/common/SsiPcieCore/rtl/SsiPcieTlpCtrl.vhd:152-175 | a beat in SOF_00 keeps the agreement between packets in and packets out; a straddling beat splits into the end of one packet and a saved half |
| `TlpCtrl.ShiftBeat` | firmware/common/SsiPcieCore/rtl/SsiPcieTlpCtrl.vhd:176-213 | the same for SOF_10: the saved half goes out under the lower half of the next beat |
| `TlpCtrl.FlushBeat` | firmware/common/SsiPcieCore/rtl/SsiPcieTlpCtrl.vhd:214-229 | the same for EOF_10: the saved half ends its packet |
| `TlpCtrl.Controller.Clock` | firmware/common/SsiPcieCore/rtl/SsiPcieTlpCtrl.vhd:134-253 | any clock with any offer and any back-pressure keeps: for legal input, finished packets out plus what is in flight are the packets in; a beat is taken at most once, an output beat stays until taken; EOF_10 ends as soon as the output is free |
| `TlpCtrl.InFlight` | firmware/common/SsiPcieCore/rtl/SsiPcieTlpCtrl.vhd:145-231 | packets that have left are a prefix of those that came, at most two are in flight, none when idle, and each starts with one SOF at lane 0 and ends with one last |
| `TlpCtrl.Run` | firmware/common/SsiPcieCore/rtl/SsiPcieTlpCtrl.vhd:145-231 | for any number of clocks, offers and ready patterns after reset: packets out equal packets in, dword for dword and in order; two clocks after the last packet has ended, with the sink ready, all of them have left |
| `RxCutter.TakeBeat` | firmware/common/SsiPcieCore/rtl/SsiPcieRxDmaTransFifo.vhd:119-155 | one beat joins the open transaction or closes it, for every keep pattern; a closed one has at most 32 dwords and its descriptor counts its dwords and beats |
| `RxCutter.Cutter.Clock` | firmware/common/SsiPcieCore/rtl/SsiPcieRxDmaTransFifo.vhd:98-169 | any clock keeps: output beats are the input beats byte-swapped, cut into closed transactions, one descriptor each; the word counter between beats is the open transaction's size, at most 28 |
| `RxDma.HeaderSent` | firmware/common/SsiPcieCore/rtl/SsiPcieRxDma.vhd:280-377 | the header beat starts the right packet: length, byte enables, address and first dword; a one-dword transaction is complete with it |
| `RxDma.JoinedBeat` | firmware/common/SsiPcieCore/rtl/SsiPcieRxDma.vhd:378-430 | three lanes of the saved beat and one of the next are the next dwords of the transaction, also at its end |
| `RxDma.BeatCollected` | firmware/common/SsiPcieCore/rtl/SsiPcieRxDma.vhd:378-436 | a payload beat keeps the account; when the counter reaches the length the packet is complete and the engine reports the frame iff the transaction ends it |
| `RxDma.CollectBeat` | firmware/common/SsiPcieCore/rtl/SsiPcieRxDma.vhd:378-436 | the registers after a payload beat, with the keep-counting and the frame-length loops |
| `RxDma.SendHeader` | firmware/common/SsiPcieCore/rtl/SsiPcieRxDma.vhd:280-377 | the registers and the output beat after the header beat; in the error case the forced length 1, the error flag and TR_DONE |
| `RxDma.OverrunEnds` | firmware/common/SsiPcieCore/rtl/SsiPcieRxDma.vhd:325-370 | a header that finds the limit reached sends one well-formed packet of one dword at the address it has reached, and ends the frame with the error flag |
| `RxDma.LimitCaught` | firmware/common/SsiPcieCore/rtl/SsiPcieRxDma.vhd:405-415 | one COLLECT beat from below the last four dwords of the buffer meets one of the four comparisons or stays below |
| `RxDma.FrameStarts` | firmware/common/SsiPcieCore/rtl/SsiPcieRxDma.vhd:232-264 | a latched descriptor opens an empty frame at its address whose checks are those of its maximum; a maximum below 4 is an error |
| `RxDma.ControlKeeps` | firmware/common/SsiPcieCore/rtl/SsiPcieRxDma.vhd:197-279 | IDLE, ACK_WAIT, READ_TRANS and TR_DONE keep the account and put out nothing |
| `RxDma.Engine.Clock` | firmware/common/SsiPcieCore/rtl/SsiPcieRxDma.vhd:171-461 | any clock keeps: packets put out are those of the finished frames and of the current one, each transaction and its descriptor is consumed once and in order, the done report carries base and length of the frame just finished, and request lines stay up until acknowledged; every state goes on as soon as it has what it waits for |
| `RxDma.MovesOn` | firmware/common/SsiPcieCore/rtl/SsiPcieRxDma.vhd:197-447 | what each state waits for, and that with it the engine asks, latches, reads a descriptor, sends a header, takes a beat or completes a transaction, or returns to idle |
| `RxLimit.HeaderErased` | firmware/common/SsiPcieCore/rtl/SsiPcieRxDma.vhd:280-377 | a header that the limit does not stop does what it does in a larger buffer |
| `RxLimit.WatchBeat` | firmware/common/SsiPcieCore/rtl/SsiPcieRxDma.vhd:405-415 | a COLLECT beat keeps the flag a function of the dwords out, also as the transaction or the frame ends |
| `RxLimit.SoundStep` | firmware/common/SsiPcieCore/rtl/SsiPcieRxDma.vhd:171-461 | one clock, for frames of any length: packets and counters go on as in a larger buffer, the flag is that function of the dwords out, or the frame is cut off at a header |
| `RxLimit.LimitedEngine.Clock` | firmware/common/SsiPcieCore/rtl/SsiPcieRxDma.vhd:171-461 | the same for any run, with any descriptors and stalls |
| `RxLimit.FlagExact` | firmware/common/SsiPcieCore/rtl/SsiPcieRxDma.vhd:351-369 | the error flag of a reported frame is a function of its length and the limit |
| `RxLimit.OverLong` | firmware/common/SsiPcieCore/rtl/SsiPcieRxDma.vhd:339-369 | a frame longer than its buffer is flagged iff the buffer has not 4 and not 32k + 5 dwords, and kept inside it iff it has 32k + 1 to 32k + 4 dwords, but not 4 |
| `RxLimit.Fitting` | firmware/common/SsiPcieCore/rtl/SsiPcieRxDma.vhd:339-369 | a frame that fits is written inside its buffer, and not flagged if five dwords are left |
| `RxLimit.Written` | firmware/common/SsiPcieCore/rtl/SsiPcieRxDma.vhd:280-377 | what a frame that may have been cut off has written: its first dwords from its base, as many as the engine reports |
| `RxLimit.SlipsPast` | firmware/common/SsiPcieCore/rtl/SsiPcieRxDma.vhd:339-344 | a buffer of 37 dwords: from dword 32 on, a header and a beat get past all comparisons |
| `RxLimit.FlagShownLate` | firmware/common/SsiPcieCore/rtl/SsiPcieRxDma.vhd:191-195 | the report shows the flag as it is in the first clock of TR_DONE iff the last beat has not just set it |
| `RxDump.Dump` | firmware/common/SsiPcieCore/rtl/SsiPcieRxDma.vhd:198-231 | under any stalls: a frame without SOF is thrown away whole and no beat behind it, with as many descriptors as one for every nine beats |
| `RxDump.InStepExact` | firmware/common/SsiPcieCore/rtl/SsiPcieRxDma.vhd:214-231 | these are all descriptors of the frame iff its last transaction has at least as many beats as the frame has transactions |
| `RxDump.StaleTransaction` | firmware/common/SsiPcieCore/rtl/SsiPcieRxDma.vhd:214-231 | a frame of nine beats, 33 to 36 dwords, leaves its second descriptor behind |
| `RxDump.CutIsHeadless` | firmware/common/SsiPcieCore/rtl/SsiPcieRxDmaTransFifo.vhd:119-155 | the cutter makes such a run of transactions of every frame without SOF whose beats are full but for the last |
| `HostMemory.TlpStores` | firmware/common/SsiPcieCore/rtl/SsiPcieRxDma.vhd:286-345 | a packet of the engine is a well-formed memory write, its length field equals its payload, and applying it stores exactly the payload |
| `HostMemory.FrameIsCopied` | firmware/common/SsiPcieCore/rtl/SsiPcieRxDma.vhd:197-447 | the packets of a frame, applied in order, put dword k at base + k and touch nothing else |
| `RxPath.HeadsAreLegal` | firmware/common/SsiPcieCore/rtl/SsiPcieRxDma.vhd:199-279 | what the cutter and the FIFOs deliver is what the engine relies on |
| `RxPath.FramesTaken` | firmware/common/SsiPcieCore/rtl/SsiPcieRxDmaTransFifo.vhd:119-155 | the frames finished by the engine are the first frames offered to the cutter |
| `RxPath.ReceiveIsMemcpy` | firmware/common/SsiPcieCore/rtl/SsiPcieRxDma.vhd:197-447 | between frames, for any memory before: the packets put out have copied the frames taken, each to the base its descriptor gave, and doneAddr and doneLength are base and length of the last |
| `RxPath.ReceivePath.Clock` | firmware/common/SsiPcieCore/rtl/SsiPcieRxDma.vhd:98-461 | cutter, FIFOs and engine in one clock, under any stalls and delays; request lines and finished frames as the controller sees them |
| `RxPath.ReceivePath.Copied` | firmware/common/SsiPcieCore/rtl/SsiPcieRxDma.vhd:197-447 | the memcpy theorem for every reachable state of the composed receive path between frames |
| `RxProgress.ClockLoad` | firmware/common/SsiPcieCore/rtl/SsiPcieRxDma.vhd:197-447 | a clock adds at most seven to the clocks that are left, for a beat taken, and takes one off if the engine gets what it waits for or something cut reaches the FIFOs |
| `RxProgress.AllCut` | firmware/common/SsiPcieCore/rtl/SsiPcieRxDmaTransFifo.vhd:119-155 | when all transactions cut have been sent, every whole frame taken has been finished |
| `RxProgress.Drive` | firmware/common/SsiPcieCore/rtl/SsiPcieRxDma.vhd:98-461 | under any stalls: after 8 clear clocks for each beat of a stream, and what was left to do before, the source has got rid of the stream and every whole frame is finished |
| `RxProgress.CaughtIsCopied` | firmware/common/SsiPcieCore/rtl/SsiPcieRxDma.vhd:197-447 | then memory is the old one with all frames of the stream copied in order |
| `PcieRules.GroupSize` | firmware/common/SsiPcieCore/rtl/SsiPcieRxDmaTransFifo.vhd:119-155 | the transactions of a well-formed frame have 32 dwords, the last one 1 to 32 |
| `PcieRules.FrameLegal` | firmware/common/SsiPcieCore/rtl/SsiPcieRxDma.vhd:286-345 | every write packet has at most 32 dwords, the engine's IDs, last byte enables zero iff it has one, and from a 32-dword aligned base crosses no 4 KB boundary |
| `PcieRules.TlpFields` | firmware/common/SsiPcieCore/rtl/SsiPcieRxDma.vhd:300-311 | requester ID, tag and byte enables decode from the second header dword of a write packet |
| `TxRequester.SendHeader` | firmware/common/SsiPcieCore/rtl/SsiPcieTxDmaMemReq.vhd:161-211 | the header asks for the piece at the current address, and what remains is the rest |
| `TxRequester.Wait` | firmware/common/SsiPcieCore/rtl/SsiPcieTxDmaMemReq.vhd:148-244 | the states that put out nothing keep the throttle: what is asked for and not received stays below 128 + 256 although pendLength lags; each goes on as soon as what it waits for is there, the delay after 16 clocks |
| `TxRequester.Advance` | firmware/common/SsiPcieCore/rtl/SsiPcieTxDmaMemReq.vhd:119-257 | every state keeps, as long as the neighbours are well-behaved: reads put out and reads to come are the pieces of the descriptors, and the throttle |
| `TxRequester.Requester.Clock` | firmware/common/SsiPcieCore/rtl/SsiPcieTxDmaMemReq.vhd:105-267 | the same for any clock with any input, with the output register and the start pulse; `legal` is tracked exactly |
| `TxRequester.AskForNothing` | firmware/common/SsiPcieCore/rtl/SsiPcieTxDmaMemReq.vhd:119-211 | a descriptor of no dwords, which is not legal, goes out as a read TLP with length field 0 |
| `HostReads.PiecesPartition` | firmware/common/SsiPcieCore/rtl/SsiPcieTxDmaMemReq.vhd:148-211 | for every length and memory, the pieces fetch [base, base + length) once and in order |
| `HostReads.PiecesLegal` | firmware/common/SsiPcieCore/rtl/SsiPcieTxDmaMemReq.vhd:148-211 | pieces have 1 to 256 dwords, only the last is short, and from a 256-dword aligned base none crosses a 4 KB boundary |
| `HostReads.ReadTlpDecodes` | firmware/common/SsiPcieCore/rtl/SsiPcieTxDmaMemReq.vhd:165-205 | a read TLP asks for the intended address and length iff the length is not 0, and for 1024 dwords otherwise |
| `HostReads.ReadTlpEnables` | firmware/common/SsiPcieCore/rtl/SsiPcieTxDmaMemReq.vhd:165-205 | IDs and byte enables of a read TLP; the last enables are zero iff the length is 1 |
| `HostReads.AllRequested` | firmware/common/SsiPcieCore/rtl/SsiPcieTxDmaMemReq.vhd:119-244 | once a descriptor is done its reads have all gone out |
| `TxCollector.TakeBeat` | firmware/common/SsiPcieCore/rtl/SsiPcieTxDma.vhd:188-280 | a completion beat's payload goes out, remLength counts it, EOF and done come with the last dword; a beat with SOF keeps one lane |
| `TxCollector.PayloadIsData` | firmware/common/SsiPcieCore/rtl/SsiPcieTxDma.vhd:194-215 | the payload of a completion TLP's beats is its data behind the three header dwords |
| `TxCollector.BeatAbsorbed` | firmware/common/SsiPcieCore/rtl/SsiPcieTxDma.vhd:188-280 | a beat extends the frame in progress or completes it |
| `TxCollector.Collector.Clock` | firmware/common/SsiPcieCore/rtl/SsiPcieTxDma.vhd:154-297 | any clock with any input keeps, as long as the neighbours are well-behaved: frames out are the payload received, cut at the requested lengths; done pulses once for each frame |
| `TxSerialiser.NextWord` | firmware/common/SsiPcieCore/rtl/SsiPcieTxDmaFifoMux.vhd:99-169 | each state emits the next dword of the beat and owes the rest |
| `TxSerialiser.Serialiser.Clock` | firmware/common/SsiPcieCore/rtl/SsiPcieTxDmaFifoMux.vhd:80-184 | any clock keeps: words sent plus words owed are the serialised beats taken |
| `TxPath.SerialTagged` | firmware/common/SsiPcieCore/rtl/SsiPcieTxDmaFifoMux.vhd:101-169 | SOF survives serialising because a beat with SOF has one dword, EOF moves to the last dword |
| `TxPath.SerialIsFramed` | firmware/common/SsiPcieCore/rtl/SsiPcieTxDma.vhd:171-284 | the serialised stream is the frames' dwords, SOF on each first and EOF on each last |
| `TxPath.NeverAhead` | firmware/common/SsiPcieCore/rtl/SsiPcieTxDmaMemReq.vhd:119-121 | remLength never falls below what is still to be requested, so the difference that throttles never underflows |
| `TxPath.FramesAreDescriptors` | firmware/common/SsiPcieCore/rtl/SsiPcieTxDma.vhd:171-284 | every completed frame is what its descriptor fetches from memory, the one in progress a prefix |
| `TxPath.TransmitPath.Clock` | firmware/common/SsiPcieCore/rtl/SsiPcieTxDma.vhd:100-310 | requester, collector and serialiser in one clock; `legal` stays set as long as descriptors are not empty and completions bring what the host owes, cut in any legal way |
| `TxPath.Respected` | firmware/common/SsiPcieCore/rtl/SsiPcieTxDma.vhd:100-310 | then requester and collector are good neighbours to each other |
| `TxPath.Outstanding` | firmware/common/SsiPcieCore/rtl/SsiPcieTxDmaMemReq.vhd:119-160 | at every clock fewer than 384 dwords have been asked for and not received |
| `TxPath.Reassembled` | firmware/common/SsiPcieCore/rtl/SsiPcieTxDma.vhd:171-284 | in every reachable state the output is the descriptors' dwords in order, framed, followed by a prefix of the current descriptor's |
| `TxProgress.LeftLess` | firmware/common/SsiPcieCore/rtl/SsiPcieTxDmaMemReq.vhd:119-257 | one clock of requester, collector and serialiser adds nothing to what is left of a descriptor, and takes something off if nobody holds them up: no deadlock, also while the requester waits for completions |
| `TxProgress.Watched.Clock` | firmware/common/SsiPcieCore/rtl/SsiPcieTxDma.vhd:100-310 | any clock keeps: clear clocks since a descriptor was taken and what is left of it stay within its budget |
| `TxProgress.EveryDescriptorEnds` | firmware/common/SsiPcieCore/rtl/SsiPcieTxDmaMemReq.vhd:119-257 | after 9 clear clocks for each dword, 21 for each read and 8 more, all reads of the descriptor have been issued and its frame is complete |
| `RxDesc.EngineIsPort` | firmware/common/SsiPcieCore/rtl/SsiPcieRxDma.vhd:232-256 | the receive engine's request lines follow the handshake that the controller relies on, and its report is that of the finished frame |
| `RxDesc.Allocate` | firmware/common/SsiPcieCore/rtl/SsiPcieRxDesc.vhd:285-295 | one channel of the allocation loop: an acknowledge only for a request, with the oldest free address, never twice running |
| `RxDesc.GrantKept` | firmware/common/SsiPcieCore/rtl/SsiPcieRxDesc.vhd:285-295 | addresses granted and addresses still free are the addresses written; one grant for each request episode |
| `RxDesc.RecordKept` | firmware/common/SsiPcieCore/rtl/SsiPcieRxDesc.vhd:301-321 | a report is recorded once; only an unanswered one is not recorded yet |
| `RxDesc.ReadStep` | firmware/common/SsiPcieCore/rtl/SsiPcieRxDesc.vhd:243-267 | the two done registers: the first word announces the head, the second pops it, repeated reads do nothing |
| `RxDesc.DoneFifo.Clock` | firmware/common/SsiPcieCore/rtl/SsiPcieRxDesc.vhd:218-278 | any clock keeps: entries recorded are entries read followed by entries queued |
| `RxDesc.ReadPair` | firmware/common/SsiPcieCore/rtl/SsiPcieRxDesc.vhd:243-267 | a pair of reads takes out the oldest entry once, or comes without the valid flag, whatever is recorded meanwhile |
| `RxDesc.Drain` | firmware/common/SsiPcieCore/software/driver/SsiPcie.c:598-646 | the interrupt loop reads in order everything queued at entry and what is recorded during its reads; what it has not read is still queued when it stops |
| `RxDesc.WordsUnpack` | firmware/common/SsiPcieCore/software/driver/SsiPcie.c:601-622 | lane, channel, length, error and address that the driver unpacks are those the hardware packed |
| `RxReadout.SameWords` | firmware/common/SsiPcieCore/software/driver/SsiPcie.c:601-622 | the words in the done registers are those that the driver takes apart |
| `RxReadout.Readout.Round` | firmware/common/SsiPcieCore/software/driver/SsiPcie.c:598-646 | one round of the interrupt loop against the register pair: the oldest record goes to the driver, whatever is recorded in any of its clocks |
| `RxReadout.Readout.Irq` | firmware/common/SsiPcieCore/software/driver/SsiPcie.c:592-647 | the interrupt handler collects in order every frame recorded before and during its first rounds; records and completions stay in step |
| `RxDesc.ClockChannels` | firmware/common/SsiPcieCore/rtl/SsiPcieRxDesc.vhd:285-321 | the loop over any number of channels keeps every channel's account |
| `RxDesc.FreedKept` | firmware/common/SsiPcieCore/rtl/SsiPcieRxDesc.vhd:184-196 | on every channel the addresses in the free FIFO's account, and the one on its way there, are those that the driver has written |
| `RxDesc.Controller.Clock` | firmware/common/SsiPcieCore/rtl/SsiPcieRxDesc.vhd:149-356 | any clock, with any FIFO back-pressure, keeps all accounts; an address that the driver writes joins the list of its channel and no other; a request is answered at once if an address is free; a record is made iff the polled channel asks, with its report, and polling goes on |
| `RxDesc.ExactlyOnce` | firmware/common/SsiPcieCore/rtl/SsiPcieRxDesc.vhd:285-321 | the k-th request of a channel gets the k-th address that the driver has written for it, each report has one record, software has read the oldest records |
| `RxDma.FinishedFrames` | firmware/common/SsiPcieCore/rtl/SsiPcieRxDma.vhd:197-447 | a clock of the engine finishes at most one frame, at the base it latched, and then enters TR_DONE |
| `RxHandover.ServedKept` | firmware/common/SsiPcieCore/rtl/SsiPcieRxDesc.vhd:285-321 | addresses taken are those of the finished frames and of the frame in progress; reports are those of the finished frames |
| `RxHandover.Handover.Clock` | firmware/common/SsiPcieCore/rtl/SsiPcieRxDesc.vhd:149-356 | engine and controller clocked together keep this, among any number of other engines |
| `RxHandover.EachFrameOnce` | firmware/common/SsiPcieCore/rtl/SsiPcieRxDesc.vhd:285-321 | the k-th frame of a channel went to the k-th address that the driver has written for it, and the k-th record describes it |
| `RxDelivery.Receiver.Clock` | firmware/common/SsiPcieCore/rtl/SsiPcieRxDesc.vhd:149-356 | cutter, FIFOs, engine and controller in one clock keep the books, among any number of other engines |
| `RxDelivery.EndsTaken` | firmware/common/SsiPcieCore/rtl/SsiPcieRxDmaTransFifo.vhd:119-155 | sub-channel and error flag of a finished frame are those of the frame's last beat on the link |
| `RxDelivery.Delivered` | firmware/common/SsiPcieCore/rtl/SsiPcieRxDesc.vhd:285-321 | in any run, for any memory before: frame k of the link is in memory at the k-th address that the driver has written, nothing else has changed, and record k names the frame's channels, error flag, length and address |
| `RxService.WaitLess` | firmware/common/SsiPcieCore/rtl/SsiPcieRxDesc.vhd:285-321 | an engine that waits for the controller gets its answer nearer in every clock: an address once the driver has freed one, a record when polling comes round |
| `RxService.Less` | firmware/common/SsiPcieCore/rtl/SsiPcieRxDesc.vhd:149-356 | path and controller in one clock: less work is left, or the answer is nearer, unless all is done |
| `RxService.Drive` | firmware/common/SsiPcieCore/rtl/SsiPcieRxDesc.vhd:149-356 | under any stalls and among any other engines: with an address for every frame, the frames of a stream are all finished and recorded after as many open clocks as a stated budget |
| `RxService.CompleteIsDelivered` | firmware/common/SsiPcieCore/rtl/SsiPcieRxDesc.vhd:285-321 | then every frame of the stream is in memory at its address, and has its record |
| `TlpInbound.Choose` | firmware/common/SsiPcieCore/rtl/SsiPcieTlpInbound.vhd:123-181 | priority of register replies, then requests, then receive packets of the polled channel; a locked packet admits only its own channel |
| `TlpInbound.BeatKept` | firmware/common/SsiPcieCore/rtl/SsiPcieTlpInbound.vhd:123-181 | a beat ends a packet, starts one or continues the locked one; it is its source's next beat and nobody else's |
| `TlpInbound.Arbiter.Clock` | firmware/common/SsiPcieCore/rtl/SsiPcieTlpInbound.vhd:90-191 | any clock keeps: the output is whole packets and the beginning of one, never interleaved; accepted beats appear once and in order; whose beat is taken is exactly the priority of the source, and polling moves on unless a reply or a request is taken |
| `TlpInbound.Pending` | firmware/common/SsiPcieCore/rtl/SsiPcieTlpInbound.vhd:109-121 | the pending flag is set iff some source has data |
| `RxMerge.Interleaved` | firmware/common/SsiPcieCore/rtl/SsiPcieTlpInbound.vhd:123-181 | where other sources do not write, memory is what the packets of one source make it, however they are interleaved |
| `RxMerge.Merged.Clock` | firmware/common/SsiPcieCore/rtl/SsiPcieTlpInbound.vhd:90-191 | a receiver and the arbiter in one clock: what the arbiter has accepted of the channel is what the engine has sent |
| `RxMerge.AtHost` | firmware/common/SsiPcieCore/rtl/SsiPcieTlpInbound.vhd:123-181 | behind the arbiter: in any region that the other sources leave alone, frame k of the link is in memory at the k-th address freed |
| `TprQueues.Queues.IndexEvent` | software/kernel/tpr.c:484-509 | the loop that takes off the bits of the first word adds the event's number to the ring of channel c iff c < 14 and bit c of the word is set, and touches no other |
| `TprQueues.Queues.PublishEvent` | software/kernel/tpr.c:498-511 | storing and indexing an event appends it to the log that the rings represent |
| `TprQueues.Queues.PublishBsa` | software/kernel/tpr.c:461-465 | storing a BSA message appends it to the BSA log; the ring holds the last 1024 |
| `TprQueues.FilterSorted` | software/kernel/tpr.c:503-509 | a channel's list strictly increases and names exactly the events whose first word has the channel's bit set |
| `TprQueues.ReaderSees` | software/kernel/tpr.c:498-510 | among the last 32768, the k-th index of a channel is the number of the k-th event addressed to it, and if that is among the last 32768 its slot holds that event |
| `TprQueues.IndexCoverage` | software/kernel/tpr.c:498-510 | every event still stored is still reachable through every channel it was addressed to |
| `TprDma.TagExact` | software/kernel/tpr.c:440-452 | the tag is the number in bits 19:16, whatever the other bits are |
| `TprDma.EventSizedExact` | software/kernel/tpr.c:485 | the size check passes for 21 words behind the first two, and for three larger sizes that wrap |
| `TprDma.ParsePacked` | software/kernel/tpr.c:438-517 | walking over a buffer of well-formed messages and an end tag finds these messages, in order, and stays inside the buffer |
| `TprDma.FilledIsGood` | software/kernel/tpr.c:436-440 | a buffer of such messages with the done bit set is one that the driver relies on, and clearing the bit leaves the messages |
| `TprDma.HandleMessage` | software/kernel/tpr.c:440-516 | one message is published, or the buffer is ended there, and the rest of the buffer stays to be parsed; wmask gets the bits of its clients |
| `TprDma.ParseBuffer` | software/kernel/tpr.c:438-517 | a buffer's messages enter the queues in order, and exactly their clients' bits are set in wmask |
| `TprDma.FillKeepsRing` | software/kernel/tpr.c:519-522 | a buffer filled by the hardware joins the pending ones; pending then posted is the ring from rxPend |
| `TprDma.TakeKeepsRing` | software/kernel/tpr.c:519-525 | processing and reposting the oldest pending buffer rotates the ring by one |
| `TprDma.Device.ProcessBuffer` | software/kernel/tpr.c:436-522 | a round takes the oldest completed buffer, publishes its messages and posts it once |
| `TprDma.Device.HandleDma` | software/kernel/tpr.c:422-525 | the handler consumes every completed buffer in fill order, also any number completed before each of its rounds, and returns with all buffers posted and wmask with exactly the bits of the messages' clients |
| `TprDma.Device.constructor` | software/kernel/tpr.c:731-755 | probe allocates distinct buffers with clear done bits and posts them in ring order |
| `TprClients.UnlinkKeeps` | software/kernel/tpr.c:294-297 | taking a node out of a doubly linked list leaves it linked |
| `TprClients.PushKeeps` | software/kernel/tpr.c:227-231 | a node put in front of a list leaves it linked |
| `TprClients.MoveKeepsPartition` | software/kernel/tpr.c:193-252 | moving a node keeps every node on exactly one list |
| `TprClients.MoveKeepsLinks` | software/kernel/tpr.c:193-330 | ... and every list linked, the others untouched |
| `TprClients.OpenChannelKeeps` | software/kernel/tpr.c:195-237 | the state after opening a channel: partition, links, heads, minors bit and control register |
| `TprClients.OpenBsaKeeps` | software/kernel/tpr.c:238-252 | the same for the BSA list |
| `TprClients.ReleaseChannelKeeps` | software/kernel/tpr.c:293-332 | the state after releasing a channel node; the last one clears the minors bit and copies the control register of channel 0 without its DMA enable |
| `TprClients.EnabledExact` | software/kernel/tpr.c:213-223 | opening sets the DMA enable of a channel iff it has no client yet, and no other bit of any control register |
| `TprClients.ClosedExact` | software/kernel/tpr.c:308-313 | closing a channel changes nothing but its DMA enable iff its other control bits are those of channel 0 |
| `TprClients.ClosedCopies` | software/kernel/tpr.c:308-313 | control registers for which closing channel 1 changes its other bits |
| `TprClients.ReleaseBsaKeeps` | software/kernel/tpr.c:293-332 | the same for a BSA node |
| `TprClients.ProbeOk` | software/kernel/tpr.c:690-706 | probe chains all 256 nodes into the freelist |
| `TprClients.Clients.Open` | software/kernel/tpr.c:181-271 | open succeeds iff a node is free and the minor exists, moves the freelist's head to the minor's list and keeps the invariant; a channel's first client enables it and the interrupt, and nothing else; the control node opens once |
| `TprClients.Clients.Release` | software/kernel/tpr.c:277-352 | release fails iff the node is not in use, moves it back to the freelist and keeps the invariant; the last client of a channel turns it off |
| `TprWake.Waker.Publish` | software/kernel/tpr.c:502 | publishing owes a wake to the members of the lists concerned |
| `TprWake.Waker.WakeStep` | software/kernel/tpr.c:527-550 | one step of the wake loops, whose cursor follows the current links, keeps: unseen messages imply a set flag or a wake still owed |
| `TprWake.Waker.TryRead` | software/kernel/tpr.c:371-383 | a reader that would sleep with unseen messages is still owed its wake |
| `TprWake.Waker.FinishWaking` | software/kernel/tpr.c:527-550 | the wake loops return from any state, and then, if no wake was lost before, every client with unseen messages has its flag set, and nobody else got it |
| `TprWake.Waker.Join` | software/kernel/tpr.c:195-252 | a node may move from the freelist to a client list at any time, also under the cursor |
| `TprWake.Waker.Leave` | software/kernel/tpr.c:293-330 | a client may be released at any time; no wake is lost iff the cursor is not at it with a client behind that is still to be woken |
| `TprWake.LostWake` | software/kernel/tpr.c:527-550 | a run after which a client has messages, no flag and no wake owed |
| `TprHandler.MaskFindsReaders` | software/kernel/tpr.c:527-550 | the clients that the wake loops reach by the bits of wmask are those that the messages are for |
| `TprHandler.Handler.Handle` | software/kernel/tpr.c:422-550 | one call of the handler sets the flags of exactly the clients on the lists that the messages in the buffers it consumes are for |
| `BufferRing.RoomToReturn` | firmware/common/SsiPcieCore/software/driver/SsiPcie.c:576-580 | while the hardware owns a buffer at most cnt entries are queued, by counting buffers |
| `BufferRing.Ring.Post` | firmware/common/SsiPcieCore/software/driver/SsiPcie.c:170-178 | posting the head gives it to the hardware while it is still queued |
| `BufferRing.Ring.Advance` | firmware/common/SsiPcieCore/software/driver/SsiPcie.c:180-181 | advancing the read pointer closes the window |
| `BufferRing.Ring.Return` | firmware/common/SsiPcieCore/software/driver/SsiPcie.c:576-580 | the handler returns a buffer at any point, also inside the window, and never meets the read pointer |
| `BufferRing.Ring.Head` | firmware/common/SsiPcieCore/software/driver/SsiPcie.c:142-154 | the buffer a user call works on is not owned by the hardware |
| `BufferRing.HeadReturnsEarly` | firmware/common/SsiPcieCore/software/driver/SsiPcie.c:171-181 | cnt + 1 entries do occur: all but one of the cnt + 2 slots are needed |
| `SsiDriver.DescRoundTrip` | firmware/common/SsiPcieCore/software/driver/SsiPcie.c:619-622 | unpacking a receive descriptor inverts packing |
| `SsiDriver.Find` | firmware/common/SsiPcieCore/software/driver/SsiPcie.c:568-574 | the search by address finds the buffer or reports that there is none |
| `SsiDriver.RefusalExact` | firmware/common/SsiPcieCore/software/driver/SsiPcie.c:129 | the size check refuses exactly the writes that do not fit iff the size is below 2^30 or its wrapped product is still too large |
| `SsiDriver.WrappedSize` | firmware/common/SsiPcieCore/software/driver/SsiPcie.c:129 | 2^30 dwords pass the check of any buffer, with nothing copied and length 0 |
| `SsiDriver.SentWhole` | firmware/common/SsiPcieCore/software/driver/SsiPcie.c:157-160 | the 24-bit length field covers all of a write iff it has fewer than 2^24 dwords |
| `SsiDriver.Transmit.Begin` | firmware/common/SsiPcieCore/software/driver/SsiPcie.c:129-149 | a write is refused iff its 32-bit byte count exceeds the buffer, retried if no buffer is free; otherwise as many of the user's dwords as the byte count says are in the head buffer and no buffer of the hardware changes |
| `SsiDriver.Transmit.Post` | firmware/common/SsiPcieCore/software/driver/SsiPcie.c:156-178 | the descriptor names lane, channel, length and address of the head buffer; the hardware is to send that many of its dwords |
| `SsiDriver.Transmit.Write` | firmware/common/SsiPcieCore/software/driver/SsiPcie.c:129-181 | the whole write: the hardware is to send the user's dwords, as many as the length field says, or nothing has changed |
| `SsiDriver.Transmit.HwComplete` | firmware/common/SsiPcieCore/software/driver/SsiPcie.c:170-181 | until completion the buffer holds what was posted |
| `SsiDriver.Transmit.Irq` | firmware/common/SsiPcieCore/software/driver/SsiPcie.c:552-590 | every completed buffer returns to the queue once, in order, also those completed before any read of the loop |
| `SsiDriver.Receive.Begin` | firmware/common/SsiPcieCore/software/driver/SsiPcie.c:237-296 | a read delivers the oldest unread frame, cut to the user's size with the error bit set if it was longer |
| `SsiDriver.Receive.Post` | firmware/common/SsiPcieCore/software/driver/SsiPcie.c:298-299 | the buffer goes back to the lane it came from |
| `SsiDriver.Receive.Collect` | firmware/common/SsiPcieCore/software/driver/SsiPcie.c:601-642 | a completion queues its frame for the user, or returns the buffer if the device is not open |
| `SsiDriver.Receive.Irq` | firmware/common/SsiPcieCore/software/driver/SsiPcie.c:592-647 | all completions, also those that arrive before any read of the loop, are collected once and in order |
| `Bits.OrAdds` | software/PromLoader/McsRead.cpp:281 | or is addition where the operands share no bits |
| `IntelHex.RoundTrip` | software/PromLoader/McsRead.cpp:151-372 | parsing a printed Data, Extended Linear Address or End of File record gives the record |
| `IntelHex.OneWrongByte` | software/PromLoader/McsRead.cpp:239-355 | a data or address record with one wrong byte, other than count and type, is refused |
| `IntelHex.ParseHex` | software/PromLoader/McsRead.cpp:178-236 | a line of hex digits of either case is judged by the bytes its count covers alone, and refused if the count is above 16 |
| `IntelHex.EndOfFileSums` | software/PromLoader/McsRead.cpp:288-308 | the bytes of an accepted End Of File record sum to 0 modulo 256 iff its data do |
| `IntelHex.EndOfFileUnsummed` | software/PromLoader/McsRead.cpp:288-308 | an accepted End Of File record whose bytes sum to 0x101 |
| `McsReader.Collect` | software/PromLoader/McsRead.cpp:251-258 | the loop that collects and sums the data bytes |
| `McsReader.McsRead.Next` | software/PromLoader/McsRead.cpp:151-372 | the next line is read as its meaning says: status, buffered bytes with addresses, base address, end flag; a refused line changes nothing else |
| `McsReader.McsRead.Read` | software/PromLoader/McsRead.cpp:112-148 | read returns the next byte of what is left of the file, or how the file ends |
| `McsReader.PrintedContents` | software/PromLoader/McsRead.cpp:112-148 | reading any printed list of records yields every byte of its data records |
| `McsReader.AddressExact` | software/PromLoader/McsRead.cpp:279-283 | a data record's bytes get base + offset + index iff the offset is a multiple of the least power of two that is at least the length |
| `McsReader.UnalignedRecord` | software/PromLoader/McsRead.cpp:279-283 | a 16-byte record at offset 8 is read with address 8 for its ninth byte |
| `McsReader.ReadInvertsPrint` | software/PromLoader/McsRead.cpp:112-372 | for every image, reading its file returns the image byte by byte at addresses 0, 1, 2, ... and then the end |
| `PromLoader.EraseBootProm` | software/PromLoader/EvrCardG2Prom.cpp:156-208 | a word is erased iff its block is not behind the one of promSize_; the newer PROM is erased as a whole |
| `PromLoader.AttemptHarmless` | software/PromLoader/EvrCardG2Prom.cpp:464-490 | an attempt that fails half-way does not change what the repeated command leaves |
| `PromLoader.Flash.Program` | software/PromLoader/EvrCardG2Prom.cpp:441-518 | a buffered program command, retried any number of times, ands each data word into the word it addresses if the device can program these words at once; otherwise nothing is known |
| `PromLoader.Latch` | software/PromLoader/EvrCardG2Prom.cpp:259-268 | after every word the full blocks so far are programmed, each word once at its own address, and the buffers hold the rest |
| `PromLoader.Flush` | software/PromLoader/EvrCardG2Prom.cpp:281-289 | what a short last block really programs |
| `PromLoader.MergeBytes` | software/PromLoader/EvrCardG2Prom.cpp:250-257 | the word is the first byte plus 256 times the second |
| `PromLoader.BufferedWriteBootProm` | software/PromLoader/EvrCardG2Prom.cpp:212-293 | true iff the file opens and ends with its End of File record, an exception of the reader passes through; the flash then is the old one with the file's words programmed in order or, if the file fails, its full blocks before the failure |
| `PromLoader.VerifyBootProm` | software/PromLoader/EvrCardG2Prom.cpp:296-360 | true iff the file cannot be opened, or ends properly and the flash holds every word of it; an exception passes through if no word before it differs |
| `PromLoader.WordsWritten` | software/PromLoader/EvrCardG2Prom.cpp:212-293 | in erased flash, writing whole blocks, or at least 255 words with a device that programs anywhere, leaves exactly the words and touches nothing behind them |
| `PromLoader.PaddingHarmless` | software/PromLoader/EvrCardG2Prom.cpp:281-289 | writing is right for all buffer contents and whatever the device does with commands it is not made for iff the words fill whole blocks or, on a device that programs anywhere, number at least 255 |
| `PromLoader.StaleSlot` | software/PromLoader/EvrCardG2Prom.cpp:283-285 | buffer contents for which a shorter file loses a word |
| `PromLoader.TwoRanges` | software/PromLoader/EvrCardG2Prom.cpp:281-289 | a short last block whose command names two ranges of 256 words, with a device for which a word is lost |
| `PromLoader.OddLength` | software/PromLoader/EvrCardG2Prom.cpp:242-257 | the words of a file of odd length are those of the file padded with 0xFF iff its last byte is 0xFF |
| `PromLoader.PromLoad` | software/PromLoader/PromLoad.cpp:68-120 | erase, write, verify, for any file: success means that the flash holds every word of it; the file of an image that fits is a success, and the flash holds the image |

## Left out

- RxDma.Engine.Clock: frames longer than the buffer minus five dwords, and frames without SOF, clear `legal`; for these see `RxLimit` and `RxDump`.
- RxLimit.LimitedEngine.Clock: nothing is claimed of what follows a frame that was cut off, whose remaining beats are dumped.
- RxPath.ReceivePath.Copied: for frames that fit; the frames of `RxLimit` are not composed with the cutter and the controller.
- RxDump.Dump: nothing is claimed of what the engine makes of a descriptor left behind.
- RxService.Drive: counts clocks in which the sink takes what it is shown; how often the arbiter does is left to its other sources.
- TxProgress.EveryDescriptorEnds: counts clocks in which the host answers if it owes anything.
- RxReadout.Readout.Irq: that a completion's words are those in memory at its address is taken from the hardware's side, where `RxDelivery.Delivered` shows it.
- TlpCtrl.Controller.Clock: the turn-off handshake, the BAR decoding of tDest and the pending-transaction output are not modelled.
- TxCollector.Collector.Clock: completions that do not start a request with a header beat or bring more than was asked for clear `legal`; stray beats while idle are dropped as in the code.
- TxRequester.Requester.Clock: a descriptor of length 0 clears `legal`; its request is `TxRequester.AskForNothing`, and nothing is claimed of what follows it.
- TlpInbound.Arbiter.Clock: register replies and read requests can keep receive packets waiting for ever, as in the code; no fairness is claimed.
- RxDesc.Controller.Clock: the statistics counter, the repeated-descriptor flag and the interrupt request are not modelled; the FIFOs are not reset, and the almost-full flag leaves room for one more entry.
- TprWake.Waker.Leave: waking itself (`wake_up`) and sleeping are the flag; a flag left set by an earlier use of a node is allowed.
- TprDma.Device.HandleDma: time stamps and counters are left out; the hardware is assumed to end every buffer with an end tag, as `TprDma.FilledIsGood` shows of well-formed messages.
- TprHandler.Handler.Handle: no client comes, goes or reads meanwhile; for that see `TprWake`. Enabling the interrupt again is left out.
- SsiDriver.Transmit.Begin: sleeping, signals and the debug output are left out; a failed copy is a parameter.
- McsReader.McsRead.Next: `sscanf` is any function that reads two hex digits as their value; that it leaves its result unset on other text is not modelled. An exception of `line.at` is a status.
- McsReader: `startAddr`, `endAddr` and `addrSize` are not modelled; the loader only prints their result.
- PromLoader.PromLoad: progress output, sleeps and status polling are left out, and so are the checks of the file name and the firmware version before it; a file that cannot be opened is modelled in writing and verifying. The address counter of erasing does not wrap.
- PromLoader.Flash.Program: a device retries finitely often, and a failed attempt has cleared some of the bits to be cleared and no others.
- Resets (`pciRst`) are left out: a machine starts from its initial registers and runs for ever.
- 64-bit queue pointers and 32-bit statistics do not wrap.
- Byte enables inside a dword: a lane is kept iff its four are set, which is all the firmware looks at.
- The transmit descriptor controller, the interrupt controller, the outbound switch and the AXI-Lite master would only add easier machines.
- `mmap`, `poll`, `ioctl`, module loading and page faults are foreign calls.
- The vendor's FIFOs, the GTX, the clocking and the trigger logic are not part of this model.
