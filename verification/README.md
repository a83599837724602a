# Slot timing and hand-over of the OAI softmodems, modelled in Dafny

The executables of OpenAirInterface move samples between radios and signal-processing threads
once per slot. This project models that machinery and proves what it keeps over whole runs,
in every interleaving of the threads. Three kinds of code are modelled, each in the form the
source has it:

- Loops and in-place updates are methods and classes (`RxRf`, `RU_write`, `nrue_ru_set_freq`, ...),
  each proved equal to a function of the old state or to a stated property.
- Threads that share queues, counters or condition variables are state machines. A step is one
  lock-protected section or one queue operation, and a run is any sequence of enabled steps.
- Arithmetic helpers are functions, proved against simple reference definitions.

Integers are unbounded. A radio is a counter: reading n samples returns the old position and
advances it by n; drift is an arbitrary jump. Other foreign code enters only through its sample
counts, packet tags and return values, which are arbitrary parameters.

| module | source | subject |
|---|---|---|
| SlotGrid | nr_parms.c | slot lengths, slot starts, slot of a timestamp |
| TxAhead | nr-ru.c, lte-enb.c, lte-ru.c | from receive slot to transmit slot |
| RfClock | nr-ru.c | rx_rf: clock drift, the frame and slot counters, and what is transmitted from them |
| SlotPipeline | nr-ru.c, nr-gnb.c | the RU, TX and RX threads of the gNB |
| UeStream | nr-ue.c | sample-accurate reads and writes of the UE |
| WriteReorder, WriteOrder | common_lib.c | the reorder queue, its two locks, and when writes leave it in order |
| UeTransmit | nr-ue.c, common_lib.c | from the UE main loop through the reorder queue to the radio |
| UeSlots | nr-ue.c | absolute slots across resynchronisations |
| DynamicBarrier, UeBarriers, UeBarrierRuns, UeBarrierBalance | barrier.c, nr-ue.c, phy_procedures_nr_ue.c | ordering of the UE's transmit jobs, HARQ waits |
| RadioBank | nr-ue-ru.c, nr-uesoftmodem.c | ownership of radios, lockstep reading |
| If4p5 | lte-ru.c | out-of-order symbol collection |
| FrameUnwrap | lte-ru.c | frame-number unwrapping |
| LateBurst | lte-ru.c | the late-burst fail-safe |
| L1Handover | lte-enb.c | L1 receive to L1 transmit hand-over |

The UE results compose. `RadioBank.NoTimeJump` justifies the counter that `UeStream` reads from.
`UeBarrierRuns.TxSlotsInOrder` starts the transmit jobs in slot order. `UeStream.Transmit` shows that
their writes lie end to end. `UeTransmit.RadioOrderExact` says exactly when these writes reach the
radio in order in every interleaving of the uplink actors' calls that begins with the first write, and
`UeTransmit.RadioOrderWhoeverBegins` what is needed besides when any call may begin first.

Some properties one might expect do not hold of the code. Each has its exact condition here:

- `rx_rf` adds one to the frame counter without reducing it modulo 1024 when the first alignment
  leaves frame 1023. Such a run exits at its second reception; no other run exits
  (`RfClock.ReceiveRun`).
- An aligning first reception moves the time but not `frame_rx` and `tti_rx`. The slot transmitted
  from it gets the time of one slot and the number of the slot before. All other slots are right
  (`RfClock.TransmitRun`).
- The UE charges one join per block, to a ring with an entry per slot of a frame, and the decoder joins
  once per codeword. Every run is safe and prompt exactly when every block to be acknowledged has one
  codeword and d <= k1 < d + slots per frame (`UeBarrierBalance.PlansExact`). With two codewords a slot
  can start before its predecessor has joined (`UeBarrierRuns.OvertakesPredecessor`).
- Writes leave the reorder queue in order in every interleaving that begins with the first exactly when
  every write but the last that is shorter than 100 samples belongs to a slot that overlaps no other
  slot (`WriteOrder.OrderExact`). A timing advance lowered by 1 to 99 samples breaks this
  (`UeTransmit.SmallChangeOvertaken`). The code lets a later slot's job call first; order then needs the
  first slot to overlap no other either (`WriteOrder.FirstCallMatters`).
- A write that is next in time can be left in the queue with no call under way to take it. This comes
  about exactly when a second try of the write lock fails between the holder's last scan and its release
  (`WriteReorder.LostExactly`).
- The unwrapped timestamp measures elapsed time exactly when no frame 0, subframe 0 is skipped
  (`FrameUnwrap.UnwrapExact`).
- `L1_thread` gives its counter back before it reads the fields it passes to `wakeup_tx`. A wake-up
  taken in between that changes a field still to be read makes the finished subframe's hand-over
  wrong; otherwise the hand-over is exact (`L1Handover.PassedOnInOrder`,
  `L1Handover.OvertakenIsLost`).
- An IF4p5 symbol number beyond the subframe's symbols completes the subframe early, because masks
  are compared as numbers (`If4p5.CompleteMeans`).

No proof uses automatic induction: every lemma turns it off.

## Model

| member | source | states |
|---|---|---|
| SlotGrid.InitFrameParms | openair1/PHY/INIT/nr_parms.c:312-318 | The frame parameters computed from the symbol sizes satisfy the grid identity: a half subframe is one long slot followed by ordinary ones |
| SlotGrid.SlotIsSymbols | openair1/PHY/INIT/nr_parms.c:312-318 | Every slot is as long as its symbols together: a first symbol, with the long prefix exactly where half a subframe begins, and ordinary ones; a second long one at numerology 0 |
| SlotGrid.SlotTimestampIsStart | openair1/PHY/INIT/nr_parms.c:248-270 | The closed form for a slot's start equals the sum of all earlier slot lengths, for every slot index, inside and beyond the frame |
| SlotGrid.StartInFrame | openair1/PHY/INIT/nr_parms.c:272-278 | Slot m * slotsPerFrame + r starts m frames after slot r and has its length and first symbol, so durations across frames are sums of slot lengths |
| SlotGrid.SlotFromTimestampContains | openair1/PHY/INIT/nr_parms.c:219-246 | For every timestamp the slot returned is in the frame and its interval contains the frame offset |
| SlotGrid.SameSlot | openair1/PHY/INIT/nr_parms.c:219-246 | No sample lies in two slots, so that slot is the only one |
| SlotGrid.SlotStartRecognised | openair1/PHY/INIT/nr_parms.c:219-246 | From the start of any absolute slot the frame and slot numbers come back |
| TxAhead.ComparisonExact | executables/nr-ru.c:943-944 | The formula that detects the wrap by rx > tx is addition modulo 1024 frames if and only if the whole frames looked ahead vanish modulo 1024; always for less than a frame |
| TxAhead.ThresholdExact | executables/lte-enb.c:407-408 | The formula that detects the wrap by rx > last - ahead is that addition if and only if the sum crosses no frame end, or one modulo 1024; always for up to a frame |
| TxAhead.LaterTick | executables/lte-enb.c:552-556 | Looking ahead from the numbers of an absolute slot gives the numbers of the slot looked ahead to, across any number of frame wraps |
| TxAhead.TxTimestamp | executables/nr-ru.c:940-942 | The loop adds the lengths of the slots from the receive slot on |
| TxAhead.LengthsBetweenStarts | executables/nr-ru.c:940-942 | Those lengths lead from the start of any absolute slot with that number to the start of the slot looked ahead to |
| RfClock.RuProc.ReceiveSlot | executables/nr-ru.c:341-444 | One turn of the receive loop, counters included, is the modelled transition of all eight timing fields |
| RfClock.RuProc.TransmitSlot | executables/nr-ru.c:940-944 | The timestamp, slot and frame computed for transmission are the modelled function of the receive fields |
| RfClock.RuProc.AdvanceCounters | executables/nr-ru.c:907-913 | The local frame and slot counters move on by one slot |
| RfClock.RuProc.ReadSamples | executables/nr-ru.c:355-377 | The deviation from one slot is added to ts_offset and taken out of the logical time; DeviceTime says what the two amount to |
| RfClock.RuProc.AlignToBoundary | executables/nr-ru.c:426-443 | The first reception moves time and counters to the next slot boundary |
| RfClock.PreviousSlot | executables/nr-ru.c:367-369 | The length looked up for slot - 1, including -1, is that of the slot before |
| RfClock.TimeAdvances | executables/nr-ru.c:366-386 | Whatever the device returns and whatever the frame counter says, time moves to the next slot of the grid and frame_rx and tti_rx name it |
| RfClock.DriftAbsorbed | executables/nr-ru.c:366-377 | A state on the grid moves to the next slot of the grid, counters included |
| RfClock.ExitsExactly | executables/nr-ru.c:400-420 | A reception after the first exits if and only if the slot its time lies in is not the one the counters name |
| RfClock.SampleSlot | executables/nr-ru.c:385-386 | The frame and slot computed from a time are those of the absolute slot that holds it |
| RfClock.FirstReception | executables/nr-ru.c:421-444 | The first reception lands on a slot boundary; the counters are right unless alignment left frame 1023, where the frame reads 1024; frame_rx and tti_rx stay those of the slot the sample was in |
| RfClock.ReceiveRun | executables/nr-ru.c:400-420 | Over every run and all device timestamps: time is the start of the slot the counters name and no mismatch exit is taken, unless the first sample lies inside the last slot of frame 1023; then the second reception exits |
| RfClock.CrossingHappens | executables/nr-ru.c:439-442 | The exiting case is reachable for every frame layout |
| RfClock.ReceivedNumbers | executables/nr-ru.c:384-386 | Over every run the numbers passed on name the slot of the time from the second reception on, and the slot of the sample at the first |
| RfClock.DeviceTime | executables/nr-ru.c:369-376 | After any reception but the first, logical time and ts_offset add up to the device timestamp |
| RfClock.DeviceRun | executables/nr-ru.c:366-377 | Over every run ts_offset is what it was after the first reception, and from the second on the device timestamp less the start of the slot received: no drift is lost |
| RfClock.WrittenOnTime | executables/nr-ru.c:565-570 | Over every run from the second reception on, whatever the drift, a slot is written at the device timestamp of the slot received plus the lengths of the slots looked ahead |
| RfClock.TransmitRun | executables/nr-ru.c:940-944 | Over every run, reception i is followed by transmission with the time, frame and slot of the slot looked ahead to if and only if i >= 2 or the first sample lay on a slot boundary (and whole frames looked ahead vanish modulo 1024) |
| RfClock.FirstTransmitWrong | executables/nr-ru.c:421-444 | The failing input: a first sample one past the start of slot 0 |
| SlotPipeline.WaitFreeRxTti | executables/nr-ru.c:778-801 | Completions are read up to the first one for the wanted buffer, each frees its buffer, the wanted one is then marked; false only if the queue gives out, all its completions freed |
| SlotPipeline.PullsAreDrain | executables/nr-ru.c:786-796 | The pull steps of the protocol compute what that loop computes |
| SlotPipeline.ReadIsWaitFree | executables/nr-ru.c:962-965 | From the read of any uplink slot on, the steps of the protocol compute wait_free_rx_tti, granted at once, granted after completions or aborted |
| SlotPipeline.WorkersMoveJobs | executables/nr-gnb.c:130-205 | Steps of the TX and RX threads never change how many jobs use a buffer |
| SlotPipeline.InvKept | executables/nr-ru.c:961-1002 | Every step of every thread keeps: a buffer has exactly one uplink job in flight, unread completions included, if it is marked busy, and none otherwise |
| SlotPipeline.BufferExclusion | executables/nr-ru.c:961-1002 | In every state of every run the buffer being filled is held by no other job, in particular not by the RX thread, and at most four uplink jobs exist |
| SlotPipeline.UntriggeredStep | executables/nr-ru.c:993-1002 | Of all steps only reading a slot adds a job, at the end, and only triggering takes one, the first, from those read and not triggered |
| SlotPipeline.TriggeredStep | executables/nr-gnb.c:113-205 | Of all steps only triggering adds a job, at the end, and only finishing takes one, the first, from those triggered and not finished |
| SlotPipeline.JobsInOrder | executables/nr-ru.c:993-1002 | In every run the jobs triggered, and those the RX thread finished, are the slots read, uplink or not, each once, in order and with their own frame and slot, up to those in hand; the RU thread reads back the uplink ones in order; each job triggered is sent before the next |
| SlotPipeline.WaitsExactly | executables/nr-ru.c:780-781 | In every state of every run a slot read waits if and only if it is an uplink slot and the pipeline holds an uplink job whose slot differs by a multiple of four |
| SlotPipeline.WaitNotStuck | executables/nr-ru.c:781-797 | While the RU thread waits, the wanted job is in the pipeline and some thread can step |
| SlotPipeline.WaitUsesWork | executables/nr-gnb.c:113-144 | While the RU thread waits, every step of any thread decreases a measure over queues and stages |
| SlotPipeline.WaitEnds | executables/nr-ru.c:781-797 | A stretch of any run in which the RU thread waits is no longer than the measure at its start |
| UeStream.RuWrite | executables/nr-ue.c:339-369 | A slot's write is split into blocks end to end with the same total, none longer than a slot; an over-long one ends with a full slot |
| UeStream.BlocksLong | executables/nr-ue.c:342-349 | All blocks have at least a given length if and only if the write is empty, or the write and the slot have and the remainder modulo the slot has or is zero |
| UeStream.NearSlot | executables/nr-ue.c:342-349 | For a write below two slots: if and only if it is empty, between that length and a slot, or exceeds the slot by that length |
| UeStream.UeThread.ProcessSlot | executables/nr-ue.c:938-1009 | One slot of the loop is the modelled transition of position, timing advance, N_TA offset and slot, and the modelled write |
| UeStream.ReadAdvance | executables/nr-ue.c:705-712 | Every slot, the last included, reads its own samples one symbol ahead, less the shift |
| UeStream.WriteTimestampAt | executables/nr-ue.c:983-985 | A slot is written where its transmit slot starts on the radio's grid, less the N_TA offset and the timing advance before it |
| UeStream.NoGap | executables/nr-ue.c:983-1009 | The next write timestamp is this one plus the samples written, with timestamp and size computed from old and new advance, clamped or not |
| UeStream.GapFreeStream | executables/nr-ue.c:983-1009 | Over any run with any requests the slots' writes lie end to end |
| UeStream.EachSampleOnce | executables/nr-ue.c:983-1009 | Every sample time in such a stretch is in exactly one write |
| UeStream.WrittenTotal | executables/nr-ue.c:992-1009 | The samples written are the elapsed slots less drift shifts less the advances gained |
| UeStream.RequestApplied | executables/nr-ue.c:993-1009 | After any slot the N_TA offset asked for is in force, and the timing advance asked for too unless nothing was written |
| UeStream.LastRequestApplied | executables/nr-ue.c:999-1004 | After any run the N_TA offset is the last one asked for |
| UeStream.Transmit | executables/nr-ue.c:339-369 | Loop and RU_write together hand the radio one stream without gap or overlap: the blocks of each slot in turn |
| UeStream.OneSlotTowards | executables/nr-ue.c:1005-1009 | With a fixed timing advance and N_TA offset asked for, one slot closes the gap, or gains the whole slot writing nothing |
| UeStream.CatchUp | executables/nr-ue.c:992-1009 | After a jump of timing advance, N_TA offset or both the loop writes nothing while the jump exceeds the elapsed samples, gaining exactly those, and is at the request from the slot that makes up the difference |
| UeStream.JumpIsReached | executables/nr-ue.c:992-1009 | Every jump is reached exactly in finitely many slots |
| UeStream.FrameReadsTile | executables/nr-ue.c:938-981 | The early first symbol, the per-slot reads and the short last slot tile the frame buffer without gap or overlap, up to the shift |
| UeStream.SamplesConsumed | executables/nr-ue.c:959-981 | Over any run the radio advances by the slots processed less the shifts applied; over a frame by its samples less its shift |
| UeStream.FrameShiftIsLast | executables/nr-ue.c:959-963 | Over a frame, or its rest, the shift applied is the one pending in the last slot |
| WriteReorder.NothingReady | radio/COMMON/common_lib.c:174-210 | When the scans end no write in the queue is next in time |
| WriteReorder.ReOrder.Enqueue | radio/COMMON/common_lib.c:150-169 | The write is stored in the first free place if and only if there is one |
| WriteReorder.ReOrder.ScanOnce | radio/COMMON/common_lib.c:181-207 | One scan leaves what the scans were going to leave, and takes a write exactly if it reports so |
| WriteReorder.ReOrder.ProcessWaitingQueue | radio/COMMON/common_lib.c:174-210 | The repeated scans, and that nothing next in time is left |
| WriteReorder.ReOrder.WriteReorder | radio/COMMON/common_lib.c:217-265 | An uninterrupted call, for each outcome of the two tries of the lock, on any stream |
| WriteReorder.CallEndsAtLast | radio/COMMON/common_lib.c:204-250 | After any call the next time is the end of the last write out, wherever that started |
| WriteReorder.TakenWithinGap | radio/COMMON/common_lib.c:232-250 | A call that has the lock puts its write out at once if and only if it is the first or starts less than 100 samples before or after the next time |
| WriteReorder.ScansAreScanned | radio/COMMON/common_lib.c:174-210 | The scan steps of the protocol compute those scans |
| WriteReorder.RunEndsAtLast | radio/COMMON/common_lib.c:204-250 | The same in every state of every interleaving of calls |
| WriteReorder.RefusedWhenFull | radio/COMMON/common_lib.c:154-167 | In every run a call that has to store is refused if and only if twenty writes wait |
| WriteReorder.LockKept | radio/COMMON/common_lib.c:238-263 | Every step of every call keeps: mutex_write is held by exactly the call that stores with it, scans or is about to release it |
| WriteReorder.LostExactly | radio/COMMON/common_lib.c:255-263 | A step leaves a write that is next in time with no call to look for it if and only if it is a failing second try against a holder past its last scan, with nobody else to look |
| WriteReorder.WaitsOnlyIfLost | radio/COMMON/common_lib.c:255-263 | In every run, if nobody will look and a write that is next waits, such a step was taken |
| WriteOrder.LostWakeUp | radio/COMMON/common_lib.c:238-263 | If the slots of the first two writes overlap, a run ends with the second write waiting, although it is next and all calls begun have ended |
| WriteOrder.InvKept | radio/COMMON/common_lib.c:217-265 | If short writes are isolated every step of every call keeps: what is out is a prefix of the stream, every write given over and not out is in the queue once, and an isolated call ends with its write out |
| WriteOrder.InOrder | radio/COMMON/common_lib.c:217-265 | Then this holds in every interleaving that begins with the first write |
| WriteOrder.OutOfOrder | radio/COMMON/common_lib.c:240 | For every short write that is neither the last nor isolated, a run sends a later write before it, although each slot makes its calls in order and no more slots overlap than there are actors |
| WriteOrder.OrderExact | radio/COMMON/common_lib.c:217-265 | In every interleaving beginning with the first write the output is a prefix of the stream if and only if every write but the last with fewer than MAX_GAP samples is isolated |
| WriteOrder.FirstCallMatters | radio/COMMON/common_lib.c:228-236 | Whichever call begins first: if and only if besides this the first write's slot is isolated |
| UeTransmit.GroupsExact | executables/nr-ue.c:85-94 | For writes grouped by slot: in order if and only if each slot's blocks are long, up to the very last, or no slot within reach of the actors writes too |
| UeTransmit.RadioOrderExact | executables/nr-ue.c:339-369 | For every run of the UE loop and any number of actors: the blocks reach the radio in order in every interleaving beginning with the first if and only if every slot's write is cut into blocks of at least MAX_GAP samples, or is the last and not cut, or no slot within reach of the actors writes too |
| UeTransmit.RadioOrderWhoeverBegins | executables/nr-ue.c:425-444 | Whichever slot's job calls first: if and only if besides this no slot within reach of the first that writes does |
| UeTransmit.SmallChangeOvertaken | executables/nr-ue.c:992-1009 | A write that exceeds its slot by 1 to 99 samples is overtaken in some interleaving, if a slot within reach writes too |
| UeSlots.ResyncIsLeastLaterFrame | executables/nr-ue.c:864-871 | The next slot starts the least absolute frame after the previous one with the number following the decoded frame, and the counter does not go back |
| UeSlots.NumbersRecompose | executables/nr-ue.c:918-923 | Hyperframe, frame and slot numbers recompose to the absolute slot |
| UeSlots.NeverBack | executables/nr-ue.c:864-907 | Over any run of slots and resynchronisations each slot gets a later number than all before |
| UeSlots.Consecutive | executables/nr-ue.c:907-907 | Without a resynchronisation slots are numbered one after the other |
| UeSlots.AfterResync | executables/nr-ue.c:864-923 | The i-th slot after a resynchronisation has slot number i modulo the slots of a frame, in the frame i / n after the start frame, counted over hyperframes |
| UeSlots.SlotCounter.Resynchronise | executables/nr-ue.c:864-871 | The counter takes that value |
| UeSlots.SlotCounter.Next | executables/nr-ue.c:907-923 | The receive triple is the one triple in range that recomposes to the counter, the transmit triple that of the counter plus the receive-to-transmit distance |
| DynamicBarrier.JoinsThenUpdate | common/utils/barrier/barrier.c:44-58 | Joins before the update: the job starts at once exactly if all are there |
| DynamicBarrier.UpdateThenJoins | common/utils/barrier/barrier.c:27-42 | Joins after the update: the job starts at exactly the last one, and the barrier is fresh again |
| DynamicBarrier.OvershotNeverStarts | common/utils/barrier/barrier.c:32-33 | A barrier with its number of joins reached or passed while armed never starts its job, however many joins follow |
| DynamicBarrier.ArmedTooLate | common/utils/barrier/barrier.c:48-55 | Nor does one armed for fewer joins than it has had |
| DynamicBarrier.StoredJobStays | common/utils/barrier/barrier.c:48-50 | A job started by an update leaves an earlier one stored; that one starts at its own number of joins |
| DynamicBarrier.SlotBarrier.Join | common/utils/barrier/barrier.c:27-42 | The new state and the job started, if any |
| DynamicBarrier.SlotBarrier.Update | common/utils/barrier/barrier.c:44-58 | The new state and the job started, if any |
| DynamicBarrier.ProcessSlotTx | executables/nr-ue.c:391-444 | On every path the next slot's barrier is joined exactly once |
| UeBarriers.IndicesAgree | executables/nr-ue.c:1049-1056 | The barrier computed from frame and slot numbers, and the one a decoder joins, are those of the absolute slot |
| UeBarriers.ChargedSlot | executables/nr-ue.c:561-563 | The slot charged for a block lies in the frame of transmit slots beginning with its own, has the ring place computed, and is the acknowledging slot if and only if d <= k1 < d + slots per frame |
| UeBarriers.RingKept | executables/nr-ue.c:1054-1063 | Every step keeps the ring equal to the blocks charged to the next frame of transmit slots, for all offsets and codeword counts |
| UeBarriers.ChargedExactly | executables/nr-ue.c:1056-1063 | On every run the count a slot is armed with is the number of blocks charged to it, and no later block adds to it |
| UeBarriers.ChargesAreAcks | executables/nr-ue.c:558-564 | Every slot is charged for exactly the blocks it acknowledges if and only if every offset is in range |
| UeBarriers.InvKept | executables/nr-ue.c:1049-1061 | Every step of the main thread, a decoder or a transmit job that makes no surplus join keeps: each barrier holds exactly the joins of one unstarted slot, and started slots have had all joins charged |
| UeBarriers.ArmKeeps | executables/nr-ue.c:1054-1061 | Arming a slot keeps it |
| UeBarriers.DecodeKeeps | openair1/SCHED_NR_UE/phy_procedures_nr_ue.c:764-768 | A decoder's first join for a block in range keeps it, before or after the slot is armed |
| UeBarriers.TxJoinKeeps | executables/nr-ue.c:438-443 | A transmit job's join keeps it |
| UeBarriers.PreprocessKeeps | executables/nr-ue.c:558-564 | Counting a block into the ring keeps it, whatever its offset and codewords |
| UeBarrierRuns.TxSlotsInOrder | executables/nr-ue.c:1049-1061 | In every state of every run with one codeword per block and offsets in range: started slots are consecutive, each once; all but the last have joined; every block they acknowledge is decoded; and every armed slot whose predecessor and blocks are done has started |
| UeBarrierRuns.NoStall | executables/nr-ue.c:1056-1059 | An armed slot whose predecessor has joined, with all joins charged made, has started |
| UeBarrierRuns.StallAtOffset13 | executables/nr-ue.c:561-563 | The input: ten slots per frame, distance 3, offset 13; everything is decoded and the first slot waits |
| UeBarrierRuns.StartsHalfDecoded | openair1/SCHED_NR_UE/phy_procedures_nr_ue.c:1189-1258 | Every sequence of blocks with a two-codeword block has a run that starts the acknowledging slot after one codeword |
| UeBarrierRuns.CodewordsExact | openair1/SCHED_NR_UE/phy_procedures_nr_ue.c:1189-1258 | With offsets in range, every run is safe if and only if every block to be acknowledged has one codeword |
| UeBarrierRuns.OvertakesPredecessor | openair1/SCHED_NR_UE/phy_procedures_nr_ue.c:764-768 | With a two-codeword block for a slot other than the first, a run starts that slot while its predecessor has not joined |
| UeBarrierBalance.Unbalanced | executables/nr-ue.c:558-564 | With a two-codeword block or an offset out of range, some slot gets other joins than it is charged |
| UeBarrierBalance.StallRun | executables/nr-ue.c:1049-1061 | Then a run stalls: a slot does not start although its predecessor has joined and its blocks are decoded |
| UeBarrierBalance.PlansExact | executables/nr-ue.c:1049-1061 | For every sequence of blocks the MAC lets through, all runs are prompt, and all are safe and prompt, if and only if every block to be acknowledged has one codeword and an offset in range |
| RadioBank.AssignCells | executables/nr-uesoftmodem.c:306-318 | Succeeds if and only if all cells have existing, distinct RUs; then cells and RUs correspond |
| RadioBank.AssignUes | executables/nr-uesoftmodem.c:325-369 | Succeeds if and only if there are cells enough; then UEs, cells and cards correspond, UE i has cell i and no carrier has changed |
| RadioBank.Setup | executables/nr-uesoftmodem.c:306-409 | Both loops together establish ownership, exactly when both conditions hold, with UE i on the RU of cell i and no carrier changed |
| RadioBank.OwnershipIsExclusive | executables/nr-uesoftmodem.c:339-344 | Ownership means distinct RUs per cell, distinct cells per UE, distinct cards |
| RadioBank.NearestUnique | executables/nr-ue-ru.c:383-400 | Nearest of own and free RUs, own on ties, lowest number otherwise, determines the choice |
| RadioBank.DistanceAdds | executables/nr-ue-ru.c:377-398 | A cell right in one carrier is as far as it is off in the other, and the distances of the two carriers add |
| RadioBank.RetuneKeepsOwnership | executables/nr-ue-ru.c:402-404 | Moving to the chosen RU keeps ownership and all cells' RUs and carriers |
| RadioBank.ExactCarriersFound | executables/nr-ue-ru.c:377-404 | If the UE's own or a free RU has a cell on exactly the wanted carriers, the UE's cell has them after the retune |
| RadioBank.Radios.SetFreq | executables/nr-ue-ru.c:373-404 | The search loop makes that choice and the update keeps ownership |
| RadioBank.Radios.Read | executables/nr-ue-ru.c:435-473 | The UE's device, and for UE 0 every free one, advances by the samples read, the others not; the timestamp is relative to the device's first |
| RadioBank.ReadReaches | executables/nr-ue-ru.c:435-473 | With any number of UEs: a read advances the reader's radio, and UE 0's also every free one; the radios of other UEs, of no cell, and free ones when another UE reads, stay |
| RadioBank.Lockstep | executables/nr-ue-ru.c:449-470 | With one UE and any retunes, every RU that has a cell has consumed the same samples |
| RadioBank.NoTimeJump | executables/nr-ue-ru.c:437-444 | Every read's timestamp is the sum of all earlier read sizes, even after a change of RU |
| If4p5.CompleteMeans | executables/lte-ru.c:184-209 | The numeric mask test means all wanted symbols are there or a bit beyond them is |
| If4p5.CollectedExactly | executables/lte-ru.c:196-198 | Each subframe's mask holds exactly the symbols received for it, whatever the interleaving |
| If4p5.ReadsShortestPrefix | executables/lte-ru.c:190-209 | A call reads the shortest prefix that completes the expected subframe; the last packet is of that subframe and gives the frame |
| If4p5.DeliversExpected | executables/lte-ru.c:181-259 | A call that returns reports the expected subframe, complete, and the frame of the last packet read, or the caller's when none is read; it clears the mask and leaves the others with what was received |
| If4p5.TurnReportsNext | executables/lte-ru.c:228-233 | The subframe-resync branch is dead: the counters stand at the next subframe after every call |
| If4p5.CyclicOrder | executables/lte-ru.c:1617-1629 | Successive calls deliver subframes in cyclic order over frames and subframes, for all packet streams |
| If4p5.FhIf4p5SouthIn | executables/lte-ru.c:171-259 | The loop on the mask array computes that call |
| FrameUnwrap.ElapsedCount | executables/lte-ru.c:439-445 | Between any two receptions the subframe count grows by the subframes elapsed less one wrap per skipped frame 0, subframe 0 |
| FrameUnwrap.UnwrapExact | executables/lte-ru.c:439-445 | Timestamps differ by elapsed subframes times samples if and only if none was skipped |
| FrameUnwrap.CountModulo | executables/lte-ru.c:443-445 | Modulo a wrap the count is the subframe itself, for every sequence of receptions |
| FrameUnwrap.NorthReceiver.Receive | executables/lte-ru.c:440-445 | The unwrap offset and the timestamp after a reception |
| LateBurst.StateRecordsActions | executables/lte-ru.c:686-715 | The state tells which of the end and the two suppressed sends came last |
| LateBurst.RestartPattern | executables/lte-ru.c:686-715 | Under any faults a restart comes right after one end without time and exactly two suppressed sends |
| LateBurst.Countdown | executables/lte-ru.c:686-715 | Unless a fault is acted on, each downlink or special call brings normal operation one nearer, ignored short writes included |
| LateBurst.ResumesAfterFour | executables/lte-ru.c:548-551 | After the last fault acted on, operation is normal if and only if four such calls have passed, whatever short writes are ignored in between |
| LateBurst.NormalSends | executables/lte-ru.c:651-672 | As long as no fault is acted on, every downlink or special call sends with its own burst flag |
| LateBurst.FailSafe.RxRf | executables/lte-ru.c:548-551 | A short read starts the sequence, from any state |
| LateBurst.FailSafe.TxRf | executables/lte-ru.c:648-748 | The new state and what is sent, for every state and subframe type |
| L1Handover.InvKept | executables/lte-enb.c:485-518 | Every step keeps: all subframes handed over are processed but the one in the mailbox, and a sleeper has something to wait for |
| L1Handover.ProcessedInOrder | executables/lte-enb.c:256-301 | In every run each subframe handed over is processed once, in order, with its own fields |
| L1Handover.FieldsStable | executables/lte-enb.c:499-510 | The fields never change while they are processed |
| L1Handover.NeverDeadlocked | executables/lte-enb.c:499-514 | No wake-up is lost, spurious ones included: some thread can step while work is outstanding |
| L1Handover.StepsUseWork | executables/lte-enb.c:267-301 | Every such step decreases a measure |
| L1Handover.Settles | executables/lte-enb.c:256-301 | A stretch of any run without new calls has at most as many such steps as the measure at its start plus its spurious wake-ups |
| L1Handover.PassedOnInOrder | executables/lte-enb.c:354-375 | As long as no wake-up changes a field still to be read, every subframe taken by wakeup_rxtx is passed on once, in order, with its own fields, in whatever order they are read |
| L1Handover.OvertakenIsLost | executables/lte-enb.c:372-375 | After the first that does, what is passed on next is not the finished subframe, so it is no longer a prefix of what was taken |
| L1Handover.LostAndDoubled | executables/lte-enb.c:521-556 | A run in which one subframe is lost and the next handed over twice |
| L1Handover.Torn | executables/lte-enb.c:372-375 | A run in which a mixture of two subframes is handed over |
| L1Handover.EndToEnd | executables/lte-enb.c:485-570 | As long as none overtakes, what the transmit thread processes is a prefix of the subframes wakeup_rxtx took, uplink ones left out |

## Left out

- Radio and Ethernet device calls, IF4p5 wire formats, DFT, precoding and PHY procedures: foreign code; only sample counts and packet tags are kept.
- NTN configuration (apply_ntn_config), sidelink, AGC and frequency-offset compensation: the receive-to-transmit distance is fixed and timing-advance targets are arbitrary inputs.
- The NR fh_if4p5 receivers of nr-ru.c: their full-symbol mask stays zero, so they promise nothing about completion.
- LTE frame resynchronisation (RU_FRAME_RESYNCH, WAIT_RESYNCH), slave synchronisation and PRACH queues: more cases, little depth.
- LTE rx_rf drift handling and executables/lte-ue.c: the NR argument with constant slot lengths.
- wakeup_txfh and its timeout: the transmit thread's hand-over to the fronthaul is not modelled.
- nrue_ru_write: writes the same samples to the UE's device and all free ones; no state changes.
- Shutdown (aborted queues, oai_exit, STOP_RU), configuration, statistics and wall-clock deadlines.
- RfClock.ReceiveRun: the first device timestamp is taken to be at least ts_offset, as C's division of negative times is not modelled.
- RfClock.CrossingHappens: needs a last slot of more than one sample.
- UeBarrierRuns.TxSlotsInOrder: runs start at a resynchronisation; the main thread is at most 512 less a frame of slots ahead of the transmit jobs, which the source does not check; at most one block is received per slot.
- WriteOrder.OrderExact: a step is one section under mutex_store or one operation on mutex_write; a device write is one step with the update of nextTS, which only the lock holder makes. A call that finds the queue full stops the program, so runs end there.
- UeTransmit.RadioOrderExact: the number of uplink actors is at least one and divides the slots of a frame, as the default of two does, so that the actors take the slots in turn.
- L1Handover.PassedOnInOrder: one frame and subframe stand for the receive and transmit pairs.
- RfClock.TransmitRun: for RU 0; other RUs add a frame offset afterwards.
- RfClock.WrittenOnTime: with the ts_offset of the reception the slot is computed from and without the sf_extension lead of a burst's first slot; the TX thread reads ts_offset when it writes, which may be after later receptions.
- LateBurst.NormalSends: the flag of a call is an input; its derivation from the neighbouring subframes is not modelled.
- UeStream.JumpIsReached: after the jump the requested advance and N_TA offset stay, and drift shifts are shorter than a slot, as for CatchUp.
- If4p5.CollectedExactly: symbol numbers are below 16, because a tick overwrites the mask with 16 set bits.
- RadioBank.NoTimeJump: one UE; with more, only UE 0 reads the free radios, so the others are not kept in step.
- FrameUnwrap.UnwrapExact: covers receptions in increasing order; the symbol loop before it is not modelled.
