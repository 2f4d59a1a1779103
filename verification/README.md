# Verification of the ADALM1000 firmware

The firmware moves samples between a host and the converters of a source-measure unit. This project
models the five parts of it that hold state machines, unbounded loops or address arithmetic, and proves
what they promise for every run or every input.

* **Sampling engine** (`Sampling`, `SamplingProofs`, `SamplingFirmware`): timer interrupt, main loop,
  bulk callbacks and start request over ping-pong buffers.
* **USB control endpoint** (`Control`, `ControlProofs`, `ControlEvents`, `ControlTransfers`, `ControlDriver`): the
  SETUP / DATA / STATUS machine of the UDPHS driver.
* **USB bulk job engine** (`Bulk`, `BulkProofs`, `BulkTiling`, `BulkRuns`, `BulkLimits`, `BulkDriver`,
  `EndpointRestart`, `EndpointAlloc`): DMA windows, ZLPs, aborts, halts, callbacks and the reorganisation of endpoint memory.
* **Flash service** (`Flash`, `FlashService`): page-wise read-modify-write, lock regions, the lock query
  and the calibration table.
* **Two-wire read** (`Twi`): the polled byte loop.

Each stateful part is a state machine on values, with invariants and theorems over runs, and a class in
the shape of the C code whose methods are proved to perform the steps of that machine and to keep the
invariants of its runs (the flash service and the two-wire read are specified directly). `dafny verify dfyconfig.toml` checks everything.

## Assumptions about the surroundings

* Sampling: the PDC transfers of a tick are complete before the next tick, each start request and each
  hand-off of the main loop is one step, a start request comes with the timer stopped, the OUT packets of
  the host are full (1024 bytes), and no bus reset or re-enumeration happens while sampling.
* Control: a packet has at most 64 bytes; the USB core announces no more payload than it has and rejects
  an IN request of length 0 (`udc_process_setup` does); callbacks of the core do not touch the control state.
* Bulk: a DMA event arrives only for a window in flight and moves at most the window, less only where the
  driver allowed a short packet to end it; the end-of-transfer status bit is raised on OUT channels only;
  a bus reset clears the endpoint registers; a callback acts on its own endpoint by submitting a job or not.
* Two-wire read: the hardware completes a transfer some time after its last byte.
* Flash: a command fails on a locked region or with an arbitrary fault and then changes nothing.

## Where the code does less than one might expect

* Request 0xC5 does not clear `start_timer` (`SamplingProofs.TimerWaitsForPacketZero`).
* The IN hand-over happens two slots before the sweep ends (`SamplingProofs.EarlyFetchIsStale`).
* `b_shortpacket` is static (`ControlTransfers.EmptyInDependsOnHistory`).
* A full OUT packet cut to the rest of a payload buffer counts as a short packet, so that a buffer that is too
  short is acknowledged unless its size is a positive multiple of 64 (`ControlTransfers.OutTransfer`).
* A completion callback can run after a stall, when the next SETUP packet arrives
  (`ControlTransfers.SetupEndsRequest`).
* The remaining count of the DMA status has 16 bits, and an abort does not withdraw a pending ZLP interrupt:
  outside a reorganisation of endpoints these are the two ways, and the only ones, to a wrong report (`BulkLimits.ReportsExact`,
  `BulkLimits.CleanRunExact`). A run is called clean when neither happens.
* `call_trans` and `call_nohalt` share their storage (`BulkRuns.AbortMisfires`).
* `udd_ep_alloc` restarts jobs: the completion of a restarted job reports the bytes moved since its submission
  only if none had been moved yet (`EndpointRestart.RestartExact`, `EndpointRestart.RestartLosesBytes`). A job that
  waits for its ZLP is restarted as well, so that its last window is sent again and the old ZLP interrupt completes
  it (`EndpointRestart.RestartRepeatsWindow`), and an OUT job whose last packet has just arrived is reported
  complete without those bytes (`EndpointRestart.RestartGivesUp`). Where it gives up, it calls the callback of an
  idle job, loses a running job without one, or drops a wait (`EndpointAlloc.GaveUpKeeps`).
* `flash_write` restores the wait states exactly when no region of the range is locked and no page command faults
  (`FlashService.Service.FlashWrite`), `flash_is_locked` returns an error code where a count is expected, and
  `store_flash_table` leaves the region unlocked when its page or lock command faults.
* The documentation of the flash service speaks of two banks; the build selects the single-bank part
  sam3u2c. The address functions and the service are proved for both.

## Model

| member | source | states |
|---|---|---|
| `SamplingProofs.DacStream` | src/main.c:77-140 | after a start and any run of ticks, main-loop passes, USB words, completions, frames, stops and restarts in which each OUT transfer requested at slot 127 completes before the slot counter wraps, the DAC has played slots 0..3 of packet 0 and then the host half-words from the first on, in order; USB is never writing the row being played |
| `SamplingProofs.AdcStream` | src/main.c:82-131 | in any run in which each IN transfer completes before the next hand-over and does not overtake slots 254 and 255, the host has received the captured words from the seventh pair on, none lost or repeated, from rows 0, 1, 0, 1 |
| `SamplingProofs.CounterClosedForm` | src/main.c:114-136 | in every run, after n >= 4 pairs the four 8-bit counters and buffer indices are the stated functions of n, despite the wrap and the four-slot correction |
| `SamplingProofs.OutInvRun` | src/main.c:513-529 | the OUT hand-shake (transfer p fills row p mod 2, one at a time), the life time of each half-word in its row and the played prefix are kept by every timely run |
| `SamplingProofs.InInvRun` | src/main.c:513-518 | the IN hand-shake, the life time of each captured word and the delivered prefix are kept by every timely run |
| `SamplingProofs.DacReads` | src/main.c:91-113 | the half-word handed to the DAC in any state of such a run is the next one of the host stream |
| `SamplingProofs.NoOverwrite` | src/main.c:133-136 | while the timer runs an OUT transfer in progress targets the row that is not being played |
| `SamplingProofs.CaptureTarget` | src/main.c:84-103 | after the pre-roll a tick stores its two words exactly in the cells of the next two words of the capture stream |
| `SamplingProofs.TickWrites` | src/main.c:84-103 | an interrupt writes the two cells it names with its two words and no other cell |
| `SamplingProofs.InCellsRun` | src/main.c:82-131 | every run keeps the life time of each captured word in its cell, those of the pre-roll included |
| `SamplingProofs.SweepBijection` | src/main.c:82-131 | in every run, with no deadline, the cells the interrupts write between two flips of the input buffer are the 1024 half-words of one row, each exactly once and in ascending order, and the cell before them lies in the other row |
| `SamplingProofs.HandoverWindow` | src/main.c:117-126 | in every run, with no deadline, the tick that wraps the slot counter requests the row of the ending sweep, alternating 0, 1, 0, 1; in every continuation slots 0..253 of it hold that sweep and are not rewritten for 258 pairs, and slots 254 and 255 hold it two pairs later |
| `SamplingProofs.UsbFetches` | src/main.c:514-518 | the word an IN transfer fetches is the captured word of the same number, shifted by six pairs |
| `SamplingProofs.EarlyFetchIsStale` | src/main.c:117-122 | a word of slots 254 or 255 fetched before its pair is the one of two sweeps earlier, and in the first packet the one of the first two pairs |
| `SamplingProofs.EarlyFetchReachable` | src/main.c:117-122 | from every start a run leads to such an early fetch |
| `SamplingProofs.DeadlineExact` | src/main.c:117-122 | when the slot counter wraps, USB owns or is asked for the row now played if and only if the OUT deadline was missed |
| `SamplingProofs.TimerWaitsForPacketZero` | src/main.c:773-804 | the timer waits for packet 0 in every timely run if and only if no earlier start was still pending: request 0xC5 does not clear start_timer |
| `SamplingProofs.PendingStartFires` | src/main.c:535-540 | with a start pending, the next frame starts the timer before any half-word has arrived |
| `SamplingProofs.PendingStartReachable` | src/main.c:857-871 | a start that is pending with the timer off is reachable from any start |
| `SamplingProofs.TimerOnExact` | src/main.c:535-540 | after a start with frame f and any run without stop and later start, deadlines or not, the timer is on if and only if frame f, or any frame when f is 0, came after packet 0 was complete |
| `SamplingProofs.LaunchInit` | src/main.c:778-801 | request 0xC5 establishes both invariants from any earlier board state with the timer off and no start pending |
| `SamplingFirmware.Engine.TimerInterrupt` | src/main.c:77-140 | the interrupt performs exactly the timer step on all variables and buffers and returns the DAC half-word of that step |
| `SamplingFirmware.Engine.AdvanceSlots` | src/main.c:114-137 | the counters and hand-over flags move as the phase lemmas require |
| `SamplingFirmware.Engine.ReceiveSamples` | src/main.c:83-103 | the two words go to the cells of this channel and slot and to no other |
| `SamplingFirmware.Engine.MainLoopPass` | src/main.c:513-523 | a buffer is handed over exactly when one is requested and none is in transfer, and it is the requested row |
| `SamplingFirmware.Engine.StartSampling` | src/main.c:778-801 | every sampling variable but start_timer takes its start value, and row 0 is requested |
| `SamplingFirmware.Device.TimerInterrupt` | src/main.c:77-140 | the interrupt keeps what the input buffer holds, and in a timely run the half-word it gives to the DAC is the next one of the host stream |
| `SamplingFirmware.Device.MainLoopPass` | src/main.c:513-523 | in a timely run a row is handed over only when the endpoint is free for it, and the row handed to the OUT endpoint is not being played |
| `SamplingFirmware.Device.HostStores` | src/main.c:519-523 | a half-word the host sends keeps both streams |
| `SamplingFirmware.Device.HostFetches` | src/main.c:514-518 | in a timely run the half-word an IN transfer fetches from the buffer is the captured word of the same number, shifted by six pairs |
| `SamplingFirmware.Device.BulkInReceived` | src/main.c:832-843 | a completion with status OK keeps both streams, any other leaves the board as it was |
| `SamplingFirmware.Device.BulkOutReceived` | src/main.c:845-871 | a completion with status OK keeps both streams; the first since a start requests the timer and finds packet 0 complete |
| `SamplingFirmware.Device.StartOfFrame` | src/main.c:535-540 | the timer starts if and only if a start is pending and its frame is 0 or this one; in a timely run packet 0 has arrived by then |
| `SamplingFirmware.Device.ConfigureSampling` | src/main.c:773-804 | with a period the start frame is noted, row 0 is requested and, with the timer off and no start pending, both streams begin from any earlier state; without one the timer is off and nothing else changes |
| `ControlProofs.RunInv` | asf/sam/drivers/udphs/udphs_device.c:1264-1684 | in every reachable state, for all hosts, cores and bus resets: stage and direction agree, TX-complete is enabled only in DATA_IN or WAIT_IN_ZLP, counts stay inside the payload, the callback ledger balances, the OUT buffer holds only what was received, the IN packets are the bytes offered, and the bytes sent are counted |
| `ControlProofs.InSentAssertionHolds` | asf/sam/drivers/udphs/udphs_device.c:1630-1657 | whenever the interrupt calls udd_ctrl_in_sent, its assertion on the stage holds |
| `ControlProofs.CallbackAtMostOnce` | asf/sam/drivers/udphs/udphs_device.c:1621-1627 | over any run no completion callback runs twice, and registered callbacks are called, dropped or pending |
| `ControlProofs.OutReassembly` | asf/sam/drivers/udphs/udphs_device.c:1477-1488 | over any run, refills included, the OUT count stays within the payload size, the filled prefix is what was received since the buffer was installed and every later byte is unchanged |
| `ControlProofs.InFragmentation` | asf/sam/drivers/udphs/udphs_device.c:1385-1448 | over any run, refills included, the data packets concatenate to the bytes of the buffers offered and only the last may be short |
| `ControlProofs.InStageEnds` | asf/sam/drivers/udphs/udphs_device.c:1385-1409 | over any run, refills included, the IN data stage ends at a TX-complete interrupt if and only if the buffer in use is sent and its last packet is not full or the bytes sent are as many as asked for in 16 bits; the host then has all that was offered |
| `ControlProofs.StagesStep` | asf/sam/drivers/udphs/udphs_device.c:1630-1684 | every event keeps the agreement of stage, direction, interrupt enable and bounds |
| `ControlProofs.CallbacksStep` | asf/sam/drivers/udphs/udphs_device.c:1281-1301 | every event keeps the callback ledger |
| `ControlProofs.BufferStep` | asf/sam/drivers/udphs/udphs_device.c:1452-1488 | every event keeps the relation between payload buffer and received bytes |
| `ControlProofs.SendingStep` | asf/sam/drivers/udphs/udphs_device.c:1363-1449 | every event keeps the relation between sent packets and offered bytes |
| `ControlTransfers.InTransfer` | asf/sam/drivers/udphs/udphs_device.c:1289-1475 | for every non-empty payload without refill and abort, the SETUP packet and one TX-complete interrupt per packet send exactly the fragments of section 8.5.3.2 of USB 2.0 and lead to the OUT status stage; the status packet then frees the endpoint and the callback has run exactly once |
| `ControlTransfers.InRoundTrip` | asf/sam/drivers/udphs/udphs_device.c:1385-1442 | a host that asked for at least the payload length reads exactly the fragments and puts the payload together |
| `ControlTransfers.EmptyInDependsOnHistory` | asf/sam/drivers/udphs/udphs_device.c:1365-1398 | an empty IN payload is answered with an empty packet if and only if the static short-packet flag was clear; otherwise no data packet is sent |
| `ControlTransfers.ShortFlagReachable` | asf/sam/drivers/udphs/udphs_device.c:1411-1416 | a three-event request after which the endpoint is free with the flag set, from every reachable state |
| `ControlTransfers.OutTransfer` | asf/sam/drivers/udphs/udphs_device.c:1375-1528 | wLength bytes into a buffer without refill: the bytes that fit are stored and nothing else changes, the request is stalled if and only if the buffer is too short and a positive multiple of 64 long, and acknowledged otherwise; the status packet then frees the endpoint and the callback has run exactly once |
| `ControlTransfers.OutExactCopy` | asf/sam/drivers/udphs/udphs_device.c:1477-1510 | a buffer at least as long as the request ends with an exact copy, and the request completes |
| `ControlTransfers.EarlyOutStatus` | asf/sam/drivers/udphs/udphs_device.c:1477-1559 | a host that turns to the status stage after any number of full packets completes the request with exactly those bytes stored and one callback |
| `ControlTransfers.ExtraDataStalls` | asf/sam/drivers/udphs/udphs_device.c:1545-1575 | extra data in a status stage is stalled and the request stays open until the next SETUP packet, which runs its callback once |
| `ControlTransfers.SetupEndsRequest` | asf/sam/drivers/udphs/udphs_device.c:1289-1302 | a SETUP packet in any stage, also after a stall, runs the callback of the request before it once, and registers the new one |
| `ControlEvents.SetupReads` | asf/sam/drivers/udphs/udphs_device.c:1311-1359 | the fields after a SETUP packet of eight bytes, byte by byte, for every core, answer and state |
| `ControlEvents.SetupStalls` | asf/sam/drivers/udphs/udphs_device.c:1303-1331 | a SETUP packet leads to a stall if and only if it has not eight bytes or the core rejects it |
| `ControlEvents.FlagIsStatic` | asf/sam/drivers/udphs/udphs_device.c:1365-1416 | only a packet of an IN data stage changes the short-packet flag, no OUT request and no reset |
| `ControlEvents.OneCause` | asf/sam/drivers/udphs/udphs_device.c:1630-1684 | an interrupt serves one cause: SETUP before TX-complete, if enabled, before OUT before the NAKs |
| `ControlEvents.NakGuards` | asf/sam/drivers/udphs/udphs_device.c:1577-1618 | whenever a stage begins that waits for the host, the NAK interrupt of its protocol error is enabled, and a stall request raises the stall |
| `ControlEvents.StrayOutForgets` | asf/sam/drivers/udphs/udphs_device.c:1469-1475 | an OUT packet nobody waits for is stalled and the request is forgotten without its callback |
| `ControlEvents.OutCompletes` | asf/sam/drivers/udphs/udphs_device.c:1458-1475 | an OUT packet in the IN data stage or its status stage completes the request with its callback |
| `ControlEvents.ResetForgets` | asf/sam/drivers/udphs/udphs_device.c:560-573 | a bus reset forgets the request without its callback |
| `ControlEvents.NakIgnored` | asf/sam/drivers/udphs/udphs_device.c:1545-1565 | a NAK is ignored when the second status reading shows the other event pending |
| `ControlEvents.HostEndsIn` | asf/sam/drivers/udphs/udphs_device.c:1427-1434 | an OUT packet that is there when the next IN packet is due ends the IN data stage and nothing more is sent |
| `ControlEvents.OutStageEnds` | asf/sam/drivers/udphs/udphs_device.c:1477-1542 | over any run, refills included: exactly when an OUT packet ends the data stage, is followed by another buffer or stalls the request; as long as the stage goes on the buffers together hold all bytes received |
| `ControlEvents.RefilledOut` | asf/sam/drivers/udphs/udphs_device.c:1513-1534 | OUT packets in a row through any number of buffers: while the data stage goes on no byte is lost between them |
| `ControlDriver.Endpoint0.HandleInterrupt` | asf/sam/drivers/udphs/udphs_device.c:1630-1684 | the dispatch by priority performs the step of the state machine and keeps the invariants of all runs, so that the assertion of udd_ctrl_in_sent holds |
| `ControlDriver.Endpoint0.BusReset` | asf/sam/drivers/udphs/udphs_device.c:560-573 | a bus reset forgets the request under way and keeps the invariants of all runs |
| `ControlDriver.Endpoint0.SetupReceived` | asf/sam/drivers/udphs/udphs_device.c:1289-1360 | the length is little-endian in the last two of the eight bytes, the direction is the top bit of the first; the first stage follows from both; another byte count and a rejected request are stalled |
| `ControlDriver.Endpoint0.InSent` | asf/sam/drivers/udphs/udphs_device.c:1363-1449 | the handler performs exactly the IN step |
| `ControlDriver.Endpoint0.SendPacket` | asf/sam/drivers/udphs/udphs_device.c:1410-1448 | the packet sent is the next slice of the payload, through the copy loop |
| `ControlDriver.Endpoint0.FillFifo` | asf/sam/drivers/udphs/udphs_device.c:1437-1439 | the endpoint buffer receives the slice of the payload at the data count |
| `ControlDriver.Endpoint0.OutReceived` | asf/sam/drivers/udphs/udphs_device.c:1452-1542 | the handler performs exactly the OUT step |
| `ControlDriver.Endpoint0.OutData` | asf/sam/drivers/udphs/udphs_device.c:1477-1542 | the data branch stores, ends, refills or stalls as the state machine does |
| `ControlDriver.Endpoint0.DrainFifo` | asf/sam/drivers/udphs/udphs_device.c:1483-1487 | the payload receives the packet at the data count and no other byte changes |
| `ControlDriver.Endpoint0.constructor` | asf/sam/drivers/udphs/udphs_device.c:1239-1286 | a reset endpoint satisfies the invariant of all runs |
| `BulkRuns.JobConservation` | asf/sam/drivers/udphs/udphs_device.c:1069-1126 | over every interleaving of submissions (also from inside callbacks), DMA and ZLP interrupts, aborts, bus resets and halts: accepted jobs = completions delivered + silent ones + one if a transfer is busy; the same for waits |
| `BulkRuns.WindowTiling` | asf/sam/drivers/udphs/udphs_device.c:1739-1821 | in every run, unclean ones included, the windows of every completed job and of the job in progress are consecutive, at most 65536 bytes and inside the buffer, and only the last may be shorter |
| `BulkRuns.ReportedSizes` | asf/sam/drivers/udphs/udphs_device.c:1739-1857 | in clean runs every OK completion reports exactly the bytes moved, and the address and length field of the channel name the last window |
| `BulkRuns.SubmittedJob` | asf/sam/drivers/udphs/udphs_device.c:1069-1110 | in any run a job in progress is that of the buffer, size, flag and callback submitted, as long as no other was accepted |
| `BulkRuns.SubmittedWindows` | asf/sam/drivers/udphs/udphs_device.c:1099-1110 | in clean runs every window of it starts at the submitted address plus its offset and ends inside the buffer |
| `BulkRuns.CallbackSubmits` | asf/sam/drivers/udphs/udphs_device.c:1722-1737 | a job submitted by a callback is under way from its own buffer when the completion returns |
| `BulkRuns.ShortPacketRule` | asf/sam/drivers/udphs/udphs_device.c:1753-1818 | in clean runs an IN job puts full packets and the rest on the wire, followed by a ZLP exactly when asked for and the size is a multiple of the endpoint size; a flagged job ends in a packet that is not full |
| `BulkRuns.WindowsInvisible` | asf/sam/drivers/udphs/udphs_device.c:1753-1768 | cutting a job into DMA windows does not change the packets on the wire |
| `BulkRuns.HaltExclusion` | asf/sam/drivers/udphs/udphs_device.c:987-1066 | no reachable state has a transfer job together with a requested or active stall, clearing a halt never calls a transfer callback, and the assertion of the drained-bank interrupt holds |
| `BulkRuns.HaltLasts` | asf/sam/drivers/udphs/udphs_device.c:987-1160 | no run accepts or completes a job or releases a wait on a halted endpoint before the halt is cleared or the bus is reset |
| `BulkRuns.HaltCycle` | asf/sam/drivers/udphs/udphs_device.c:987-1066 | after a halt and any run without clear and reset, clearing releases the registered wait exactly once and jobs are accepted again |
| `BulkRuns.NoStallBeforeDrained` | asf/sam/drivers/udphs/udphs_device.c:1007-1015 | while its banks are busy an IN endpoint is never stalled, in any run |
| `BulkRuns.AbortMisfires` | asf/sam/drivers/udphs/udphs_device.c:1722-1737 | an abort calls a halt callback through call_trans if and only if a wait is registered |
| `BulkLimits.MisfireReachable` | asf/sam/drivers/udphs/udphs_device.c:1129-1160 | a halt and a wait lead to a state in which an abort misfires |
| `BulkLimits.ReportsExact` | asf/sam/drivers/udphs/udphs_device.c:1113-1857 | in a state of a clean run an event leaves the reports of all clean continuations right if and only if it is neither a maximal window that ends before its first byte under a job with a callback, nor an abort of a pending ZLP whose callback does not queue an empty job |
| `BulkLimits.CleanRunExact` | asf/sam/drivers/udphs/udphs_device.c:1739-1886 | all states of a run are such that no clean continuation brings out a wrong report if and only if the run is clean |
| `BulkLimits.CountExact` | asf/sam/drivers/udphs/udphs_device.c:1844-1854 | the 16-bit remaining count is exact if and only if it is not a maximal window that ends before its first byte |
| `BulkLimits.LostZlp` | asf/sam/drivers/udphs/udphs_device.c:1842-1857 | in that case, last window or not, a wrong report follows for every callback |
| `BulkLimits.LostZlpReachable` | asf/sam/drivers/udphs/udphs_device.c:1842-1857 | a clean run leads to a window whose count can be wrong |
| `BulkLimits.StaleZlp` | asf/sam/drivers/udphs/udphs_device.c:1113-1126 | after an abort of a pending ZLP a wrong report follows for every callback, none included, that does not queue an empty job |
| `BulkLimits.StaleZlpReachable` | asf/sam/drivers/udphs/udphs_device.c:1113-1126 | a clean run leads to a state in which an abort is not clean |
| `BulkProofs.StepGeneral` | asf/sam/drivers/udphs/udphs_device.c:1722-1886 | every event keeps conservation, the halt relation and the bank-interrupt relation |
| `BulkProofs.FinishFollows` | asf/sam/drivers/udphs/udphs_device.c:1722-1737 | a completion with all that its callbacks do keeps both accounts balanced, loses no earlier completion and leaves the halt state alone |
| `BulkTiling.StepLaid` | asf/sam/drivers/udphs/udphs_device.c:1739-1886 | every event, clean or not, keeps the tiling of all jobs |
| `BulkTiling.StepExact` | asf/sam/drivers/udphs/udphs_device.c:1739-1886 | every clean event keeps the flag rule, the honesty of all completions and the relation of job and channel |
| `BulkTiling.LengthFieldExact` | asf/sam/drivers/udphs/udphs_device.c:1753-1765 | the 16-bit length field, 0 meaning 65536, decodes to the window length |
| `BulkTiling.ResidueKept` | asf/sam/drivers/udphs/udphs_device.h:330-334 | every endpoint size divides the maximal window, so windows keep the residue of the size |
| `BulkDriver.BulkEndpoint.FinishJob` | asf/sam/drivers/udphs/udphs_device.c:1722-1737 | performs exactly the completion, callback re-entry included |
| `BulkDriver.BulkEndpoint.RunJob` | asf/sam/drivers/udphs/udphs_device.c:1069-1110 | refused exactly on a disabled, halted or busy endpoint; otherwise, with something to move, the DMA runs at the submitted address with the right length when it returns |
| `BulkDriver.BulkEndpoint.Submit` | asf/sam/drivers/udphs/udphs_device.c:1069-1110 | the same for a submission by the application, with the size, flag and callback registered and the ZLP of an empty IN job requested; a refused one changes nothing; the invariants of all and of clean runs are kept |
| `BulkDriver.BulkEndpoint.TransDone` | asf/sam/drivers/udphs/udphs_device.c:1739-1821 | performs exactly the next window, the ZLP request or the completion |
| `BulkDriver.BulkEndpoint.StartDma` | asf/sam/drivers/udphs/udphs_device.c:1751-1797 | programs exactly the next window |
| `BulkDriver.BulkEndpoint.DmaInterrupt` | asf/sam/drivers/udphs/udphs_device.c:1835-1857 | performs the DMA step and keeps the invariants of all runs; later reports stay right if and only if the event was clean |
| `BulkDriver.BulkEndpoint.BankInterrupt` | asf/sam/drivers/udphs/udphs_device.c:1860-1867 | keeps the invariants of all runs; in a clean run the job it completes has been moved entirely |
| `BulkDriver.BulkEndpoint.DrainedInterrupt` | asf/sam/drivers/udphs/udphs_device.c:1868-1882 | the assertion holds, the requested stall is raised, its interrupts are off and the invariants are kept |
| `BulkDriver.BulkEndpoint.AbortJob` | asf/sam/drivers/udphs/udphs_device.c:1113-1126 | keeps the invariants of all runs; in a clean run later reports stay right if and only if no ZLP was pending or the callback queues an empty job |
| `BulkDriver.BulkEndpoint.BusReset` | asf/sam/drivers/udphs/udphs_device.c:560-567 | the job is over, no callback can start another, and the invariants are kept |
| `BulkDriver.BulkEndpoint.EnableEndpoint` | asf/sam/drivers/udphs/udphs_device.c:894-898 | only the endpoint is enabled, and the invariants are kept |
| `BulkDriver.BulkEndpoint.SetEndpointHalt` | asf/sam/drivers/udphs/udphs_device.c:987-1022 | refused exactly while a transfer is in progress; an idle IN endpoint with busy banks only requests the stall and its interrupts, any other idle one is stalled at once; the invariants are kept |
| `BulkDriver.BulkEndpoint.ClearEndpointHalt` | asf/sam/drivers/udphs/udphs_device.c:1025-1066 | neither stall nor request is left, only a callback registered for it is called, exactly once, and the invariants are kept |
| `BulkDriver.BulkEndpoint.WaitForStallClear` | asf/sam/drivers/udphs/udphs_device.c:1129-1160 | on a halted endpoint the wait is registered, otherwise it is answered at once, and a refused one changes nothing |
| `BulkDriver.BulkEndpoint.constructor` | asf/sam/drivers/udphs/udphs_device.c:1692-1699 | a fresh endpoint satisfies the invariants of all and of clean runs |
| `EndpointAlloc.Udphs.Alloc` | asf/sam/drivers/udphs/udphs_device.c:821-961 | a refused call changes nothing and lower endpoints are never touched; otherwise the new endpoint has the direction, size and bank number asked for and is enabled if it found room, and every enabled one above, with the direction, size and bank number it had, is enabled again with its job restarted, up to the one it gives up at, which is described; those behind stay down; the class invariant is kept, so that it can be called again |
| `EndpointAlloc.Udphs.TakeDown` | asf/sam/drivers/udphs/udphs_device.c:903-914 | every enabled endpoint from the last to ep is off and its bank number is in its two bits of the 16-bit word |
| `EndpointAlloc.Udphs.BringUp` | asf/sam/drivers/udphs/udphs_device.c:916-958 | every saved endpoint is on with the bank number read back and its job restarted, up to the one where no room is left or the job is refused; those behind are untouched |
| `EndpointAlloc.SaveBankReads` | asf/sam/drivers/udphs/udphs_device.c:904-921 | saving a bank number keeps the numbers saved for higher endpoints and fits the word |
| `EndpointRestart.RestartResumes` | asf/sam/drivers/udphs/udphs_device.c:944-952 | a job whose window is in flight continues at the first byte of that window with the same DMA programming, for the bytes from there on |
| `EndpointRestart.RestartExact` | asf/sam/drivers/udphs/udphs_device.c:944-957 | a restart of any transfer is accepted; its completion and all later reports tell the bytes moved since the submission if and only if no data stands before a pending ZLP and no byte of the job was moved yet or it has no callback; the state is one of a clean run if and only if moreover no end of transfer of an OUT channel is left unserved for good |
| `EndpointRestart.RestartRepeatsWindow` | asf/sam/drivers/udphs/udphs_device.c:944-952 | a job with data that waits for its ZLP moves its last window again, and the pending interrupt then makes a wrong report |
| `EndpointRestart.RestartGivesUp` | asf/sam/drivers/udphs/udphs_device.c:944-957 | an OUT job whose end of transfer is not served yet is reported complete with no byte, whatever was moved since its submission |
| `EndpointRestart.RestartLosesBytes` | asf/sam/drivers/udphs/udphs_device.c:944-952 | a run with an IN job of 65537 bytes whose restart in its second window is reported as 1 byte |
| `EndpointRestart.PendingZlpReachable` | asf/sam/drivers/udphs/udphs_device.c:944-952 | a clean run leads to data before a pending ZLP |
| `EndpointRestart.OutWindowReachable` | asf/sam/drivers/udphs/udphs_device.c:944-957 | a clean run leads to an OUT window whose end can be unserved, with an unsafe restart |
| `EndpointRestart.RestartableRun` | asf/sam/drivers/udphs/udphs_device.c:946-951 | in every run, clean or not, the counters of a transfer can be rewound without underflow |
| `EndpointAlloc.ReopenedExact` | asf/sam/drivers/udphs/udphs_device.c:916-958 | an endpoint brought up again makes right reports only, if and only if its restart was safe |
| `EndpointAlloc.ReopenedResumes` | asf/sam/drivers/udphs/udphs_device.c:944-952 | the window in flight of an endpoint brought up again and the part of the job from it on survive |
| `EndpointAlloc.ReopenedKeeps` | asf/sam/drivers/udphs/udphs_device.c:916-958 | an endpoint brought up again keeps conservation, halt exclusion and tiling and can be restarted again |
| `EndpointAlloc.GaveUpKeeps` | asf/sam/drivers/udphs/udphs_device.c:931-956 | the endpoint it gives up at keeps them if and only if it finds no room and is busy exactly when it has a callback; a dropped wait is never released |
| `EndpointAlloc.GaveUpExact` | asf/sam/drivers/udphs/udphs_device.c:931-956 | the reorganisation gives up at an endpoint if and only if it finds no room or a wait is registered there |
| `EndpointAlloc.NoRoomConserves` | asf/sam/drivers/udphs/udphs_device.c:931-942 | when an endpoint finds no room, completions and waits still match what was accepted and registered if and only if it was busy exactly when it has a callback, for every kind of callback |
| `EndpointAlloc.NoRoomReports` | asf/sam/drivers/udphs/udphs_device.c:939-941 | the callback is told of an abort and of the bytes counted so far |
| `EndpointAlloc.FormatIsLeast` | asf/sam/drivers/udphs/udphs_device.h:327-334 | the size field fits three bits and decodes to the least expressible size not below the request, 8 below and 1024 above the range |
| `EndpointAlloc.FieldSizes` | asf/sam/drivers/udphs/udphs_device.h:327-334 | the eight fields decode to 8, 16, ..., 1024 |
| `Flash.AddressRoundTrip` | asf/sam/services/flash_efc/flash_efc.c:154-267 | translating and computing addresses are inverse to each other, on single-bank and dual-bank parts |
| `Flash.LockRangeExact` | asf/sam/services/flash_efc/flash_efc.c:277-293 | rounding to regions gives the first page of the first region and the last page of the last region of the range |
| `Flash.PageMerge` | asf/sam/services/flash_efc/flash_efc.c:616-651 | programming the merged page buffer changes only the bytes of the chunk, with and without erasing |
| `Flash.WrittenNext` | asf/sam/services/flash_efc/flash_efc.c:657-662 | programming page by page amounts to programming the whole range |
| `Flash.WriteSucceeds` | asf/sam/services/flash_efc/flash_efc.c:616-662 | the page commands of a range all succeed if and only if no region that meets it is locked and none of them faults |
| `Flash.CountNext` | asf/sam/services/flash_efc/flash_efc.c:829-840 | a bit of a result word adds exactly its region to the count |
| `Flash.PackedBit` | asf/sam/services/flash_efc/flash_efc.c:816-832 | bit i of a result word is the lock bit of region 32k+i |
| `FlashService.Service.FlashWrite` | asf/sam/services/flash_efc/flash_efc.c:595-668 | it succeeds if and only if no region that meets the range is locked and no page command faults; then the range holds the data, every other byte is unchanged and the wait states are restored; otherwise earlier pages are done, the failing page and later ones are untouched, the wait states stay at 6 and the code is that of the failing page; one command for each page, ascending, up to that page |
| `FlashService.Service.WritePages` | asf/sam/services/flash_efc/flash_efc.c:616-662 | one command for each page in ascending order up to the first that fails, and the memory is that of the bytes of the completed pages |
| `FlashService.Service.WriteChunk` | asf/sam/services/flash_efc/flash_efc.c:618-655 | one page command changes exactly its chunk, or nothing when it fails |
| `FlashService.Service.FillPageBuffer` | asf/sam/services/flash_efc/flash_efc.c:624-633 | the page buffer is the old page with the chunk in its middle |
| `FlashService.Service.FillLatch` | asf/sam/services/flash_efc/flash_efc.c:635-643 | the latch equals the page buffer, word by word |
| `FlashService.Service.ChangeLocks` | asf/sam/services/flash_efc/flash_efc.c:682-765 | exactly one command for each region that meets the range, ascending, none for another; it succeeds if and only if none faults; the lock bits change accordingly, up to the region of an error |
| `FlashService.Service.ChangeRegions` | asf/sam/services/flash_efc/flash_efc.c:707-717 | the loop visits each region once and ends |
| `FlashService.Service.IsLocked` | asf/sam/services/flash_efc/flash_efc.c:775-843 | when the query succeeds the result is the number of locked regions of the range; otherwise it is the error code |
| `FlashService.Service.SkipWords` | asf/sam/services/flash_efc/flash_efc.c:815-821 | the word read last holds the first region |
| `FlashService.Service.CountBits` | asf/sam/services/flash_efc/flash_efc.c:823-840 | counting with refills in mid-loop equals counting the lock bits |
| `FlashService.Service.StoreTable` | src/main.c:426-450 | the outcome is fixed by the faults of the unlock, page and lock commands; if none faults the last page of bank 0 is the table, every other byte and lock bit is unchanged and its region is locked; if the page or lock command faults the region is left unlocked |
| `FlashService.Service.ReadTable` | src/main.c:417-424 | reading returns the last page of bank 0, so what was stored |
| `FlashService.Service.StoreAndRead` | src/main.c:417-450 | what is read back after a store is the table stored if the unlock and page commands did not fault, and the old page otherwise |
| `FlashService.Service.FlashInit` | asf/sam/services/flash_efc/flash_efc.c:303-312 | access mode and wait states of both banks are set, on a single-bank part those of the one |
| `FlashService.Efc.Program` | asf/sam/drivers/efc/efc.c:236-248 | a page command programs exactly one unlocked page from the latch, or fails and changes nothing |
| `Twi.ReadBytes` | asf/sam/drivers/twi/twi.c:278-309 | for every status stream the byte loop ends within 15001 polls per byte; success stores exactly length bytes in arrival order; NACK and timeout are reported exactly at the poll that causes them; the register accesses are the stated ones |
| `Twi.MasterRead` | asf/sam/drivers/twi/twi.c:255-318 | the whole read: internal address, byte loop and the wait for the first reading that shows the transfer complete |
| `Twi.MkAddrReadsBack` | asf/sam/drivers/twi/twi.c:226-243 | the internal address fits 24 bits and its bytes can be read back |
| `Twi.StopOnceBeforeLast` | asf/sam/drivers/twi/twi.c:278-308 | a completed read requests STOP exactly once, before the last byte is read |

## Left out

- Register wrappers (PIO, PMC, PWM, USART, WDT, TC), clock and baud arithmetic, interrupt priorities, sleep manager: single writes or short arithmetic, easier than the parts above.
- The USB core and the vendor interface above the driver: present only through what they may answer.
- Suspend, wake-up, VBUS, test modes, clock restore: hardware sequencing without a data property.
- Peripheral setup, channel modes, LED, potentiometers and converters in src/main.c: board input and output.
- `udd_ep_interrupt` as a loop over all endpoints: one endpoint at a time is modelled, not the order in which endpoints are served.
- `udd_ep_free`, the choice of the bank number from the endpoint type and the high-bandwidth bits of `udd_ep_alloc`: easy branches; the bank number is a parameter.
- Data toggles, bank auto-switch and the killing of busy banks on abort: hardware state that no modelled decision reads.
- Isochronous endpoints: only their effect on early termination of a window is modelled.
- 32-bit overflow of byte counts and addresses: counts are unbounded naturals, except where a narrower field decides (8-bit slots, 16-bit control counters, 16-bit DMA fields).
- `twi_master_write`, the slave functions and the remaining flash operations (erase, GPNVM, unique identifier, user signature): loops and commands of the same kind, easier than those modelled.
- PDC and USART bit timing, preemption inside the 0xC5 handler: replaced by the atomic steps above.
