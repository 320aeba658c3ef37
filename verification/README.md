# FlowCAN in Dafny

FlowCAN is firmware for a small module with an optical flow sensor (PMW3901) and a laser range sensor (VL53L1X). It
publishes their readings as MSP V2 frames over a UART and as DroneCAN messages over CAN. This project models its
logic and proves what the firmware is meant to keep, for every input, every interleaving and every run.

`dafny verify dfyconfig.toml` checks the whole project.

## How it is built

Each stateful part of the firmware appears twice: as a function on values (`MspParser.Consume`, `TofModel.TofStep`,
`UartTx.Step`, `CanTx.Poll`, `MainModel.Iterate`), and as a class or method that updates fields and arrays in place,
as the source does, and is proved to do exactly what the function says. Whole-run properties are proved about the
functions by induction over arbitrary lists of events.

- **Bytes, CRC, MSP.** `Bytes`, `Crc8`, `CrcBits` and `CrcDetection` treat CRC-8/DVB-S2 (the generator of section
  5.1.4 of ETSI EN 302 307) as multiplication by x in GF(2)[x] modulo x^8+x^7+x^6+x^4+x^2+1: it is linear, injective,
  and x has order 93. `Msp` holds the encoder and a grammar of byte streams, `MspParser` and `MspReceiver` the
  streaming parser, `MspCorruption` what bit errors do to it, `MspSensors` the two sensor messages, and `MspWire`
  lists of messages on the wire.
- **Rings and interrupts.** `Ring` is the index arithmetic, `RxRing` the receive rings, `CanRx` the CAN receive ring
  with its flags, and `UartTx` the transmit ring. The main loop is split into its memory accesses, and a whole
  interrupt may run between any two of them.
- **Wrap-around time.** True time is an unbounded integer t; the code sees t modulo 2^32. `WrapTime`, `Scheduler`,
  `CanRecovery` and `CanClock` show when 32-bit code computes what unbounded time would, and where that ends.
- **Sensors.** `TofModel`, `TofSteps`, `TofBringUp`, `TofRetry` and `TofDriver`, and `PmwModel`, `PmwCounts` and
  `PmwDriver`, are the two drivers under an arbitrary environment: any bus transfer may fail, any reading may come,
  interrupts arrive at any time.
- **CAN transmission.** `CanTx`, `CanPolls` and `CanTxDriver` are `broadcast` and `dronecan_poll` over libcanard's
  queue and block pool, with a ledger of every frame ever made.
- **The main loop.** `Health` is the health word, `RangeReport` what both protocols say about a range sample,
  `MainIo` the uses the loop makes of the three rings and of the parser, and `MainModel` the loop with all of that in
  its state. `MainRuns`, `MainRetry`, `MainStatus`, `MainQueue`, `MainBringUp`, `MainTimetable`, `MainCounts`,
  `MainMisses` and `HostLink` are about its runs; `MainMotion`, `MainFlow`, `MainRange`, `MainPublish`, `MainReceive`
  and `MainListen` say what comes out of it in terms of what went in: motion, ranges, DroneCAN reports, CAN frames and
  received bytes. `MainDriver`, `MainPorts` and `Firmware` are the objects: main's variables, the rings, and one
  iteration over both.

## Assumptions

One core; each interrupt handler runs from start to end between two memory accesses of the main loop, and volatile
accesses happen in program order. Results of peripherals and of the ST core, the time, and what arrives on the wires
are inputs. Bits are counted from the most significant of each byte. `|=` of a high byte onto a field that holds only
a low byte is written as addition.

## Findings

- `MSP_PARSE_X` on a second `$` returns to idle (protocol/msp.c:65). A message is read exactly when the parser is idle
  at its first byte, that is, when nothing the grammar calls unfinished is pending (`MspParser.ReadExactlyWhenIdle`,
  `MspParser.ReadExactlyWhenNothingPending`); an empty message behind a single `$` is lost
  (`MspParser.LostBehindDollar`). Statements about noise ask that it hold no `$` (`Msp.DollarFree`).
- Two flipped bits whose distance is a multiple of 93 pass the CRC (`MspCorruption.TwoFlippedBits`). Every optical flow
  frame is long enough: two flips 93 bits apart change a count and are not noticed
  (`MspCorruption.FlowFrameFooled`). Frames whose payload has at most 5 bytes, the rangefinder's among them, are too
  short for that (`MspCorruption.UpToThreeFlipsRejected`).
- Timeouts fail only beyond half the range of the counter, and `TofModel.StaleCheckExactly` says for which gaps. The
  loop of `periodic_task_due` ends for every period but zero (`Scheduler.LoopStopsExactly`); above 2^31 a new task is
  due at once (`Scheduler.FreshTaskWaits`).
- The deadline of the flow sensor's health check stands still while the sensor is down (app/main.c:38). Checks come
  when they should if and only if the lateness of each iteration that calls for one, taken modulo 2^32 ms, is below
  2^31 ms (`MainRetry.CheckedExactly`). A sensor that takes no power-up write for 2^31 ms (24.9 days) and then comes up
  is not checked for the 2^31 ms after that, with the loop turning every millisecond (`MainMisses.CheckMissed`).
- NodeStatus stands still while the bus is off, as `dronecan_poll` returns first (protocol/dronecan.c:68). It keeps its
  schedule if and only if the lateness of each poll called to send one, taken modulo 2^32 ms, is below 2^31 ms
  (`MainStatus.StatusOnSchedule`); polls with the bus on at most 2^31 ms apart are enough
  (`MainStatus.ShortStretchesSuffice`). After a bus-off of 2^31 ms and a second the node is silent for up to 2^31 ms,
  with the loop turning every millisecond (`MainMisses.StatusMissed`). Its first deadline is zero, which is right
  because the platform's tick starts at zero too (platform/platform.c:39); with a time base that starts at 2^31 or more
  dronecan.c would be silent until it wraps (`MainStatus.SilentUntilWrap`).
- A bring-up of the flow sensor takes 76 steps, one an iteration, and 111 ms of pauses, and is started over after
  1000 ms, finished or not (app/main.c:36). With the counter for a step read within a millisecond of `now`, the sensor
  comes up if the readings are at most 11.68 ms apart and all transfers succeed (`MainBringUp.BringUpCompletes`,
  `MainBringUp.RestartCompletes`), and never comes up if they are at least 12.15 ms apart
  (`MainBringUp.SlowLoopNeverUp`). At any gaps, the band between included, it comes up if and only if a timetable
  computed from the times of the iterations alone has no steps left (`MainTimetable.UpExactlyByTimetable`).
- A poll stamps a frame exactly if and only if the frame arrived no later than the poll read the clock and no answer
  read it again before the frame's turn. After another reading the stamp is early by the time between the two; a frame
  whose interrupt runs after the last reading is stamped 2^32 us earlier still, or zero (`CanClock.PollStamps`,
  `CanClock.StampAfterClockMoved`).
- Out of memory in the middle of a transfer leaves its first frames queued (third_party/libcanard/canard.c:1213-1218).
  The guard of `broadcast` keeps that from happening to the sensor messages: `CanTx.TornExactly` gives the condition,
  and four and three frames do not meet it. Answers to GetNodeInfo have no such guard (`CanTx.AnswerExactly`).
- Of the driver by itself: in the configured mounting counts can be lost to saturation from the 65537th motion read
  between two publications on, and not before (`PmwCounts.LimitIsExact`). The main loop never gets there: it publishes
  every 20 ms, and with reads at least 170 us apart (drivers/pmw3901.c:73-74) and iterations within the watchdog's
  500 ms (config/config.h:74) its counts are exact (`MainCounts.CountsExactInTime`).
- The README of the firmware lists health bits 0 to 7; the code also uses bit 10, UART transmit overflow
  (include/flowcan/types.h:44), and the model follows the code.

## Model

| member | source | states |
|---|---|---|
| Crc8.MulXLinear | protocol/msp.c:8-11 | one turn of the bit loop distributes over exclusive or |
| Crc8.MulXInjective | protocol/msp.c:8-11 | one turn of the bit loop loses no information |
| Crc8.OrderOfX | protocol/msp.c:5-13 | shifting 1 through the register d times gives 1 again exactly when 93 divides d |
| Crc8.Crc8DvbS2 | protocol/msp.c:5-13 | the bit loop on one byte is multiplication of register plus byte by x^8 |
| Crc8.CrcConcat | protocol/msp.c:31 | the CRC of two runs of bytes is that of the second, begun with the register of the first |
| Crc8.CrcResidue | protocol/msp.c:81 | comparing the received CRC with the register is testing the register for zero after feeding it |
| Crc8.CheckValue | protocol/msp.c:5-13 | the CRC of the nine characters 1 to 9 is the published check value 0xBC |
| CrcBits.CrcIsBitCrc | protocol/msp.c:5-13 | the byte-wise CRC is the bit-serial division of the bit string |
| CrcDetection.BitCrcLinear | protocol/msp.c:5-13 | the register of the difference of two messages is the difference of their registers |
| CrcDetection.SyndromeDecides | protocol/msp.c:81 | whether a corrupted region passes depends on the flipped bits alone |
| CrcDetection.ParityCarries | protocol/msp.c:5-13 | x+1 divides the generator: the parity of the message is the parity of the register |
| CrcDetection.OddWeightDetected | protocol/msp.c:5-13 | any odd number of flipped bits is detected, at any length |
| CrcDetection.BurstDetected | protocol/msp.c:5-13 | any burst within 8 consecutive bits is detected, at any length and across byte boundaries |
| CrcDetection.TwoFlipsDetected | protocol/msp.c:5-13 | two flipped bits pass exactly when 93 divides their distance |
| CrcDetection.UpToThreeFlipsDetected | protocol/msp.c:31-32 | covered regions of at most 11 bytes have Hamming distance 4 |
| Msp.WordRoundTrip | protocol/msp.c:15 | the two bytes of a 16-bit field read back as the field |
| Msp.PutU16 | protocol/msp.c:15 | writes the two bytes little endian and nothing else |
| Msp.FrameLayout | protocol/msp.c:27-32 | the bytes of an encoded message: the three header characters, flags 0, command and length low byte first, payload, CRC |
| Msp.Checksum | protocol/msp.c:30-31 | the loop over the covered bytes computes their CRC |
| Msp.EncodeV2 | protocol/msp.c:22-34 | exactly the four refusals write nothing and return 0; otherwise the buffer begins with the frame and is unchanged behind it |
| Msp.NoiseIsSkipped | protocol/msp.c:64 | bytes without a dollar sign in front of a stream change nothing in what it holds |
| Msp.EncodedIsScanned | protocol/msp.c:22-34 | whatever follows, an encoded message at the front of a stream is found, whole and unchanged |
| Msp.JoinedMessagesDecode | protocol/msp.c:22-34 | any list of messages, encoded and separated by dollar-free noise, is what the grammar finds, in order |
| Msp.StrayDollarLosesMessage | protocol/msp.c:65 | a dollar sign right before a message loses it, whenever the message holds no second one |
| MspParser.ConsumeKeepsValid | protocol/msp.c:61-86 | the payload index stays below the length and the length at most 64, for any bytes |
| MspParser.ConsumeExtends | protocol/msp.c:61-86 | an unfinished message and one more byte: the stored fields, index and CRC follow the bytes since the dollar sign |
| MspParser.ConsumeDecides | protocol/msp.c:61-86 | a byte that finishes or breaks a message does what the grammar decides for the bytes so far |
| MspParser.RunRefinesGrammar | protocol/msp.c:61-86 | from any unfinished message, feeding any bytes hands over exactly the messages of the grammar |
| MspParser.StreamDecodes | protocol/msp.c:54-86 | for every byte stream a fresh parser hands over exactly the messages of the grammar and holds the unfinished rest |
| MspParser.EncodedStreamDecodes | protocol/msp.c:22-86 | encoded messages with dollar-free noise between them come out in order, none lost or added |
| MspParser.ReadExactlyWhenIdle | protocol/msp.c:61-86 | from any unfinished message, the last byte of an encoded message returns it if and only if the parser was idle before its first byte |
| MspParser.ReadExactlyWhenNothingPending | protocol/msp.c:61-86 | after any stream at all, the last byte of an encoded message returns it if and only if the grammar has nothing pending |
| MspParser.LostBehindDollar | protocol/msp.c:65 | a message whose nine bytes behind a single dollar sign make no call return it |
| MspParser.RemainingDrops | protocol/msp.c:59-86 | outside idle every byte brings the parser closer to idle |
| MspParser.RemainingBound | protocol/msp.c:59-86 | from any state the parser is at most 72 bytes from idle |
| MspParser.Resynchronises | protocol/msp.c:59-86 | after any stream, 72 dollar-free bytes and one encoded message make the last call return exactly that message, and none before it |
| MspReceiver.Receiver.constructor | protocol/msp.c:54-57 | a new parser object is the initial parser |
| MspReceiver.Receiver.ParserReset | protocol/msp.c:59 | only state, index and CRC are cleared; the old payload bytes stay |
| MspReceiver.Receiver.Consume | protocol/msp.c:61-86 | the in-place parser takes the specified step and copies out the frame exactly when it returns true |
| MspCorruption.OddErrorsRejected | protocol/msp.c:67-84 | odd error patterns in the covered bytes, with the length intact, are rejected and the parser ends idle |
| MspCorruption.BurstsRejected | protocol/msp.c:67-84 | bursts of at most 8 bits likewise |
| MspCorruption.TwoFlippedBits | protocol/msp.c:67-84 | two flipped bits are rejected exactly when 93 does not divide their distance |
| MspCorruption.FlowFrameFooled | protocol/msp.c:36-84 | in every flow frame, whatever its sample, two flips 93 bits apart make any idle parser hand over a message with another count |
| MspCorruption.UpToThreeFlipsRejected | protocol/msp.c:45-52 | one to three flipped bits in a frame with at most 5 payload bytes are rejected |
| MspSensors.Int32RoundTrip | protocol/msp.c:16-20 | four little-endian bytes of any int32 read back as it |
| MspSensors.EncodeFlow | protocol/msp.c:36-43 | the buffer holds the encoded flow message; an invalid sample is sent as quality 0 and zero counts |
| MspSensors.EncodeRange | protocol/msp.c:45-52 | the buffer holds the encoded range message; anything but a valid sample is sent as quality 0 and -1 |
| MspSensors.FlowReadBack | protocol/msp.c:36-43 | a receiver reads quality and both counts of a valid sample, and zeros otherwise |
| MspSensors.RangeReadBack | protocol/msp.c:45-52 | a receiver reads quality and distance of a valid sample, and 0 and -1 otherwise |
| MspSensors.RangeArrives | protocol/msp.c:45-86 | sent to an idle parser, the frame is handed over by its last byte and by none before it as command 0x1F01, reads back as the sample, and leaves the parser idle |
| MspSensors.FlowArrives | protocol/msp.c:36-86 | the same for the flow frame, as command 0x1F02 |
| MspWire.FramesRead | protocol/msp.c:22-86 | the frames of any list of valid messages, put end to end, are read as the list |
| Ring.UsedIsLength | include/flowcan/ring.h:7-10 | the occupancy formula is the number of unread items, wherever the indices are |
| Ring.CanWriteExactly | include/flowcan/ring.h:12-16 | a write is allowed exactly when it leaves one slot free |
| Ring.FullExactly | platform/platform.c:175 | head plus one meets the tail exactly when all slots but one are unread |
| Ring.PushAppends | platform/platform.c:175 | storing at the head and advancing it appends to the unread items |
| Ring.PopRemoves | platform/platform.c:152 | advancing the tail removes the first unread item |
| RxRing.StepRefinesFifo | platform/platform.c:152 | every memory access and interrupt is a step of a bounded FIFO or changes nothing in it |
| RxRing.OldestUnread | platform/platform.c:152 | what a pop copies out is the oldest item not yet popped |
| RxRing.FifoUnderInterleaving | platform/platform.c:152 | under every interleaving the popped items and the unread ones are the admitted arrivals in order |
| RxRing.ArriveAllFits | platform/platform.c:175 | of any arrivals in a row the ring takes exactly those that meet fewer unread than all slots but one |
| RxRing.RxQueue.Store | platform/platform.c:175 | refuses exactly when all slots but one are unread, and then changes nothing |
| RxRing.RxQueue.PopItem | platform/platform.c:152 | with interrupts between its accesses, returns the oldest unread item, or none exactly when empty on entry |
| CanRx.ReceiveExactly | platform/platform.c:180 | a message is refused exactly when of the wrong kind or with 15 frames unread; only then is it counted and flagged |
| CanRx.FramesInOrder | platform/platform.c:154-181 | over every run with flags taken and reinitialisations at any time, the frames that left the ring and then the unread ones are what was there before and then the admitted arrivals, in order; arrivals are admitted or refused and counted |
| CanRx.EveryMessageAccountedFor | platform/platform.c:154-181 | from an empty ring: popped frames, with those thrown away by reinitialisations in their places, then unread ones, are the acceptable arrivals that met fewer than 15 unread, in order; arrivals are popped, thrown away, unread or refused; the overflow flag is set exactly when a refusal is untaken |
| CanRx.NothingDropped | platform/platform.c:155 | without a reinitialisation no admitted frame is thrown away |
| CanRx.CanReceiver.RxIrqHandler | platform/platform.c:178-181 | the handler empties the controller as specified, message by message |
| CanRx.CanReceiver.RxPop | platform/platform.c:154 | with whole interrupts between its accesses, returns the oldest unread frame |
| CanRx.CanReceiver.TakeRxOverflow | platform/platform.c:128-156 | returns whether any message was refused since it was last taken, and clears that |
| CanRx.CanReceiver.CanReinit | platform/platform.c:155 | empties the ring and clears activity, and leaves the overflow flag alone |
| UartTx.HandlerKeepsInv | platform/platform.c:176 | an interrupt anywhere keeps the queue equal to the rest of the accepted frames, a copy in progress included |
| UartTx.SentIsPrefixOfAccepted | platform/platform.c:151-176 | under every interleaving the bytes sent are a prefix of the accepted frames, the queue is the rest, and a non-empty queue outside a call has its interrupt enabled |
| UartTx.StepTakesWholeFrames | platform/platform.c:151 | a frame is accepted whole, by the one store of the head index |
| UartTx.RefusedExactly | platform/platform.c:151 | a call is refused exactly when its bytes and the unsent ones exceed 255, and changes nothing then |
| UartTx.InterruptsDrain | platform/platform.c:176 | interrupts send the oldest bytes, one each time the data register is empty, and touch nothing else |
| UartTx.CallDecides | platform/platform.c:151 | a whole call under any interrupts accepts its frame exactly when the bytes unsent before it, less one for each ready interrupt before the tail is read, leave room; else it changes only what is sent |
| UartTx.QueueDrains | platform/platform.c:176 | output never stalls: as many interrupts as bytes are queued send them all |
| UartTx.Uart.UsartIrqHandler | platform/platform.c:176 | the transmit half of the handler sends the oldest byte or disables itself on an empty queue |
| UartTx.Uart.UartTransmit | platform/platform.c:151 | in place and under given interrupts between its accesses, it is the specified call: its result and the new state follow from the bytes unsent and those interrupts |
| WrapTime.ElapsedExact | include/flowcan/time_utils.h:12-15 | the 32-bit age is the true one exactly for ages from 0 below 2^32 |
| WrapTime.ReachedModulo | include/flowcan/time_utils.h:7-10 | what the signed comparison decides for any two instants |
| WrapTime.ReachedNear | include/flowcan/time_utils.h:7-10 | within half the range it compares true times |
| Scheduler.PeriodicTask.Due | app/scheduler.c:4 | returns from every call but a due one with period zero, and leaves the specified deadline |
| Scheduler.LoopStopsExactly | app/scheduler.c:4 | the catch-up loop of a due task ends if and only if its period is not zero |
| Scheduler.FreshTaskWaits | app/scheduler.c:3 | a new task is not due at once exactly when its period is from 1 to 2^31 |
| Scheduler.PollOnGrid | app/scheduler.c:4 | a poll fires exactly when a grid point has passed since the last one, and the deadline stays on start + k * period |
| Scheduler.FiringsAreGridCrossings | app/scheduler.c:3-4 | over any polling history the firings are the grid crossings and number the distinct cells polled in |
| Scheduler.FiringRate | app/scheduler.c:3-4 | firings never exceed floor(elapsed / period), and reach it exactly when no cell is skipped |
| CanRecovery.CanRecoveryState.RecoveryStep | app/can_recovery.c:4-10 | the in-place step is the specified one |
| CanRecovery.ReinitExactly | app/can_recovery.c:4-10 | a reinit happens at a poll exactly when bus-off was seen at the poll before and still is, and the retry time has run since its onset or the last reinit |
| CanRecovery.ReinitOnlyAfterRetryTime | app/can_recovery.c:4-10 | before a reinit, bus-off was seen at every poll for at least the retry time |
| CanRecovery.ReinitSpacing | app/can_recovery.c:4-10 | reinits of one episode are between retry and retry plus one polling gap apart |
| CanRecovery.ReinitNeverOverdue | app/can_recovery.c:4-10 | while the bus stays off no poll passes the retry time without a reinit |
| CanClock.MonotonicClock.MonotonicUs | protocol/dronecan.c:22 | extends the 32-bit counter into 64 bits in place |
| CanClock.SampleTellsTime | protocol/dronecan.c:22 | one sample keeps true time exactly when less than 2^32 us have passed |
| CanClock.ClockTellsTime | protocol/dronecan.c:22-52 | in every reachable state the clock is the true time since init, if samples are close enough |
| CanClock.StampNotInFuture | protocol/dronecan.c:23 | a stamp never lies after the now it is computed from |
| CanClock.StampExactly | protocol/dronecan.c:23 | a stamp is the true arrival time exactly when the frame came no later than the clock reading and less than 2^32 us before it |
| CanClock.StampAfterClockMoved | protocol/dronecan.c:23-67 | for a frame that came at most 2^32 us before or after the last reading of the clock: its stamp is early by the time between the poll's reading and the last one, and by 2^32 us more if it came after the last, or zero; it is exact only if it came before both and they are one |
| CanClock.PollStamps | protocol/dronecan.c:66-67 | over the whole receive loop of a poll, with answers that read the clock again: what each frame within 2^32 us of the last reading is stamped, and that the stamp is exact if and only if the frame came no later than the poll's reading and no reading was made since, or came at init itself, which is stamped zero |
| TofModel.StepKeepsInv | drivers/vl53l1x.c:37-68 | whatever the bus does, a step keeps: the commands sent match the state, the sample means what its status says, and only a running machine has a usable one |
| TofModel.StepKeepsTimed | drivers/vl53l1x.c:37-68 | steps within the half-range keep the timeouts in true time |
| TofModel.UsableMeansRecent | drivers/vl53l1x.c:32-68 | in every reachable state a usable sample means the machine runs and the reading is less than 100 ms of true time old |
| TofModel.UsableComesFromReading | drivers/vl53l1x.c:52-64 | a usable sample is what the sensor gave in this step on a pending interrupt, or the one held before |
| TofModel.BringUpIsComplete | drivers/vl53l1x.c:24-51 | configuration writes are in register order, calibration needs all 91, running needs the whole post-calibration sequence |
| TofModel.CalibrationEnds | drivers/vl53l1x.c:47-51 | calibration has ended by the first step 500 ms or more after it began |
| TofModel.StaleCheckExactly | drivers/vl53l1x.c:65 | for any gap at all: the stale sample is dropped exactly when the lateness modulo 2^32 is below 2^31 |
| TofSteps.RunningStep | drivers/vl53l1x.c:52-64 | a running sensor with an interrupt pending stores exactly what the sensor gave, distance, quality 100 or 0 and status by 80 and 3500 mm, stays running and re-arms its timeout; it faults if and only if a transfer fails |
| TofSteps.QuietStep | drivers/vl53l1x.c:65 | without an interrupt it faults if and only if its timeout has passed, and nothing changes otherwise |
| TofSteps.WaitingStep | drivers/vl53l1x.c:40-66 | a waiting sensor is powered up if and only if its wait is over, and nothing changes otherwise |
| TofSteps.InitializingStep | drivers/vl53l1x.c:41-46 | one configuration write a step from 3 ms after power-up on, the 91st starts the ranging; it faults if and only if a transfer fails |
| TofSteps.CalibratingStep | drivers/vl53l1x.c:47-51 | asked again every millisecond, it runs from the step that finds it ready and faults if and only if a transfer fails or its half second has passed |
| TofBringUp.BringUpCompletes | drivers/vl53l1x.c:17-51 | on a bus that works, with steps at most gap ms apart, the sensor runs within 93 steps and the two waits, the calibration taking up to 500 ms |
| TofBringUp.RetryCompletes | drivers/vl53l1x.c:66 | the same for every retry, from any state in which one is pending |
| TofBringUp.WaitsAreKept | drivers/vl53l1x.c:40-41 | whatever the bus does, nothing is done before the wait is over, then only the power-up, and nothing is written in the 3 ms after it |
| TofBringUp.SampleIsLastReading | drivers/vl53l1x.c:52-65 | over any run with interrupts less than 100 ms apart and working transfers the sensor stays running and its sample is the reading of the last interrupt |
| TofRetry.RetryNeverOverdue | drivers/vl53l1x.c:32-66 | in every reachable state a sensor waiting for its retry gets it within a second |
| TofDriver.Device.constructor | drivers/vl53l1x.c:17-20 | starts in the boot wait with its deadline 2 ms ahead |
| TofDriver.Device.EnterFault | drivers/vl53l1x.c:32-35 | invalidates the sample, shuts the sensor down and waits a second; a pending interrupt stays pending |
| TofDriver.Device.TofStep | drivers/vl53l1x.c:37-68 | the in-place step through both pointers is the specified one and keeps the invariant |
| PmwModel.InitStepOnScript | drivers/pmw3901.c:58-66 | with any transfer outcomes an attempt stays on the script of register accesses and pauses |
| PmwModel.AttemptProgresses | drivers/pmw3901.c:58-66 | once its deadline is reached a step comes closer to READY or FAULT, which are returned exactly in the final states |
| PmwModel.AttemptEnds | drivers/pmw3901.c:58-66 | however transfers turn out, each due step uses up one of at most 76; when as many have been due as were left, the attempt has ended in READY or FAULT |
| PmwModel.StepExactly | drivers/pmw3901.c:58-66 | what a step at any later time does: nothing before the deadline; from it on, within 2^31 us, it fails, completes as the last step, or goes one step on |
| PmwModel.InitialisedMeansScriptDone | drivers/pmw3901.c:53-66 | an initialised device has done all 83 actions, in order, with every pause |
| PmwDriver.Pmw3901.ResetState | drivers/pmw3901.c:51 | clears counts and attempt in place |
| PmwDriver.Pmw3901.StartInit | drivers/pmw3901.c:53-56 | begins an attempt with the reset asserted for 1 ms |
| PmwDriver.Pmw3901.InitStep | drivers/pmw3901.c:58-66 | the in-place step is the specified one |
| PmwDriver.Pmw3901.Accumulate | drivers/pmw3901.c:105-114 | adds transformed motion with saturation, in place |
| PmwDriver.Pmw3901.Publish | drivers/pmw3901.c:116-121 | hands out the counts and clears them |
| PmwCounts.TransformIsSignedPermutation | drivers/pmw3901.c:89-103 | in every mounting the two counts are the raw values, each possibly negated, in one order or the other |
| PmwCounts.StepConserves | drivers/pmw3901.c:51-121 | every event keeps counts read equal to published, pending, discarded and clamped |
| PmwCounts.CountsConserved | drivers/pmw3901.c:51-121 | over any run both axes balance, and within the read limit saturation takes nothing |
| PmwCounts.ConservationFromPowerOn | drivers/pmw3901.c:51-121 | from power-on the balance is exact within the limit, and an uninitialised device holds nothing |
| PmwCounts.UninitialisedPublishesZero | drivers/pmw3901.c:116-121 | an uninitialised device publishes zero counts and quality marked invalid |
| PmwCounts.LimitIsExact | drivers/pmw3901.c:105-114 | in the driver by itself the limit of 65536 reads cannot be raised: one more and repeated extreme motion loses counts |
| CanTx.InsertKeepsOrder | third_party/libcanard/canard.c:1267-1313 | queueing a frame keeps frames of one id in the order in which they were made, those already sent included |
| CanTx.InsertKeepsSorted | third_party/libcanard/canard.c:1267-1313 | lower ids stay in front |
| CanTx.EnqueueExactly | third_party/libcanard/canard.c:1152-1262 | a transfer is queued whole exactly when the pool has a block for every frame; otherwise its head fills the pool |
| CanTx.BroadcastExactly | protocol/dronecan.c:54-58 | accepted exactly when the blocks and, at low priority, the reserve allow; every refusal is counted and flagged; nothing else changes |
| CanTx.LowPriorityKeepsReserve | protocol/dronecan.c:56 | a low-priority transfer of k <= 17 frames is all or nothing, taken exactly when more than 16 blocks are free, and leaves at least 17 - k |
| CanTx.TornExactly | protocol/dronecan.c:54-58 | a low-priority transfer is torn exactly when the free blocks are more than 16 but fewer than it needs |
| CanTx.PollKeepsInv | protocol/dronecan.c:64-71 | a poll never overdraws the pool and loses no frame |
| CanTx.BusOffDecides | protocol/dronecan.c:68 | a poll that sees bus-off sends nothing and leaves the queue empty; any other flushes nothing and sends at most 16 frames |
| CanTx.StatusExactly | protocol/dronecan.c:69 | a due NodeStatus is queued exactly when a block is free and refused otherwise, and the next is due a second later |
| CanTx.PollMakesStatus | protocol/dronecan.c:64-71 | a poll makes one NodeStatus frame exactly when one is due and a block is free after cleanup and receiving; due with none free, it counts one refusal more; the next is due a second after one was |
| CanTx.AnswerExactly | protocol/dronecan.c:45-50 | an answer to GetNodeInfo is queued whole exactly when the pool has its blocks, and torn exactly when it has some but too few |
| CanTx.SendsHighestPriority | protocol/dronecan.c:70 | what the controller is handed precedes everything left behind: by id, then by age |
| CanTx.FramesAccountedFor | protocol/dronecan.c:45-71 | in every reachable state each frame made is in the queue or left by acceptance, staleness or bus-off, frames of one id are sent in order, and an untaken refusal is flagged |
| CanTx.PollNeverLate | protocol/dronecan.c:66-70 | a poll leaves in the queue and sends no frame 50 ms or more past its deadline |
| CanTx.QueueNeverStale | protocol/dronecan.c:64-71 | the same for every poll after every run |
| CanPolls.PollExpiresExactly | protocol/dronecan.c:66 | a poll removes as stale exactly the queued frames whose deadline has passed, when 50 ms have gone by, and no other frame leaves the queue before the bus is looked at |
| CanPolls.PollAnswers | protocol/dronecan.c:45-67 | each of the first 16 frames of a poll that completes a GetNodeInfo request brings its answer to the node that asked, of its id and deadline, whole or as far as blocks go; other frames bring nothing |
| CanPolls.PollSendsExactly | protocol/dronecan.c:68-70 | with the bus on, of w frames queued min(accepts, 16, w) are handed to the controller, those that precede the rest by id and age, a due NodeStatus among the queued; with the bus off none |
| CanPolls.PollsDrain | protocol/dronecan.c:70 | over any polls with the bus on that accept a frame or more and bring no request, what is left of a queue and the NodeStatus frames made is at most what exceeds the frames accepted, 16 at most a poll |
| CanTxDriver.Transmitter.PushTxQueue | third_party/libcanard/canard.c:1267-1313 | the walk along the list finds the specified place |
| CanTxDriver.Transmitter.EnqueueTxFrames | third_party/libcanard/canard.c:1152-1262 | the loop over the payload makes one frame for 5, then every 7 bytes, until the pool is empty |
| CanTxDriver.Transmitter.Broadcast | protocol/dronecan.c:54-58 | the in-place broadcast is the specified one |
| CanTxDriver.Transmitter.RemoveStale | third_party/libcanard/canard.c:694-726 | the unlinking loop removes exactly the frames whose deadline has passed, in order |
| CanTxDriver.Transmitter.OnReception | protocol/dronecan.c:45-50 | the answer to a GetNodeInfo request is queued at high priority, and its refusal flagged |
| CanTxDriver.Transmitter.TakeTxOverflow | protocol/dronecan.c:62 | returns whether a transfer was refused since it was last taken |
| CanTxDriver.Transmitter.Poll | protocol/dronecan.c:64-71 | the in-place poll with its three loops is the specified one |
| Health.SeverityNeverFalls | protocol/dronecan.c:24 | adding health bits never lowers the reported severity |
| Health.SeverityExactly | protocol/dronecan.c:24 | which bits mean CRITICAL, at least ERROR, and OK |
| Health.RaiseReads | include/flowcan/types.h:33-45 | raising a mask sets the named bits of the health word and no others |
| Health.LowerReads | include/flowcan/types.h:33-45 | lowering a mask clears the named bits and no others |
| RangeReport.ClassifiedAgrees | protocol/dronecan.c:26-37 | MSP carries a distance exactly when DroneCAN says VALID, the same one, from 80 to 3500 at quality 100; otherwise -1, and the clamp limit or zero |
| RangeReport.ReportsAgree | drivers/vl53l1x.c:57-61 | the same in every reachable state of the sensor, with the frame read by an idle parser |
| RangeReport.ReadingTypeMeans | drivers/vl53l1x.c:57-61 | for a good reading the reading type is what the measured distance says |
| MainModel.PmwStagesKeep | app/main.c:35-38 | through read, retry, init and check: a flagged fault means not initialised, and counts are conserved |
| MainIo.Send | platform/platform.c:151 | an encoded message is taken whole, exactly when it fits beside the bytes unsent when the call reads the tail |
| MainIo.Flags | app/main.c:63-64 | the overflow flag taken is set exactly when a message was refused since it was last taken, one that arrives meanwhile included |
| MainReceive.PolledExactly | protocol/dronecan.c:67 | under any interrupts the receive loop of a poll pops frames in ring order until it has 16 or finds the ring empty, and throws none away |
| MainReceive.RecoveredExactly | platform/platform.c:155 | a reinitialisation empties the ring and throws away exactly what was in it; without one nothing leaves it |
| MainModel.FramesFit | app/main.c:45-53 | a flow frame is refused exactly when it meets more than 255 - 18 unsent bytes, a range frame more than 255 - 14 |
| MainModel.FlowStageKeeps | app/main.c:43-50 | the published samples add up to what the ledgers say, and each refusal sets its bit |
| MainPublish.FlowStageOffers | app/main.c:48 | a flow report due with the bus on is queued as four frames of id 24 << 24 | 20200 << 8 | 125 with 100 ms to be sent, if more than 16 blocks are free, and else refused, counted and flagged; no other touches the transmit side |
| MainPublish.RangeStageOffers | app/main.c:56 | the same for a range report: three frames of id 24 << 24 | 1050 << 8 | 125 |
| MainMotion.MotionStageExactly | app/main.c:35 | a good motion read of an initialised sensor adds its motion to the counts, if its motion bit is set, within int32, and replaces the quality; a failed one loses the sensor with a retry in a second |
| MainMotion.PmwStagesExactly | app/main.c:35-38 | what the four statements about the flow sensor do to counts read, pending and discarded, to the quality and to the fault bit |
| MainModel.IterateReports | app/main.c:34-71 | after an iteration every bit of the health word says what happened: sensors, bus-off, and exactly the refusals: a due report that met too many unsent bytes, a CAN message that was not admitted, a transfer libcanard did not take |
| MainModel.SeverityAfter | app/main.c:34-70 | the severity after an iteration in terms of bus-off, the sensors and the overflows |
| MainRuns.ReachableHealth | app/main.c:34-71 | all of that after every iteration of every run from power-on |
| MainRuns.OverflowBitsStick | app/main.c:43-67 | overflow bits once set stay set |
| MainRuns.CountsExact | app/main.c:34-71 | with at most 65536 motion reads between clearings nothing is clamped |
| MainMotion.IterateReads | app/main.c:35-38 | an iteration counts as read exactly the motion of an interrupt of an initialised sensor whose read succeeds with its motion bit set, and discards counts only by losing the sensor, and then those pending |
| MainFlow.MotionIsAccountedFor | app/main.c:34-71 | in every reachable state the motion read in the turns equals what the published samples carry, what is pending, discarded and clamped; invalid samples carry zeros |
| MainFlow.MotionIsPublished | app/main.c:34-71 | over runs in which reads succeed, checks find the sensor, and times are as the watchdog and the reads allow, the motion read in the turns is exactly what the published samples carry and what is pending |
| MainFlow.ReportFollowsTurns | drivers/pmw3901.c:105-121 | a flow report carries the sums of the motion read since the last clearing, each held within int32, the quality of the last read, and the time since that clearing modulo 2^32 |
| MainFlow.ReportBetween | drivers/pmw3901.c:116-121 | between two publications of a sensor that stays up the sums begin at zero, the quality is that of the last read or 0, and the time is that between the publications |
| MainFlow.GathersFromBringUp | drivers/pmw3901.c:58-66 | a sensor that comes up begins to gather at the step that completes its bring-up, from zero |
| MainFlow.FaultBitExactly | app/main.c:35-38 | the fault bit is clear on an initialised sensor, set by each loss and each given-up attempt, which leave a retry in a second, and otherwise as it was; which iterations lose the sensor |
| MainCounts.CountsExactInTime | app/main.c:35-43 | with iterations less than 500 ms apart and motion reads at least 170 us apart and within 10.6 s of the tick of their iteration, every count read is published, pending or thrown away by a reset: none is clamped |
| MainRuns.PublicationRates | app/main.c:26-58 | flow and range samples number at most elapsed / 20 ms and elapsed / 25 ms, with equality exactly when no period is skipped |
| MainRuns.PublishedRangesFresh | app/main.c:39-58 | every range sample ever published as usable was read less than 100 ms before, and both protocols agree on it |
| MainRange.PublishedIsLastReading | app/main.c:39-58 | while the range sensor keeps running, the sample published in each iteration in which the task fires is what the sensor gave in the iteration of the last interrupt |
| MainRange.PublishedRangesAreReadings | app/main.c:39-58 | over every run from power-on each range sample ever published as usable is what the sensor gave in some iteration with both transfers good, at the time noted |
| MainRange.RangeComesUp | app/main.c:39 | from power-on, on a bus that works, the range sensor of the main loop runs within 93 iterations and its waits |
| MainRuns.ReinitialisedExactly | app/main.c:65-66 | in which iterations the CAN controller is reinitialised |
| MainRuns.InitialisedMeansBroughtUp | app/main.c:35-38 | in every reachable state an initialised flow sensor has been through its whole bring-up since the last reset |
| MainRuns.BusOffIteration | app/main.c:41-67 | while the bus is off no sensor transfer is queued, and a poll that sees it too sends nothing and empties the queue |
| MainRuns.ReachableTransmitter | protocol/dronecan.c:45-71 | in every reachable state of the main loop no frame is lost track of, the pool is not overdrawn, and no refusal is left unreported |
| MainPublish.IteratePublishes | app/main.c:43-58 | before its poll an iteration has queued exactly the frames of its due reports that met more than 16 free blocks, flow first, and counted the others |
| MainPublish.IteratePolls | protocol/dronecan.c:64-71 | the rest of an iteration on the transmit side is one poll on the frames got, with the answers they ask for |
| MainPublish.RunTally | app/main.c:43-58 | over any run: four frames of the flow id for each flow report due with the bus on and more than 16 blocks free, three of the range id for each such range report, and no others |
| MainPublish.WorkingBusCarriesReports | app/main.c:43-67 | from power-on on a working bus everything made is sent by the end of each iteration, nothing expires or is refused, and that is four and three frames for each 20 and 25 ms polled in |
| MainRuns.ReachableReceiver | platform/platform.c:154-181 | the CAN receive ring in every reachable state of the main loop: admitted frames in order, popped, thrown away or unread, and every arrival accounted for |
| MainReceive.IteratePops | protocol/dronecan.c:67 | each iteration pops CAN frames in order until it has 16 or the ring is empty, and throws frames away only by a reinitialisation, and then all unread ones |
| MainReceive.NoFrameLost | platform/platform.c:154-181 | with at most 15 CAN messages an iteration none is refused for lack of space: admitted are exactly the acceptable ones that came, with id, data and time, none waits at the end of an iteration, and without a reinitialisation all have been popped |
| MainRetry.RetryNeverOverdue | app/main.c:35-37 | in every reachable state without an initialised flow sensor the next attempt is due within a second and not overdue |
| MainRetry.CheckNext | app/main.c:38 | a check re-arms its deadline a second on, and gives up a sensor that is not found; no check does neither |
| MainRetry.CheckedExactly | app/main.c:38 | over any run of any length: the sensor is checked in exactly those iterations in which it is initialised and a second has passed since the last check, if and only if each iteration that calls for one is late by less than 2^31 ms modulo 2^32; then the next check is ahead, by at most a second |
| MainStatus.StatusNext | protocol/dronecan.c:64-71 | an iteration makes one NodeStatus frame exactly when it finds one due and, after its publications, cleanup and receiving, has a block free; one due without a free block is flagged |
| MainStatus.StatusReports | protocol/dronecan.c:24-69 | the severity in the NodeStatus of an iteration, from the health word handed to the poll: sensors, bus-off and overflows of this iteration, but transfers refused in the poll itself show only from the next on |
| MainStatus.StatusOnSchedule | protocol/dronecan.c:64-71 | over any run from power-on: NodeStatus is found due exactly when the bus is on and a second has passed since it last was, if and only if each poll called to send one is late by less than 2^31 ms modulo 2^32; then the next is due within a second and not overdue |
| MainStatus.ShortStretchesSuffice | protocol/dronecan.c:68-69 | polls with the bus on at most 2^31 ms apart meet that condition |
| MainStatus.SilentUntilWrap | protocol/dronecan.c:52-69 | of dronecan.c with a time base that starts at 2^31 or more, which the platform's tick does not: no NodeStatus is made until the counter wraps |
| MainStatus.SilentAfterLongBusOff | protocol/dronecan.c:68-69 | after a NodeStatus, if all polls with the bus on come from 2^31 ms to 2^32 ms after the next was due, none is made |
| MainQueue.FramesNeverStale | protocol/dronecan.c:64-71 | in every run of the main loop with its clock readings in order, no frame is left queued or handed to the controller 50 ms or more past its deadline |
| MainBringUp.BringUpCompletes | app/main.c:35-37 | from power-on, with all transfers succeeding and steps at most gap us apart, 76 gap + 111000 + lag <= 1000000, the sensor is up once 111 ms and 75 gaps have passed |
| MainBringUp.RestartCompletes | app/main.c:36-37 | the same for every attempt started later, in any reachable state |
| MainBringUp.SlowLoopNeverUp | app/main.c:36-37 | whatever transfers do, with steps at least gap us apart, 74 gap + 102000 >= 1000000 + lag, the sensor is never up |
| MainTimetable.UpExactlyByTimetable | app/main.c:36-37 | with all transfers succeeding, at any gaps: the sensor is up if and only if a timetable of three numbers, advanced by the times of the iterations alone, has no steps left |
| MainMisses.CheckMissed | app/main.c:38 | a reachable run with an iteration every millisecond: the sensor takes no power-up write for 2^31 ms and a second or more, then comes up, and is checked neither then nor in any iteration until 2^32 ms after the first check was due |
| MainMisses.StatusMissed | protocol/dronecan.c:68-69 | a reachable run with an iteration every millisecond: the first poll makes a NodeStatus, and after a bus-off of 2^31 ms and a second or more no other is made until 2^32 ms after the second was due |
| MainDriver.MainLoop.constructor | app/main.c:20-29 | the state before the loop |
| MainDriver.MainLoop.StepPmw | app/main.c:35-38 | the four statements about the flow sensor, in place |
| MainDriver.MainLoop.StepTof | app/main.c:39 | interrupt, step and the two bits, in place |
| MainDriver.MainLoop.FlagBus | app/main.c:64-66 | the two CAN bits and the recovery step, in place |
| MainDriver.MainLoop.PollCan | app/main.c:67 | dronecan_poll on the frames got, and its overflow flag taken, in place |
| MainPorts.Ports.constructor | app/main.c:24 | rings, flags and parser as they are at the start |
| MainPorts.Ports.Send | platform/platform.c:151 | platform_uart_tx on the frame buffer is the specified sending of the message in it |
| MainPorts.Ports.ListenAll | app/main.c:60 | the loop over received bytes pops at most 64 and feeds each to the parser, with arrivals between all accesses |
| MainPorts.Ports.TakeFlags | app/main.c:63-64 | both flags taken in order, with interrupts before each |
| MainPorts.Ports.Recover | platform/platform.c:155 | the ring is emptied if recovery asks for it, and left alone if not |
| MainPorts.Ports.PollRx | protocol/dronecan.c:67 | at most 16 frames are popped, with interrupts between all accesses |
| Firmware.Node.constructor | app/main.c:16-33 | all objects at their start |
| Firmware.Node.PublishFlow | app/main.c:43-50 | the encoded report to the UART ring, the transfer to libcanard, both results noted, in place |
| Firmware.Node.PublishRange | app/main.c:51-58 | the same for the range sample |
| Firmware.Node.Iterate | app/main.c:34-71 | one iteration over all objects, rings and interrupts included, is the specified one and keeps the invariant |
| HostLink.HostReadsPrefix | platform/platform.c:151-176 | the parser at the host has read a prefix of the messages accepted by the ring, all of them once it is empty |
| HostLink.MessagesNext | app/main.c:43-58 | an iteration's accepted messages are its due reports, flow first, without those that met too many unsent bytes |
| HostLink.HostFollowsMainLoop | app/main.c:43-58 | from power-on, whatever happens to sensors, bus and interrupts: the frames in the ring are those of the due reports that met enough room, in order, and the host has read a prefix of them, all once the ring is empty |
| HostLink.ParserFollowsRing | app/main.c:60 | the messages parsed from the receive ring are a prefix of those in the bytes it took |
| HostLink.ParserFollowsMainLoop | app/main.c:60 | in every reachable state the receive ring has taken, of the bytes that came, exactly those that met fewer than 255 unread; the messages the parser has handed over are those in the bytes popped, and a prefix of those in the bytes taken |
| HostLink.NoByteLost | app/main.c:60 | if at most 64 bytes come in each iteration none is refused, and the parser has handed over the messages in all the bytes that came |
| MainListen.IteratePops | app/main.c:60 | each iteration pops received bytes until it has 64 or the ring is empty, and the bytes that came are those of the points it reached |
| MainListen.HostIsHeard | app/main.c:60 | with at most 64 bytes an iteration the parser has handed over exactly the messages in all the bytes that came in the turns |

## Left out

- Register-level setup, I2C and SPI bit protocols, busy waits, the byte layout of the motion burst, the watchdog and linker: hardware, not visible in the logic; transfers are inputs that succeed or fail.
- DSDL encodings, transfer CRCs, tail bytes and transfer ids of DroneCAN, and the contents of GetNodeInfo answers: generated code and wire format. A CAN frame is an id, a deadline and a serial number, and encoders are taken not to fail.
- libcanard's receive side: of a frame popped, it appears only whether it completes a GetNodeInfo request and how many blocks are held afterwards, which may be any the pool can give.
- 64-bit wrap of transmit deadlines: clock readings in `CanTx` are unbounded, which `CanClock.ClockTellsTime` justifies for 2^64 microseconds.
- Floating point: flow integrals in radians and NaN gyro fields are not modelled; the DroneCAN range is a real number without float32 rounding.
- Activity and status LEDs, WS2812 output and the big-endian helpers of platform/vl53l1_platform.c: easy members.
- UART transmit and receive halves of one interrupt are two modules, as they share no state; a payload byte behind the end of a CAN frame's data is not kept.
- Times of the microsecond counter are one value per statement of the loop: time passing inside a register transfer is not modelled.
- Interrupts of an iteration are given for each point where the main loop touches a ring; those that fall elsewhere are counted with the next such point, which no access can tell apart.
- Other builds (FEATURE_MSP or FEATURE_DRONECAN off) and multi-core memory ordering.
- Scheduler.PeriodicTask.Due: has no result for a due task with a period of zero, from which the source does not return (`Scheduler.LoopStopsExactly`).
- MspCorruption.UpToThreeFlipsRejected: covers errors behind the header with the length field intact, because a changed length makes the parser read other bytes as the CRC.
- PmwCounts.LimitIsExact: is stated for the configured mounting; for the others `PmwCounts.CountsConserved` gives the bound.
