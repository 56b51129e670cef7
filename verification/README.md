# Verification model of the body control module

This project models, in Dafny, the hardware-free logic of a vehicle body control module and
of the desktop tool that talks to it, and proves what that logic keeps.

Three connected parts are modelled.

1. **The framed link.** The CRC-8 register and its algebra (`LinearIteration`,
   `Crc8Register`, `ErrorDetection`), the wire grammar (`Protocol`), the firmware's encoder and
   parser (`FrameCodec`), the desktop tool's own (`DesktopCodec`), what parsers make of whole
   streams (`FrameStream`, `LinkRecovery`, `LinkBound`, `LinkAgreement`), the document's examples
   (`KnownAnswers`), the poll loop with its link-loss latch and its replies (`CommManager`,
   `CommReplies`), and the interrupt-fed transmit queue (`RingBuffers`, `UartTransmit`).
2. **The control cycle.** The table-driven engine (`StateMachines`), the door, power and
   lighting managers (`DoorManager`, `PowerManager`, `LightingManager`) with the laws of their
   runs (`DoorLaws`, `PowerLaws`, `LightingLaws`), the lamp arbiter (`LampArbiter`), what the
   cycle carries along (`Carried`, `CarriedLaws`), the cycle itself (`BcmCore`) and the laws of
   its runs (`CoreLaws`, `CoreLamps`, `CoreDoors`, `CoreLog`, `CoreRuns`, `CoreTimes`, `Presses`,
   `BeamRuns`).
3. **Timing, filtering, supervision.** `SoftTimers`, `Blinkers`, `Filters` and the watchdog's
   check-in protocol (`Watchdog`).

The stateful classes of the source are classes here, except the horn, the fault store and the
log, which are values that the control cycle updates. Their methods are proved to do what a
function on their abstract state says, and the laws are proved of that function over all inputs
and all runs.
Unsigned integers have their source widths; wrap-around is written out where it can happen.

## Where the code differs from its own documentation

The model follows the code. These statements of the repository do not hold of it; for each
there is an input on which it fails and the exact condition under which it holds.

- `firmware/services/crc8.h:5-8` says the CRC was chosen because it sees byte reordering. Two
  neighbouring bytes can change places unseen (`ErrorDetection.ReorderingCanBeMissed`), and
  `ErrorDetection.SwapIsMissed` says exactly when.
- The same comment says it sees any even number of flips in one column. It sees every set of
  flips in a column exactly in messages of at most eight bytes
  (`ErrorDetection.ColumnFlipsAreSeenIff`): four flips at byte distances 0, 6, 7 and 8 are never
  seen (`ErrorDetection.FourFlipsAreMissed`). Two flips are missed exactly at distances that are
  multiples of 127 (`ErrorDetection.TwoFlips`).
- `firmware/services/frame_codec.h:47-52` says a corrupted frame costs one frame. A single
  damaged byte that is neither HDR nor LEN always costs one. A damaged HDR or LEN costs one
  exactly when every header byte in the bytes received has its frame decided before they end
  (`LinkRecovery.OneByteCostsOneFrameIff`, `LinkRecovery.NextDecodedIffResolves`). In a frame
  with no header byte behind the damage that is always so for HDR, and for LEN exactly when the
  received LEN is over the maximum, not longer than the truth, or one longer while the footer
  does not pass for a checksum. `LinkRecovery.DamagedLengthCostsMore` and
  `LinkRecovery.PayloadCanPassForHeader` are inputs on which it fails. From any state, 36 bytes
  of clean frames, and no fewer, always make the parser hunt again
  (`LinkRecovery.Resynchronises`, `LinkBound.ThirtyFiveAreTooFew`).
- `firmware/services/bcm_config.h:26-27` calls the ambient thresholds the readings below and
  above which the low beam goes on and off. They are applied to 1000 minus the reading. The words
  hold exactly when the thresholds are each other's complement to 1000, give or take one
  (`LightingLaws.DocumentedIffMirrored`); with the defaults a reading of 500 switches the low
  beam on (`LightingLaws.DefaultThresholds`).
- High beam only with low beam (SRS-LIGHT-002) is not a rule of the arbiter: a host request can
  split them, in a run of the core from its construction, exactly when it sets them apart
  (`BeamRuns.HostCanSplitBeamsIff`, `BeamRuns.HostCanSplitBeams`).
- A long press (`firmware/services/bcm_core.cpp:57`) is lost if the 16-bit hold counter wraps
  past the threshold between two cycles (`Presses.CoreLosesLongPress`). Holds are judged by their
  length exactly when no cycle can carry the counter that far (`Presses.HoldsAreJudgedIff`).
- The loop of the blinker is there so that a long step cannot leave the phase stale
  (`firmware/drivers/blink.h:80`). A step that saturates the elapsed time can
  (`Blinkers.LongStepGoesStale`). `Blinkers.LongStepLaw` says when one step does, from the state
  before it, and every series of steps is safe exactly when none is longer than 65536 minus the
  longer phase (`Blinkers.StepsFollowIff`).
- A timer's update is documented to be true exactly once per expiry
  (`firmware/drivers/soft_timer.h:36`). One update that spans several periods fires once
  (`SoftTimers.LongStepSkipsExpiry`). A periodic timer fires once per expiry exactly when no
  step is longer than its period (`SoftTimers.FiresOncePerExpiryIff`).

## Model

| member | source | states |
|---|---|---|
| Crc8Register.Crc8.Update | firmware/services/crc8.h:37-48 | the eight-turn bit loop turns the register into eight applications of the one-bit shift to register XOR byte |
| Crc8Register.Crc8.UpdateAll | firmware/services/crc8.h:50-54 | a null buffer leaves the register alone; otherwise the register absorbs exactly the first len bytes |
| Crc8Register.Crc8.Compute | firmware/services/crc8.h:59-64 | the one-shot CRC is the register started at 0 and run over the data |
| Crc8Register.Compute | desktop/BcmDiagnosticTool/Protocol/Crc8.cs:15-29 | the desktop tool's nested loops compute the same CRC as the firmware's register |
| Crc8Register.EightShifts | firmware/services/crc8.h:39-47 | eight one-bit shifts of c are the XOR of two shifts, one shift and c: the register obeys its own polynomial |
| Crc8Register.Period | firmware/services/crc8.h:39-47 | 127 one-bit shifts are the identity |
| Crc8Register.ShiftFixedPoints | firmware/services/crc8.h:41-46 | the only bytes one shift leaves alone are 0 and 0xFD |
| Crc8Register.FixedByShifts | firmware/services/crc8.h:39-47 | n shifts leave e alone iff e is 0, e is 0xFD or 127 divides n |
| KnownAnswers.CheckValue | docs/protocol/ICD.md:82-87 | the CRC of the nine digits is 0xF4 |
| LinearIteration.PeriodOfTrinomial | firmware/services/crc8.h:29 | algebra behind the period: a linear injective map with f^8 = f^2 + f + 1 has f^127 = identity |
| LinearIteration.GcdPeriod | firmware/services/crc8.h:29 | algebra behind the exactness: two periods of an orbit have a common divisor that is a period |
| LinearIteration.TwoErrors | firmware/services/crc8.h:50-54 | in any linear register, equal errors at two places cancel iff the iterate by their distance fixes the error |
| LinearIteration.FourErrors | firmware/services/crc8.h:50-54 | in any linear register whose step satisfies the trinomial, four equal errors at offsets 0, 6, 7 and 8 cancel |
| ErrorDetection.OneFlipIsSeen | firmware/services/crc8.h:5-8 | XORing one byte of a message of any length with e leaves the CRC unchanged iff e is 0 |
| ErrorDetection.TwoFlips | firmware/services/crc8.h:5-8 | XORing two bytes with e leaves the CRC unchanged iff e is 0, e is 0xFD or their distance is a multiple of 127 |
| ErrorDetection.SwapIsMissed | firmware/services/crc8.h:5-8 | swapping two bytes is missed iff they are equal, their XOR is 0xFD or their distance is a multiple of 127 |
| ErrorDetection.ReorderingCanBeMissed | firmware/services/crc8.h:5-8 | 01 FC and FC 01 have the same CRC |
| ErrorDetection.FourFlipsAreMissed | firmware/services/crc8.h:5-8 | the same mask at bytes p, p+6, p+7 and p+8 is missed, whatever the mask and the message |
| ErrorDetection.ColumnReachesRegister | firmware/services/crc8.h:37-54 | any set of flips with one mask is missed iff the CRC of the flips alone is 0 |
| ErrorDetection.ColumnFlipsAreSeenIff | firmware/services/crc8.h:5-8 | every nonempty set of flips of one bit column changes the CRC of every message of n bytes iff n is at most 8 |
| ErrorDetection.AcceptsIffZero | firmware/services/frame_codec.cpp:101-102 | a word ends in the right checksum iff its own CRC is 0 |
| ErrorDetection.ChecksumAccepted | firmware/services/frame_codec.cpp:39 | a message followed by its CRC passes the check |
| ErrorDetection.ErrorIsMissed | firmware/services/crc8.h:37-54 | the code is linear: an error pattern over data and checksum is missed iff it passes the check itself |
| ErrorDetection.RegisterParity | firmware/services/crc8.h:37-54 | for messages of any length the bit parity of the register is the parity of all message bits |
| ErrorDetection.OddErrorIsSeen | firmware/services/crc8.h:37-54 | every odd number of bit flips across data and checksum is caught |
| ErrorDetection.BurstIsSeen | firmware/services/crc8.h:37-54 | every nonzero error within eight consecutive bits across data and checksum is caught |
| ErrorDetection.NineBitsAreMissed | firmware/services/crc8.h:37-54 | eight is sharp: one burst of nine bits is missed at every place in every message |
| ErrorDetection.TwoBitsAreMissedIff | firmware/services/crc8.h:37-54 | two flipped bits anywhere in data and checksum are missed iff they stand a multiple of 127 bits apart |
| ErrorDetection.FewBitsAreSeenIff | firmware/services/crc8.h:37-54 | every error of one to three bits is seen in every word of n bytes, checksum included, iff n is at most 15 |
| Protocol.LenRoundTrip | firmware/services/frame_codec.cpp:31 | a payload length survives being written as the LEN byte |
| Protocol.WireParts | firmware/services/protocol.h:10-14 | a byte string with header, CMD, LEN, payload, CRC and footer in place is the encoded message |
| KnownAnswers.ExampleFrames | docs/protocol/ICD.md:221-250 | the document's example frames are the encodings of their commands and payloads |
| FrameCodec.Encode | firmware/services/frame_codec.cpp:10-44 | succeeds iff the buffer exists, LEN is at most 32 and the frame fits; then writes exactly the encoding and nothing behind it, and otherwise writes nothing |
| FrameCodec.Fill | firmware/services/frame_codec.cpp:23-42 | the running index and CRC put every part of the frame in its place |
| FrameCodec.FrameParser.Feed | firmware/services/frame_codec.cpp:60-116 | one byte moves the parser one step of the frame grammar, returns its answer, exposes the frame on Complete and counts good and bad frames modulo 2^32 |
| FrameCodec.FrameParser.Reset | firmware/services/frame_codec.cpp:46-51 | the parser hunts and the counters survive |
| FrameCodec.FrameParser.Fail | firmware/services/frame_codec.cpp:53-58 | one more bad frame, hunting, the given answer |
| DesktopCodec.Encode | desktop/BcmDiagnosticTool/Protocol/FrameCodec.cs:12-34 | throws iff the payload is over 32 bytes; otherwise returns the same bytes as the firmware's encoder |
| DesktopCodec.DesktopParser.Feed | desktop/BcmDiagnosticTool/Protocol/FrameCodec.cs:85-144 | with its buffered CRC input, takes the same step of the grammar; Frame changes only on Complete |
| DesktopCodec.DesktopParser.Reset | desktop/BcmDiagnosticTool/Protocol/FrameCodec.cs:71-76 | the parser hunts; counters and Frame survive |
| DesktopCodec.DesktopParser.Fail | desktop/BcmDiagnosticTool/Protocol/FrameCodec.cs:78-83 | one more bad frame, hunting, the given answer |
| LinkAgreement.FeedOne | desktop/BcmDiagnosticTool/Protocol/FrameCodec.cs:85-144 | from equal abstract states the two parsers answer a byte alike, deliver the same frame and stay level |
| LinkAgreement.FeedBoth | desktop/BcmDiagnosticTool/Protocol/FrameCodec.cs:40-46 | on every byte stream the two parsers return the same answers, frames and counters, those of the frame grammar |
| FrameStream.RoundTrip | firmware/services/frame_codec.cpp:10-116 | a hunting parser fed one encoded frame reports it, once, at its last byte |
| FrameStream.StreamRoundTrip | firmware/services/frame_codec.cpp:10-116 | any list of frames with any payload bytes, with header-free noise between them, comes back exactly and in order with nothing rejected |
| FrameStream.Decompose | firmware/services/frame_codec.cpp:60-116 | every stream from every state is noise and the whole encodings of the reported frames, in turn and in order |
| FrameStream.FrameRate | firmware/services/frame_codec.cpp:60-116 | n bytes give a hunting parser at most n / 5 frames |
| FrameStream.CompletionIsEncoding | firmware/services/frame_codec.cpp:106-111 | whenever a byte completes a frame, the last len + 5 bytes received are the encoding of the frame reported |
| FrameStream.CompletesThere | firmware/services/frame_codec.cpp:106-111 | wherever in a stream Complete is answered, the bytes up to there are the encoding of the frame reported |
| FrameStream.FramesAreApart | firmware/services/frame_codec.cpp:60-111 | between the positions of two Completes there is room for the whole encoding of the later frame, so their bytes never overlap |
| FrameStream.PendingStep | firmware/services/frame_codec.cpp:60-116 | each byte extends the frame in progress, completes it as a whole encoding, or drops it |
| FrameStream.DecodedIffHunting | firmware/services/frame_codec.cpp:60-116 | the last byte of an encoded frame reports that frame iff the parser was hunting when its header came |
| FrameStream.Concat | firmware/services/comm_mgr.cpp:44-59 | parsing a stream in pieces is parsing it whole |
| LinkRecovery.WrongChecksum | firmware/services/frame_codec.cpp:101-102 | any wrong CKSUM is answered ChecksumError at that byte and leaves the parser hunting at the end of the frame |
| LinkRecovery.HeadTooLong | firmware/services/frame_codec.cpp:82-87 | a LEN over 32 is answered Overflow at that byte, counted as one bad frame and reports nothing; the parser hunts |
| LinkRecovery.DamagedByteCostsOneFrame | firmware/services/frame_codec.cpp:46-104 | any nonzero change of CMD, a payload byte or CKSUM gives ChecksumError at the checksum byte, one bad frame, and the next frame decodes |
| LinkRecovery.DamagedFooterCostsOneFrame | firmware/services/frame_codec.cpp:106-107 | any wrong footer gives FramingError at that byte, one bad frame, and the next frame decodes |
| LinkRecovery.DamagedLengthCostsMore | firmware/services/frame_codec.cpp:82-92 | an input: an empty frame whose LEN turned into 32 makes the parser report none of the frames in the next 31 bytes |
| LinkRecovery.DamagedLength | firmware/services/frame_codec.cpp:82-102 | a changed LEN leaves the parser hunting at the end of a frame without header bytes iff it is over 32, at most the true length, or one more and the checksum over payload and CKSUM is not the footer |
| LinkRecovery.DamagedHeader | firmware/services/frame_codec.cpp:64-74 | a frame with a damaged header and no header byte behind it is noise: nothing reported, nothing counted, still hunting |
| LinkRecovery.HuntsIffResolves | firmware/services/frame_codec.cpp:60-116 | a hunting parser hunts again at the end of any bytes iff, frame by frame, every header byte it stops at has its LEN rejected, its checksum failed or its footer byte received within them |
| LinkRecovery.NextDecodedIffResolves | firmware/services/frame_codec.cpp:60-116 | behind any bytes whatever the next frame is reported iff they resolve in this sense |
| LinkRecovery.OneByteCostsOneFrameIff | firmware/services/frame_codec.h:47-52 | one damaged byte at any position of any frame leaves the next frame to be reported iff it is neither HDR nor LEN or the bytes received resolve; with no header byte behind, a damaged HDR always resolves and a damaged LEN iff it is harmless |
| LinkRecovery.ShortLengthReports | firmware/services/frame_codec.cpp:82-111 | a LEN received too short reports the start of the payload as a frame iff the two bytes behind it pass for checksum and footer, and nothing else |
| LinkRecovery.LongLengthReports | firmware/services/frame_codec.cpp:82-111 | a LEN received too long or over the maximum reports nothing |
| LinkRecovery.PayloadCanPassForHeader | firmware/services/frame_codec.cpp:64-74 | an input: a damaged header in front of a payload holding 0xAA costs the next frame too |
| LinkRecovery.HuntsSoon | firmware/services/frame_codec.cpp:60-116 | from every reachable state the parser hunts again within 36 bytes, whatever they are |
| LinkRecovery.Resynchronises | firmware/services/frame_codec.cpp:60-116 | from every state, once 36 bytes of frames without 0xAA after their headers have passed, every later frame is reported Complete with its contents and none is rejected |
| LinkBound.ThirtyFiveAreTooFew | firmware/services/frame_codec.cpp:60-116 | 36 is least: behind 35 bytes of clean frames a parser that began mid-stream can still lose the next frame |
| CommManager.CommMgr.SendFrame | firmware/services/comm_mgr.cpp:24-38 | sends the encoding of the frame or counts one failure, modulo 2^32; succeeds iff none is counted |
| CommManager.CommMgr.HandleByte | firmware/services/comm_mgr.cpp:48-58 | only a Complete restarts the link timer, clears the loss, dispatches the frame and sends the reply |
| CommManager.CommMgr.Drain | firmware/services/comm_mgr.cpp:42-59 | takes exactly the first min(budget, available) bytes and handles them in order; the result counts the frames modulo 256 |
| CommManager.CommMgr.Poll | firmware/services/comm_mgr.cpp:40-68 | drains, then runs the link timer unless the loss is latched |
| CommManager.BytesAreParsed | firmware/services/comm_mgr.cpp:44-59 | the frames dispatched are those of one parser pass over the bytes taken |
| CommManager.BudgetsDoNotMatter | firmware/services/comm_mgr.cpp:40-68 | over any polls with any budgets nothing is lost or reordered, and once the transport is drained the frames dispatched are those of one pass over everything that arrived |
| CommManager.LatchMeasures | firmware/services/comm_mgr.cpp:51-65 | with a positive timeout the timer holds timeout minus the time since the poll of the last valid frame, or the loss is latched |
| CommManager.LinkLossLaw | firmware/services/comm_mgr.cpp:61-65 | after every poll the link is lost iff the timeout is positive and at most the time summed since the poll of the last valid frame, that poll included |
| CommReplies.RepliesLaw | firmware/services/comm_mgr.cpp:24-57 | over any polls what has been sent is, in order, the encodings of the dispatcher's answers to the dispatched frames that can be encoded and that the line took; the failures count all the other answers, modulo 2^32 |
| CommReplies.OpenLineSendsAll | firmware/services/comm_mgr.cpp:29-37 | on a line that takes every write exactly the answers of at most 32 bytes go out, in order |
| RingBuffers.PushAppends | firmware/drivers/ring_buffer.h:30-37 | push appends iff there is room, and keeps the indices right |
| RingBuffers.PopTakesOldest | firmware/drivers/ring_buffer.h:40-47 | pop takes the oldest item iff there is one |
| RingBuffers.RingBuffer.Push | firmware/drivers/ring_buffer.h:30-37 | the circular array refines the FIFO: contents grow by the item, or stay if it was full |
| RingBuffers.RingBuffer.Pop | firmware/drivers/ring_buffer.h:40-47 | the circular array refines the FIFO: the oldest item, or nothing, is taken |
| RingBuffers.RingBuffer.Clear | firmware/drivers/ring_buffer.h:57 | the queue is empty |
| UartTransmit.Uart.Write | firmware/drivers/drv_uart.cpp:69-99 | all or nothing: accepted iff initialised, data present and it fits; then queued whole and the interrupt is asked for; the interrupt mask is restored |
| UartTransmit.Uart.OnTxEmpty | firmware/drivers/drv_uart.cpp:141-151 | moves exactly one byte from queue to wire, in order, or stops asking when the queue is empty |
| UartTransmit.StepKeeps | firmware/drivers/drv_uart.cpp:86-97 | every step of every task and of the interrupt keeps: wire, queue and the bytes still owed by the masking task are the accepted writes in order |
| UartTransmit.WritesStayWhole | firmware/drivers/drv_uart.cpp:75-97 | over every interleaving the wire is a prefix of the accepted writes in order, so none is truncated or mixed; unmasked, wire and queue are exactly those writes; at rest queued bytes are asked for |
| UartTransmit.QueueDrains | firmware/drivers/drv_uart.cpp:141-151 | once all tasks are done, one interrupt per queued byte is possible and puts every accepted byte on the wire |
| UartTransmit.WriteAlone | firmware/drivers/drv_uart.cpp:69-99 | the steps of one write with nothing in between queue all of it and ask for the interrupt iff it fits, and otherwise change nothing |
| UartTransmit.WriteAsSteps | firmware/drivers/drv_uart.cpp:69-99 | the driver's write and the uninterrupted steps of one task lead to the same queue, wire, mask and interrupt request |
| UartTransmit.InterruptAsStep | firmware/drivers/drv_uart.cpp:141-151 | the driver's interrupt handler and the interrupt step lead to the same state |
| StateMachines.Fsm.Dispatch | firmware/services/fsm.h:58-81 | the search moves to the row found and runs its action, counts a refusal, or does nothing; counters modulo 2^32 |
| StateMachines.FirstMatchDecides | firmware/services/fsm.h:55-56 | the first row matching state and event alone decides: it fires, or its guard refuses and nothing later is tried |
| StateMachines.NoMatchIgnores | firmware/services/fsm.h:62-80 | without a matching row nothing changes |
| StateMachines.BarredIsNotEntered | firmware/services/fsm.h:68-73 | in any table, a state all of whose entering rows carry a refusing guard cannot be entered |
| StateMachines.CountersCount | firmware/services/fsm.h:68-91 | over any series of events a machine counts the transitions fired and the guards that refused, each modulo 2^32 |
| DoorManager.DoorMgr.RequestLock | firmware/services/door_mgr.cpp:59-71 | locks and stops both timers, or flags the refusal iff the guard refused |
| DoorManager.DoorMgr.RequestUnlock | firmware/services/door_mgr.cpp:73-79 | from Locked goes to Welcome, starts its timer and stops auto-lock |
| DoorManager.DoorMgr.Update | firmware/services/door_mgr.cpp:81-96 | both timers advance by dt, a timer started in this update included; a refused auto-lock re-arms |
| DoorManager.DoorMgr.Apply | firmware/services/door_mgr.cpp:98-108 | Locked lights the lock lamp, Welcome the DRL, and no other lamp changes |
| DoorManager.DoorMgr.Reset | firmware/services/door_mgr.cpp:131-137 | Locked, context cleared, timers stopped, counters kept |
| DoorLaws.TableDecides | firmware/services/door_mgr.cpp:33-44 | the five rows amount to a decision by state, event and open door |
| DoorLaws.NeverLocksOpen | firmware/services/door_mgr.cpp:33-96 | with a door open no request and no update enters Locked |
| DoorLaws.OpenDoorsAreNotLocked | firmware/services/door_mgr.cpp:33-96 | with a door open an operation that ends in Locked began there and made no transition |
| DoorLaws.RefusalIsReported | firmware/services/door_mgr.cpp:59-68 | a lock request leaves the refusal flag set iff a door is open, unless already Locked, where it is untouched |
| DoorLaws.LockRequestLocks | firmware/services/door_mgr.cpp:59-71 | a lock request with the doors shut ends in Locked; newly locked, both timers are stopped, the lock chirp is asked for and a refusal forgotten |
| DoorLaws.LockRequestRefused | firmware/services/door_mgr.cpp:63-68 | with a door open it changes nothing but the refusal flag of unlocked doors |
| DoorLaws.UnlockRequestUnlocks | firmware/services/door_mgr.cpp:73-79 | an unlock request takes locked doors to Welcome for the welcome duration with the unlock chirp, and leaves others alone |
| DoorLaws.UpdateChirps | firmware/services/door_mgr.cpp:81-96 | an update asks for the lock chirp iff it locks, and touches no other flag |
| DoorLaws.UnlockAlwaysWorks | firmware/services/door_mgr.cpp:73-79 | an unlock request never leaves the doors locked, whatever is open |
| DoorLaws.UpdateDecides | firmware/services/door_mgr.cpp:81-96 | one update in closed form, including Welcome passing through Unlocked to Locked within one dt |
| DoorLaws.TimersFollowTheState | firmware/services/door_mgr.cpp:59-96 | in every run with both delays positive, the welcome timer runs iff Welcome and the auto-lock timer iff Unlocked |
| DoorLaws.LocksInTheEnd | firmware/services/door_mgr.cpp:81-96 | from every reachable state with doors shut, updates totalling at least W + A reach Locked, however they are split |
| DoorLaws.StaysUnlocked | firmware/services/door_mgr.cpp:73-96 | after an unlock the doors are not Locked while the total is below W + A minus the largest dt |
| DoorLaws.LocksItselfIff | firmware/services/door_mgr.cpp:73-96 | an unlocked car can lock itself at all iff both delays are positive |
| DoorLaws.ResetLocks | firmware/services/door_mgr.cpp:131-137 | a reset locks, clears every flag and runs no timer; the counters stay |
| PowerManager.PowerMgr.IgnitionOn | firmware/services/power_mgr.cpp:50-56 | starts waking, or aborts a shutdown and leaves its timer running |
| PowerManager.PowerMgr.IgnitionOff | firmware/services/power_mgr.cpp:58-64 | Run and Wake go to Shutdown with 500 ms and no inactivity timer |
| PowerManager.PowerMgr.UpdateBattery | firmware/services/power_mgr.cpp:66-77 | the first reading only sets the trigger; later ones shed iff it says low |
| PowerManager.PowerMgr.Update | firmware/services/power_mgr.cpp:79-96 | both timers advance by dt, one started in this update included |
| PowerManager.PowerMgr.Apply | firmware/services/power_mgr.cpp:98-103 | Run and Wake light the ignition lamp, and no other lamp changes |
| PowerManager.PowerMgr.Reset | firmware/services/power_mgr.cpp:105-112 | Sleep, nothing shed, timers stopped; the battery trigger is not reset |
| PowerLaws.TableDecides | firmware/services/power_mgr.cpp:16-29 | the rows amount to a decision by state and event |
| PowerLaws.UpdateDecides | firmware/services/power_mgr.cpp:79-96 | one update in closed form, with the shutdown timer left over from an aborted shutdown having no effect in Run |
| PowerLaws.TimersFollowTheState | firmware/services/power_mgr.cpp:50-96 | in every run with a positive sleep delay, Wake or Shutdown implies the transition timer runs, Sleep that it does not, and the inactivity timer runs iff Run |
| PowerLaws.SleepsInTheEnd | firmware/services/power_mgr.cpp:79-96 | without ignition events every reachable state sleeps once the total is at least 700 ms + sleep delay + the largest dt |
| PowerLaws.SleepsItselfIff | firmware/services/power_mgr.cpp:50-96 | a car switched on can fall asleep by itself at all iff the sleep delay is positive |
| PowerLaws.ShutdownLasts | firmware/services/power_mgr.cpp:58-64 | in every run ignition off from Wake or Run shuts down for at least 500 ms, and otherwise does nothing |
| PowerLaws.SwitchedOnLasts | firmware/services/power_mgr.cpp:50-56 | in every run ignition on from Sleep wakes for at least 200 ms, from Shutdown runs for at least the sleep delay despite the stale timer, and otherwise does nothing |
| PowerLaws.ResetSleeps | firmware/services/power_mgr.cpp:105-112 | a reset sleeps, sheds nothing, runs no timer and makes the next reading the first; the trigger keeps its state |
| PowerLaws.SheddingLaw | firmware/services/power_mgr.cpp:66-77 | in every run load is shed iff there were two readings since the last reset and the last reading ever outside the band was low |
| LightingManager.LightingMgr.DispatchLight | firmware/services/lighting_mgr.cpp:94 | an event goes through the light table and its action |
| LightingManager.LightingMgr.TurnAllOff | firmware/services/lighting_mgr.cpp:95-99 | lights off with both ownership flags cleared |
| LightingManager.LightingMgr.UpdateAmbient | firmware/services/lighting_mgr.cpp:101-115 | feeds the complement, clamped at 0, to the trigger; a first reading that is not dark is ignored |
| LightingManager.LightingMgr.IndicatorHazard | firmware/services/lighting_mgr.cpp:121-130 | the hazard switch cancels when latched and latches otherwise |
| LightingManager.LightingMgr.Apply | firmware/services/lighting_mgr.cpp:132-172 | writes the lamps of light mode and indicators and no others |
| LightingManager.LightingMgr.Reset | firmware/services/lighting_mgr.cpp:174-181 | both machines and contexts start over; the ambient trigger is not reset |
| LightingLaws.TableDecides | firmware/services/lighting_mgr.cpp:33-51 | the ten rows amount to a decision by state, event and ownership |
| LightingLaws.IndTableDecides | firmware/services/lighting_mgr.cpp:60-76 | the eight rows amount to: directions toggle and replace each other, and neither gets past the hazards |
| LightingLaws.RunIsShaped | firmware/services/lighting_mgr.cpp:33-115 | in every run: Off has no flag, Parking and Drl are manual only, LowBeam has exactly one flag, HighBeam is manual, and the hazard latch is on iff the hazards are |
| LightingLaws.ReadingDecides | firmware/services/lighting_mgr.cpp:101-115 | from any such shape one reading keeps a manual mode and otherwise makes the lights follow the trigger |
| LightingLaws.AmbientLaw | firmware/services/lighting_mgr.cpp:101-115 | in every run, after a reading with no manual mode the state is LowBeam if the last reading since construction outside the band was dark, else Off |
| LightingLaws.ManualModeStays | firmware/services/lighting_mgr.cpp:25-26 | no sequence of readings changes a mode the driver chose |
| LightingLaws.ThresholdsMirror | firmware/services/lighting_mgr.cpp:101-106 | for all thresholds low below high, dark is a reading of at most 1000 - high, light one of at least 1000 - low, and between them the state holds |
| LightingLaws.DocumentedIffMirrored | firmware/services/bcm_config.h:26-27 | below the dark threshold on and above the light threshold off holds for all readings and states iff low + high is 999, 1000 or 1001, or low is 0 and high at least 999 |
| LightingLaws.DefaultThresholds | firmware/services/bcm_config.h:26-51 | with the default thresholds dark is a reading of at most 600 and light one of at least 700; a reading of 500 breaks the documented meaning |
| LightingLaws.HazardsWin | firmware/services/lighting_mgr.cpp:60-69 | in every run direction presses change nothing during hazards and the hazard switch toggles them from any state |
| LightingLaws.ModeCycle | firmware/services/lighting_mgr.cpp:35-40 | five mode steps from a mode the sensor does not own restore state and flags |
| LightingLaws.AllOffClears | firmware/services/lighting_mgr.cpp:95-99 | all off ends any mode and clears both flags, indicators and trigger untouched |
| LightingLaws.ResetTurnsOff | firmware/services/lighting_mgr.cpp:174-181 | a reset turns both machines off, clears the flags and forgets there was a reading; the trigger keeps its state |
| LampArbiter.Arbitrate | firmware/services/lamp_arbiter.cpp:34-76 | the five in-place rules amount to one ruling per lamp |
| LampArbiter.Shed | firmware/services/lamp_arbiter.cpp:52-58 | puts out exactly the lamps that are not essential |
| LampArbiter.BlankAll | firmware/services/lamp_arbiter.cpp:27-32 | puts out every lamp |
| LampArbiter.ArbitrationIsIdempotent | firmware/services/lamp_arbiter.cpp:34-76 | arbitrating twice is arbitrating once |
| LampArbiter.SafetyRules | firmware/services/lamp_arbiter.cpp:36-75 | for all requests: brake shows the pedal; reverse needs gear, link and wakefulness; asleep only lock and brake can burn; shedding leaves essential lamps; a lost link puts out high beam |
| LampArbiter.WishesPass | firmware/services/lamp_arbiter.cpp:36-75 | what must stay lit: asleep the lock lamp; awake every lamp but brake, reverse and the high beam of a lost link; shedding keeps low beam, indicators and hazards and puts out lamps 0, 1, 3 and 9; reverse with gear, link and wakefulness |
| Carried.SetIsIndependent | firmware/services/fault_mgr.cpp:18-37 | setting a code activates it and no other, and the eight-entry store always has room |
| Carried.ClearIsIndependent | firmware/services/fault_mgr.cpp:39-43 | clearing a code deactivates it and no other |
| Carried.AtMostSix | firmware/services/fault_mgr.cpp:31 | entries with distinct codes never fill the store |
| CarriedLaws.PhaseHolds | firmware/services/horn_mgr.h:43-60 | until its time is up a chirp sounds and a gap is silent, in whatever steps the time passes |
| CarriedLaws.PhaseEnds | firmware/services/horn_mgr.h:46-57 | the update that ends a chirp silences the horn and counts it, the one that ends a gap sounds the next chirp |
| CarriedLaws.ChirpsAsAsked | firmware/services/horn_mgr.h:33-60 | n chirps asked for are n chirps: after n chirp and gap times and two longest updates each, exactly n have ended and none is left |
| CarriedLaws.NoChirpTimeSticks | firmware/services/horn_mgr.h:34-60 | with a chirp time of 0 the first chirp never ends and the horn sounds on |
| CarriedLaws.HornIsLimited | firmware/services/horn_mgr.h:62-70 | held down the horn sounds iff its total time, modulo 2^32, is under the limit |
| CarriedLaws.OccurrencesCount | firmware/services/fault_mgr.cpp:22-36 | a code set n times has one active entry counting n, up to 65535 |
| CarriedLaws.ClearKeepsCounts | firmware/services/fault_mgr.cpp:39-43 | clearing a code keeps every entry and every count |
| CarriedLaws.LogKeepsNewest | firmware/services/logger.cpp:10-28 | after any events the log holds the newest 32 in order and counts the others as dropped, up to 65535 |
| CarriedLaws.PopTakesOldest | firmware/services/logger.cpp:30-40 | taking a record takes the oldest |
| BcmCore.BcmCore.PressIgnition | firmware/services/bcm_core.cpp:58-66 | the hold time grows modulo 2^16 and a press that is long enough steps the mode once and logs it |
| BcmCore.BcmCore.ReleaseIgnition | firmware/services/bcm_core.cpp:67-82 | a short press toggles power, off also clearing the lights; a long one only clears the hold |
| BcmCore.BcmCore.ApplyEdges | firmware/services/bcm_core.cpp:42-121 | the first cycle only seeds the history; later ones act on edges, then on host requests, in the source's order |
| BcmCore.BcmCore.SetLamps | firmware/services/bcm_core.cpp:163-185 | the lamps are the managers' wishes, overlaid by the host's under its mask, then arbitrated |
| BcmCore.BcmCore.StepCycle | firmware/services/bcm_core.cpp:123-188 | one cycle over managers, fault store, log, lamps and horn |
| BcmCore.BcmCore.SetHostRequest | firmware/services/bcm_core.cpp:36-40 | replaces request and mask and nothing else |
| BcmCore.BcmCore.Reset | firmware/services/bcm_core.cpp:190-213 | everything starts over except the host's request, both triggers and the machines' counters |
| CoreLaws.LampsAreSafe | firmware/services/bcm_core.cpp:163-187 | after every cycle from every state, for every host request and mask: brake is On iff the pedal input; reverse lit implies gear, link, not Sleep and host mask; Sleep leaves only lock and brake able to burn; shedding leaves essential lamps; a lost link puts out high beam |
| CoreLaws.HighBeamAloneIff | firmware/services/bcm_core.cpp:163-185 | after a cycle high beam burns without low beam iff host and light mode together want it so while awake, linked and not shedding |
| CoreLaws.SplitIsAsked | firmware/services/bcm_core.cpp:169-174 | in every core, configuration and cycle the beams are split only by a request and mask that ask for high beam and not for low, or cover low beam alone and put it out |
| CoreLaws.StepKeepsAgreement | firmware/services/bcm_core.cpp:123-188 | two cores that differ only in host lamp request, mask and lamps still do after a cycle, and show the same brake lamp |
| CoreLaws.RequestsDoNotMatter | firmware/services/bcm_core.cpp:36-40 | every run agrees with the run from which all host lamp requests are struck |
| CoreLaws.HostCannotReach | firmware/services/bcm_core.cpp:123-188 | runs that differ only in host lamp requests agree on all managers, horn, trouble codes, log, memory and the brake lamp |
| CoreLamps.EveryLamp | firmware/services/bcm_core.cpp:163-185 | after every cycle from every state each of the ten lamps shows the host's wish where the mask covers it and else what the states of power, lights, indicators and doors call for, unless asleep, a lost link or shedding puts it out; brake and reverse by their own rules |
| CoreLamps.BitIsBit | firmware/services/bcm_core.cpp:170-171 | mask bit i is the bit of value 2^i, for the ten lamps |
| CoreLamps.LockLampShowsLocked | firmware/services/lamp_arbiter.cpp:36-42 | with the load not shed and the lamp not covered, the lock lamp is On iff the doors are Locked, asleep or awake |
| CoreLamps.CoreIsShaped | firmware/services/lighting_mgr.cpp:33-115 | in every run of the whole core the lights have the shapes of the lighting machine's runs |
| CoreLamps.IndicatorsFollowSwitches | firmware/services/bcm_core.cpp:84-98 | in every run, after a cycle other than the first the indicators are what the rising edges of left, right and hazard switch make of them |
| CoreDoors.DoorsAreAsked | firmware/services/bcm_core.cpp:100-107 | after the first cycle a press of the lock switch takes Locked to Welcome with the unlock chirp and other doors to Locked with the lock chirp, or flags the refusal with one open; without press and request nothing changes; a host lock locks shut doors and a host unlock never leaves them locked |
| CoreDoors.DoorsReport | firmware/services/bcm_core.cpp:134-140 | after every cycle the horn has been told one chirp for locking or two for unlocking, and the doors' flags are clear |
| CoreDoors.RefusalsAreRaised | firmware/services/bcm_core.cpp:135-138 | in every run a refusal flagged in a cycle has its trouble code active after it |
| CoreDoors.OpenPressRaisesCode | firmware/services/bcm_core.cpp:102-138 | in every run pressing the switch of unlocked doors with one open leaves them unlocked and raises the code in that cycle |
| CoreDoors.RequestsAreUsed | firmware/services/bcm_core.cpp:47-112 | the host's lock, unlock and light requests wait through the first cycle and are used up by any other; its lamp request, mask and link state stay |
| CoreLog.CycleLogs | firmware/services/bcm_core.cpp:57-161 | in every run a cycle adds to the log exactly the events of its input edges, its refusal and its changes of shedding, link and doors, in that order |
| CoreLog.ResetStartsOver | firmware/services/bcm_core.cpp:190-213 | after a reset nothing is lit, sounding, active, logged, requested or remembered and the managers are in their first states; only the host's request without its mask, both triggers and the counters stay |
| CoreLog.NewIsClear | firmware/services/bcm_core.cpp:10-34 | a new core has nothing lit, sounding, active, logged, requested, remembered or timed, its managers in their first states and both triggers at their first states with the settings' thresholds |
| CoreRuns.RunIsSeeded | firmware/services/bcm_core.cpp:47-51 | before the first cycle the doors are locked and no door timer runs, in every run and after every reset |
| CoreRuns.LocksOnlyShut | firmware/services/bcm_core.cpp:42-132 | in every run a cycle that enters Locked, by switch, host or auto-lock and even after unlocking first, has a door input that says shut, the first cycle included |
| CoreRuns.StagesEndInStep | firmware/services/bcm_core.cpp:89-132 | the stages listed for the door machine within a cycle end in what the cycle leaves |
| CoreRuns.NoStageLocksOpen | firmware/services/bcm_core.cpp:89-132 | in every run, with the door input open no stage of any cycle, switch, host lock, host unlock, welcome or auto-lock timer, enters Locked |
| CoreRuns.FaultsStayDistinct | firmware/services/fault_mgr.cpp:18-37 | in every run no trouble code has two entries |
| CoreRuns.CodesMirrorTheState | firmware/services/bcm_core.cpp:135-146 | in every run, after a cycle the battery code is active iff load is shed, the link code iff the link is down, and a refusal code is never dropped by a cycle |
| CoreTimes.PowerTimersFollow | firmware/services/power_mgr.cpp:50-96 | in every run of the whole core the power timers follow the power state |
| CoreTimes.CoreSleepsInTheEnd | firmware/services/bcm_core.cpp:123-131 | from every reachable core with the ignition button up, cycles totalling at least 700 ms + sleep delay + the longest cycle without the button put the car to sleep, whatever else is read, asked or reset |
| CoreTimes.DoorTimersFollow | firmware/services/door_mgr.cpp:59-96 | in every run of the whole core the door timers follow the door state |
| CoreTimes.CoreLocksInTheEnd | firmware/services/bcm_core.cpp:91-132 | from every reachable core with doors shut, lock switch up and no unlock request, cycles totalling at least W + A lock the car, whatever else is read, asked or reset |
| Presses.LongMeansLong | firmware/services/bcm_core.cpp:58-60 | if no cycle exceeds 65536 minus the threshold, the hold counts as long iff its cycles add up to the threshold |
| Presses.LongPressCanBeLost | firmware/services/bcm_core.cpp:59 | for every threshold of at least 2 and every longest cycle over 65536 minus it, a hold of 65536 ms in such cycles never counts as long |
| Presses.HoldsAreJudgedIff | firmware/services/bcm_core.cpp:59-60 | for cycles of at most b, every hold counts as long iff its cycles add up to the threshold, iff the threshold is at most 1 or b is at most 65536 minus the threshold |
| Presses.CoreLosesLongPress | firmware/services/bcm_core.cpp:58-66 | an input: such a hold of any pressed core leaves the long press unfired and the lights unstepped |
| Presses.HoldIsMeasured | firmware/services/bcm_core.cpp:58-66 | throughout a hold, whatever else happens, the counter is the wrapped total and the flag says whether some cycle reached the threshold |
| Presses.LongPressStepsOnce | firmware/services/bcm_core.cpp:58-66 | over all cycles of a hold, whatever else happens in it, the button steps the lights exactly once if the hold gets long enough and never otherwise |
| Presses.HeldCycle | firmware/services/bcm_core.cpp:57-131 | a whole cycle with the button down: lights step once if the hold has just become long, once more if the host asked, then follow the sensor; power sees only battery and time |
| Presses.ReleaseTogglesIffShort | firmware/services/bcm_core.cpp:67-82 | release toggles power and, when switching off, clears the lights iff the hold was not long enough |
| Presses.EveryPressBegins | firmware/services/bcm_core.cpp:79-81 | in every run a button going down starts with a clear hold counter and flag |
| BeamRuns.CarWakes | firmware/services/bcm_core.cpp:47-82 | from construction, three cycles with a short press of the button leave the car waking with 195 ms to go |
| BeamRuns.HostCanSplitBeamsIff | firmware/services/bcm_core.cpp:169-174 | some run from construction ends in a core with this request and mask whose next cycle burns high beam without low iff they ask for high beam and not for low, or cover low beam alone and put it out |
| BeamRuns.HostCanSplitBeams | firmware/services/bcm_core.cpp:169-174 | an input: after a short press the host selects high beam alone, and it burns without low beam |
| SoftTimers.SoftTimer.Start | firmware/drivers/soft_timer.h:24-30 | loads the period; runs iff it is positive |
| SoftTimers.SoftTimer.Stop | firmware/drivers/soft_timer.h:32 | stops and changes nothing else |
| SoftTimers.SoftTimer.Update | firmware/drivers/soft_timer.h:39-58 | one advance of the timer and whether it fires |
| SoftTimers.PeriodicLaw | firmware/drivers/soft_timer.h:43-48 | after updates totalling T a timer of period P has P minus T mod P left and each update fired iff T / P grew in it |
| SoftTimers.OneShotLaw | firmware/drivers/soft_timer.h:49-57 | a one-shot fires exactly at the update whose total reaches the period, and only then stops |
| SoftTimers.LongStepSkipsExpiry | firmware/drivers/soft_timer.h:34-48 | an input: steps of P - 1 and P + 1 pass two expiries and fire once |
| SoftTimers.FiresOncePerExpiryIff | firmware/drivers/soft_timer.h:34-48 | over every series of steps of at most b a periodic timer of period P fires T / P times iff b is at most P |
| Blinkers.Blinker.SetBlink | firmware/drivers/blink.h:56-66 | starts the pattern unless the same one is already running |
| Blinkers.Blinker.Update | firmware/drivers/blink.h:73-88 | one tick, saturating at 65535, with every phase change it contains |
| Blinkers.SettleLaw | firmware/drivers/blink.h:80-86 | the catch-up loop in closed form: it reduces the elapsed time modulo on + off |
| Blinkers.TickLaw | firmware/drivers/blink.h:73-88 | one tick advances the phase by dt, cut off at saturation, modulo on + off |
| Blinkers.LongStepLaw | firmware/drivers/blink.h:77-80 | a tick leaves the phase right iff what saturation cut off is a multiple of on + off |
| Blinkers.SeriesLaw | firmware/drivers/blink.h:73-88 | over any series of updates, saturating ones included, the phase moves by the time that was not cut off, modulo on + off |
| Blinkers.SeriesFollowsIff | firmware/drivers/blink.h:77-80 | one given series of any updates leaves the phase right iff all that saturation cut off in it is a multiple of on + off |
| Blinkers.LongStepGoesStale | firmware/drivers/blink.h:80 | an input: a 333/333 pattern just started, updated by 332 and 65535 ms, is lit where it should be dark |
| Blinkers.BlinkLaw | firmware/drivers/blink.h:56-88 | for on, off positive and dt at most 65536 minus the longer, after updates totalling T the lamp is lit iff T mod (on + off) is below on, however T is split |
| Blinkers.StepsFollowIff | firmware/drivers/blink.h:56-88 | every series of steps of at most b from the start of a pattern leaves the phase right iff b is at most 65536 minus the longer of on and off |
| Blinkers.BlinkingTwice | firmware/drivers/blink.h:53-60 | asking again for the running pattern at any time changes nothing |
| Blinkers.SteadyLampKeepsLevel | firmware/drivers/blink.h:75 | a lamp that is on or off keeps its level through any updates |
| Filters.ExpFilter.Update | firmware/drivers/filter.h:33-49 | one step in 32-bit arithmetic for every shift below 32, with the 16-bit value of the accumulator |
| Filters.SampleFits | firmware/drivers/filter.h:37-41 | for shift up to 16 and 16-bit samples the accumulator never overflows 32 bits |
| Filters.NothingWraps | firmware/drivers/filter.h:33-41 | for shift up to 16 the 32-bit filter is the unbounded one over every series of samples |
| Filters.WrapsIffShiftedFar | firmware/drivers/filter.h:37-41 | 32 bits are enough for every series of samples iff the shift is at most 16 |
| Filters.BetweenSamples | firmware/drivers/filter.h:33-49 | accumulator and value stay between the least and greatest sample since reset |
| Filters.ConstantInput | firmware/drivers/filter.h:33-49 | a constant input is approached without overshoot, reached exactly within as many updates as the accumulator's distance, and held |
| Filters.SettlesOnInput | firmware/drivers/filter.h:33-49 | for shift up to 16 the 32-bit filter reaches a constant input exactly, whatever it saw before |
| Filters.FollowsAtRate | firmware/drivers/filter.h:20-43 | in every series with shift up to 16 the first sample is taken over and every later one moves the output by its distance divided by 2^shift, give or take less than one |
| Filters.SampleAddsGap | firmware/drivers/filter.h:41 | a later sample adds exactly its distance from the output to the accumulator, fraction included |
| Filters.HoldIsSlow | firmware/drivers/filter.h:41 | n equal samples move the output by less than n times their distance divided by 2^shift, plus one |
| Filters.Hysteresis.Update | firmware/drivers/filter.h:77-82 | one reading through the trigger |
| Filters.TriggerRemembers | firmware/drivers/filter.h:77-82 | with low below high the state is that of the last reading outside the band |
| Filters.TriggerLaw | firmware/drivers/filter.h:63-69 | the trigger remembers in this sense for all readings iff low is below high |
| Watchdog.Supervisor.SetBit | firmware/app/rtos_app.cpp:104-109 | a check-in adds the task's bit, and completes a pending wait that it satisfies |
| Watchdog.Supervisor.FinishWait | firmware/app/rtos_app.cpp:248-253 | a wait ends with success and clears iff all four bits are set |
| Watchdog.Supervisor.LetTimeOut | firmware/app/rtos_app.cpp:249-253 | a wait that times out clears nothing |
| Watchdog.Supervisor.DecideOnRefresh | firmware/app/rtos_app.cpp:255-261 | refreshes iff all bits came back and the diagnosis is healthy |
| Watchdog.BitsAreCheckIns | firmware/app/rtos_app.cpp:246-253 | in every run a bit is set iff its task checked in since the last clear, timeouts notwithstanding |
| Watchdog.WaitEndsIffAllCheckedIn | firmware/app/rtos_app.cpp:249-253 | a wait ends at once iff every supervised task has checked in since the last clear |
| Watchdog.EveryTaskBetweenClears | firmware/app/rtos_app.cpp:246-253 | whatever the priorities, between two successful waits every supervised task checked in |
| Watchdog.EveryTaskBetweenRefreshes | firmware/app/rtos_app.cpp:246-261 | with the watchdog task outranking the others, every supervised task checked in strictly between two refreshes |
| Watchdog.AtMostOneRefreshAfter | firmware/app/rtos_app.cpp:246-261 | with the watchdog task outranking the others, at most one refresh follows any task's last check-in |
| Watchdog.NoRefreshWithoutAll | firmware/app/rtos_app.cpp:38-43 | no refresh precedes the first check-in of any supervised task |
| Watchdog.RefreshesIff | firmware/app/rtos_app.cpp:255-261 | in every run a decision refreshes iff the diagnosis is healthy and a complete set has been taken on which nothing was decided since |
| Watchdog.PriorityMatters | firmware/app/rtos_app.cpp:56-60 | a run that breaks the priority order in which two refreshes follow a task's last check-in |

## Left out

- Registers, clocks, pins, converters and the HAL (`firmware/bsp`, `firmware/core`, `drv_gpio`, `drv_adc`, `drv_watchdog`). Of the UART, the model keeps the interrupt mask, the transmit-interrupt enable and the bytes put into the data register.
- The receive half of the UART: `read` masks only RXNE while `on_irq` pushes on any RXNE flag, so the queue's count is shared without protection. Enabling and disabling an interrupt are taken as atomic, although each is a read-modify-write of CR1.
- RTOS scheduling, queues, stacks and deadlines. The event group is a set of bits with atomic steps; that the watchdog task outranks the tasks it supervises is the hypothesis `Outranks`, read off the priorities.
- The dispatcher and the command handlers: an arbitrary function from the frames dispatched so far to an optional reply. The transport likewise accepts or refuses a write by an arbitrary function of what was sent.
- The desktop client, its user interface, the simulation runner, test harnesses and document generators.
- Horn, fault store and event log as objects: they are values in `Carried`. Log records carry no timestamp, since the cycle always passes 0, and the log's circular array is a sequence.
- The horn's continuous mode is modelled, but nothing in the control cycle switches it on.
- `DiagMgr`, `Debouncer` and the indicator timing settings: smaller, separate claims.
- In class `BcmCore` the host's fields and the cycle's memory are grouped into two records.
- A null transition table and a null callback context: every machine here has a table.
- The desktop parser publishes its payload array in `Frame`; the model publishes the payload's value, so aliasing of that array is not captured.
- Filters.ExpFilter.Update: not for shifts of 32 or more, which have no defined meaning on a 32-bit accumulator.
