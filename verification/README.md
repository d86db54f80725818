# rcplane flight-control path: a verified model

rcplane flies a model aircraft with two computers. A microcontroller (MCU) samples the RC receiver and
the IMU and drives the servos; a single-board computer (SoM) computes the surface positions, either by
scaling the sticks or with a PID controller, and reports to the ground through three message queues.
This project models the path from the MCU's packets to the surfaces it applies, and the two protocols
that carry packets and telemetry, and proves what they keep over every run and every interleaving.

| file | models |
|---|---|
| `Common.dfy`, `Packet.dfy` | integer widths, conversions, and the packed wire format |
| `AutopilotUtility.dfy` | configured limits, stick scaling, saturation |
| `StabilizeAutopilot.dfy` | the stateful PID controller |
| `ControlLaw.dfy` | every command of the controller as an equation in the gains and the measured angles alone |
| `AutopilotManager.dfy` | the cached switch between manual and stabilized flight |
| `SerialController.dfy` | exact reads with deadlines, writes and flush over the shared stream buffer |
| `SomController.dfy` | the SoM's handshake, main loop, counters and telemetry calls |
| `Telemetry.dfy`, `TelemetryLimits.dfy` | three bounded queues, a non-blocking sender and a blocking receiver; exactly when the receiver's rounds align |
| `Mcu.dfy` | the MCU's setup and loop |
| `WireFormat.dfy`, `Framing.dfy` | sequences of packets on the wire; exactly when either side's framing survives timeouts |
| `SerialProtocol.dfy` | MCU and SoM as two processes over byte channels, and the invariant of every step |
| `ProtocolTheorems.dfy`, `ProtocolLimits.dfy` | lock-step, backlogs, progress and absence of deadlock; exactly which stale bytes they survive |
| `ProtocolBacklog.dfy` | runs that attain the bounds on what waits |
| `EndToEnd.dfy` | the autopilot inside that protocol |
| `FlightLaw.dfy` | the surfaces as a function of the packets, and of the MCU's samples |
| `SomRefinement.dfy`, `McuRefinement.dfy` | the protocol's two processes against the two programs |

Code that updates fields or buffers in place is a class (`StabilizeAutopilot.PidController`,
`AutopilotManager.Manager`, `SerialController.Port`, `SomController.Controller`,
`Telemetry.MessageQueue`, `Telemetry.Transmitter`, `Telemetry.Receiver`, `Mcu.Board`). Each method is
proved equal to a step function on values, and the theorems about whole runs are about those functions.
Nothing rests on automatic induction: lemmas where it would apply switch it off and spell the induction out.

## Assumptions

- Doubles are reals, and IMU floats are opaque 32-bit words on the wire. What number a word stands for,
  and what a floating-point to integer conversion gives when its operand is out of range (undefined in
  C++), are arbitrary functions in `Platform`; every theorem holds for all of them.
- `Config` holds what the shipped configurations satisfy: ki > 0, kp and kd >= 0, 2*tau >= dt, limits in
  0..127, a non-negative integral limit. dt is the constant 0.04 of the source.
- An exact read appends exactly n *new* bytes to the stream buffer or, when its deadline passes, all that
  arrived; a read-until stops at the first match and may read ahead; `consume` removes at most what is there.
- A message queue is a FIFO, `try_send` fails only when it is full, and the queues start empty.

## Results worth knowing

- The surfaces are determined by what the MCU samples, with no state in between (`SurfacesFollowSamples`):
  in every run of the protocol throttle and rudder are their sticks' shares of the limits; with the switch
  off so are aileron and elevator, and with it on these are the PID laws of the roll and pitch readings
  taken so far while it was on (`AileronFollowsLaw`, `ElevatorFollowsLaw`). With the shipped gains a first
  reading of 20 degrees of roll and pitch gives aileron -32 and elevator -11 (`TwentyDegrees`).
- Because an exact read asks for n new bytes whatever the buffer holds, a timed-out read shifts nothing
  by itself: it only changes which kind of packet is cut where. `Framing.FramingSurvivesExactly` says
  precisely when a read is still cut at a packet of its kind: when the delivered RC and IMU packets
  differ by a multiple of 37. Two timeouts in a row realign (`PairedTimeoutsRealign`), a lone one does
  not (`LoneTimeoutMisaligns`). The MCU's reads consume what they got; there the partial bytes must add
  up to a multiple of 4 (`AnswerFramingSurvivesExactly`).
- The comment on `flush` in `SerialController.hpp` (lines 80-85) speaks of a new line; the code waits for
  the configured string. The model follows the code, with the string "flush\r\n" of the shipped
  configurations, which is what the MCU prints.
- Stale bytes may hold flush strings of their own. Let m be the end of the first one and r the bytes
  behind it, the fresh string included. Every run is in lock-step if and only if r has fewer bytes than
  there are handshake attempts and no byte 1 (`LockStepExactly`): the handshake reads r away. Then nobody
  waits for ever if and only if, in addition, r is no longer than m (`NeverStuckExactly`,
  `LiveLockStepExactly`): flush drops at most 2 * m bytes, and what it read ahead beyond that stays in the
  stream buffer, where no exact read catches up with it (`OverreadStarves`). The flush string printed
  twice needs more than seven attempts (`PrintedTwice`), which the configuration of the unit tests with
  its five does not have; one byte between the two can starve the SoM (`OneByteTooMany`).
- An answer that the MCU stopped waiting for is not lost: it is read in a later cycle. After t empty
  timeouts every answer is t cycles old (`AnswerLag`) and up to t + 1 frames wait (`BacklogBounded`); for
  every t some run attains that (`BacklogIsTight`).
- The three telemetry queues never differ by more than one accepted message, and for every capacity some
  run attains that (`QueuesStayBalanced`, `BalanceIsTight`). The receiver's rounds join messages of one
  `sendTelemetry` call exactly as long as every call was taken by all three queues or dropped by all
  three (`RoundsAlignExactly`); for every capacity some run receives a mixed round (`DropsMixRounds`).
- The pitch integral passes through an `int8_t`, so errors below one degree are never integrated, but
  each one of the opposite sign takes a whole degree off (`SmallPitchErrorsOnlyBleed`).
- Opposite stick positions give opposite deflections only when 100 divides stick * limit; otherwise the
  pair is off by one (`DeflectionSymmetry`). A stick outside -100..100 is not limited: its deflection is
  extrapolated and wraps around (`DeflectionOnAnyStick`).

## Model

| member | source | states |
|---|---|---|
| ControlLaw.AileronFollowsLaw | impl/src/autopilot/StabilizeAutopilot.cpp:42-71 | after any history the aileron command is kp*e + ki*I + kd*D clamped to the limit and truncated, where e is minus the last roll angle, I its trapezoid integral plus dt/ki times what saturation took off all commands before, and D the sum of all error changes, each times 2/(2tau+dt) and decayed by (2tau-dt)/(2tau+dt) per call since |
| ControlLaw.ElevatorFollowsLaw | impl/src/autopilot/StabilizeAutopilot.cpp:73-96 | after any history the elevator command is kp*e + ki*I + kd*(e - e') truncated and clamped to the limit, where e' is the error of the call before and I the sum of the errors, truncated to whole degrees and clamped at every call |
| ControlLaw.CastDiscardsFraction | impl/src/autopilot/StabilizeAutopilot.cpp:70-86 | an int8_t conversion discards the fraction, and is defined exactly when the integral part is in -128..127 |
| ControlLaw.TwentyDegrees | impl/src/autopilot/StabilizeAutopilot.cpp:42-87 | with the shipped gains a fresh controller answers 20 degrees of roll and pitch with aileron -32 and elevator -11 |
| StabilizeAutopilot.RollStaysBounded | impl/src/autopilot/StabilizeAutopilot.cpp:42-71 | after any history of roll angles within e, the derivative is within 4e/(2tau+dt), the integral within (M + kp*e + kd*4e/(2tau+dt))/ki + (1-dt)*e, and the command within the aileron limit |
| StabilizeAutopilot.RollInvariantHolds | impl/src/autopilot/StabilizeAutopilot.cpp:49-63 | the invariant behind it on every run: the filtered derivative stays within Gain*e of Gain times the previous error |
| StabilizeAutopilot.BackCalculatedBounded | impl/src/autopilot/StabilizeAutopilot.cpp:56-63 | one call, saturated or not, keeps the integral within any bound whose term covers the limit, the other two terms and 0.96 of one error |
| StabilizeAutopilot.AntiWindupContracts | impl/src/autopilot/StabilizeAutopilot.cpp:56-63 | the output recomputed with the corrected integral exceeds the saturated one by exactly (1-dt) times the previous excess; the integral is left alone if and only if nothing was saturated |
| StabilizeAutopilot.WindupDecaysGeometrically | impl/src/autopilot/StabilizeAutopilot.cpp:49-63 | with errors and derivative zero, n calls shrink the excess of the integral's term over the limit to (1-dt)^n of it, on the same side, with the command held at the limit |
| StabilizeAutopilot.PitchCastsSafe | impl/src/autopilot/StabilizeAutopilot.cpp:73-87 | with pitch angles within e and e + Imax and kp*e + ki*Imax + 2*kd*e below 128, no int8_t conversion of any call of the run is out of range |
| StabilizeAutopilot.PitchIntegralAlwaysBounded | impl/src/autopilot/StabilizeAutopilot.cpp:79-80 | after every run, defined conversions or not, the pitch integral is a whole number within the configured limit |
| StabilizeAutopilot.BoundIntegralInRange | impl/src/autopilot/StabilizeAutopilot.cpp:89-96 | the int8_t in and out of bindIntegralError make it a clamp to the integral part of the configured limit |
| StabilizeAutopilot.CommandsInLimits | impl/src/autopilot/StabilizeAutopilot.cpp:33-37 | in any state and for any angles both commands are within their configured limits |
| StabilizeAutopilot.SmallPitchErrorsOnlyBleed | impl/src/autopilot/StabilizeAutopilot.cpp:79-80 | after every history a pitch error below one degree never adds to the integral, and takes exactly one degree off an integral of the opposite sign |
| StabilizeAutopilot.PitchIntegralIsInt8 | impl/src/autopilot/StabilizeAutopilot.cpp:79-80 | after every history the pitch integral is one of the values of an int8_t |
| StabilizeAutopilot.RollLedger | impl/src/autopilot/StabilizeAutopilot.cpp:49-63 | after any history, saturated or not, the integral is the trapezoid integral of all errors plus dt/ki times all saturation errors, and tau times the derivative plus its trapezoid integral is the last error |
| StabilizeAutopilot.AileronOpposesRoll | impl/src/autopilot/StabilizeAutopilot.cpp:42-71 | from the same state a larger roll angle never gives a larger output or command |
| StabilizeAutopilot.ElevatorOpposesPitch | impl/src/autopilot/StabilizeAutopilot.cpp:73-87 | the same of pitch, through the conversions, while they are defined |
| StabilizeAutopilot.RunsAreOdd | impl/src/autopilot/StabilizeAutopilot.cpp:42-96 | while conversions are defined, negating every angle of a history negates the whole controller state and both commands of every call |
| StabilizeAutopilot.StepIsOdd | impl/src/autopilot/StabilizeAutopilot.cpp:42-96 | the same of one call from any pair of opposite states |
| StabilizeAutopilot.PidController.constructor | impl/src/autopilot/StabilizeAutopilot.cpp:7-21 | a new controller has all errors zero |
| StabilizeAutopilot.PidController.ComputeRollToAileronDeflection | impl/src/autopilot/StabilizeAutopilot.cpp:42-71 | the in-place updates give exactly RollNext of the old fields, and the command RollCommand |
| StabilizeAutopilot.PidController.ComputePitchToElevatorDeflection | impl/src/autopilot/StabilizeAutopilot.cpp:73-87 | the in-place updates give exactly PitchNext of the old fields, and the command is the converted output PitchOutput |
| StabilizeAutopilot.PidController.Trigger | impl/src/autopilot/StabilizeAutopilot.cpp:25-40 | one call takes roll from gyroX and pitch from gyroY, is PidNext on the fields, and answers with both commands, the throttle stick and the rudder stick |
| AutopilotUtility.DeflectionIsFloor | impl/include/rcplane/autopilot/AutopilotUtility.hpp:83-91 | on sticks in -100..100 the deflection is floor(stick*limit/100): nothing lost in narrowing, within the limits, exact at both ends and the centre |
| AutopilotUtility.DeflectionOnAnyStick | impl/include/rcplane/autopilot/AutopilotUtility.hpp:83-91 | on any int8_t stick the deflection is stick*limit/100 rounded down, or up below -100, modulo 256 |
| AutopilotUtility.ThrottleOnAnyStick | impl/src/autopilot/AutopilotUtility.cpp:28-32 | on any uint8_t stick the throttle is floor(stick*max/100) modulo 256 |
| AutopilotUtility.DeflectionMonotone | impl/src/autopilot/AutopilotUtility.cpp:34-62 | a stick further out never gives a smaller deflection |
| AutopilotUtility.DeflectionSymmetry | impl/src/autopilot/AutopilotUtility.cpp:34-62 | opposite sticks sum to 0 exactly when 100 divides stick*limit, and to -1 otherwise |
| AutopilotUtility.ThrottleIsFloor | impl/src/autopilot/AutopilotUtility.cpp:28-32 | on 0..100 the throttle is floor(stick*max/100), monotone, within 0..max, exact at both ends |
| AutopilotUtility.SaturationOrdersAgree | impl/src/autopilot/AutopilotUtility.cpp:64-78 | clamp-then-truncate (aileron) equals truncate-then-clamp (elevator) for every output an int8_t can hold |
| AutopilotUtility.AileronCommandInLimits | impl/src/autopilot/AutopilotUtility.cpp:64-70 | the saturated aileron output always fits an int8_t and stays within the limit |
| AutopilotManager.ManagerRefinesFlags | impl/src/autopilot/AutopilotManager.cpp:27-51 | over every packet sequence the answer is that of the memoryless specification: unflagged packets get the manual map, flagged ones the answer of a fresh controller fed only the flagged packets; the reported mode is the last packet's flag |
| FlightLaw.AnswersFollowLaw | impl/src/autopilot/StabilizeAutopilot.cpp:25-40 | over every packet sequence: an unflagged packet's answer is each stick's share of its surface's limit; a flagged one's has the PID law of the gyroX words of the flagged packets so far on the aileron, that of their gyroY words on the elevator, and the sticks' shares on throttle and rudder |
| FlightLaw.SurfacesFollowSamples | impl/src/mcu/mcu.ino:63-88 | the same from end to end: in every run the n-th surfaces the MCU gets follow from the sticks, the switch (a pulse above 1600) and the readings of its own samples |
| AutopilotManager.FlaggedAnswersAreFresh | impl/src/autopilot/AutopilotManager.cpp:27-37 | the k-th flagged answer is the k-th answer of a fresh controller fed the flagged subsequence |
| AutopilotManager.ManagerInvariant | impl/src/autopilot/AutopilotManager.cpp:39-51 | cached state and mode mirror the last packet's flag, and the controller saw exactly the flagged packets |
| AutopilotManager.OutputsInLimits | impl/src/autopilot/AutopilotManager.cpp:27-37 | in either mode and any state, sticks in range get an answer within every limit |
| AutopilotManager.ManualIsProportional | impl/src/autopilot/ManualAutopilot.cpp:14-30 | in manual mode each surface is its own stick scaled to its own limit, and the controller is not touched |
| AutopilotManager.DefaultPacketIsSafe | impl/include/rcplane/common/Packet.hpp:69-74 | the value-initialised packet closes the throttle, centres every surface, switches to manual and keeps the controller's state |
| AutopilotManager.Manager.HandleState | impl/src/autopilot/AutopilotManager.cpp:39-51 | the cached early return and the switch give exactly Handled of the old fields |
| AutopilotManager.Manager.Trigger | impl/src/autopilot/AutopilotManager.cpp:27-37 | one call is ManagerNext on the fields and answers ManagerOutput |
| Packet.WordRoundTrip | impl/include/rcplane/common/Packet.hpp:140-147 | words and their four bytes determine each other, least significant first |
| Packet.RcRoundTrip | impl/include/rcplane/common/Packet.hpp:45-75 | RC packets and nine bytes determine each other, each field at its packed offset |
| Packet.CsRoundTrip | impl/include/rcplane/common/Packet.hpp:85-110 | surface packets and four bytes determine each other, each field at its packed offset |
| Packet.ImuRoundTrip | impl/include/rcplane/common/Packet.hpp:120-147 | IMU packets and 28 bytes determine each other, field i at offset 4*i |
| Packet.DefaultsAreZeros | impl/include/rcplane/common/Packet.hpp:69-74 | the value-initialised RC and IMU packets are exactly those whose bytes are all zero |
| SerialController.ReadAccounting | impl/src/io/SerialController.cpp:52-89 | a read succeeds if and only if enough new bytes arrive; a success leaves the leftover length as it was, a timeout adds exactly its partial bytes; nothing is lost or reordered |
| SerialController.ByteFidelity | impl/src/io/SerialController.cpp:58-88 | under any pattern of timeouts, delivered packets followed by the leftover are what flush left followed by everything received |
| SerialController.DeliveredIsSliceOfStream | impl/src/io/SerialController.cpp:68-71 | every delivered packet is cut from the stream at the total size of the packets delivered before it |
| SerialController.LeadDecidesOffset | impl/src/io/SerialController.cpp:58-88 | where in a frame of 37 bytes the next packet is cut depends only on how many more RC than IMU packets were delivered |
| Framing.FramingSurvivesExactly | impl/src/io/SerialController.cpp:58-88 | on a stream of packets written RC and IMU in turn, a read is cut at a packet of its own kind if and only if the delivered RC and IMU packets agree modulo 37 (for an IMU read, one more RC), and if it succeeds it then returns the packet written there |
| Framing.PairedTimeoutsRealign | impl/src/som/SomController.cpp:79-89 | an RC and an IMU read that both time out leave the next RC read aligned |
| Framing.LoneTimeoutMisaligns | impl/src/som/SomController.cpp:79-89 | if exactly one of two consecutive reads times out, the next read is not aligned |
| Framing.ReceivedIsSlice | impl/include/rcplane/common/Packet.hpp:160-168 | every MCU read, timed out or not, gets the bytes of the stream that follow those of the reads before it: all that arrived by its end, up to four |
| Framing.AnswerFramingSurvivesExactly | impl/src/mcu/mcu.ino:88 | an MCU read is cut at an answer's first byte if and only if the bytes of all timed-out reads before it add up to 0 modulo 4, and a complete read then returns the answer written there |
| SerialController.FlushDrops | impl/src/io/SerialController.cpp:132-144 | a flush of an empty buffer drops everything up to the first match and at most as much again, keeps the rest in order, and leaves bytes in the buffer only if it read ahead beyond that |
| SerialController.FlushExactly | impl/src/io/SerialController.cpp:126-160 | whatever the buffer holds, a flush succeeds if and only if the flush string is among the bytes it has or gets, then drops everything up to its end and at most as much again of what it holds, and otherwise keeps every byte in order |
| SerialController.CleanFlushCondition | impl/src/io/SerialController.cpp:132-144 | the first match ends at the fresh flush string if and only if the stale bytes hold no match of their own |
| SerialController.Port.ReadPacket | impl/src/io/SerialController.cpp:52-89 | the stream buffer, the unread bytes and the result after a call are those of ReadExactly |
| SerialController.Port.WritePacket | impl/src/io/SerialController.cpp:94-124 | succeeds exactly when the whole packet was accepted, and sends the accepted prefix |
| SerialController.Port.Flush | impl/src/io/SerialController.cpp:126-160 | the stream buffer, the unread bytes and the result after a call are those of FlushLine |
| SomController.HandshakeExactly | impl/src/som/SomController.cpp:160-181 | without timeouts the handshake succeeds if and only if byte 1 is among the next `handshake_attempts` bytes, and leaves the stream right behind the first one |
| SomController.HandshakeIsFirstEcho | impl/src/som/SomController.cpp:160-181 | under any pattern of timeouts the handshake succeeds if and only if one of the reads allowed returns the byte 1, ends on the line behind the first that does, and counts every timed-out read before |
| SomController.AttemptsOnStream | impl/src/som/SomController.cpp:160-181 | the same from any attempt on, and the bytes skipped are exactly those that are not 1 |
| SomController.AttemptsCounted | impl/src/som/SomController.cpp:160-178 | reads are bounded by the attempts allowed, and an acknowledged handshake had a read that did not time out |
| SomController.CountersConserved | impl/src/som/SomController.cpp:82-120 | modulo 2^32 every debug message satisfies writes + write timeouts = loops + 1 and reads + read timeouts = 2*loops + 1 + h, with h < handshake_attempts timed-out handshake reads |
| SomController.EachCounterCounts | impl/src/som/SomController.cpp:82-120 | modulo 2^32, after a handshake with h timed-out reads: reads = 1 + the reads that returned a packet, read timeouts = h + the others, writes = 1 + the passes whose four bytes were accepted, write timeouts = the other passes, loops = passes |
| SomController.HandshakeCounters | impl/src/som/SomController.cpp:150-172 | an acknowledged handshake leaves one counted read and the timeouts it had |
| SomController.RunDecomposes | impl/src/som/SomController.cpp:78-127 | the loop's autopilot state is the manager run on the delivered packets, and its line is the port read alternately |
| SomController.FailSafe | impl/src/som/SomController.cpp:78-108 | after any history a pass whose RC read times out sends throttle 0 and centred surfaces, reports manual mode and leaves the controller's state untouched |
| SomController.TimedOutReadsAreZeros | impl/src/io/SerialController.cpp:77-86 | a read that times out, with or without partial bytes, hands the manager a packet of zero bytes |
| SomController.ReportMatchesLine | impl/src/som/SomController.cpp:99-124 | the telemetry of a pass of any run reports the bytes that were written, the time, angles and temperature that were read or those of zero bytes after a timeout, and the autopilot type of the delivered assistance flag; course heading and GPS fix keep their initial values |
| SomController.CountersIncreaseAtReceiver | impl/src/som/SomController.cpp:120-126 | for the reports of any run of the loop after an acknowledged handshake, up to 2^32 of them, the loop counters received are strictly increasing, whatever is dropped and however the receiver is interleaved |
| SomController.ReportsAreNumbered | impl/src/som/SomController.cpp:120-126 | the n-th report of a run after an acknowledged handshake carries loop counter n, below 2^32 |
| SomController.LoopIsSender | impl/src/som/SomController.cpp:184-196 | the reports of any run of the loop leave in empty queues what three sender steps per report leave there, so what is proved of every schedule is about the program's messages |
| SomController.Controller.HandshakeMCU | impl/src/som/SomController.cpp:145-182 | flush, write and bounded reads give the result, line, bytes sent and counters of Attempt, with early exits that change nothing else |
| SomController.Controller.SendTelemetry | impl/src/som/SomController.cpp:184-196 | offers the three current messages to the three queues, in order and without blocking |
| SomController.Controller.RunPass | impl/src/som/SomController.cpp:79-124 | one pass of the loop is NextPass on the whole state |
| SomController.Controller.RunMainLoop | impl/src/som/SomController.cpp:70-128 | the loop ends in SomRun of its start, having offered one report before it and one after every pass; empty queues then hold what the sender of the telemetry system leaves there |
| Telemetry.ThreeSendsPost | impl/src/som/SomController.cpp:184-196 | from a call boundary three sender steps offer the debug, the attitude and the onboard message of one report to their queues, drop what does not fit, and change nothing received |
| Telemetry.SendsPostAll | impl/src/som/SomController.cpp:184-196 | with no receiver, three sender steps for each of the first reports leave in the queues what posting these does |
| Telemetry.QueuesStayBalanced | impl/src/som/SomController.cpp:184-196 | for every interleaving and drop pattern, between calls any two queues have accepted the same number of messages up to one |
| Telemetry.DeliveryIsFaithful | impl/src/io/telemetry/TelemetryTransmitterMQ.cpp:76-125 | each queue holds at most its capacity, received + queued + dropped = sent, and the received messages are an in-order subsequence of those sent |
| Telemetry.DebugReceivedInOrder | impl/src/io/telemetry/TelemetryTransmitterMQ.cpp:76-91 | two debug messages received in an order were sent in that order |
| Telemetry.NoDropsAlign | impl/src/pc/main.cpp:15-25 | if nothing was dropped, the j-th messages received from the three queues come from the j-th call |
| Telemetry.RoundsNeverCross | impl/src/pc/main.cpp:15-25 | whatever was dropped, the i-th message of one queue never comes from a later call than the j-th of another, for i < j |
| TelemetryLimits.RoundsAlignExactly | impl/src/pc/main.cpp:15-25 | after every schedule, the first n rounds each join messages of one sendTelemetry call if and only if every call up to the n-th that the debug queue took was taken by all three queues or dropped by all three; and such a round is that call's report |
| TelemetryLimits.BalanceIsTight | impl/src/som/SomController.cpp:184-196 | for every capacity one schedule puts the first queue one accepted message ahead of the others at a call boundary, and one puts it behind the second |
| TelemetryLimits.DropsMixRounds | impl/src/pc/main.cpp:15-25 | for every capacity a schedule after which the receiver's last round has the debug message of one call and the other messages of the next |
| Telemetry.InvariantHolds | impl/src/som/SomController.cpp:184-196 | the invariant of channels, pairs of queues and rounds after every schedule, mid-call included |
| Telemetry.Transmitter.constructor | impl/src/io/telemetry/TelemetryTransmitterMQ.cpp:37-74 | three empty queues of the configured size |
| Telemetry.Transmitter.SendDebugMessage | impl/src/io/telemetry/TelemetryTransmitterMQ.cpp:76-91 | appends and returns true if there was room, and otherwise changes nothing and returns false |
| Telemetry.Transmitter.SendAttitudeMessage | impl/src/io/telemetry/TelemetryTransmitterMQ.cpp:93-108 | the same of the attitude queue |
| Telemetry.Transmitter.SendOnboardMessage | impl/src/io/telemetry/TelemetryTransmitterMQ.cpp:110-125 | the same of the onboard queue |
| Telemetry.MessageQueue.ReceiveMessage | impl/src/io/telemetry/TelemetryReceiverMQ.cpp:55-75 | takes the oldest message; on an empty queue it is still blocked and nothing changed |
| Telemetry.Receiver.ReceiveRounds | impl/src/pc/main.cpp:15-25 | the loop until a receive blocks: round j joins the j-th messages, as many rounds as the shortest queue allows, and only the unfinished round's messages are gone besides |
| Mcu.StateByteDecodes | impl/src/mcu/mcu.ino:70-73 | the state byte tells a switch pulse above 1600, and roll and pitch input of 3 or more in either direction, apart, and the autopilot's mask sees the switch alone |
| Mcu.LoopSendsSample | impl/src/mcu/mcu.ino:63-86 | of the 37 bytes that a call of loop sends, each sampled value is at its own place: time, state, the four sticks and the seven IMU words |
| Mcu.SetupSends | impl/src/mcu/mcu.ino:42-44 | setup sends the bytes of "flush", carriage return and line feed, and then the byte it read, or 0 if none came |
| Mcu.PartialReadMixes | impl/include/rcplane/common/Packet.hpp:160-168 | a read of surfaces cut short after k bytes takes field i from the new answer if and only if i < k; none leaves the old surfaces, four replace all |
| Mcu.Board.Setup | impl/src/mcu/mcu.ino:41-44 | the board's whole state is that of AfterSetup: flush string sent, then the byte read echoed, or the initial 0 after a timeout |
| Mcu.Board.Loop | impl/src/mcu/mcu.ino:59-88 | the board's whole state is that of AfterLoop: RC and IMU packet sent, and the surfaces overlaid with what arrived of the answer |
| SerialProtocol.InvariantHolds | impl/src/som/SomController.cpp:148-172 | the invariant of stages, bytes skipped, bytes in flight both ways, and computed answers in every reachable state |
| SerialProtocol.FlushLeavesJunk | impl/src/io/SerialController.cpp:132-144 | however much has arrived and however far it reads ahead, the flush stops at the first flush string and leaves exactly what follows the bytes it dropped |
| SerialProtocol.SomReadEchoKeeps | impl/src/som/SomController.cpp:160-178 | a handshake read takes the next byte behind the flush string away, or finds the echo |
| ProtocolTheorems.LockStep | impl/src/mcu/mcu.ino:63-88 | with skippable stale bytes every run is in lock-step: the SoM reads exactly the packets written, in order, the MCU reads the SoM's answers in order, the n-th computed from the first n pairs, and the handshake does not fail; empty MCU timeouts change none of this |
| ProtocolTheorems.AnswerLag | impl/src/mcu/mcu.ino:75-88 | after t empty timeouts the answer read was computed from the pairs up to the one of t cycles ago; with none, from the current cycle's |
| ProtocolTheorems.NeverDeadlocks | impl/src/som/SomController.cpp:78-118 | if the flush cannot leave bytes in the buffer, in every reachable state a step other than a timeout is possible |
| ProtocolTheorems.BacklogBounded | impl/src/som/SomController.cpp:79-86 | in the main cycle at most 37*(t+1) bytes wait toward the SoM and 4*(t+1) toward the MCU |
| ProtocolBacklog.BacklogIsTight | impl/src/mcu/mcu.ino:75-88 | for every t some run with t timeouts has 37*(t+1) bytes waiting toward the SoM in the main cycle, and some run 4*(t+1) toward the MCU |
| ProtocolTheorems.ProgressBounded | impl/src/mcu/mcu.ino:59-88 | whatever the interleaving, a run takes at most 47 steps for every answer or timeout of the MCU, and 2*stale + 68 besides |
| ProtocolTheorems.AnswersKeepComing | impl/src/mcu/mcu.ino:59-88 | from every reachable state a run continues without timeouts to any number of answers |
| ProtocolLimits.LockStepExactly | impl/src/som/SomController.cpp:145-182 | for any stale bytes, every run is in lock-step if and only if the bytes behind the first flush string are fewer than the attempts and none of them is 1 |
| ProtocolLimits.NeverStuckExactly | impl/src/io/SerialController.cpp:132-144 | in lock-step, no run gets stuck if and only if the bytes behind the first flush string are no more than those up to its end |
| ProtocolLimits.LiveLockStepExactly | impl/src/som/SomController.cpp:145-182 | for any stale bytes, lock-step and never getting stuck hold together if and only if both conditions do |
| ProtocolLimits.UnskippableBreaksLockStep | impl/src/som/SomController.cpp:160-181 | otherwise some run fails its handshake or reads a packet that was never written |
| ProtocolLimits.OverreadStarves | impl/src/io/SerialController.cpp:132-144 | in every run whose flush left bytes in the stream buffer, the SoM answers nothing until the MCU gives up waiting |
| ProtocolLimits.OverreadGetsStuck | impl/src/io/SerialController.cpp:58-88 | every such run can only go on to a state in which nothing but a timeout is possible |
| ProtocolLimits.PrintedTwice | impl/src/som/SomController.cpp:160-178 | with the flush string printed twice every run is in lock-step if and only if there are more than seven attempts |
| ProtocolLimits.OneByteTooMany | impl/src/io/SerialController.cpp:132-144 | with one more byte between the two, lock-step holds but some run gets stuck |
| ProtocolLimits.StaleSessionIsAccepted | impl/src/mcu/mcu.ino:38-44 | a broken-off session left on the line can be accepted, handshake and packet, before the MCU has done anything |
| EndToEnd.SurfacesMeetSpecification | impl/src/som/SomController.cpp:79-118 | in every run the n-th surfaces the MCU gets are the memoryless specification's answer to the n-th pair it wrote, and within limits when its sticks are in range |
| SomRefinement.ProtocolRunsProgram | impl/src/som/SomController.cpp:70-182 | in every run the protocol's handshake is handshakeMCU on the bytes that arrived during each call, and between passes its SoM has the line, autopilot state and sent bytes of the main loop after as many passes |
| SomRefinement.AttemptsAreReads | impl/src/som/SomController.cpp:160-178 | reads of which only the last finds the echo are the program's attempts, acknowledged by the last without a timeout |
| McuRefinement.ProtocolRunsBoard | impl/src/mcu/mcu.ino:35-95 | in every run, from any stale bytes, the board after setup and as many calls of loop as answers or timeouts has sent the bytes the protocol's MCU put on the line, has the same bytes unread, and holds the last answer obtained, or zeros, as its surfaces |
| McuRefinement.LoopsReadStream | impl/src/mcu/mcu.ino:59-88 | over any number of calls of loop and any arrivals, every call reads the bytes behind those of the calls before it, the k-th byte of the surfaces is that of the latest call that read more than k, and the packets are sent one behind the other |

## Left out

- Boost.Asio, Boost.Interprocess, promises, threads and clocks: replaced by the contracts above, with timeouts chosen by the environment.
- The race between a deadline and a completing callback, the promise set before `consume` in flush, and the lifetime of what the callbacks capture.
- IEEE-754 rounding, NaN and infinity: doubles are reals.
- ProtocolTheorems.LockStep: SoM reads and all writes meet their deadlines, and the MCU's handshake read does not time out; SoM timeouts are treated by Framing.FramingSurvivesExactly.
- ProtocolTheorems.AnswerLag: MCU reads time out only when nothing at all has arrived; what a partial one does to the surfaces and to later reads is Mcu.PartialReadMixes and Framing.AnswerFramingSurvivesExactly.
- ProtocolLimits.NeverStuckExactly: stated for stale bytes that keep the protocol in lock-step; a SoM that misreads the stream is not followed further.
- McuRefinement.ProtocolRunsBoard: covers the protocol's runs, in which no MCU read times out part-way; McuRefinement.LoopsReadStream covers these.
- SomController.Controller.RunMainLoop: the endless loop ends after an arbitrary number of passes; the delay before it and the log lines are not part of this model.
- SomController.ReportMatchesLine: an IMU temperature that does not fit a uint8_t converts to an arbitrary one.
- SomController.LoopIsSender: a receiver that runs at the same time is part of the telemetry system's schedules, not of the loop's run.
- FlightLaw.SurfacesFollowSamples: SoM reads and writes meet their deadlines, as in the protocol.
- Telemetry.Receiver.ReceiveRounds: a blocked receive ends the method, and the retry loops around interprocess exceptions are not modelled.
- Telemetry.QueuesStayBalanced: one receiver that takes from the queues in order, and queues that are empty when the program starts.
- Mcu.Board.Loop: pulse measurement, toRange and its conversions to uint8_t, the clock, the IMU and the servo output; sampled values are inputs.
- Opening the port, creating and removing queues under names, ConfigManager and JSON: constants are constructor parameters.
- The ground station, indicators, logging, signal handling and scripts.
