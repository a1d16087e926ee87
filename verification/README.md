# nRF52833 hardware models, verified

The hardware models simulate the peripherals of an nRF52833 on a computer. Most of them replace something that ticks,
shifts or is wired by something that is calculated: a lookup table instead of a shift register, a time instead of a
counter, a routing table instead of wires, a queue instead of simultaneity. This project models them and proves that the
replacements are right, and that the state machines around them never reach the states that the code calls programming
errors.

| modules | component |
|---|---|
| Gf2, ReflectedRegister, Crc | the table-driven BLE CRC-24 and IEEE 802.15.4 FCS, against division of polynomials over GF(2) |
| RadioTimings, RadioMachine | the RADIO as a pure state machine: tasks, shortcuts, signals, both timers, the Phy, the turnaround |
| RadioSafety | safety of that machine over all runs |
| RadioTasks, RadioTifs, RadioReception, RadioAssessment | what its tasks lead to and when: ramp-up, ramp-down, turnarounds, receptions, channel assessments |
| RadioPromises | what the RADIO promises, in numbers and without the functions of the machine: whole packets with their turnaround, the end of a packet without one, what is refused, the reset |
| Radio | the RADIO as the code has it, variables updated in place, kept valid over whole runs |
| RadioPacket | what is copied from RAM to the air and back |
| RtcTime, Rtc | the RTC, against a counter that ticks |
| RtcReentry | the timer handler of the RTC, with tasks that the PPI runs inside of it |
| TimerTime, Timer, TimerReadings | the TIMERs, against free-running counters; what is captured, cleared, stopped, started and counted |
| Ppi | routing of events to tasks, and the queue of tasks |
| Interrupts | the interrupt controller with level lines, and the EGU |
| Nvmc | the flash with its erase and write operations |
| Gpio | inputs, outputs, sensing and latching of pins |
| Scheduler | the choice of the next model to call |
| Common, Arithmetic, Histories | shared definitions; what has been carried out on behalf of the PPI or a callback |

Conventions. A timer at TIME_NEVER is `None`. Bit masks over pins, channels or interrupts are sets of numbers. Times are
microseconds, except where the RTC counts in 1/512 us. What the code calls but does not contain is quantified over: the
answers of the Phy are a function of the number of the request, and what the PPI or a callback runs in answer to the
n-th event is a finite plan. As everything is proved for every answer and every plan, and plans may raise further events,
re-entrancy is part of every statement, wherever the code allows it. Error traces, which end the simulation, are results
or a `fault` in the state.

A result about a component is stated without the functions that its code is made of, wherever these could be wrong in
the same way: in microseconds, ticks, bits, bytes or pins, or against a second definition.

Where the code differs from what its comments or its documentation promise, the model follows the code, and the exact
condition under which the promise holds is proved:

- `RadioSafety.AddressEndExactly`, `RadioSafety.StopAtSyncIsFatal`: tasks over the PPI at the end of an address;
- `RadioSafety.DisableDuringRampDown`, `RadioTifs.StalledFromBoot`: DISABLE clears the timer of a ramp-down;
- `RadioTifs.RxOpensOnTime`, `RadioTifs.TxStartsOnTime`, and in numbers `RadioPromises.SentAndListening`,
  `RadioPromises.ReceivedAndAnswered`: a TIFS that is too short;
- `RtcReentry.HandlerSignals`, `RtcReentry.ClearOverPpiIsEarly`, `RtcTime.OverflowStoresOrigin`: tasks of the RTC inside of
  its own handler can lose compares, signal others early, and have their value overwritten;
- `Interrupts.Controller.GetHighestPrioIrq`: pending interrupts beyond 31;
- `Gpio.DrivenPinsHaveTheirLevel`: unchanged outputs are not driven again;
- `Ppi.Peripheral.SideEffectsEep`: a wired channel can be unhooked.

## Model

| member | source | states |
|---|---|---|
| Crc.RevByteReverses | src/HW_models/crc.c:16-19 | the multiplication trick reverses the bits of every byte |
| Crc.Rev24Reverses | src/HW_models/crc.c:24-30 | the 24 low bits come out in reverse order |
| Crc.Rev16Reverses | src/HW_models/crc.c:35-40 | the 16 low bits come out in reverse order |
| Crc.TableRows24 | src/HW_models/crc.c:50-83 | each of the 256 BLE entries is eight shift-register steps from its index |
| Crc.TableRows16 | src/HW_models/crc.c:127-160 | each of the 256 entries for 802.15.4 is eight shift-register steps from its index |
| Crc.LookupIsSteps | src/HW_models/crc.c:91-92 | looking a byte up is stepping the bitwise register from it |
| Crc.TableStep | src/HW_models/crc.c:91-92 | entry plus shifted word equals eight bitwise steps of the whole word, by linearity |
| Crc.RoundBleFeeds | src/HW_models/crc.c:91-92 | a round of the loop feeds the eight bits of a byte, first bit on air first, to the bitwise register |
| Crc.Round154Feeds | src/HW_models/crc.c:168-169 | the same for 802.15.4 |
| Crc.CrcUpdateBle | src/HW_models/crc.c:85-97 | for every register and message the result is the one of the bitwise register fed bit by bit |
| Crc.CrcUpdate154 | src/HW_models/crc.c:162-173 | the same for 802.15.4 |
| Crc.AppendCrcBle | src/HW_models/crc.c:104-114 | the three bytes behind the message carry the remainder of long division by x^24+x^10+x^9+x^6+x^4+x^3+x+1, with CRCINIT added in front, in the order of the air; nothing else is written |
| Crc.AppendCrc154 | src/HW_models/crc.c:179-189 | the two bytes behind the message carry the remainder of long division by x^16+x^12+x^5+1; nothing else is written |
| Crc.KnownFcs | src/HW_models/crc.c:198-202 | the acknowledgement frame of the standard, 02 00 6A, has the FCS E4 79 |
| Crc.CrcBytesBits | src/HW_models/crc.c:110-112 | the bytes written, least significant first, carry the register with its most significant coefficient first |
| Crc.CheckedMessageLeavesZero | src/HW_models/crc.c:104-114 | a message followed by its CRC leaves the register at zero |
| Crc.BleDetectsBursts | src/HW_models/crc.c:85-97 | two messages that differ only within 24 consecutive bits on air never end in the same register |
| Crc.Fcs154DetectsBursts | src/HW_models/crc.c:162-173 | the same within 16 bits for 802.15.4 |
| Gf2.RegisterIsLongDivision | src/HW_models/crc.c:85-97 | the bitwise shift register computes the remainder of schoolbook long division |
| ReflectedRegister.AddThenStep | src/HW_models/crc.c:91-92 | adding message bits to a reflected register and then stepping it is feeding them one by one |
| RadioTimings.IntervalsAddUp | src/HW_models/NRF_RADIO.c:727-792 | the address, payload and CRC intervals sum to the duration of the packet, for every modulation and length, without rounding loss |
| RadioMachine.AbortIfNeeded | src/HW_models/NRF_RADIO.c:287-304 | a waiting Phy will be told to abort, a wait for the end of an address is given up, and nothing else changes |
| RadioMachine.Stopped | src/HW_models/NRF_RADIO.c:373-405 | from every state STOP keeps the invariant of the machine |
| RadioMachine.Disabling | src/HW_models/NRF_RADIO.c:407-449 | from every state but DISABLED, DISABLE keeps the invariant and does not end up in DISABLED |
| RadioMachine.DoTask | src/HW_models/NRF_RADIO.c:257-457 | every task, with everything the PPI runs meanwhile, keeps the invariant, time and configuration, reaches no error branch and loses no abort decision |
| RadioMachine.Raise | src/HW_models/NRF_RADIO_signals.c:26-324 | the same for every event with the tasks that the PPI connects to it, to any depth |
| RadioMachine.SignalDisabled | src/HW_models/NRF_RADIO_signals.c:83-116 | the same with the shortcuts or the turnaround |
| RadioMachine.MaybePrepareTifs | src/HW_models/NRF_RADIO.c:507-526 | preparing the turnaround after the packet end keeps the invariant in every state but DISABLED |
| RadioMachine.TxTimer | src/HW_models/NRF_RADIO.c:550-571 | an armed timer in Tx keeps the invariant and finds its transition |
| RadioMachine.RxTimer | src/HW_models/NRF_RADIO.c:572-602 | so does an armed timer in Rx, except at the address end, which RadioSafety settles |
| RadioMachine.CcaEdTimer | src/HW_models/NRF_RADIO.c:603-615 | the end of a CCA or energy scan keeps the invariant |
| RadioMachine.TurnaroundTriggered | src/HW_models/NRF_RADIO.c:629-641 | the start of the ramp-up of a turnaround keeps the invariant |
| RadioMachine.MainTimer | src/HW_models/NRF_RADIO.c:534-648 | in every state an armed timer never reaches the error branch |
| RadioMachine.AbortTimer | src/HW_models/NRF_RADIO.c:654-669 | an armed abort timer finds a pending abort, and answers it |
| RadioMachine.PowerOn | src/HW_models/NRF_RADIO.c:474-485 | a reset, at any moment, keeps the invariant and a pending abort decision |
| RadioSafety.AllRunsAreSafe | src/HW_models/NRF_RADIO.c:534-669 | over every run from boot, whatever the interleaving of tasks, resets, registers, Phy and PPI: STATE shows the state of the machine, TXSTARTING as TX and CCA as RXIDLE, each armed timer has something to do, neither error branch is reached; excluded are exactly the address ends that break the invariant, told from the plan of the PPI beforehand |
| RadioSafety.TaskHasOutline | src/HW_models/NRF_RADIO.c:257-457 | what a task does to a receiver depends on the state and the plan of the PPI only, nested events included |
| RadioSafety.AddressEndExactly | src/HW_models/NRF_RADIO.c:573-581 | the invariant survives the address end if and only if the connected tasks, folded over the plan of the PPI from the state before, do not leave the receiver idle |
| RadioSafety.AddressEndWithoutStop | src/HW_models/NRF_RADIO.c:573-581 | when none of the events raised is connected to STOP, the receiver is receiving or being disabled afterwards |
| RadioSafety.StopAtAddressEnd | src/HW_models/NRF_RADIO.c:573-581 | when the events raised are connected to tasks that start nothing, the receiver is left idle if and only if one of these events is connected to STOP |
| RadioSafety.StopAtSyncIsFatal | src/HW_models/NRF_RADIO.c:573-581 | a run from boot, STOP connected to SYNC, that ends in the error branch |
| RadioSafety.StoppingDecidesToAbort | src/HW_models/NRF_RADIO.c:287-304 | stopping or disabling what a waiting Phy does decides to abort it |
| RadioSafety.DecisionsReachThePhy | src/HW_models/NRF_RADIO.c:693-707 | over every run the next thing the Phy is told after such a decision is to abort at that moment |
| RadioSafety.DisableDuringRampDown | src/HW_models/NRF_RADIO.c:407-449 | DISABLE while ramping down leaves the timer armed if and only if no turnaround is pending |
| RadioTasks.TransmitterGetsReady | src/HW_models/NRF_RADIO.c:257-270 | TXEN leads to READY and TXREADY after 41 or 40 us (fast), 130 or 129 us, or before a turnaround 141, 140 or 130 us, by modulation, and to a transmission if a shortcut says so |
| RadioTasks.ReceiverGetsReady | src/HW_models/NRF_RADIO.c:272-285 | RXEN leads to READY and RXREADY after 40 us (fast), 129 us, or before a turnaround 140 or 130 us, by modulation, and to an idle receiver unless a shortcut starts something |
| RadioTasks.ShortcutsStartReceiver | src/HW_models/NRF_RADIO_signals.c:26-36 | of READY_START, READY_EDSTART, RXREADY_START and RXREADY_CCASTART the first that is set decides what a receiver that gets ready does |
| RadioTasks.DisabledInTime | src/HW_models/NRF_RADIO.c:407-449 | DISABLE, from every state that is not off and whatever turnaround was planned, leads to one DISABLED after 6 us (BLE) or 21 us (802.15.4) of a transmitter and at once of a receiver, and then to its shortcuts, unless the automatic turnaround with normal ramp-up replaces them |
| RadioTasks.StopRests | src/HW_models/NRF_RADIO.c:373-405 | STOP ends a transmission, a reception or an assessment, with no timer left, and decides to abort it at the Phy |
| RadioTasks.StoppedIsSilent | src/HW_models/NRF_RADIO.c:654-669 | over every run of the timers after that no event is raised any more |
| RadioTifs.AbortLeavesTheRest | src/HW_models/NRF_RADIO.c:654-687 | a decision that is due during a transmission is, when nothing has decided to abort, that the Phy goes on; if it asks again the abort timer is set to that time, if not nothing is pending; nothing else changes |
| RadioTifs.Transmission | src/HW_models/NRF_RADIO.c:727-792 | a transmission that starts now ends its address, payload and CRC at the times of the air, less the chain delay, and the abort timer is set if and only if the Phy asks |
| RadioTifs.TxTurnsToRx | src/HW_models/NRF_RADIO.c:534-648 | in every run of both timers, whatever the Phy asks, the receiver opens at the calculated time after a packet, and every event on the way comes once, in order, on time |
| RadioTifs.RxOpensOnTime | src/HW_models/NRF_RADIO.c:519-520 | that is TIFS - 3 us after the end of the packet on air if and only if TIFS leaves the time to ramp down and up |
| RadioTifs.TurnaroundPlanned | src/HW_models/NRF_RADIO.c:507-526 | after a reception the ramp-up is planned so that it ends when the inter frame space does |
| RadioTifs.TxStartsOnTime | src/HW_models/NRF_RADIO.c:521-522 | that packet starts TIFS + 1 us after the end of the received one if and only if TIFS leaves the time for the receive chain and the ramp-up |
| RadioTifs.DisableStallsTurnaround | src/HW_models/NRF_RADIO.c:428-448 | after a packet that a reception is to follow, DISABLE leaves the transmitter ramping down with no timer to end it |
| RadioTifs.StalledFromBoot | src/HW_models/NRF_RADIO.c:428-448 | a run from boot in which that happens |
| RadioReception.AddressOrQuestion | src/HW_models/NRF_RADIO.c:880-905 | whatever the Phy answers: either it waits to hear whether to abort, or the address is found, with its end, the end of the payload and the expected end of the CRC at their times |
| RadioReception.ReceiverStarts | src/HW_models/NRF_RADIO.c:924-967 | the same from the start of the receiver |
| RadioReception.AddressIsSignalled | src/HW_models/NRF_RADIO.c:977-1011 | the end of the address raises SYNC, ADDRESS, FRAMESTART, and RSSIEND, DEVMATCH or DEVMISS when asked for, once and in this order; then the Phy asks, reports, or is told that the packet is rejected |
| RadioReception.EndOrQuestion | src/HW_models/NRF_RADIO.c:795-811 | behind the address too the Phy either waits, or the end of the CRC and its status are what it reports |
| RadioReception.NoCrcBeforeReport | src/HW_models/NRF_RADIO.c:586-598 | a Phy that asks only as long as the packet lasts has reported its status before the end of the CRC is reached |
| RadioReception.ReceptionTurnsToTx | src/HW_models/NRF_RADIO.c:534-669 | in every run of both timers, however often the Phy asks before and behind the address, the answer is on the air at the calculated time |
| RadioReception.SomePhyReports | src/HW_models/NRF_RADIO.c:880-905 | for every packet, and every number of questions, there is a Phy like that |
| RadioPromises.SentAndListening | src/HW_models/NRF_RADIO.c:306-312 | from START to the open receiver, in every run of both timers: all events with their times, calculated from the bytes on air, and the receiver open 3 us before the inter frame space is over if and only if TIFS leaves the time to ramp down and up |
| RadioPromises.ReceivedAndAnswered | src/HW_models/NRF_RADIO.c:534-669 | from START of the receiver over a packet, rejected ones, header errors and wrong CRCs included, to the answer: the complete list of events with their times, CRCSTATUS, and the answer TIFS + 1 us after the end of the packet if and only if TIFS leaves the time for the receive chain and the ramp-up |
| RadioPromises.SentPacketEnds | src/HW_models/NRF_RADIO.c:559-571 | without a turnaround a sent packet ends with END and PHYEND; a shortcut to DISABLE, else one to START, else idleness decides what follows, with its timer |
| RadioPromises.ReceivedPacketEnds | src/HW_models/NRF_RADIO.c:586-598 | a received packet ends with its CRC event, PHYEND and END, in this order, and the same shortcuts |
| RadioPromises.TurnaroundRampsUp | src/HW_models/NRF_RADIO.c:629-641 | the ramp-up of a turnaround has its own duration and direction, even when the shortcuts were cleared meanwhile |
| RadioPromises.AssessmentStops | src/HW_models/NRF_RADIO.c:333-371 | CCASTOP stops a CCA and EDSTOP an energy scan, each with its own event and the Phy told to abort; neither stops the other or anything else |
| RadioPromises.OnlySupported | src/HW_models/NRF_RADIO_utils.c:154-169 | a packet goes on air if and only if its format is supported and its length fits into MAXLEN; the receiver starts if and only if the format is supported; assessments are for 802.15.4 only |
| RadioPromises.PowerResets | src/HW_models/NRF_RADIO.c:474-485 | POWER 0 and then 1, whatever is going on, leaves the RADIO disabled, without main timer or turnaround, all registers at reset, and a waiting Phy to be aborted; nothing is due then but that abort |
| RadioAssessment.MeasurementOrQuestion | src/HW_models/NRF_RADIO.c:1060-1108 | whatever the Phy answers: either it waits, or the channel is busy exactly when the energy is over the threshold, a carrier is found, both or either, as CCAMODE says |
| RadioAssessment.ChannelIsAssessed | src/HW_models/NRF_RADIO.c:1060-1147 | in every run of both timers, however often the Phy asks, a CCA ends when the Phy says, or after 128 us; exactly one of CCABUSY and CCAIDLE follows: over threshold for the two energy modes, carrier found for carrier mode, both or either for the combined ones; with its shortcut |
| RadioAssessment.EnergyIsDetected | src/HW_models/NRF_RADIO.c:1060-1147 | likewise an energy scan ends with EDEND, when the Phy says or after 128 us times EDCNT + 1, and its shortcut |
| Radio.Peripheral.constructor | src/HW_models/NRF_RADIO.c:204-237 | the boot state of the machine, which is valid |
| Radio.Peripheral.Raise | src/HW_models/NRF_PPI.c:681-702 | an event and the tasks connected to it, to any depth, keep the peripheral valid and lose no abort decision; the loop over the tasks does what the recursive definition says |
| Radio.Peripheral.TimerTriggered | src/HW_models/NRF_RADIO.c:534-648 | the main timer, armed, keeps the peripheral valid, and so never reaches its error branch, except at an address end as above |
| Radio.Peripheral.AbortReevalTriggered | src/HW_models/NRF_RADIO.c:654-669 | the abort timer, armed, keeps the peripheral valid, and so never reaches its error branch |
| Radio.Peripheral.WritePower | src/HW_models/NRF_RADIO.c:474-485 | a reset at any moment keeps the peripheral valid and loses no abort decision |
| Radio.Peripheral.Do | src/HW_models/NRF_HW_model_top.c:166-233 | one step from outside: the peripheral stays valid, does what the machine does, and loses no abort decision |
| Radio.Peripheral.RunSteps | src/HW_models/NRF_HW_model_top.c:166-233 | over every run the peripheral is valid after each step, ends where the machine ends, and the next thing the Phy is told after a decision to abort is to abort at that moment |
| RadioPacket.GetPayloadLength | src/HW_models/NRF_RADIO_utils.c:421-445 | the little-endian number in the length field, less the CRC when that is included; no result when it is smaller than the CRC |
| RadioPacket.TxCopyPayload | src/HW_models/NRF_RADIO_utils.c:489-546 | the buffer holds the packet in RAM without the S1 byte that is not on air, or there is an error exactly when the length is wrong |
| RadioPacket.Send | src/HW_models/NRF_RADIO.c:758-770 | a packet is sent if and only if its length byte, less the CRC, lies between 0 and MAXLEN; on air are then the header in RAM, the payload, which may follow the S1 byte, and the remainder of dividing, in BLE header and payload by the 24-bit generator, in 802.15.4 the payload alone by the 16-bit one |
| RadioPacket.AppendCrc | src/HW_models/NRF_RADIO.c:763-770 | in 802.15.4 two bytes with the CRC of what follows the first byte, in BLE three bytes with the CRC of everything; the packet is left alone |
| RadioPacket.RxCopyPacket | src/HW_models/NRF_RADIO.c:814-875 | RAM gets header and payload as heard, truncated to MAXLEN, only when a header and a CRC were heard, and in 802.15.4 the link quality behind the payload in any case; longer packets are rejected, exactly |
| RadioPacket.StoredParts | src/HW_models/NRF_RADIO.c:847-873 | byte by byte where that is: header first, payload behind it or behind the S1 byte, which stays, then in 802.15.4 the link quality; every other byte of RAM stays |
| RadioPacket.LengthInBytes | src/HW_models/NRF_RADIO_utils.c:421-445 | in every supported format the payload length is the last byte of the header, less the CRC when that is included |
| RadioPacket.SentIsStored | src/HW_models/NRF_RADIO.c:814-875 | round trip: a packet that is sent and heard is stored as it was, with the S1 byte skipped on both sides, and the link quality behind it |
| RtcTime.CeilUsIs | src/HW_models/NRF_RTC.c:73-83 | the smallest number of microseconds that is not earlier |
| RtcTime.TicksPerSecond | src/HW_models/NRF_RTC.c:117-134 | in PRESCALER + 1 seconds the counter ticks 32768 times |
| RtcTime.NextMatchIsFirstTick | src/HW_models/NRF_RTC.c:144-176 | the calculated time is the first microsecond after now in which the ticking counter becomes the value: it reads the value then, one less a microsecond before, and there is none in between |
| RtcTime.NextMatchIsUnique | src/HW_models/NRF_RTC.c:144-176 | no other match lies within one wrap after now |
| RtcTime.NextMatchStable | src/HW_models/NRF_RTC.c:144-176 | calculating again before the match changes nothing |
| RtcTime.NextMatchAfterMatch | src/HW_models/NRF_RTC.c:323-337 | calculating at the match gives exactly one wrap later, fractions included |
| RtcTime.RebasedOrigin | src/HW_models/NRF_RTC.c:339-361 | moving the origin by whole wraps changes no reading of COUNTER and no match |
| RtcTime.OriginSetsCounter | src/HW_models/NRF_RTC.c:228-252 | an origin that many ticks before the last LF tick, and LF ticks come every 15625 / 512 us from the first one on, makes the counter read the value now |
| RtcTime.OverflowAfterSet | src/HW_models/NRF_RTC.c:228-252 | it overflows the remaining number of ticks after that LF tick |
| RtcTime.OverflowStoresOrigin | src/HW_models/NRF_RTC.c:339-361 | the origin that a task sets inside of an overflow event survives if and only if it makes COUNTER zero and the overflow was an LF tick |
| Rtc.MatchesDoNotDrift | src/HW_models/NRF_RTC.c:323-337 | the n-th event comes n whole wraps after the first, rounded up once |
| Rtc.ComparesAt | src/HW_models/NRF_RTC.c:323-337 | in terms of the origin: ceil((origin + CC*P + (k+n)*2^24*P) / 512), the first of them within one wrap after now |
| Rtc.MatchesAreTheTicks | src/HW_models/NRF_RTC.c:364-378 | the times of the events up to some time are exactly the microseconds in which the ticking counter becomes CC, none missing and none more |
| Rtc.FiredStaysArmed | src/HW_models/NRF_RTC.c:364-378 | after the handler every time is the next match again, also from the moved origin |
| Rtc.FiredKeepsFuture | src/HW_models/NRF_RTC.c:323-361 | the handler takes the events that are due from the future to the past, and changes no other |
| Rtc.Peripheral.constructor | src/HW_models/NRF_RTC.c:389-404 | three stopped counters at zero |
| Rtc.Peripheral.GetCounterMatchTime | src/HW_models/NRF_RTC.c:144-176 | finds the next match by adding wraps, with a negative start too, and never when stopped |
| Rtc.Peripheral.UpdateMasterTimer | src/HW_models/NRF_RTC.c:178-195 | the timer is the earliest of all times of running counters |
| Rtc.Peripheral.UpdateTimers | src/HW_models/NRF_RTC.c:216-221 | every time of the counter is its next match afterwards, and nothing else changes |
| Rtc.Peripheral.SetCounterTo | src/HW_models/NRF_RTC.c:228-252 | COUNTER reads the value at once, and overflows 2^24 less the value ticks after the last LF tick |
| Rtc.Peripheral.UpdateCounter | src/HW_models/NRF_RTC.c:415-424 | a program reads the ticking counter modulo 2^24, or the value it stopped at |
| Rtc.Peripheral.Start | src/HW_models/NRF_RTC.c:429-438 | COUNTER continues with the value it had |
| Rtc.Peripheral.Stop | src/HW_models/NRF_RTC.c:443-457 | COUNTER keeps its value, and no time is left armed |
| Rtc.Peripheral.Clear | src/HW_models/NRF_RTC.c:462-466 | COUNTER reads zero, running or not |
| Rtc.Peripheral.TriggerOverflow | src/HW_models/NRF_RTC.c:471-476 | COUNTER reads 0xFFFFF0, and a running counter overflows exactly 16 ticks after the last LF tick |
| Rtc.Peripheral.WriteCc | src/HW_models/NRF_RTC.c:569-574 | the compare is armed for the new value, the other times stay |
| Rtc.Peripheral.HandleCcEvent | src/HW_models/NRF_RTC.c:323-337 | signalled once if due, and armed for the next wrap |
| Rtc.Peripheral.HandleOverflowEvent | src/HW_models/NRF_RTC.c:339-361 | signalled once if due, and the origin moved to the overflow |
| Rtc.Peripheral.TimerTriggered | src/HW_models/NRF_RTC.c:364-378 | without tasks of the RTC inside of the handler, every event that is due is signalled, none was due before, and all times are armed again |
| Rtc.Peripheral.NotifyFirstLfTick | src/HW_models/NRF_RTC.c:410-413 | the phase of the LF clock is set |
| Rtc.Peripheral.RunUntil | src/HW_models/NRF_RTC.c:364-378 | as long as time passes, the COMPARE and OVRFLW events of a running counter are exactly those of the ticking counter, COUNTER reads at any time what it would have read, and a stopped counter stays as it is |
| Rtc.Peripheral.StopWaitStart | src/HW_models/NRF_RTC.c:429-457 | a counter that is stopped, waits any time, and is started again continues with the value it was stopped at |
| RtcReentry.TasksLeaveFuture | src/HW_models/NRF_RTC.c:216-221 | what every task leaves: times in the future, or none when the counter is stopped |
| RtcReentry.BeforeIsMidway | src/HW_models/NRF_RTC.c:364-378 | in the middle of the handler, whatever tasks were run: unchanged counters have their times not yet visited as they were, all others lie in the future, and the timer has only moved on when nothing is due any more |
| RtcReentry.SignalledExactly | src/HW_models/NRF_RTC.c:323-361 | a visit signals if and only if the time was due and no task has changed its counter, or else nothing is due any more and the time equals the timer that a task has set |
| RtcReentry.HandlerSignals | src/HW_models/NRF_RTC.c:364-378 | that is exactly what the whole handler signals |
| RtcReentry.HandlerRearms | src/HW_models/NRF_RTC.c:364-378 | each at most once, in ascending order; afterwards nothing is due and the timer is the earliest time |
| RtcReentry.UnconnectedIsRight | src/HW_models/NRF_RTC.c:364-378 | without tasks of the RTC exactly what is due is signalled |
| RtcReentry.ClearOverPpiIsEarly | src/HW_models/NRF_RTC.c:323-337 | a COMPARE that clears its counter over the PPI makes an earlier compare value fire at once, 1526 us early |
| RtcReentry.Handler.UpdateMasterTimer | src/HW_models/NRF_RTC.c:178-195 | the timer is the earliest time of the running counters |
| RtcReentry.Handler.TimerTriggered | src/HW_models/NRF_RTC.c:364-378 | the handler as the code has it: what it signals, in terms of the plan of the PPI, and what it leaves |
| TimerTime.WrapTimeIsExact | src/HW_models/NRF_TIMER.c:125-127 | a wrap takes a whole number of microseconds, for every width and prescaler |
| TimerTime.DividerIs | src/HW_models/NRF_TIMER.c:85-99 | PRESCALER divides the 16 MHz clock by two to its power |
| TimerTime.RangeIs | src/HW_models/NRF_TIMER.c:104-119 | BITMODE selects 16, 8, 24 or 32 bits |
| TimerTime.TicksUntil | src/HW_models/NRF_TIMER.c:85-99 | the count calculated from a time is the one tick that has come last |
| TimerTime.NextMatchIsLeast | src/HW_models/NRF_TIMER.c:150-161 | the calculated time is the first microsecond after now into which a tick falls that makes the counter CC, modulo its width |
| TimerTime.NextMatchReads | src/HW_models/NRF_TIMER.c:85-99 | from PRESCALER 4 up the counter then reads exactly CC, and CC - 1 a microsecond earlier; below, it passes CC within that microsecond |
| TimerTime.NextMatchStable | src/HW_models/NRF_TIMER.c:150-161 | calculating again before the match changes nothing |
| TimerTime.CountAndBack | src/HW_models/NRF_TIMER.c:85-99 | converting a time into a count and back never goes beyond it |
| Timer.StartKeeps | src/HW_models/NRF_TIMER.c:225-235 | starting keeps all compare times those of the next matches, and signals nothing |
| Timer.StopKeeps | src/HW_models/NRF_TIMER.c:237-249 | so does stopping |
| Timer.ShutDownKeeps | src/HW_models/NRF_TIMER.c:251-267 | so does shutting down |
| Timer.ClearKeeps | src/HW_models/NRF_TIMER.c:292-300 | so does clearing |
| Timer.CaptureKeeps | src/HW_models/NRF_TIMER.c:269-290 | so does capturing |
| Timer.CompareKeeps | src/HW_models/NRF_TIMER.c:302-335 | a COMPARE with its shortcuts does too, and is recorded once |
| Timer.AllTimePasses | src/HW_models/NRF_TIMER.c:425-440 | up to the earliest compare nothing changes; then exactly the compares that are due await their next time |
| Timer.PeriodIs | src/HW_models/NRF_TIMER.c:95-99 | the period of a compare that clears its timer is floor(CC * 2^PRESCALER / 16) us, when that is not zero |
| Timer.ClearedThenPeriod | src/HW_models/NRF_TIMER.c:292-300 | a timer cleared now matches one period from now |
| Timer.EveryAt | src/HW_models/NRF_TIMER.c:425-455 | the n-th time of a periodic event is n periods after the first: no drift |
| Timer.Peripheral.constructor | src/HW_models/NRF_TIMER.c:60-72 | five stopped timers at zero, with four or six compares |
| Timer.Peripheral.UpdateCcTimer | src/HW_models/NRF_TIMER.c:150-161 | the loop ends, with the next match |
| Timer.Peripheral.UpdateAllCcTimers | src/HW_models/NRF_TIMER.c:163-167 | so for all compares of a timer |
| Timer.Peripheral.UpdateMasterTimer | src/HW_models/NRF_TIMER.c:132-144 | the timer is the earliest compare of all running timers |
| Timer.Peripheral.TaskStart | src/HW_models/NRF_TIMER.c:225-235 | the counter runs on from where it was |
| Timer.Peripheral.TaskStop | src/HW_models/NRF_TIMER.c:237-249 | the counter keeps its value, in 32 bits, and no compare is left armed |
| Timer.Peripheral.TaskShutdown | src/HW_models/NRF_TIMER.c:251-267 | stopped and zero |
| Timer.Peripheral.TaskCapture | src/HW_models/NRF_TIMER.c:269-290 | CC gets the count of the ticks that have come by now, modulo the width, or of the events in counter mode; its compare is armed for it |
| Timer.Peripheral.TaskClear | src/HW_models/NRF_TIMER.c:292-300 | the counter starts again from now |
| Timer.Peripheral.TaskCount | src/HW_models/NRF_TIMER.c:337-347 | outside of counter mode, or stopped, nothing; else one more, and the compares look at the counter one after the other; the timers are not disturbed, whatever those trigger |
| Timer.Peripheral.SignalCompare | src/HW_models/NRF_TIMER.c:302-335 | exactly this COMPARE is recorded, and triggers exactly the tasks that the PPI connects to it, each once and in order, whatever tasks of any TIMER these trigger, to any depth |
| Timer.Peripheral.DoTask | src/HW_models/NRF_TIMER.c:225-347 | a task that is triggered does to its TIMER what START, STOP, SHUTDOWN, CLEAR, CAPTURE or COUNT does |
| Timer.Peripheral.EvalInterrupts | src/HW_models/NRF_TIMER.c:195-223 | the line that the controller was told of is high if and only if an enabled event is set |
| Timer.Peripheral.WriteInterrupts | src/HW_models/NRF_TIMER.c:391-410 | so after every write to INTENSET, INTENCLR and the events |
| Timer.Peripheral.WriteCc | src/HW_models/NRF_TIMER.c:412-423 | the compare is armed for the new value |
| Timer.Peripheral.Collect | src/HW_models/NRF_TIMER.c:425-444 | exactly the compares that are due, each once |
| Timer.Peripheral.TimerTriggered | src/HW_models/NRF_TIMER.c:425-455 | each compare that is due is signalled exactly once and no other, even when another one clears or stops its timer, and all tasks connected to it are triggered; afterwards all are armed and the timer is the earliest |
| Timer.Peripheral.RunPeriodic | src/HW_models/NRF_TIMER.c:302-335 | a timer that its own compare clears, nothing else interfering, fires exactly every period for as long as time passes |
| TimerReadings.ClearThenCapture | src/HW_models/NRF_TIMER.c:283-300 | a CLEAR, and a capture at any later time, give the whole ticks in between, modulo the width |
| TimerReadings.ReadsTicks | src/HW_models/NRF_TIMER.c:89-93 | before the first wrap a reading is floor(16 * time / 2^PRESCALER) |
| TimerReadings.CapturedMatchesNextWrap | src/HW_models/NRF_TIMER.c:283-290 | a captured CC has its next COMPARE exactly one wrap after the tick that was read |
| TimerReadings.StartGoesOn | src/HW_models/NRF_TIMER.c:225-235 | START goes on with the value of the counter |
| TimerReadings.StopThenStart | src/HW_models/NRF_TIMER.c:225-249 | STOP leaves the ticks since the origin in 32 bits, and START after any pause goes on from exactly there, for every prescaler |
| TimerReadings.CompareClearsAndStops | src/HW_models/NRF_TIMER.c:302-312 | COMPARE sets its event; its CLEAR shortcut makes the counter zero from now on and its STOP shortcut stops it, and nothing else does |
| TimerReadings.CountsOneMore | src/HW_models/NRF_TIMER.c:337-347 | COUNT increments modulo the width; a compare is signalled once if and only if it equals the count, or zero when an earlier one with a CLEAR shortcut has reached the count |
| Ppi.AddNewKeepsFirsts | src/HW_models/NRF_PPI.c:650-663 | queuing without duplicates keeps what waits in front, loses nothing, and adds in the order of first occurrence |
| Ppi.FirstWaiting | src/HW_models/NRF_PPI.c:665-675 | the first full slot holds the oldest waiting task |
| Ppi.RoutedInOrder | src/HW_models/NRF_PPI.c:685-697 | the tasks of an event are exactly those of its enabled channels, channels ascending, own before forked |
| Ppi.Peripheral.constructor | src/HW_models/NRF_PPI.c:631-638 | registers at zero, nothing waiting; the twelve wired channels have their event and their task, listed one by one |
| Ppi.Peripheral.SetFixedChannelRoutes | src/HW_models/NRF_PPI.c:561-612 | channels 20 to 31 have their event and their task, and no event has any other channel |
| Ppi.Peripheral.Enqueue | src/HW_models/NRF_PPI.c:650-663 | a task is added at the end unless it waits already, in an array that grows when it is full |
| Ppi.Peripheral.DequeueAll | src/HW_models/NRF_PPI.c:665-675 | all that waits is run, oldest first, with all that the tasks add and even when a task empties the queue itself; each task that counts as run was started, and has raised its events and written CHEN, in order; it ends, with an empty queue |
| Ppi.Peripheral.RunTask | src/HW_models/NRF_PPI.c:665-675 | the task, and every task that runs inside of it, performs each of its actions once, in order; a task that is not started performs none |
| Ppi.Peripheral.RaiseEvent | src/HW_models/NRF_PPI.c:681-702 | when it returns, every task ever queued has been run exactly once in queue order, as many were started as were run, and each has done all that it does, in order, and CHEN is what was written last; this event added the tasks of its enabled channels, ascending, own before forked, less what waited; without such a channel nothing happens |
| Ppi.Peripheral.Lookup | src/HW_models/NRF_PPI.c:710-724 | the first entry with the address |
| Ppi.Peripheral.FindsTheFirst | src/HW_models/NRF_PPI.c:710-724 | what is found stands behind the first entry with the address, and nothing is found only if there is none |
| Ppi.Peripheral.SideEffectsEep | src/HW_models/NRF_PPI.c:730-753 | the channel belongs to the event that EEP names and to no other; a channel beyond 19 then belongs to none |
| Ppi.Peripheral.SideEffectsTep | src/HW_models/NRF_PPI.c:759-771 | the channel has the task that TEP names |
| Ppi.Peripheral.SideEffectsForkTep | src/HW_models/NRF_PPI.c:776-784 | the channel has the forked task that FORK.TEP names |
| Ppi.Peripheral.WriteEep | src/HW_models/NRF_PPI.c:730-753 | the channel has the event with that address and no other, NULL and unknown addresses none, and the routing tables agree with all registers |
| Ppi.Peripheral.WriteTep | src/HW_models/NRF_PPI.c:759-771 | the channel has the task with that address, none for NULL, its forked task stays, and the routing tables agree with all registers |
| Ppi.Peripheral.WriteForkTep | src/HW_models/NRF_PPI.c:776-784 | the channel has the forked task with that address, none for NULL, its own task stays, and the routing tables agree with all registers |
| Ppi.Peripheral.WriteChenSet | src/HW_models/NRF_PPI.c:790-795 | the channels written are enabled, the others stay |
| Ppi.Peripheral.WriteChenClr | src/HW_models/NRF_PPI.c:801-806 | the channels written are disabled, the others stay |
| Interrupts.Controller.constructor | src/HW_models/irq_ctrl.c:57-67 | nothing pending, enabled or high |
| Interrupts.Controller.GetHighestPrioIrq | src/HW_models/irq_ctrl.c:100-121 | the lowest-numbered of the pending interrupts with the best priority that beats the running one, none if there is none or interrupts are locked; undefined if and only if one beyond 31 is pending |
| Interrupts.Controller.ChangeLock | src/HW_models/irq_ctrl.c:133-145 | unlocking with something pending runs its handlers |
| Interrupts.Controller.ClearAllEnabledIrqs | src/HW_models/irq_ctrl.c:152-156 | the invariant (enabled pending interrupts are signalled, signalled ones are pending, a high line is pending or being handled) is kept, here as by all operations below |
| Interrupts.Controller.ClearAllIrqs | src/HW_models/irq_ctrl.c:158-162 | nothing is pending |
| Interrupts.Controller.DisableIrq | src/HW_models/irq_ctrl.c:164-167 | what is pending stays pending |
| Interrupts.Controller.EnableIrq | src/HW_models/irq_ctrl.c:225-231 | an interrupt that was pending is signalled, and its handler run unless interrupts are locked |
| Interrupts.Controller.ClearIrq | src/HW_models/irq_ctrl.c:188-192 | no longer pending, and being handled from now on |
| Interrupts.Controller.ReevalLevelIrq | src/HW_models/irq_ctrl.c:203-214 | pending again if and only if the line is still high |
| Interrupts.Controller.RaisePrefix | src/HW_models/irq_ctrl.c:233-244 | pending, and signalled when enabled; the phony interrupt only overrides the lock |
| Interrupts.Controller.SetIrq | src/HW_models/irq_ctrl.c:255-269 | the CPU wakes up now unless interrupts are locked |
| Interrupts.Controller.RaiseLevelIrqLine | src/HW_models/irq_ctrl.c:283-293 | a line that rises leaves its interrupt pending, signalled when enabled, and the CPU wakes up now unless interrupts are locked; one that is high already changes nothing |
| Interrupts.Controller.LowerLevelIrqLine | src/HW_models/irq_ctrl.c:301-308 | a line that falls does not unpend |
| Interrupts.Controller.RaisingFromHwNow | src/HW_models/irq_ctrl.c:311-322 | the CPU is awoken once, unless interrupts are locked and the lock is not overridden; the override is used up |
| Interrupts.Controller.RaiseImmediately | src/HW_models/irq_ctrl.c:331-335 | pending, signalled when enabled, and the CPU awoken, at once |
| Interrupts.Controller.RaiseImmediatelyFromSw | src/HW_models/irq_ctrl.c:342-349 | pending and signalled at once, and its handler run unless interrupts are locked |
| Interrupts.Controller.TimerTriggered | src/HW_models/irq_ctrl.c:354-359 | the timer is spent, nothing pending changes |
| Interrupts.Egu.constructor | src/HW_models/NRF_EGU.c:26-29 | no event, no interrupt enabled, all lines low |
| Interrupts.Egu.EvalInterrupt | src/HW_models/NRF_EGU.c:43-61 | each line flag equals "some enabled event is set" and equals the line that the controller sees |
| Interrupts.Egu.TaskTrigger | src/HW_models/NRF_EGU.c:72-90 | an enabled event leaves its interrupt, 20 plus the instance, pending or being handled, and awakes the CPU now if its line was low, unless interrupts are locked |
| Interrupts.Egu.WriteIntenSet | src/HW_models/NRF_EGU.c:92-100 | the line flags and the lines of the controller follow the registers |
| Interrupts.Egu.WriteIntenClr | src/HW_models/NRF_EGU.c:102-111 | the line flags and the lines of the controller follow the registers |
| Interrupts.Egu.WriteInten | src/HW_models/NRF_EGU.c:113-117 | the line flags and the lines of the controller follow the registers |
| Interrupts.Egu.WriteEvent | src/HW_models/NRF_EGU.c:119-122 | the line flags and the lines of the controller follow the registers |
| Interrupts.Egu.LeaveHandler | src/HW_models/irq_ctrl.c:203-214 | no request is lost: if an enabled event is set when the handler is left, its interrupt is pending again |
| Nvmc.WordIsAllWrites | src/HW_models/NRF_NVMC.c:373-411 | over every history a word is all ones and-ed with everything written to it since its page was last erased |
| Nvmc.BitsOfWord | src/HW_models/NRF_NVMC.c:373-411 | bit by bit: set if and only if it is set in everything written since |
| Nvmc.OnlyCommonBitsStay | src/HW_models/NRF_NVMC.c:395-400 | a write leaves exactly the bits set both in the word and in the value |
| Nvmc.MarkedErasedIsBlank | src/HW_models/NRF_NVMC.c:171-187 | nothing was written since, to a page marked erased: its words are all ones |
| Nvmc.Controller.constructor | src/HW_models/NRF_NVMC.c:114-158 | blank flash, ready |
| Nvmc.Controller.ErasePage | src/HW_models/NRF_NVMC.c:299-309 | accepted exactly when enabled, idle and in range; until it ends the flash does not change |
| Nvmc.Controller.EraseUicr | src/HW_models/NRF_NVMC.c:320-333 | accepted exactly when enabled and idle; until it ends the UICR does not change |
| Nvmc.Controller.EraseAll | src/HW_models/NRF_NVMC.c:335-348 | accepted exactly when enabled and idle; until it ends the flash does not change |
| Nvmc.Controller.ErasePartially | src/HW_models/NRF_NVMC.c:350-366 | the time under erase of a page that is not marked erased grows by the duration when accepted |
| Nvmc.Controller.WriteWord | src/HW_models/NRF_NVMC.c:373-411 | an accepted write leaves in one word, of the flash or the UICR, the bits set both there and in the value, and clears the mark of its page; a busy, disabled or bad one changes nothing |
| Nvmc.Controller.ReadWord | src/HW_models/NRF_NVMC.c:422-437 | a read has a bit set if and only if it is set in every value written since the last erase, all ones when there is none, and nothing outside of flash and UICR |
| Nvmc.Controller.CompleteErase | src/HW_models/NRF_NVMC.c:171-178 | exactly the 1024 words of the page become all ones, and its time under erase zero |
| Nvmc.Controller.CompleteEraseUicr | src/HW_models/NRF_NVMC.c:192-194 | all words of the UICR become all ones, and none of the flash |
| Nvmc.Controller.CompleteEraseAll | src/HW_models/NRF_NVMC.c:199-206 | all words become all ones, those of the UICR too |
| Nvmc.Controller.TimerTriggered | src/HW_models/NRF_NVMC.c:211-242 | the operation ends, READY with it; a partial erase wipes its page if and only if the page was under erase for 87500 us in all, and whatever is idle is below that |
| Nvmc.Controller.TimeToReady | src/HW_models/NRF_NVMC.c:244-250 | zero when idle, else the rest of the operation |
| Nvmc.Controller.MarkedPagesAreBlank | src/HW_models/NRF_NVMC.c:171-187 | in every reachable state a page marked erased is blank |
| Gpio.EvaluatedOnce | src/HW_models/NRF_GPIO.c:269-344 | evaluating again changes nothing and raises PORT no second time |
| Gpio.PinShows | src/HW_models/NRF_GPIO.c:280-344 | pin by pin: IN shows the level when the input buffer is connected, DETECT shows SENSE high when IN is high, SENSE low when it is low, and no other pin; LATCH includes DETECT |
| Gpio.SignalShows | src/HW_models/NRF_GPIO.c:269-275 | the detect signal is high when some pin is sensed, or in latched mode when some bit of LATCH is set |
| Gpio.DrivenPinsHaveTheirLevel | src/HW_models/NRF_GPIO.c:396-426 | outputs have the level that OUT, or the peripheral that owns them, says, if and only if some driven level has changed or they had it before |
| Gpio.OutputsHaveTheirLevel | src/HW_models/NRF_GPIO.c:396-426 | after such a change every output has the level it is driven to, and every other pin the one it had |
| Gpio.ClaimedPin | src/HW_models/NRF_GPIO.c:188-236 | pin by pin what a peripheral takes over or releases, part by part |
| Gpio.ConfiguredSame | src/HW_models/NRF_GPIO.c:510-558 | what a write to PIN_CNF leaves the same needs no evaluation |
| Gpio.Peripheral.constructor | src/HW_models/NRF_GPIO.c:82-93 | all pins disconnected, everything settled |
| Gpio.PinIsDriven | src/HW_models/NRF_GPIO.c:396-414 | pin by pin: an output as DIR says unless its direction is taken over, driven to OUT unless its output is; in every settled state the levels driven are these |
| Gpio.Peripheral.EvalSense | src/HW_models/NRF_GPIO.c:280-293 | DETECT is what is sensed, LATCH includes it, the signal follows DETECTMODE, and whatever the callbacks do, PORT is raised on every port exactly as often as its detect signal went from low to high |
| Gpio.Peripheral.CallBack | src/HW_models/NRF_GPIO.c:308-317 | whoever listens does all that it does, in order, with everything that this calls back in turn |
| Gpio.Peripheral.EvalInputs | src/HW_models/NRF_GPIO.c:330-344 | IN shows the levels of the connected pins, and sensing has followed, whatever the callbacks do; there are two of these for every input that has changed; PORT is raised for rising edges only |
| Gpio.Peripheral.EvalInput | src/HW_models/NRF_GPIO.c:358-382 | a pin that is an output, or has the level already, is left alone; any other gets the level, and no other pin does |
| Gpio.Peripheral.EvalOutputs | src/HW_models/NRF_GPIO.c:396-426 | a changed driven level settles the port, with a callback for every one; an unchanged one does nothing; the levels driven are then those that OUT and DIR ask for |
| Gpio.Peripheral.PeriPinControl | src/HW_models/NRF_GPIO.c:188-236 | only the parts given are changed, an output level too, and everything is settled afterwards, outputs as well |
| Gpio.Peripheral.PeriChangeOutput | src/HW_models/NRF_GPIO.c:247-267 | only the owner of an output changes it |
| Gpio.Peripheral.WriteOut | src/HW_models/NRF_GPIO.c:433-435 | everything is settled afterwards, despite callbacks that change other pins, and PORT was raised for rising edges only |
| Gpio.Peripheral.WriteDir | src/HW_models/NRF_GPIO.c:453-461 | so too, and every PIN_CNF mirrors DIR |
| Gpio.Peripheral.WriteLatch | src/HW_models/NRF_GPIO.c:479-504 | the written bits are cleared, but not those still sensed; PORT is raised once when bits are left in latched mode, and otherwise, callbacks included, for rising edges only |
| Gpio.Peripheral.KeptRaises | src/HW_models/NRF_GPIO.c:269-293 | over every evaluation PORT was raised for the rising edges in between |
| Gpio.Peripheral.NeverRises | src/HW_models/NRF_GPIO.c:479-504 | clearing LATCH is never a rising edge |
| Gpio.Peripheral.WriteDetectMode | src/HW_models/NRF_GPIO.c:506-508 | the signal follows the new mode |
| Gpio.Peripheral.WritePinCnf | src/HW_models/NRF_GPIO.c:510-558 | DIR and the masks mirror PIN_CNF, and everything is settled, outputs as well, although only what changed is evaluated |
| Scheduler.NextIsUnique | src/HW_models/NRF_HW_model_top.c:150-164 | there is one first earliest timer |
| Scheduler.TimeNeverDecreases | src/HW_models/NRF_HW_model_top.c:166-233 | over every run in which models set timers to now or later, time never goes back |
| Scheduler.NoTimerIsSkipped | src/HW_models/NRF_HW_model_top.c:166-233 | a timer that nobody changes is called before any call with a later time |
| Scheduler.AbortReevalComesLast | src/HW_models/NRF_HW_model_top.c:103-148 | the abort timer is called only when no other timer is due then or before |
| Scheduler.Top.FindNextTimer | src/HW_models/NRF_HW_model_top.c:150-164 | the first of the earliest timers, whatever was cached |
| Scheduler.Top.SomeTimerReached | src/HW_models/NRF_HW_model_top.c:166-233 | the model of that timer is called at its time, which makes the calls so far a run as above |

## Left out

- RadioSafety.AllRunsAreSafe: excludes the address ends after which the receiver is idle, because there the code overwrites sub-state and timer after the signals; RadioSafety.AddressEndExactly says which these are.
- RadioTifs.TxTurnsToRx: covers runs without further tasks, register writes and PPI channels, as the promise of the turnaround does; RadioReception.ReceptionTurnsToTx too, and there the Phy asks only as long as the packet lasts.
- RtcReentry.Handler.TimerTriggered: covers the times of the counters; for the origin that an overflow stores over the one a task has set see RtcTime.OverflowStoresOrigin.
- Rtc.Peripheral.TimerTriggered: no task of the RTC runs inside of the handler; RtcReentry.Handler.TimerTriggered has those.
- Scheduler.AbortReevalComesLast: the list of timers is a sequence with the abort timer last; which model each index stands for is not modelled beyond that.
- Radio.Peripheral.HandleAddressEndResponse: the uninitialised end of the payload, when MODE has become unsupported meanwhile, is an arbitrary value.
- Ppi.Peripheral.RaiseEvent: tasks are numbers whose effects are a finite plan of events and channel changes; the contents of the event and task address tables are parameters.
- The Phy itself, its socket protocol, disconnections and the HW/Phy clock drift: one integer time, and arbitrary answers.
- Registers that do not move the RADIO: RSSISAMPLE, EDSAMPLE, RXMATCH, RXCRC, DAI, PDUSTAT beyond its flag, and their floating-point conversions; the link quality stored in RAM is any byte.
- The bit counter of the RADIO: BCMATCH is an event that may come at any time.
- INTEN and interrupt requests of RADIO and RTC events, EVTEN of the RTC: one-branch glue; TIMER and EGU stand for them.
- RTC2, the TICK event, and PRESCALER writes while running.
- MODE, PRESCALER and BITMODE writes to a running TIMER, CC values beyond the width, and times beyond 64 bits.
- Channel groups of the PPI (CHG): they only set and clear CHEN.
- Storage of the flash in files, partial-word reads, and the warnings of partial erases.
- The file back end of the GPIO, short circuits between pins, and the registration of callbacks: what a callback does is a finite plan.
- GPIOTE, CLOCK, TEMP, RNG, FICR, POWER, AAR, CCM, ECB, the test ticker and the fake timer: no invariant beyond one branch.
