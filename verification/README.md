# RF-Comms: a verified model of the V1 and V2 radio firmware

The project models the two firmware generations of the repository as Dafny classes whose methods are
proved against specification functions, and proves what those functions guarantee over whole runs.

## How it is organised

| file | models |
|---|---|
| `Bits.dfy`, `Wrappers.dfy` | machine words as bit strings; C's `^` and `<<` on them; optional values |
| `Crc.dfy`, `Packet.dfy`, `ErrorDetection.dfy`, `DoubleErrors.dfy`, `BoundaryErrors.dfy` | the V1 packet: CRC loop, encoders and decoders, what the CRC detects |
| `Counters.dfy`, `RemoteContext.dfy`, `BaseStation.dfy`, `RemoteStation.dfy` | the V1 base with its sixteen contexts, and the V1 remote |
| `StopAndWait.dfy` | the V1 ping exchange of one base context and one remote over lossy FIFO channels |
| `Completions.dfy` | whose answer completes a V1 command that carries no sequence number |
| `Exchange.dfy`, `Beliefs.dfy` | the full V1 base and remote over channels of packets, as runs of that exchange; what the base then knows |
| `Nrf24.dfy` | the V1 radio driver over a register file and a transmit FIFO, and the channel scan |
| `Tactical.dfy` | the V2 vehicle state machine |
| `RfQueue.dfy`, `WireFormat.dfy`, `Wanderer.dfy` | the V2 Wanderer: reply queue, frames, ACK-payload staging, command handling |
| `Subsequences.dfy`, `DownlinkRuns.dfy` | whole runs of the V2 downlink |
| `Gateway.dfy` | the V2 base: transmissions, link and state events, statistics windows, answers |
| `Decimation.dfy`, `TelemetryRate.dfy` | the V2 base's telemetry rate, of the decimator alone and over runs of the base |
| `Dialogue.dfy`, `StatesSeen.dfy` | the V2 base and the Wanderer together: answers, telemetry and states |
| `LineReader.dfy`, `Tokenizer.dfy` | the V2 text protocol's line framer and in-place tokenizer |

Every entity the firmware updates in place is a class. Its abstract value is a datatype (`Value()`), each
method's postcondition equates the new value with a function of the old one, and the lemmas about runs are
stated over those functions. Counters wrap at their C width. Clocks are natural numbers of microseconds. A
clock reading, a radio status, an ACK or a received packet is a parameter, so every statement holds for all
of them.

## Main results

* **The CRC is the polynomial remainder** by x^16+x^12+x^5+1 of the message with its first 16 bits
  complemented, the quotient and remainder being the only ones (`Crc.RemainderUnique`). A packet is valid
  exactly when its code word leaves no remainder; whether an error goes unnoticed depends on the error alone;
  every burst of up to 16 code-word bits, every odd number of flipped bits and every two of them are rejected,
  so two valid packets differ in at least four bits (`DoubleErrors.ValidPacketsApart`). The code word
  has the CRC's high byte first while the packet stores it last, and of all changes of bytes 29 and 30 exactly
  one goes undetected, in every valid packet (`BoundaryErrors.BoundaryUndetectedIff`).
* **Pings are safe under sequence wrap-around** (`StopAndWait`). On every run with loss, delay, duplication
  and timeouts, comparing 8-bit sequences decides exactly as comparing round numbers that never wrap would;
  `Exchange.PacketLineIsBlock` says so of the full stations and their packets.
* **Commands without a sequence number** are completed by their own answer exactly when, from what the base has
  seen, no other answer still open has the same key (`Completions.GenuineIff`). Only a timed-out command with
  that key can put it in doubt, and a completion beyond doubt ends the doubt and leaves the full base believing of
  the remote's movement what is so (`Beliefs.BelievesAfterCompletion`).
* **The ramp is bounded from both sides on every tick schedule** (`Tactical.RampSandwich`), stops the vehicle
  when ticks are at least 1250 microseconds apart, and never moves at all when they are closer. With such ticks a
  vehicle left without a sign of life stands still in bounded time, from any state (`Tactical.SilenceStops`).
* **The downlink delivers at most once and in order**, each answer to a query of its own
  (`DownlinkRuns.AtMostOnceInOrder`, `Dialogue.LinesSettleQueries`). If every command is handled before the next
  arrives the delay is exactly one poll, whatever commands and ACKs are lost (`OnePollDelay`); on every run at all a
  frame is gone once three more commands have been handled (`FewOldFrames`). Every reply is staged exactly if no query
  is handled while the transmit FIFO is full (`AllStagedIff`).
* **The telemetry rate promise holds exactly when the rate divides 1000 and is not set anew within the second**
  (`TelemetryRate.RatePrintedIff`, over whole runs of the base; `Decimation.RatePromisedIff`).
* **The laptop is told what was so**: on every joint run each telemetry line and each state observed is, in order, the
  vehicle's at a telemetry frame it built (`StatesSeen.TelemetryLinesTell`, `ObservedWereSo`).
* **V1 commands time out exactly at their deadline** (`BaseStation.TimesOutAtDeadline`), and every packet put on the
  air is addressed to its own destination and no other station (`Nrf24.ReachesItsDestination`).
* **The line framer is a splitter** (`LineReader.LinesAndErrors`) and **the tokenizer yields the maximal runs of non-blanks**, in place.

## Where the code and its documentation differ

The model follows the code.

* README.md:337 says a remote that hears a sequence again knows the base missed its response. The base may
  have accepted it (`StopAndWait.RepeatAfterAcceptance`); `AlreadyAnsweredIff` says exactly when.
* README.md:339 raises the remote's power up to level 3; the code stops at 2 (`RepeatsClimbAndHold`).
* README.md:566-568 promises that Fallback ramps both targets to zero. The ramp drops the remainder of every tick,
  and the main loop sets no spacing between ticks: with ticks less than 1250 microseconds apart the vehicle never
  slows (`Tactical.StallsWhenFast`); `StopsIff` says exactly when it has stopped.
* PROTOCOL.md:273-274 promises at most `hz` telemetry lines a second. For rates not dividing 1000 more can be
  forwarded, and so can they when the rate is set again within the second (`Decimation.LimitIsLeast`).
* A completed command need not have been heard by the remote, and a reply need not reach the transmit FIFO:
  `Completions.GenuineIff` and `DownlinkRuns.AllStagedIff` say exactly when they are.
* README.md:566 and tactical.h:19-21 speak of any valid frame as a sign of life. Any frame at all is
  (`Wanderer.AnyFrameIsLife`).
* tactical.h:25-27 calls the commander not alive until its first frame. With `last_seen_` at the epoch the
  test is true for the first 750 ms after boot (`Tactical.AliveFromBootIff`). It is not quite the test that falls
  back, either: the two differ at exactly 750 ms (`LivenessTestsAgreeIff`).
* The comment on `tokenize` says what exceeds the limit stays attached to the last token. It is cut off.

## Assumptions

* V1 channels lose, delay and duplicate frames, and do not reorder or forge them; neither V1 station restarts.
* The nRF24 keeps the registers written to it.
* The V2 transmit FIFO holds three payloads and takes a payload unless it is full; the receive FIFO holds three.
* The ramp theorems take tick gaps under 2^31 * 1250 microseconds (31 days). From there on the step overflows
  its `int32_t`, which the model lets wrap: `DecayNeverGrowsIff` says which wrapped steps are harmless and
  `OverflowAccelerates` gives a gap that accelerates the vehicle.

## Model

| member | source | states |
|---|---|---|
| Crc.Crc16Ccitt | Pico2_V1_RF/src/protocol.c:9-22 | the nested loops leave the shift register that clocking in the data bit by bit, most significant first, from all ones would leave |
| Crc.RemainderUnique | Pico2_V1_RF/src/protocol.c:9-22 | a pair is a quotient and remainder of the augmented message by x^16+x^12+x^5+1 exactly when it is the one the register computes |
| Crc.FeedLinear | Pico2_V1_RF/src/protocol.c:12-19 | the register is linear over exclusive or, in start value and input together, for every length |
| Crc.FeedAllOdd | Pico2_V1_RF/src/protocol.c:14-18 | the parity of the register is that of the start value and all bits fed in |
| Crc.BurstLeavesRemainder | Pico2_V1_RF/src/protocol.c:9-22 | an error confined to 16 consecutive bits, anywhere in any length, leaves a zero register only if it is no error |
| Packet.FinishPacket | Pico2_V1_RF/src/protocol.c:24-28 | the body is kept and the two CRC bytes appended, low byte first |
| Packet.PacketCrcValid | Pico2_V1_RF/src/protocol.c:30-35 | true exactly when the stored field is the remainder of the body |
| Packet.EncodeCommand | Pico2_V1_RF/src/protocol.c:41-47 | fills the buffer in place with command, argument, zeros and CRC |
| Packet.EncodeAck | Pico2_V1_RF/src/protocol.c:62-70 | fills the buffer in place with the marked source, command, argument, zeros and CRC |
| Packet.EncodeDataResponse | Pico2_V1_RF/src/protocol.c:72-89 | refuses more than 27 bytes and leaves the buffer alone, else fills it with source, command, length, data and CRC |
| Packet.DecodeCommand | Pico2_V1_RF/src/protocol.c:49-60 | yields a command exactly for valid packets without the response mark |
| Packet.DecodeResponse | Pico2_V1_RF/src/protocol.c:91-114 | yields a response exactly for valid marked packets, with data only for GETSTAT and GETVER and at most 27 bytes of it |
| Packet.CommandLayout | Pico2_V1_RF/src/protocol.c:41-47 | a command packet byte by byte: command, argument in two's complement, zeros, CRC with its low byte first |
| Packet.AckLayout | Pico2_V1_RF/src/protocol.c:62-70 | an acknowledgement byte by byte, its first byte 239 plus the source |
| Packet.DataLayout | Pico2_V1_RF/src/protocol.c:72-89 | a data response byte by byte: source, command, length, data, zeros, CRC |
| Packet.CommandRoundTrip | Pico2_V1_RF/src/protocol.c:41-60 | decoding inverts encoding exactly for commands below 0xF0 |
| Packet.AckRoundTrip | Pico2_V1_RF/src/protocol.c:62-70 | an acknowledgement decodes to itself exactly for sources 1..16 and, for data commands, argument zero |
| Packet.DataRoundTrip | Pico2_V1_RF/src/protocol.c:72-114 | a data response of any permitted length decodes to itself exactly for sources 1..16 and data commands, or no data |
| Packet.DecodersDisjoint | Pico2_V1_RF/src/protocol.c:49-56 | no packet is both command and response, a decoded source is 1..16, an invalid packet is neither |
| Packet.CommandCanonicalIff | Pico2_V1_RF/src/protocol.c:49-60 | a decoded packet is the canonical encoding exactly when its padding is zero |
| ErrorDetection.ValidIffNoRemainder | Pico2_V1_RF/src/protocol.c:24-35 | validity is the same as the code word leaving no remainder |
| ErrorDetection.UndetectedIff | Pico2_V1_RF/src/protocol.c:30-35 | from any valid packet an error is missed exactly when the error alone leaves no remainder |
| ErrorDetection.BurstRejected | Pico2_V1_RF/src/protocol.c:9-35 | any change within 16 consecutive code-word bits is rejected |
| ErrorDetection.ByteBurstRejected | Pico2_V1_RF/src/protocol.c:9-35 | any change within one byte, two neighbouring bytes of the body, or the CRC field is rejected |
| ErrorDetection.ValidIsEven | Pico2_V1_RF/src/protocol.c:9-35 | a valid packet has an even number of ones over its 32 bytes |
| ErrorDetection.OddFlipRejected | Pico2_V1_RF/src/protocol.c:9-35 | flipping an odd number of bits anywhere is rejected |
| ErrorDetection.BoundaryUndetected | Pico2_V1_RF/src/protocol.c:26-33 | exclusive-oring 0x89 into byte 29 and 0xA1 into byte 30 of any valid packet goes undetected |
| BoundaryErrors.BoundaryUndetectedIff | Pico2_V1_RF/src/protocol.c:26-33 | of all changes of bytes 29 and 30 only that one, and none at all, leave a valid packet valid |
| DoubleErrors.TwoOnesLeaveRemainder | Pico2_V1_RF/src/protocol.c:9-22 | two flipped bits up to 255 apart never cancel in the register |
| DoubleErrors.FewFlipsRejected | Pico2_V1_RF/src/protocol.c:9-35 | any one, two or three flipped bits of a valid packet are rejected |
| DoubleErrors.ValidPacketsApart | Pico2_V1_RF/src/protocol.c:24-35 | two different valid packets differ in at least four bits |
| DoubleErrors.FourFlipsUndetected | Pico2_V1_RF/src/protocol.c:9-35 | from every valid packet a certain four flipped bits go undetected |
| RemoteContext.StatusRoundTrip | Pico2_V1_RF/src/main.c:264-292 | the base reads back from GETSTAT data the status the remote wrote |
| RemoteContext.StatusLayout | Pico2_V1_RF/src/main.c:399-408 | the eleven bytes of a status, its multi-byte numbers little-endian |
| RemoteContext.CommandsConserved | Pico2_V1_RF/src/main.c:229-245 | on every run, sent plus one if pending at the reset equals acknowledged plus timed out plus one if pending now, modulo 2^32 |
| RemoteContext.ResponseTimeBounded | Pico2_V1_RF/src/main.c:342-348 | below 2^32 acceptances the acknowledged count is exact and the total response time at most that count times the maximum |
| RemoteContext.ResponseTimesKept | Pico2_V1_RF/src/main.c:342-348 | on every run since the last reset the total response time is the sum of the times from each send to its accepted response, and the maximum the greatest of them |
| RemoteContext.CountersKept | Pico2_V1_RF/src/main.c:192-207 | on every run each counter of a context counts what it is for since the last reset, modulo 2^32: transmissions by result, retransmissions, commands sent, answered and timed out, unexpected responses |
| RemoteContext.PendingUntilDeadline | Pico2_V1_RF/src/main.c:239-245 | a command sent and left alone is pending, as sent, exactly until a sweep reads a clock 150 ms past the reading its deadline was dated from |
| RemoteContext.BeliefsKept | Pico2_V1_RF/src/main.c:278-366 | on every run what the base believes of the remote is what the accepted responses say, byte by byte for a status, the last one deciding |
| RemoteContext.FlagsKept | Pico2_V1_RF/src/main.c:330-390 | on every run connected after an answer and not after a timeout, seen from the first command or response on |
| BaseStation.ContextsIsolated | Pico2_V1_RF/src/main.c:313-397 | each of the sixteen contexts evolves as if its remote were the only one |
| BaseStation.StationConserves | Pico2_V1_RF/src/main.c:220-397 | conservation for every remote over every run of the base |
| BaseStation.PacketsCounted | Pico2_V1_RF/src/main.c:316-329 | since the last reset the valid counter counts the packets that decode as responses and the invalid one the others; the unknown-source count never leaves zero |
| BaseStation.Base.SendCommand | Pico2_V1_RF/src/main.c:220-255 | refused for unknown remotes and pending commands with nothing changed, else one pending command, counters advanced, and its packet sent |
| BaseStation.Base.SendPing | Pico2_V1_RF/src/main.c:257-262 | sends PING with the context's own sequence, and advances nothing |
| BaseStation.Base.ProcessResponses | Pico2_V1_RF/src/main.c:313-378 | drains the receiver, completing only a matching pending command and changing only its context |
| BaseStation.Base.ProcessTimeouts | Pico2_V1_RF/src/main.c:380-397 | expires exactly the pending commands whose deadline has been reached |
| BaseStation.TimesOutAtDeadline | Pico2_V1_RF/src/main.c:380-397 | over every run of the base a command sent and left alone is pending exactly as long as every sweep since has read for its remote a clock less than 150 ms past the dated reading; then it has timed out, counted once, and the remote is not connected |
| BaseStation.Base.ResetStatistics | Pico2_V1_RF/src/main.c:609-625 | clears every counter and leaves pending commands and sequences alone |
| BaseStation.Base.AnyCommandPending | Pico2_V1_RF/src/main.c:627-634 | true exactly when some context is waiting |
| RemoteStation.Station.ProcessCommands | Pico2_V1_RF/src/main.c:412-508 | drains the receiver; the packets sent are the answers to the known commands, in order |
| RemoteStation.ReplyDecodes | Pico2_V1_RF/src/main.c:431-482 | what the base decodes from an answer's packet is that answer |
| RemoteStation.AnswersSay | Pico2_V1_RF/src/main.c:431-482 | what the base decodes from the answer to each command: the status, the version 0.2, or the argument echoed; other commands have none |
| RemoteStation.RemoteCounts | Pico2_V1_RF/src/main.c:418-501 | on every run the remote's counters of packets, decoded or not, and of answers, acknowledged or not, count those since the last reset, modulo 2^32 |
| RemoteStation.CopiesAlwaysAgree | Pico2_V1_RF/src/main.c:423-501 | commands received agree with packets decoded, failed answers with failed transmissions |
| RemoteStation.RemoteRemembers | Pico2_V1_RF/src/main.c:424-482 | on every run the remote remembers the last command, the order in force and the last ping it has heard |
| RemoteStation.RemoteFlags | Pico2_V1_RF/src/main.c:425-501 | on every run connected as its last answer went, seen from the first command on |
| RemoteStation.ExchangeAgrees | Pico2_V1_RF/src/main.c:342-366 | a pending command heard and its answer heard complete it, and what the base then believes of the remote's movement, status and power is so |
| RemoteStation.RepeatsClimbAndHold | Pico2_V1_RF/src/main.c:127-142 | over any events with only repeated pings, n of them raise the power n levels but never past 2, and the LED is held on |
| RemoteStation.FreshPingPulses | Pico2_V1_RF/src/main.c:127-142 | a new sequence lights the LED until it is first serviced 100 ms later |
| StopAndWait.BaseRefines | Pico2_V1_RF/src/main.c:332-350 | the full context, reduced to what the exchange depends on, steps as the model's base does |
| StopAndWait.RemoteRefines | Pico2_V1_RF/src/main.c:450-482 | the full remote hears and answers as the model's remote does |
| StopAndWait.AlwaysInv | Pico2_V1_RF/src/main.c:332-390 | sequences, rounds and channels keep the stop-and-wait invariant on every run |
| StopAndWait.DecisionsUnambiguous | Pico2_V1_RF/src/main.c:332-338 | on every run a ping is taken for a repeat, and an answer for the pending one, exactly when its unwrapped round says so |
| StopAndWait.HeardOrOneAhead | Pico2_V1_RF/src/main.c:363-366 | new pings at the remote equal accepted pings at the base or exceed them by one, and the base's sequence is the count modulo 256 |
| StopAndWait.PingLineIsBlock | Pico2_V1_RF/src/main.c:257-262 | answers in flight, remote, pings in flight, base: a block of s-1 and then a block of s |
| StopAndWait.AlreadyAnsweredIff | Pico2_V1_RF/src/main.c:450-466 | a ping about to be heard was already answered to the base exactly when it is not the base's current sequence |
| StopAndWait.RepeatAfterAcceptance | Pico2_V1_RF/src/main.c:456-463 | a run on which a repeat raises the power although the base accepted the first answer |
| StopAndWait.LateAnswerCompletesLostMove | Pico2_V1_RF/src/main.c:332-340 | a run on which the late answer to one MOVE completes the next, which was lost |
| Completions.AlwaysTracks | Pico2_V1_RF/src/main.c:332-340 | on every run each answer in flight, and to each command in flight, is one the base must still expect from what it has seen |
| Completions.Realise | Pico2_V1_RF/src/main.c:332-390 | conversely, whatever the base has seen, any selection of those answers can be what is in flight |
| Completions.GenuineIff | Pico2_V1_RF/src/main.c:332-340 | after any history of the base, with or without duplication: whatever completes the pending command next is its own answer exactly if no other answer still open has its command and, but for GETSTAT and GETVER, its argument |
| Completions.DoubtNeedsTimeout | Pico2_V1_RF/src/main.c:380-390 | without duplication only an earlier command with the same key that timed out can put the answer in doubt |
| Completions.NoTimeoutNoDoubt | Pico2_V1_RF/src/main.c:332-340 | so if none has, the answer that completes the command is its own |
| Completions.SoleFlushes | Pico2_V1_RF/src/main.c:332-351 | a completion beyond doubt leaves no older answer to expect |
| Exchange.AlwaysSimulated | Pico2_V1_RF/src/main.c:313-508 | every run of the full base and remote over packet channels, from their initial states, is a run of the reduced exchange |
| Exchange.PacketLineIsBlock | Pico2_V1_RF/src/main.c:257-262 | on every run of the full stations, decoded from the packets in flight and read at the stations, the ping sequences are a block of s-1 and then a block of s |
| Beliefs.BelievesAfterCompletion | Pico2_V1_RF/src/main.c:342-366 | on every run of the full stations, a MOVE, STOP or GETSTAT completed beyond doubt leaves the base with the movement the remote has |
| Nrf24.Radio.Init | Pico2_V1_RF/src/nrf24.c:149-174 | from any contents the registers written are the checked configuration, and the check passes |
| Nrf24.Radio.CheckConfig | Pico2_V1_RF/src/nrf24.c:176-189 | true exactly for the checked configuration |
| Nrf24.Radio.SetTxPower | Pico2_V1_RF/src/nrf24.c:197-210 | changes RF_SETUP only and leaves CE as it was |
| Nrf24.PowerSet | Pico2_V1_RF/src/nrf24.c:197-217 | the power read back is level modulo 4, and no other bit of RF_SETUP changes |
| Nrf24.InitializedRegisters | Pico2_V1_RF/src/nrf24.c:149-174 | initialisation register by register, and no other register touched |
| Nrf24.OperationRegisters | Pico2_V1_RF/src/nrf24.c:191-343 | the registers, CE and addresses that tuning, listening, measuring and sending set, and no other |
| Nrf24.Radio.Send | Pico2_V1_RF/src/nrf24.c:232-284 | the payload alone goes on the air, to its address, and the transmit FIFO is left empty; the first status that settles the transmission decides its result; the radio is left transmitting with CE low |
| Nrf24.StatusBits | Pico2_V1_RF/src/nrf24.c:37-38 | sent is bit 5 of the status, retries used up bit 4 |
| Nrf24.Radio.MeasureChannelNoise | Pico2_V1_RF/src/nrf24.c:310-343 | counts the samples with energy detected and leaves CE low on the measured channel |
| Nrf24.CountIs | Pico2_V1_RF/src/nrf24.c:320-337 | the count is the number of samples with energy detected |
| Nrf24.Radio.ScanRfChannels | Pico2_V1_RF/src/main.c:651-663 | each channel's count, the number of busy channels, and the first channel with the most hits; the receiver is restarted |
| Nrf24.Radio.TransmitAndListen | Pico2_V1_RF/src/main.c:247-249 | the receiver is restarted whatever the result of the transmission |
| Nrf24.AlwaysHome | Pico2_V1_RF/src/main.c:185-190 | from any power-on contents every main-loop boundary of every run finds CE high, receiving on the own address and channel 76, the configuration valid, nothing left to transmit and the power last set |
| Nrf24.AiredInOrder | Pico2_V1_RF/src/nrf24.c:241-261 | over every run what goes on the air is each packet transmitted, once, to its own destination, whatever failed before it |
| Nrf24.AddressesDiffer | Pico2_V1_RF/src/main.c:176-183 | stations share the first four bytes of their addresses; the last is the id, so different stations have different addresses |
| Nrf24.ReachesItsDestination | Pico2_V1_RF/src/main.c:176-197 | of two stations after any runs: what the one has put on the air is its packets, in order, and the other's receive address is that of a packet exactly if the packet was meant for it |
| Nrf24.SendLeavesHome | Pico2_V1_RF/src/nrf24.c:241-255 | a transmission alone always leaves that state, and the restart always restores it |
| Tactical.TransitionCauses | Pico2_V2_RF/src/tactical.h:33-76 | each change of state has one cause; Fallback returns to Active through MOVE only |
| Tactical.CommandEffects | Pico2_V2_RF/src/tactical.h:33-76 | what each operation, accepted or refused, leaves as state, fault code and outputs; a tick leaves Active only past the timeout, and changes outputs only in Fallback, by the whole 1250-microsecond parts of its gap |
| Tactical.AlwaysGated | Pico2_V2_RF/src/tactical.h:87-99 | on every run Safe and Fault have zero orders and zero ramps |
| Tactical.NoSilentAcceleration | Pico2_V2_RF/src/tactical.h:33-118 | until a MOVE is accepted no run raises either output or changes its sign |
| Tactical.QuotientTruncates | Pico2_V2_RF/src/tactical.h:107-110 | the division drops the fraction, of a negative number too |
| Tactical.RampStepExact | Pico2_V2_RF/src/tactical.h:107-110 | the step is the truncated quotient exactly below the overflow gap, and zero exactly under 1250 microseconds |
| Tactical.DecayNeverGrowsIff | Pico2_V2_RF/src/tactical.h:114-118 | no output ever grows exactly for steps that are not negative or wrap to 0, 1 or 2 modulo 2^16 |
| Tactical.OverflowAccelerates | Pico2_V2_RF/src/tactical.h:107-118 | a tick gap of 62 days, past the overflow, that turns 1 mm/s into 101 |
| Tactical.RampSandwich | Pico2_V2_RF/src/tactical.h:67-76 | after n ticks over T microseconds of Fallback both outputs have shrunk by S with 800 T / 10^6 - n < S <= 800 T / 10^6 |
| Tactical.DecelerationBounded | Pico2_V2_RF/src/tactical.h:12 | the speed lost is at most 800 (mm/s)/s times the time, on any tick schedule |
| Tactical.StopsWhenSpaced | Pico2_V2_RF/src/tactical.h:107-118 | ticks at least 1250 microseconds apart stop a speed v within v ticks and within 2500 v microseconds |
| Tactical.StallsWhenFast | Pico2_V2_RF/src/tactical.h:107-110 | closer ticks never slow the vehicle, however many there are |
| Tactical.StopsIff | Pico2_V2_RF/src/tactical.h:104-118 | an output is zero exactly once the whole 1250-microsecond parts of the tick gaps add up to its speed |
| Tactical.LivenessTestsAgreeIff | Pico2_V2_RF/src/tactical.h:28-31 | the link test and the fallback test differ exactly at 750000 microseconds |
| Tactical.AliveFromBootIff | Pico2_V2_RF/src/tactical.h:25-31 | however the vehicle is driven, with no frame heard since boot the commander passes for alive exactly during the first 750 ms |
| Tactical.TickWhileActive | Pico2_V2_RF/src/tactical.h:67-76 | a tick leaves Active exactly past the timeout, and Fallback starts from the standing order |
| Tactical.SilenceEndsActive | Pico2_V2_RF/src/tactical.h:67-72 | whatever else happens, a tick after 750 ms of silence leaves the vehicle outside Active |
| Tactical.SilenceStops | Pico2_V2_RF/src/tactical.h:67-118 | from any state last ticked within 750 ms of the last sign of life, without a further sign or order and with ticks 1250 microseconds to g apart, outputs of up to v are zero once a tick comes later than 750 ms, g and 2500 v microseconds after the last sign |
| Tactical.TacticalCore.CmdMove | Pico2_V2_RF/src/tactical.h:43-51 | accepted exactly in Active and Fallback, with the new order; otherwise nothing changes |
| Tactical.TacticalCore.TickAt | Pico2_V2_RF/src/tactical.h:67-76 | the liveness check, else the ramp, then the tick time |
| Tactical.TacticalCore.EnterState | Pico2_V2_RF/src/tactical.h:87-99 | seeds the ramp on Fallback, clears everything on Safe and Fault, does nothing without a change |
| RfQueue.Queue.Push | Pico2_V2_RF/src/main.cpp:163-172 | appends the bytes, or refuses an oversized frame or a full queue with nothing changed |
| RfQueue.Queue.Pop | Pico2_V2_RF/src/main.cpp:179-186 | drops the front frame, or refuses an empty queue with nothing changed |
| RfQueue.Replay | Pico2_V2_RF/src/main.cpp:158-193 | under every interleaving of push, pop and front the ring shows what a plain FIFO of four frames holds |
| WireFormat.ParseIffEncoded | Pico2_V2_RF/src/main.cpp:311-434 | bytes are taken for a request exactly when they are its encoding |
| WireFormat.RequestBytes | Pico2_V2_RF/src/protocol.h:14-62 | the frame of each command byte by byte: type, sequence, little-endian arguments |
| WireFormat.ReplyBytes | Pico2_V2_RF/src/protocol.h:30-103 | the frame of each reply byte by byte, moving in bit 0 of the flags and armed in bit 1 |
| WireFormat.ReplyIffEncoded | Pico2_V2_RF/src/main.cpp:503-567 | what the dispatcher takes for a reply is its encoding, but for unused flag bits |
| WireFormat.ReplyRoundTrip | Pico2_V2_RF/src/main.cpp:503-567 | the base's dispatcher reads back every reply frame the Wanderer builds |
| Wanderer.WandererStation.StageNextAckPayload | Pico2_V2_RF/src/main.cpp:288-297 | a queued reply goes ahead of telemetry and is dropped from the queue whether or not the FIFO takes it |
| Wanderer.WandererStation.HandleCommand | Pico2_V2_RF/src/main.cpp:311-434 | a well-formed request is obeyed, anything else is refused with nothing changed |
| Wanderer.WandererStation.ProcessRadio | Pico2_V2_RF/src/main.cpp:436-466 | one frame staged per command read, restaged after a refusal; a zero length ends the loop with a fresh frame |
| Wanderer.FrameIsOps | Pico2_V2_RF/src/main.cpp:451-457 | a frame is a sign of life and then at most one vehicle operation |
| Wanderer.AnyFrameIsLife | Pico2_V2_RF/src/main.cpp:442-457 | any frame whatever holds off Fallback for exactly 750 ms; a length of zero is no sign of life |
| Wanderer.OnlyMoveFramesAccelerate | Pico2_V2_RF/src/main.cpp:343-359 | no frame but an accepted, well-formed MOVE on the command pipe raises a speed |
| Wanderer.TelemetryTruthful | Pico2_V2_RF/src/main.cpp:251-277 | a telemetry frame carries 0 in Safe, 1 in Active, 2 in Fallback and 3 in Fault, armed exactly in Active and Fallback, moving exactly with a nonzero output |
| Wanderer.AnswersTruthful | Pico2_V2_RF/src/main.cpp:361-429 | the reply to each query, read by the base, tells the version, the targets in force and the power level left |
| DownlinkRuns.HearQueues | Pico2_V2_RF/src/main.cpp:361-429 | with the queue empty every query queues exactly its reply, and nothing else queues one |
| DownlinkRuns.LoopIsSteps | Pico2_V2_RF/src/main.cpp:436-466 | the receive loop is a run of these steps, one for each command read and a flush for a zero length, and leaves no command waiting |
| DownlinkRuns.QueriesAnswered | Pico2_V2_RF/src/main.cpp:361-429 | on every run each query handled, and nothing else, is given one answer, in order |
| DownlinkRuns.AtMostOnceInOrder | Pico2_V2_RF/src/main.cpp:269-305 | on every run the frames dispatched are a subsequence of those staged: the telemetry of the consecutively numbered frames built, each other frame an answer to a query of its own, handled before, the queries in the order polled |
| DownlinkRuns.AlwaysSupplied | Pico2_V2_RF/src/main.cpp:1020-1025 | the reply queue is empty between commands, and a drained receiver has a frame staged |
| DownlinkRuns.AlwaysRoom | Pico2_V2_RF/src/main.cpp:459-464 | unless the radio keeps a payload whose ACK was lost, frames staged and commands waiting never exceed three |
| DownlinkRuns.EveryAnswerStaged | Pico2_V2_RF/src/main.cpp:288-293 | so every reply queued is staged |
| DownlinkRuns.FullFifoLosesAnswer | Pico2_V2_RF/src/main.cpp:459-464 | a query that finds the FIFO full has its reply dropped for telemetry |
| DownlinkRuns.LossesCounted | Pico2_V2_RF/src/main.cpp:459-464 | on every run the replies never staged are as many as the queries that found the FIFO full |
| DownlinkRuns.AllStagedIff | Pico2_V2_RF/src/main.cpp:288-293 | every reply queued on a run is staged exactly if no query was handled while the FIFO was full |
| DownlinkRuns.AnswerLostOnRun | Pico2_V2_RF/src/main.cpp:459-464 | a run of two commands and a query, their payloads kept, that loses the reply |
| DownlinkRuns.GoneWithinThree | Pico2_V2_RF/src/main.cpp:279-297 | unless the radio keeps payloads, and without flushes, every frame staged has left after as many commands heard as there were frames, at most three |
| DownlinkRuns.FewOldFrames | Pico2_V2_RF/src/main.cpp:279-305 | on every run, kept payloads and flushes included, the FIFO holds the frames staged last, and once h more commands are handled at most 3-h of them are older, after three none |
| DownlinkRuns.OnePollDelay | Pico2_V2_RF/src/main.cpp:279-297 | if every command is handled before the next arrives, with any local operations in between and whatever commands and ACKs are lost, each command heard takes exactly the frame that the one heard before it brought on, the first the preload |
| DownlinkRuns.NextCommandTakes | Pico2_V2_RF/src/main.cpp:279-305 | so too after flushes: the frame staged last leaves with the very next command heard, to the base if its ACK arrives |
| DownlinkRuns.NothingLost | Pico2_V2_RF/src/main.cpp:617-647 | if no ACK is lost the base dispatches every frame taken, in order |
| DownlinkRuns.HandleStages | Pico2_V2_RF/src/main.cpp:436-466 | that frame is the answer to a query, else telemetry of the state the command left |
| Dialogue.LinesSettleQueries | Pico2_V2_RF/src/main.cpp:503-567 | on every joint run the answer lines printed settle, in order, distinct queries that the base has sent |
| StatesSeen.BuiltTells | Pico2_V2_RF/src/main.cpp:251-277 | on every run the k-th telemetry frame built carries number k modulo 256 and, read and named as the base does, tells the vehicle's state at that time and whether it was armed and moving |
| StatesSeen.TelemetryLinesTell | Pico2_V2_RF/src/main.cpp:513-526 | on every joint run the telemetry lines printed tell, in order and each with its own number, state, armed and moving, what the vehicle was at distinct telemetry frames it built |
| StatesSeen.ObservedWereSo | Pico2_V2_RF/src/main.cpp:473-494 | on every joint run the states the base observes, named as it prints them, are in order states the vehicle was in when its telemetry was built |
| StatesSeen.EventsWereSo | Pico2_V2_RF/src/main.cpp:484-494 | so the state events told are the changes along a subsequence of the vehicle's states |
| Dialogue.JointRuns | Pico2_V2_RF/src/main.cpp:640-669 | a joint run is a run of the base and a run of the downlink |
| Decimation.NextAfterLast | Pico2_V2_RF/src/main.cpp:71-77 | under one rate, set once or more often, forwarded frames are an interval apart unless a setting comes between them, on every arrival schedule |
| Decimation.OffSilences | Pico2_V2_RF/src/main.cpp:60-60 | off forwards nothing until the next setting |
| Decimation.EveryFrameForwards | Pico2_V2_RF/src/main.cpp:61-64 | on forwards every frame until the next setting |
| Decimation.RateForwards | Pico2_V2_RF/src/main.cpp:65-77 | a rate forwards a frame exactly if it comes no earlier than the setting, or than one interval after the last frame forwarded |
| Decimation.ForwardedSpread | Pico2_V2_RF/src/main.cpp:65-77 | n forwarded frames span at least n-1 intervals of floor(1000/hz) milliseconds, less one for each setting between them |
| Decimation.LimitIsLeast | Pico2_V2_RF/src/main.cpp:65-77 | a limit per half-open second with at most r settings in it holds on every schedule exactly from ceil(1000/floor(1000/hz)) + r on |
| Decimation.RatePromisedIff | PROTOCOL.md:273-274 | at most hz frames in every half-open second with at most r settings in it, on every schedule, exactly when hz divides 1000 and r is zero |
| TelemetryRate.TelemetryThinned | Pico2_V2_RF/src/main.cpp:513-526 | over any run, settings included, the telemetry lines printed are exactly the telemetry frames read while due, each as it was read, in order |
| TelemetryRate.PrintsAtMostIff | Pico2_V2_RF/src/main.cpp:812-819 | the least limit on the lines printed per half-open second over every run of the base under one rate, set however often |
| TelemetryRate.RatePrintedIff | PROTOCOL.md:273-274 | at most hz lines in every half-open second of every run exactly when hz divides 1000 and no setting falls between the lines |
| Gateway.BaseState.UpdateLinkState | Pico2_V2_RF/src/main.cpp:569-591 | counts the transmission and reports a change of link, once |
| Gateway.BaseState.DrainDownlink | Pico2_V2_RF/src/main.cpp:617-630 | dispatches the frames in order up to one of length zero |
| Gateway.BaseState.TxRequest | Pico2_V2_RF/src/main.cpp:640-669 | sends the request's encoding with the next sequence number and drains only after an ACK |
| Gateway.BaseState.ReportRfStats | Pico2_V2_RF/src/main.cpp:600-615 | reports the window, opens the next, and counts its own query in that one |
| Gateway.RunBooks | Pico2_V2_RF/src/main.cpp:569-615 | the printed lines, the open window and the sequence number agree with the history of every run |
| Gateway.EventsTold | Pico2_V2_RF/src/main.cpp:484-494 | link events are the changes of delivery and alternate from up; state events are the changes of the observed states, whatever is forwarded |
| Gateway.ChangesChain | Pico2_V2_RF/src/main.cpp:487-494 | state events chain from the first state observed to the last |
| Gateway.AnswersTold | Pico2_V2_RF/src/main.cpp:503-567 | on every run each answer read up to a zero length is printed once, in order, and no other |
| Gateway.UnknownsTold | Pico2_V2_RF/src/main.cpp:561-566 | every frame read that is of none of the four types is told with its type and length, once and in order, and no other |
| Gateway.ReportsTellLink | Pico2_V2_RF/src/main.cpp:600-610 | every report tells whether the last transmission before it was acknowledged |
| Gateway.WindowsPartition | Pico2_V2_RF/src/main.cpp:600-604 | the windows and the open one together hold every transmission and every delivery once |
| Gateway.ReportsExactIff | Pico2_V2_RF/src/main.cpp:600-610 | a report gives its window's true counts exactly when they are below 2^32, through counter wrap-around |
| LineReader.PiecesAreTheStream | Pico2_V2_RF/src/main.cpp:950-958 | the reference splitter cuts the stream at every line feed and carriage return and nowhere else |
| LineReader.LinesAndErrors | Pico2_V2_RF/src/main.cpp:950-966 | for every stream the lines passed on are the pieces of 1 to 63 bytes, in order, the errors as many as the pieces of 64 or more, each where its piece stands; an empty piece yields nothing |
| LineReader.Reader.PollUsbLines | Pico2_V2_RF/src/main.cpp:941-967 | for every chunk the outcomes remain those of the splitter on everything read so far, whatever the handler does to the buffer |
| LineReader.ReadInChunks | Pico2_V2_RF/src/main.cpp:941-967 | however a stream is chunked, the outcomes are those of the whole |
| Tokenizer.Tokenize | Pico2_V2_RF/src/main.cpp:742-763 | min(max, words) tokens, each the word of the original in place and closed by a NUL; only blanks are overwritten |
| Tokenizer.WordsAreRuns | Pico2_V2_RF/src/main.cpp:742-763 | the words are maximal runs of non-blanks, in order |
| Tokenizer.RunsAreWords | Pico2_V2_RF/src/main.cpp:742-763 | every maximal run is one of them |

## Left out

* SPI transfers, GPIO set-up, sleeps and the heartbeat LEDs; the CE pin and the range-test LED are modelled.
* The STATUS, FIFO_STATUS, RPD and OBSERVE_TX registers hold what the chip reports, not what is written: their readings are parameters.
* Printed text; printed lines are values carrying the numbers that appear in them, and for telemetry the time.
* `sscanf` and `strtol` parsing of console arguments, and the console verbs themselves; their effects are the operations above.
* The periodic ping timer of the V1 base, which only decides when a ping is sent.
* The refusal of a V1 scan while commands are pending; the scan itself is modelled.
* The bytes a decoded response leaves unused in its data buffer.
* The RF24 library and the air interface, beyond the FIFOs and the outcomes of a poll listed in `DownlinkRuns.Outcome`.
* `Pico2_BasicRF`, a simpler predecessor of V1.
* `Pico2_V2_RF/host/wanderer_client.py`, a terminal front end.
* The binary host frames of README.md:599-634, which this firmware does not implement.
* NUL bytes inside a command line: the framer passes them on, while the handlers would stop at the first.
