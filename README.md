# SoftModem in Dafny

A model of the `SoftModem` Arduino library: a frequency-shift-keying soft modem for the
AVR. It sends a byte as tone bursts on one pin, one tone per bit. It receives bytes by
timing the analog-comparator crossings of the incoming signal on the 8-bit timer 2.

Receiving has two interrupt handlers.
- The **edge classifier** (`demodulate`) runs on every comparator crossing. It measures
  the interval since the previous crossing and drops noise. It smooths the interval,
  classifies it as a low or a high tone, and adds it to that tone's energy counter. When
  the receiver is idle and enough low-tone energy has built up, it arms the timer-2
  compare interrupt to sample the first bit.
- The **frame state machine** (`recv`) runs on each compare match, once per bit period.
  It decides the bit by comparing the two counters and steps through start, eight data
  bits (least significant first), parity and stop. On the stop bit it pushes the byte
  into a **ring buffer** of `N` slots, one of which always stays free. `available` and
  `read` serve the ring to the application.

Sending (`write`) hands thirteen bits to `modulate`: a carrier bit, a start bit, eight
data bits, an even-parity bit, a stop bit and a trailing bit. `modulate` toggles the pin
a fixed number of times per bit.

The model has two layers.
- Specification functions on values: `Classifier.OnEdge`, `Framer.OnBitTimer`,
  `RingQueue.Push`/`Pop` and `Transmit.FrameBits`.
- Two classes proved against them. `Modem.Board` holds what all instances share: the
  timer and comparator registers, the transmit pin, the build-time configuration and the
  static `activeObject` slot, an `Option`. `Modem.SoftModem` holds the fields of one
  instance, with the receive buffer as an `array`.

All `uint8_t` arithmetic is modelled as reduction modulo 256. The value of `TCNT2` read
by `begin` and `demodulate` is a parameter `t`. The constants derived from the baud rate,
tone frequencies and CPU clock are fields of `Settings.Config`. `Settings.Default8MHz`
gives the values of the default build on an 8 MHz part.

Behaviour worth knowing when reading the model:
- `write` emits thirteen bursts, the parts listed in the frame layout of SoftModem.h:37-42:
  carrier, start, eight data bits, parity, stop and trailing bit.
- `begin` does not disable the compare interrupt. It leaves `_recvBits` as it was.
- `modulate` starts its counter at `(uint8_t)(cycles * 2)` and uses a do-while loop. When
  that start value wraps to zero, the loop runs 256 times.
- The destructor calls `end()` unconditionally. Destroying an inactive instance therefore
  also detaches the active one.
- In the debug harness, the parity decisions are all high, although 0xA5, 0x77 and 0xEE
  have an even number of set bits. The receiver ignores the parity bit, so the frames
  still decode.

## Model

| member | source | states |
|---|---|---|
| Bytes.ShiftMask | SoftModem.cpp:267 | shifting the `uint8_t` mask of bit i left gives the mask of bit i+1, and zero after bit 7, which ends the data loop |
| Bytes.BitsAt | SoftModem.cpp:268 | entry i of the low k bits of x is the bit that the test against mask `1 << i` sees |
| Bytes.ShiftIn | SoftModem.cpp:171-174 | one data step: the top bit of the result is the decided bit and the low seven bits are the old value shifted right by one |
| Bytes.ShiftAllValue | SoftModem.cpp:169-176 | shifting bits into the top of the accumulator one by one gives the old value and the bits read as one wide number, shifted right once per bit |
| Bytes.ShiftEight | SoftModem.cpp:169-176 | after eight data steps the accumulator holds exactly the eight bits, LSB first, whatever it held before |
| Settings.Default8MHz | SoftModem.h:32-35 | the default build's constants form a valid configuration (a ring of 32 slots) |
| RingQueue.Ring.Count | SoftModem.cpp:227-230 | the index distance is below N, is zero exactly when head equals tail, and is N-1 exactly when the ring is full |
| RingQueue.Ring.Full | SoftModem.cpp:181-182 | the stop-bit guard: the tail moved on by one, modulo N, would meet the head; `Ring.Count` proves this is exactly a count of N-1 |
| RingQueue.Ring.Items | SoftModem.cpp:227-239 | the waiting bytes, oldest first, number as many as the index distance |
| RingQueue.Empty | SoftModem.cpp:60 | head and tail at zero make an empty ring |
| RingQueue.Push | SoftModem.cpp:181-185 | the stop-bit store keeps the ring well formed, its size and its head |
| RingQueue.PushItems | SoftModem.cpp:181-185 | a full ring is left unchanged (the byte is dropped); otherwise the byte joins the end of the queue |
| RingQueue.Pop | SoftModem.cpp:232-239 | -1 exactly when the ring is empty, and then nothing changes; otherwise the oldest byte, which leaves the queue, with the slots and the tail untouched |
| RingQueue.PushAllItems | SoftModem.cpp:181-185 | a sequence of pushes keeps the oldest bytes, up to N-1 of them, in arrival order, and drops the rest |
| RingQueue.PopAllItems | SoftModem.cpp:232-239 | k reads return the first k queued bytes in arrival order (FIFO) |
| Classifier.Elapsed | SoftModem.cpp:109-115 | the interval in ticks, computed by the overflow branch or the plain branch as the source does; `ElapsedWraps` proves the two agree |
| Classifier.ElapsedWraps | SoftModem.cpp:109-115 | both branches (timer overflowed or not) give the byte that carries the previous tick to `t` modulo 256 |
| Classifier.Smooth | SoftModem.cpp:120-121 | the new smoothed interval, stored modulo 256; `SmoothBounds` proves the store never wraps |
| Classifier.SmoothBounds | SoftModem.cpp:120-121 | the smoothed interval is at most 253, so the store never wraps, and it is within 2 below a quarter of three times the new interval plus the old smoothed one |
| Classifier.Classify | SoftModem.cpp:123-144 | low exactly when inside the low band; high exactly when outside the low band and inside the high band; a value in both bands is low |
| Classifier.FirstSample | SoftModem.cpp:134 | the first compare target, modulo 256; `FirstSampleWraps` states its meaning |
| Classifier.FirstSampleWraps | SoftModem.cpp:134 | the first compare target plus the low-tone energy is `t` plus one bit period, modulo 256 |
| Classifier.StartsFrame | SoftModem.cpp:126 | the start gate: the receiver is idle and the new low-tone total reaches the threshold; `StartGate` proves when it fires and what it sets |
| Classifier.DefaultBandsOverlap | SoftModem.cpp:123-126 | in the default build the value 40 lies in both tone bands and is classified low |
| Classifier.OnEdge | SoftModem.cpp:104-149 | an interval below the noise floor changes nothing; the frame state changes only from idle to start, with the threshold reached and the compare interrupt enabled; the compare interrupt is never disabled; `_recvBits` is kept or cleared |
| Classifier.Accept | SoftModem.cpp:120-145 | an accepted crossing stores `t` and the smoothed interval, and keeps the frame-state, interrupt and `_recvBits` guarantees of `OnEdge` |
| Classifier.OnEdgeAccepts | SoftModem.cpp:117-121 | an interval at or above the noise floor is accepted with its smoothed value |
| Classifier.AcceptStart | SoftModem.cpp:127-141 | the crossing that starts a frame sets every field: new counters, start state, `_highCount` and `_recvBits` zero, first compare target, flag cleared, interrupt enabled |
| Classifier.AcceptedEdge | SoftModem.cpp:120-146 | an accepted interval moves the time origin and the smoothed interval, and grows exactly the counter of its band by the smoothed value modulo 256, or neither on a miss |
| Classifier.StartGate | SoftModem.cpp:117-141 | the frame starts exactly when the interval is accepted, classified low, the receiver is idle and the new low total reaches the threshold; otherwise state and registers are left alone |
| Classifier.IdleBelowThreshold | SoftModem.cpp:126 | while idle, low-tone energy below the threshold never starts a frame |
| Classifier.EdgesKeepFrameState | SoftModem.cpp:104-149 | any number of crossings never moves a frame in progress, from idle at most starts one, and never disables the compare interrupt |
| Framer.Decide | SoftModem.cpp:161 | high exactly when the high-tone energy strictly exceeds the low-tone energy; a tie is low |
| Framer.Transition | SoftModem.cpp:162-187 | the frame ends exactly on a high start bit or on the stop bit, delivering `_recvBits` only on the stop bit; every other known state advances by one; data states shift the decided bit into `_recvBits` and every other state keeps it; an unknown state stays put |
| Framer.OnBitTimer | SoftModem.cpp:159-213 | a bit sample keeps the ring well formed and its size |
| Framer.BitTimerFrame | SoftModem.cpp:159-213 | a bit sample leaves the time origin, smoothing and compare target alone, zeroes at least one counter and changes neither otherwise, never enables the compare interrupt, and at most appends `_recvBits` to the queue |
| Framer.BitTimerSteps | SoftModem.cpp:159-213 | start+low goes to D0; start+high goes to idle; Dk shifts the bit in and advances; parity goes to stop; stop goes to idle and pushes; each end zeroes only `_lowCount` and disables the interrupt; in the data and parity states and when idle, only the decided counter is reset and the other keeps its value; the steps that go on keep the compare interrupt enable, and the start, parity and both end paths keep `_recvBits` |
| Framer.RunData | SoftModem.cpp:169-176 | the data states shift the decisions in one by one and reach the parity state |
| Framer.DecodeFrame | SoftModem.cpp:162-187 | a low start decision, eight data decisions, any parity and any stop decision deliver the byte whose bit i is the i-th data decision (LSB first) |
| Framer.FalseStart | SoftModem.cpp:162-167 | a high start decision ends the frame with nothing delivered |
| Framer.IdleAbsorbs | SoftModem.cpp:188-200 | outside a frame, bit samples change neither the state nor the assembled bits |
| Framer.TimersIdle | SoftModem.cpp:188-200 | once idle, further bit samples change neither the frame state nor the ring |
| Framer.TimersFollowRun | SoftModem.cpp:159-213 | the bit-sample interrupts follow the frame state machine on the decisions of their counters: the ring and the compare interrupt enable are untouched while the frame goes on, and at its end the receiver is idle and the ring has gained the delivered byte |
| Framer.DebugFrameA5 | SoftModem.cpp:345-358 | the first debug frame's decisions deliver 0xA5 |
| Framer.DebugFrame77 | SoftModem.cpp:362-375 | the second debug frame's decisions deliver 0x77 |
| Framer.DebugFrameEE | SoftModem.cpp:379-392 | the third debug frame's decisions deliver 0xEE |
| Transmit.DataBits | SoftModem.cpp:267-275 | the eight data bits of the byte, least significant first, as the mask loop visits them; `DataBitsAt` proves each is the bit under its mask |
| Transmit.Parity | SoftModem.cpp:264-276 | the parity bit `write` sends makes the number of ones among the data bits and itself even |
| Transmit.Cycles | SoftModem.cpp:245-250 | the number of tone cycles per bit: the high tone's for a high bit, the low tone's otherwise |
| Transmit.FrameBits | SoftModem.cpp:262-279 | thirteen bits: a high carrier, a low start, the data bits, the parity, a high stop and a high trailing bit |
| Transmit.DataBitsAt | SoftModem.cpp:267-268 | data bit i is the bit under the mask `1 << i` |
| Transmit.DataRoundTrip | SoftModem.cpp:267-275 | the data bits read back LSB first give the byte |
| Transmit.EvenParity | SoftModem.cpp:264-276 | the data bits and the parity bit hold an even number of ones |
| Transmit.DecodeTransmitted | SoftModem.cpp:162-187 | the receiver's state machine, given the transmitted start..stop bits as decisions from the start state, delivers the byte |
| Transmit.TransmittedEnqueued | SoftModem.cpp:159-221 | bit samples from the start state whose decisions are the transmitted bits leave the receiver idle and put the byte at the end of the ring unless it was full |
| Transmit.ToggleCount | SoftModem.cpp:243-259 | the do-while loop toggles an even number of times, between 2 and 256, and twice per cycle for 1..127 cycles |
| Transmit.BurstTogglesEven | SoftModem.cpp:252-259 | a run of bursts toggles the pin an even number of times, at least twice per burst, so the pin ends at its starting level |
| Modem.Board.constructor | SoftModem.cpp:12 | no instance is active, and the modelled interrupt enables and flags start cleared |
| Modem.Board.AnalogCompIsr | SoftModem.cpp:151-157 | with no active instance nothing changes; otherwise the active instance's receive state becomes `OnEdge` of the old one, TOV2 is clear, and the ring indices are unchanged (the array is outside the frame) |
| Modem.Board.TimerCompAIsr | SoftModem.cpp:215-225 | the compare target moves one bit period on from the old one, active instance or not; with an active instance its state and ring become `OnBitTimer` of the old ones |
| Modem.SoftModem.constructor | SoftModem.cpp:14-15 | a new instance has an empty ring of N slots |
| Modem.SoftModem.Begin | SoftModem.cpp:40-70 | idle, both ring indices zero (an empty ring), counters and smoothing zero, time origin `t`, this instance active, comparator interrupt enabled; everything else unchanged |
| Modem.SoftModem.End | SoftModem.cpp:72-77 | both interrupts disabled and no instance active, whatever the state before, so a second call changes nothing |
| Modem.SoftModem.Destroy | SoftModem.cpp:17-19 | the same effect as `End`, even when another instance is the active one |
| Modem.SoftModem.Demodulate | SoftModem.cpp:104-149 | the receive state and registers become `OnEdge` of the old ones and TOV2 is clear |
| Modem.SoftModem.AcceptInterval | SoftModem.cpp:120-145 | for an accepted interval the receive state becomes `Accept` of the old one with the smoothed interval |
| Modem.SoftModem.Recv | SoftModem.cpp:159-213 | the receive state and the ring become `OnBitTimer` of the old ones |
| Modem.SoftModem.Available | SoftModem.cpp:227-230 | the number of queued bytes, below N, zero exactly when head equals tail |
| Modem.SoftModem.Read | SoftModem.cpp:232-239 | the result and the new ring are `Pop` of the old ring |
| Modem.SoftModem.Modulate | SoftModem.cpp:241-260 | one bit is appended to the trace, the pin is toggled `ToggleCount` times, and it ends at its starting level |
| Modem.SoftModem.Write | SoftModem.cpp:262-279 | the trace grows by exactly `FrameBits(data)`, the toggles by that frame's bursts, and the pin ends at its starting level |

## Left out

- Pin, port and timer setup in `begin` (`pinMode`, `digitalWrite`, the port register and mask, `TCCR2A`/`TCCR2B`, the other `ACSR` bits): hardware I/O. Only the comparator and compare interrupt enables are modelled, as flags.
- Modem.SoftModem.Modulate: the half-period `delayMicroseconds` between toggles is not modelled, only the number of toggles and the bit trace, because real-time behaviour is out of reach of the model.
- The derivation of the constants from `F_CPU`, the baud rate, the tone frequencies and the clock-select `#if`, including the floating-point products converted to `uint8_t`. They are fields of `Settings.Config`, and only `1 <= N <= 256` is required of them.
- Interrupt preemption and concurrency. Each handler and each method runs to completion, with no interleaving.
- `TCNT2` and the timer running are not modelled. The tick read on entry is the parameter `t`, and the TOV2 flag is a field that only `demodulate` clears.
- The hardware clearing OCF2A when the compare vector runs is not modelled. `TimerCompAIsr` leaves that flag alone.
- The `SOFT_MODEM_DEBUG` code: `handleAnalogComp`, `demodulateTest`, `_errs`/`_ints`/`errs`/`ints` and the LED toggling. Framer.DebugFrameA5, Framer.DebugFrame77 and Framer.DebugFrameEE use the harness's frames as bit decisions, not as timed crossings through `demodulate`.
- The disabled history buffer and the `Print` base class that `write` is reached through.
- A full analog round trip through `demodulate` with realistic intervals. The round trip is proved at the bit-decision level (`Transmit.TransmittedEnqueued`).
- Modem.SoftModem.constructor: the C++ constructor leaves the fields as static storage leaves them; the model sets them to zero.
