# Closet light: fade controller and tick handoff

A model of the control core of the closet-light firmware in
`src/closetlight.c` (an ATtiny program). A timer compare-A interrupt counts
fine interrupts and raises the one-byte flag `_tick` once per interval; the
`main` loop polls the flag, calls `setLightLevel(isDoorOpen())` and clears the
flag. `setLightLevel` paces itself with a step-delay counter, moves a fade
index one entry up (door reads open) or down (door reads closed) in a
brightness table, clamped at both ends, and drives the PWM output from the
table entry: the entry goes to `OCR0B`, and the `PWM_OUT` direction bit of
`DDRB` is set exactly when the entry is nonzero.

The model is functional. The statics of `setLightLevel` and the two registers
it writes are one immutable `Fade.Controller` record; `_tick`, the ISR's
`timerTick`, the controller and the loop's position make up
`Scheduler.State`. The ISR invocation and the main-loop step are two atomic
transitions over that state, and an `Event` sequence is an arbitrary
interleaving of them, with the `PINB` value each main-loop step sees.

The constants of `closetlight.h` (`FADE_STEP_MS`, `FADE_TABLE`,
`FADE_TABLE_LEN`, `TICKS_MS`, `DOOR_PIN`, `PWM_OUT`) are fields of
`Platform.Config`. Every result holds for every configuration that satisfies
`Config.Valid`: `1 <= FADE_STEP_MS <= 255` and `FADE_TABLE_LEN <= 256` so the
`uint8_t` statics hold them, `FADE_TABLE_LEN >= 1` with at least that many
table bytes, `0 <= TICKS_MS < 32767` so the post-increment of the 16-bit
`timerTick` cannot overflow, and pin numbers 0..7. `closetlight.h` is not part
of this model.

Files: `platform.dfy` (machine types, bit operations, configuration),
`arith.dfy` (quotient/remainder helpers), `sensor.dfy` (`isDoorOpen`),
`fade.dfy` (`setLightLevel` and its properties), `scheduler.dfy` (ISR, main
loop, interleavings).

Details kept as written in the code:

- The `++stepDelay` pre-increment of a `uint8_t` wraps modulo 256
  (`Platform.Increment`); the pacing invariant `stepDelay < FADE_STEP_MS`
  means it never reaches the wrap.
- The ISR compares with a post-increment, `timerTick++ < TICKS_MS`, so `_tick`
  is raised once every `TICKS_MS+1` invocations, not every `TICKS_MS`.
- The loop clears `_tick` only after `setLightLevel` returns, so the loop has
  a `Clearing` phase in which an interrupt can still run. A tick raised there
  is lost (`Scheduler.TickRaisedDuringStepIsLost`). A clear-then-step order
  would keep it.
- With the door held, the index reaches its end after `FADE_TABLE_LEN-1` fade
  steps, not `FADE_TABLE_LEN`.
- `isDoorOpen` returns 1 when the `DOOR_PIN` bit is high, although its comment
  says the pin is high when the door is closed. The loop model uses the
  reading as coded; see Findings.

## Model

| member | source | states |
|---|---|---|
| `Platform.Increment` | src/closetlight.c:90 | `++` on the 8-bit `stepDelay` yields `(x+1) mod 256`, and `x+1` below 255 |
| `Platform.SetBit` | src/closetlight.c:111 | setting the `PWM_OUT` bit of `DDRB` sets that bit and keeps every other bit |
| `Platform.ClearBit` | src/closetlight.c:113 | clearing the `PWM_OUT` bit of `DDRB` clears that bit and keeps every other bit |
| `Sensor.IsDoorOpen` | src/closetlight.c:70-78 | the result is 0 or 1, and it is 1 exactly when the `DOOR_PIN` bit of `PINB` is high |
| `Sensor.IsDoorOpenPerWiring` | src/closetlight.c:72-73 | the reading the comment describes: 1 exactly when the pin is low (pull-up, normally-open switch) |
| `Sensor.PolarityInverted` | src/closetlight.c:72-75 | on every `PINB` the coded reading is the opposite of the reading the comment describes |
| `Sensor.ClosedDoorReadsOpen` | src/closetlight.c:72-75 | concrete input: pin 3 high (door closed by the comment) reads as open |
| `Fade.Initial` | src/closetlight.c:85-87 | the power-on statics are 0, with `OCR0B` 0 and the PWM pin released; this state is gated and paced |
| `Fade.NextIndex` | src/closetlight.c:95-106 | a fade step sets the index to `min(ptr+1, LEN-1)` when the door state is nonzero and `max(ptr-1, 0)` when it is zero; it stays in the table |
| `Fade.Drive` | src/closetlight.c:109-115 | after a fade step `OCR0B == brightness == FADE_TABLE[ptr]`, the `PWM_OUT` bit is set iff brightness > 0, and no other `DDRB` bit changes |
| `Fade.SetLightLevel` | src/closetlight.c:83-116 | one call: the step delay stays below `FADE_STEP_MS`; an early return moves only the step delay; a fade step resets it, moves the index by one (clamped) and drives the output from the table; gating is preserved |
| `Fade.Feed` | src/closetlight.c:98-105 | for any sequence of door states the index stays in `[0, LEN-1]`, the step delay below `FADE_STEP_MS`, and the output gated |
| `Fade.PacingCount` | src/closetlight.c:86-92 | from a step delay `d` below `FADE_STEP_MS`, `n` calls give fade steps `k` and final delay `e` with `k * FADE_STEP_MS + e == d + n` |
| `Fade.Pacing` | src/closetlight.c:86-92 | `n` calls from step delay `d` perform exactly `(d+n) / FADE_STEP_MS` fade steps and leave the delay at `(d+n) mod FADE_STEP_MS` |
| `Fade.OneStepPerWindow` | src/closetlight.c:90-92 | any `FADE_STEP_MS` consecutive calls hold exactly one fade step; fewer calls hold at most one |
| `Fade.IndexMovesAtMostSteps` | src/closetlight.c:95-106 | the index moves by at most one per fade step and never without one |
| `Fade.HeldDoorTrajectory` | src/closetlight.c:95-106 | with the door held open the index after `k` fade steps is `min(ptr+k, LEN-1)`; held closed it is `max(ptr-k, 0)`; after a fade step brightness is the table entry |
| `Fade.BrightnessFollowsTable` | src/closetlight.c:109 | once brightness equals the table entry at the index, every later call keeps it so |
| `Fade.StaysAtEnd` | src/closetlight.c:98-105 | at `LEN-1` with the door held open, or at 0 with it held closed, the index no longer moves |
| `Fade.Converges` | src/closetlight.c:95-115 | `LEN-1` fade steps with the door held open reach `LEN-1` (closed: 0) and stay there; the output then shows that table entry, with the pin driven iff it is nonzero |
| `Fade.OpenThenCloseScenario` | src/closetlight.c:83-116 | eight-entry table, `FADE_STEP_MS` 1: seven open calls reach index 7 with the pin driven; seven closed calls return to 0 with the pin released |
| `Scheduler.Start` | src/closetlight.c:5 | the power-on state (`_tick` 0, `timerTick` 0, initial controller) satisfies the invariant with no tick pending |
| `Scheduler.Isr` | src/closetlight.c:144-153 | the ISR sets `_tick` only to 1, never to 0, and touches no controller state; `timerTick` goes to `(timerTick+1) mod (TICKS_MS+1)` and the flag is raised exactly when that wraps to 0 |
| `Scheduler.MainStep` | src/closetlight.c:127-138 | with `_tick` 0 the loop changes nothing; with `_tick` set it calls `setLightLevel(isDoorOpen())` once and then a separate step clears `_tick`; `timerTick` is never touched |
| `Scheduler.LoopIteration` | src/closetlight.c:127-138 | an uninterrupted iteration with `_tick` 0 is a no-op; with `_tick` set it calls `setLightLevel` exactly once with 1 iff the `DOOR_PIN` bit is set, and leaves `_tick` 0 |
| `Scheduler.Step` | src/closetlight.c:127-153 | each ISR or loop step preserves the reachable-state invariant, and only a tick-consuming loop step changes the controller |
| `Scheduler.Run` | src/closetlight.c:127-153 | every interleaving keeps the invariant: `_tick` in {0,1} and set while awaiting its clear, `timerTick <= TICKS_MS`, step delay below `FADE_STEP_MS`, index in the table, output gated |
| `Scheduler.RunFeedsController` | src/closetlight.c:131-137 | under any interleaving the controller equals `setLightLevel` applied to the door states read at the tick-consuming steps; the door at any other moment has no effect |
| `Scheduler.NoMoreCallsThanRaises` | src/closetlight.c:131-152 | calls of `setLightLevel` never outnumber the ISR's raises of `_tick` (plus one already pending): ticks coalesce, they never accumulate |
| `Scheduler.IsrCadenceCount` | src/closetlight.c:146-152 | under any interleaving, raises `k` and final `timerTick` `e` satisfy `k * (TICKS_MS+1) + e == t + n` for `n` ISR invocations from `timerTick` `t` |
| `Scheduler.IsrCadence` | src/closetlight.c:146-152 | under any interleaving, `n` ISR invocations raise `_tick` exactly `(t+n) / (TICKS_MS+1)` times and leave `timerTick` at `(t+n) mod (TICKS_MS+1)` |
| `Scheduler.FadeBoundedByRaises` | src/closetlight.c:83-153 | under any interleaving the index moves by at most `(stepDelay + raises + pending) / FADE_STEP_MS` |
| `Scheduler.Clamped` | src/closetlight.c:83-153 | from power-on, after any interleaving and any door inputs, the index is in `[0, LEN-1]`, the step delay below `FADE_STEP_MS`, `timerTick` in `[0, TICKS_MS]`, and `OCR0B` equals brightness with the pin driven iff it is nonzero |
| `Scheduler.TickRaisedDuringStepIsLost` | src/closetlight.c:135-137 | an ISR raise between the return of `setLightLevel` and `_tick = 0` is cleared and leaves no pending tick |

## Findings

| source | as written | input that shows it | evidently intended | confidence | as-written member | corrected member |
|---|---|---|---|---|---|---|
| src/closetlight.c:72-75 | `isDoorOpen` returns 1 when the `DOOR_PIN` bit of `PINB` is high | `DOOR_PIN` 3, `PINB` 0x08: the comment says this pin level means the door is closed, and the function returns 1 (open) | return 1 when the pin is low, as the comment's pull-up and normally-open wiring implies | low, not executed: the board wiring is not visible, so the comment may be the stale part | `Sensor.ClosedDoorReadsOpen` | `Sensor.IsDoorOpenPerWiring` |

The corrected reading is proved to be the complement of the coded one
(`Sensor.PolarityInverted`). The loop model keeps the coded reading, because
nothing in the source settles which half is wrong. All controller results are
stated over the door-state argument of `setLightLevel`, so they hold under
either polarity.

## Left out

- `configureDoorSensor`, `configurePWM`, `init` (src/closetlight.c:10-65): one-time register setup with no state-machine content. `Fade.Initial` takes `DDRB` as the setup leaves it and keeps only `OCR0B = 0` and the released PWM pin. `DDRB &= (1<<DOOR_PIN)` at line 13 clears every other direction bit, which looks unintended. It is setup code and is not modelled.
- `wdt_reset`, `sei`, the `PORTB` status LED (lines 64, 125, 130): hardware side effects that touch no modelled state.
- Interrupt preemption and `volatile`: the two contexts are modelled as interleaved atomic steps, not as a concurrency model. This granularity loses nothing. The ISR touches only `_tick` and `timerTick`. The loop reads `_tick` once before the call and writes it once after, and both points are step boundaries in the model.
- `pgm_read_byte` and flash storage (line 109): modelled as plain indexing into the table.
- Physical timing, the clock and the PWM frequency (line 33): depend on the clock and on constants that are not part of this model.
- Headers with `FADE_STEP_MS > 255` are excluded by `Config.Valid`. With such a header the wrapping `uint8_t` step delay would never reach the threshold, and the light would never fade.
