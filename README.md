# fz-counter: the counter state machine in Dafny

This project models the core of a small counter application. The counter goes up and down on button presses, can give vibration feedback, and shows its value full-screen. The whole program is one event loop (`counter()` in `counter.c`). The loop takes input events from a queue and changes three fields of the application record:

- `count`, kept in 0..9999 (`MAX_COUNT`);
- `vibro`, whether vibration feedback is on;
- `pressed`, a latch that is set and never read.

For each event the loop sends notifications (red blink, vibration on and off) and blocking delays, and it asks the view port to redraw.

The model has four modules:

- `Input` (Input.dfy): input events and `input_callback`, which forwards only short and long presses into the queue.
- `Decimal` (Decimal.dfy): the text the render callback draws, meaning `"%d"` formatting of the count written by `snprintf` into an 8-byte buffer. The proofs show that every count in range fits, has no leading zero and reads back as the count.
- `Machine` (Machine.dfy): the state machine as values. `Step` is one pass of the loop's switch on event type and key. `RunSpec` is the loop over a queue: it stops at the first short Back and requests one redraw after every other event. The lemmas for the properties are here too.
- `App` (App.dfy): the record as a class `Counter` with fields `count`, `pressed` and `vibro`.
  - `Vibro` covers the pulse helper and `Render` the text the render callback draws.
  - `HandleEvent` mirrors the switch, updating the fields in place, and is proved to refine `Step`.
  - `Run` is the `while` loop over the queue and is proved to refine `RunSpec`.
  - `CounterApp` is the program entry: it builds the record, queues the host's events, runs the loop and returns 0.

Effects are recorded in a trace of `Cmd` values:

- `Blink` is `sequence_blink_red_100`.
- `VibroOn` is `sequence_set_vibro_on`.
- `VibroOff` is `sequence_reset_vibro`.
- `Delay(ms)` is `furi_delay_ms`.
- `Redraw` is `view_port_update`.

Redraws sit in the trace where the loop issues them, so the trace also records their order relative to the feedback.

Two points of `counter.c` that the model keeps:

- The record has a third field, `pressed` (counter.c:25). It is set by every accepted short Up/Ok/Down (counter.c:101, counter.c:112) and never cleared or read. `init()` leaves it uninitialised (counter.c:63-66), so its starting value is a parameter.
- The loop's `if`/`else if` on the event type (counter.c:96, counter.c:130) has no branch for an event that is neither short nor long, and such an event would still be followed by a redraw (counter.c:154). The input callback never queues one (counter.c:42-43). `Step` gives it no state change and no feedback, and `RunSpec` follows it with a redraw.

## Model

| member | source | states |
|---|---|---|
| Input.InputCallback | counter.c:40-45 | the queue grows by exactly the event when it is a short or long press and is unchanged otherwise; the old queue is always a prefix |
| Input.Enqueued | counter.c:40-45 | the queue built from a raw stream holds only short and long presses, each taken from the stream, and is no longer than the stream |
| Input.EnqueuedAppend | counter.c:42-43 | queuing two bursts one after the other gives the forwarded events of each, in order |
| Input.ForwardedEventsQueued | counter.c:42-43 | every short or long press of the raw stream reaches the queue |
| Input.EnqueuedIdempotent | counter.c:42-43 | filtering a queue again changes nothing, because it holds only forwarded events |
| Decimal.Digits | counter.c:55-56 | the decimal digits of a number: at least one, all digits, and the first is '0' exactly when the number is 0, which is then the only digit (no leading zeros) |
| Decimal.FormatDecimal | counter.c:56 | "%d" of an int: digits for a non-negative value, a minus sign followed by digits for a negative one |
| Decimal.Snprintf | counter.c:55-56 | what snprintf stores is a prefix of the formatted text shorter than the buffer: all of it when it fits, and exactly its first size - 1 characters when it does not |
| Decimal.FormatDecimalValue | counter.c:56 | "%d" denotes its argument: a non-negative value reads back as itself with no leading zero; a negative one is '-' followed by the digits of its magnitude, with no leading zero |
| Decimal.ValueOfDigits | counter.c:55-56 | reading the rendered digits back gives the number |
| Decimal.DigitsInjective | counter.c:55-56 | distinct counts render as distinct strings |
| Decimal.DigitsFit | counter.c:55-56 | a number below 10^k renders in at most k digits |
| Decimal.RenderExact | counter.c:55-56 | every count in [0, 9999] renders in at most 4 digits, fits the 8-byte buffer with its NUL untruncated, has no leading zero and reads back as the count |
| Machine.Init | counter.c:65-66 | the initial record has count 0, vibration off, and is in range |
| Machine.Pulse | counter.c:79-85 | the pulse helper emits something exactly when vibration is enabled, and then it is on, delay(20), off |
| Machine.BoundFeedback | counter.c:104-108 | at a bound the feedback is blink, delay(200), then the conditional pulse |
| Machine.Step | counter.c:96-149 | one event keeps the count in range; the loop continues exactly unless the event is a short Back, which changes nothing and emits nothing; vibration flips exactly on a long Ok; the count moves by at most one except on a long Back; the latch is set exactly by a short press that moves the count; events that are neither short nor long do nothing |
| Machine.RunSpec | counter.c:92-155 | the loop consumes at most the queued events, and all of them unless it stopped |
| Machine.ShortIncrement | counter.c:98-109 | short Up/Ok below 9999 adds exactly 1, sets the latch and emits the conditional pulse; at 9999 it leaves the state unchanged and emits blink, delay(200), conditional pulse |
| Machine.ShortDecrement | counter.c:110-120 | short Down above 0 subtracts exactly 1, sets the latch and emits the conditional pulse; at 0 it leaves the state unchanged and emits blink, delay(200), conditional pulse |
| Machine.DecrementUndoesIncrement | counter.c:98-120 | below the bound a short Down undoes a short Up or Ok, apart from the latch |
| Machine.LongBackResets | counter.c:132-134 | long Back sets the count to 0 from any value, keeps the vibration flag, emits nothing, and applying it twice equals applying it once |
| Machine.LongOkToggles | counter.c:135-139 | long Ok negates the flag, leaves the count, always emits on, delay(20), off whatever the new value, and two in a row restore the state's flag and count |
| Machine.ShortBackTerminates | counter.c:121-123 | short Back ends the loop with the state unchanged and no feedback |
| Machine.NoOpKeys | counter.c:124-145 | short Left/Right and long Left/Right/Up/Down change neither state nor trace |
| Machine.RunInRange | counter.c:92-155 | from a state in range, the count is in [0, 9999] after any sequence of events |
| Machine.EveryObservedStateInRange | counter.c:88-155 | from the initial record, the state after every prefix of the queue (what any render can observe) is in range |
| Machine.RunRedraws | counter.c:151-154 | exactly one redraw per handled event, except the short Back that ends the loop |
| Machine.RunStopsAtFirstBack | counter.c:121-153 | with a first short Back at position k, the loop consumes exactly k+1 events and ends with the state and trace of the first k |
| Machine.RunEndsOnShortBack | counter.c:121-153 | a loop that stopped did so on a short Back, and on the first one in the queue |
| Machine.RunConsumesAll | counter.c:92-155 | without a short Back every queued event is handled and the loop does not stop |
| Machine.RunIgnoresRest | counter.c:151-153 | events queued after the terminating short Back have no effect |
| Machine.RunAppend | counter.c:92-155 | running a queue that does not stop and then a second one is running their concatenation |
| Machine.RepeatedUpsSaturate | counter.c:98-109 | n short Ups give min(count + n, 9999), keep the flag, and blink once for each Up past the bound |
| Machine.RepeatedDownsSaturate | counter.c:110-120 | n short Downs give max(count - n, 0), keep the flag, and blink once for each Down below zero |
| Machine.StepBlinks | counter.c:104-119 | a short Up or Down blinks once exactly when it is rejected at a bound |
| Machine.UpAtBoundRejected | counter.c:98-154 | at 9999 a short Up leaves the state as it is and records blink, delay(200), the conditional pulse and a redraw |
| Machine.ScenarioUpDownReset | counter.c:65-134 | from the initial record: 3 Ups give 3 with no blink; 5 Downs then give 0 with two blinks; long Back keeps 0; one Up gives 1 |
| Machine.ResetThenUp | counter.c:98-134 | a long Back followed by a short Up leaves the count at 1 whatever it was, and the loop continues |
| Machine.ScenarioUpperBound | counter.c:98-108 | from the initial record 9999 Ups reach 9999 with no blink; 10000 Ups stay at 9999 with exactly one blink |
| Machine.ScenarioVibration | counter.c:79-139 | after toggling vibration on, an Up pulses; after toggling it off, an Up does not; each toggle emits its own pulse |
| App.Counter.constructor | counter.c:62-66 | a new record holds count 0 and vibration off, and is in range |
| App.Counter.Vibro | counter.c:79-85 | the pulse helper's commands are the on, delay(20), off pulse exactly when the flag is set |
| App.Counter.HandleEvent | counter.c:94-150 | updating the fields in place gives the new state, feedback and `processing` flag of `Step`, and keeps the count in range |
| App.Counter.Run | counter.c:92-155 | the in-place loop ends with the state, trace (redraws included), number of events consumed and termination flag of `RunSpec`, and keeps the count in range |
| App.Counter.Render | counter.c:48-59 | the drawn text is the count formatted into the 8-byte buffer; for a count in range it is exactly the count's decimal digits and reads back as the count |
| App.CounterApp | counter.c:88-159 | the program over a raw input stream behaves as `RunSpec` from the initial record on the filtered queue, ends with the count in range, and returns 0 |

## Left out

- The mutex and the concurrency between the render callback and the input loop (counter.c:50, 58, 94, 150). The model is sequential, and each handled event is atomic. Any render sees the state after some prefix of the queue, which `EveryObservedStateInRange` covers.
- Real time. `furi_delay_ms` appears only as `Delay(ms)` entries in the trace.
- Canvas, font, view port and GUI calls (counter.c:51-57, 68-74). These are foreign library calls. Only the drawn text and the redraw requests are kept.
- The message queue. Its capacity of 8 and what `furi_message_queue_put` with a zero timeout does when the queue is full are library behaviour, not visible in this code. The model treats the queue as unbounded, so the filter is applied to the whole raw stream before the loop runs. The blocking receive becomes a finite sequence: when it runs out without a short Back, `terminated` is false, where the real loop would wait forever.
- Allocation and teardown (`init()` allocations and record opens, `state_free`, counter.c:30-37, 63-71) and `furi_check` aborts. These have no logical content beyond the initial field values.
- `count` is a C `int`. It is modelled as an unbounded integer because every update is guarded to stay within 0..9999, so no overflow can occur.
