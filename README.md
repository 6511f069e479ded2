# pwiCommon timers, sensors, pulse counter and list, in Dafny

This project models the core of pwiCommon, a small C++ helper library for
Arduino-class boards, and proves properties of the model:

- **Software timers** (`pwiTimer`). Each timer has a delay, a one-shot flag,
  a callback and a start stamp. A start stamp of 0 means "stopped". The main
  loop polls every timer through a static registry of at most 15 entries.
  Expiry is decided by wrap-around-safe 32-bit unsigned subtraction on the
  millisecond clock.
- **Sensors** (`pwiSensor`). Each sensor drives two repeating timers. The
  min timer sets the cadence at which the measure is taken and sent if it
  changed. The max timer is a heartbeat that sends the last measure anyway.
  The period setters cross-check each other and return error codes.
- **Pulse counter** (`pwiPulseSensor`). It counts falling or rising edges on
  an input pin, with a debounce window after each counted edge.
- **Linked list** (`pwiList`). A singly linked list whose head node may be
  statically allocated, with `add`, `iter` and `last`.

Layout:

- `uint.dfy` (module `Uint`): the 8- and 32-bit unsigned integers and
  wrapping `Add32`/`Sub32`.
- `pointers.dfy` (module `Pointers`): function pointers and `void *`
  elements, which are NULL or not.
- `timer_spec.dfy` (module `TimerSpec`): a timer as a value. Each timer
  operation is a function, with lemmas about polling a timer over a
  sequence of clock readings.
- `sensor_spec.dfy` (module `SensorSpec`): a sensor's two timers and its
  callbacks as a value, with the lemmas about cadence and heartbeat.
- `scheduler.dfy` (module `Scheduler`): the classes `Timer`, `Registry` and
  `Sensor`. Their fields are updated in place, and each method is proved
  against the functions of the two spec modules. Timer and sensor share a
  module because a timer's callback may be a sensor's static callback bound
  to that sensor.
- `pulse_sensor.dfy` (module `Pulse`): the debounced edge counter as a step
  function, and the class `PulseSensor` whose `LoopInput` is proved against
  it.
- `list.dfy` (module `LinkedList`): the class `PwiList`. The head keeps a
  ghost sequence of the chain's nodes.

The model has no clock and no pins. Every operation that reads `millis()`
takes the reading `now` as a parameter. `loopInput` takes the level that
`digitalRead` returns. The measure callback of a sensor is a boolean input
(`changed`). Callback invocations are counted in ghost fields: `sends` on a
sensor, `calls` on a timer. The timer's `label` field is called `name`,
because `label` is a Dafny keyword.

Where the code and its documentation disagree, the model follows the code.
The "## Findings" section below lists the disagreements. For each one, a
corrected definition sits beside the as-written one, with the documented
property proved about it. The classes themselves keep the behaviour as
written.

## Model

| member | source | states |
|---|---|---|
| Uint.Add32 | pwiPulseSensor.cpp:124 | unsigned 32-bit addition: the result is `(a + b) mod 2^32` |
| Uint.Sub32 | pwiTimer.cpp:259-261 | unsigned 32-bit subtraction: the result is `(a - b) mod 2^32`, never negative |
| Uint.SubAfterAdd | pwiTimer.cpp:259-261 | subtracting a start stamp from `start + k` gives back `k`, even when the addition wraps |
| TimerSpec.StartStamp | pwiTimer.cpp:304-308 | the recorded stamp is never 0, and equals the clock reading whenever that is not 0 |
| TimerSpec.Started | pwiTimer.cpp:301-312 | start/restart keep delay and one-shot flag; afterwards the timer runs iff it ran before or its delay is non-zero; with a non-zero delay the stamp is that of `now` (the reading, or 1 at reading 0); a zero delay changes nothing |
| TimerSpec.Stopped | pwiTimer.cpp:178-181 | after `stop` the timer is not running; delay and flag are kept |
| TimerSpec.Ticked | pwiTimer.cpp:256-288 | a timer that is not expired is unchanged; an expired one-shot timer is stopped; an expired repeating timer runs again, rebased on the start stamp of `now` |
| TimerSpec.WithDelay | pwiTimer.cpp:117-126 | `setDelay(d)` stores `d`; with `d == 0` the timer is stopped, otherwise it runs from the start stamp of `now` |
| TimerSpec.Remaining | pwiTimer.cpp:62-83 | 0 when the delay is 0; for a running, unexpired timer a value in `(0, delay]` such that remaining + elapsed == delay |
| TimerSpec.RemainingWhenOverdue | pwiTimer.cpp:62-69 | an overdue timer reports `2^32 - (elapsed - delay)`, which is more than its whole delay |
| TimerSpec.RemainingClamped | pwiTimer.cpp:62-83 | corrected `getRemaining`: never above the delay; 0 once expired; the whole delay while stopped; otherwise remaining + elapsed == delay |
| TimerSpec.RemainingWhenStopped | pwiTimer.cpp:62-69 | on a stopped timer with a delay, the stamp 0 is subtracted like any other: the result is `delay - now` mod 2^32 |
| TimerSpec.ExpiryAcrossWrap | pwiTimer.cpp:259-261 | for a running timer, polled `k` ms after its start stamp, it is expired iff `k >= delay`, wherever the stamp lies on the wrapping clock |
| TimerSpec.NotExpiredBeforeDelay | pwiTimer.cpp:301-312 | a timer started at `t0` is not expired while less than its delay has passed, unless `t0` and the reading are both 0 |
| TimerSpec.StartAtZeroExpiresInSameMillisecond | pwiTimer.cpp:304-308 | started at clock 0, the bumped stamp 1 makes the timer expired at reading 0, whatever its delay |
| TimerSpec.FlaggedStarted | pwiTimer.cpp:290-312 | corrected `objStart` with a running flag instead of the 0 sentinel: the stamp is the reading itself, and the timer is expired at a reading iff at least its delay has passed since the start, the reading 0 included |
| TimerSpec.FlaggedStartNeverEarly | pwiTimer.cpp:290-312 | the flagged timer started at any `t0` and polled `k` ms later is expired iff `k >= delay` |
| TimerSpec.ExpiredOnceDelayPassed | pwiTimer.cpp:258-261 | a timer started at a non-zero `t0` with a delay is expired once that delay has passed |
| TimerSpec.Run | pwiTimer.cpp:256-288 | polling a timer over a sequence of readings fires at most once per poll and keeps delay and one-shot flag |
| TimerSpec.StoppedNeverFires | pwiTimer.cpp:258 | a stopped timer fires no callback and stays unchanged, however often it is polled |
| TimerSpec.QuietUntilDue | pwiTimer.cpp:259-261 | a running timer polled only before its delay has elapsed fires nothing and keeps its state |
| TimerSpec.FiresAtFirstDueTick | pwiTimer.cpp:256-288 | polled until its delay has elapsed, a running timer fires exactly once, at the first due poll, and is then re-armed |
| TimerSpec.RunSplit | pwiTimer.cpp:256-288 | polling over two batches of readings is polling over their concatenation, both in final state and in number of firings |
| TimerSpec.OneShotFiresAtMostOnce | pwiTimer.cpp:282-283 | a one-shot timer fires at most once, however long it is polled |
| TimerSpec.StopPreventsFiring | pwiTimer.cpp:178-181 | after `stop`, no poll fires the callback |
| TimerSpec.RepeatingRebasesOnFire | pwiTimer.cpp:284-286 | a repeating timer that fired at `now` is not expired again until a whole delay later |
| SensorSpec.Send | pwiSensor.cpp:139-145 | with a send callback: exactly one more send, and the min timer is in the state `Started` gives for `now`; without one: nothing changes; the max timer and the callbacks are never touched |
| SensorSpec.MeasureAndSend | pwiSensor.cpp:121-130 | without a measure callback, or with no change and no force, nothing changes; otherwise the max timer is restarted at `now` whether or not a send callback is installed, and with one there is exactly one more send and the min timer is restarted too; the periods and callbacks are never changed |
| SensorSpec.ForcedMeasureSendsAndPushesBackHeartbeat | pwiSensor.cpp:121-130 | a forced measure sends once whether or not the value changed, restarts the min timer, and leaves the heartbeat quiet for a whole max period |
| SensorSpec.SetMaxPeriod | pwiSensor.cpp:167-179 | returns ERR01 iff `d != 0 && d < min delay`, and then nothing changes; on OK only the max timer changes: repeating, delay `d`, started (a zero `d` leaves its stamp as it was); never ERR02 |
| SensorSpec.SetMinPeriod | pwiSensor.cpp:199-211 | returns ERR02 iff the max delay is non-zero and below `d`, and then nothing changes; on OK only the min timer changes: repeating, delay `d`, started; never ERR01 |
| SensorSpec.SettersKeepConsistent | pwiSensor.cpp:167-211 | whatever they are given, the two setters keep "max period 0 or not below min period" |
| SensorSpec.Setup | pwiSensor.cpp:236-253 | the new min period is applied iff the old max period is 0 or not below it, the new max period iff it is 0 or not below the resulting min period; an applied period leaves its timer repeating with that delay and started at `now` (as `start` does, so unchanged stamp for a zero period); a period not applied leaves its timer unchanged; the callbacks are recorded and nothing is sent |
| SensorSpec.SetupKeepsConsistent | pwiSensor.cpp:236-253 | `setup` keeps that invariant too |
| SensorSpec.SetupOnFreshSensor | pwiSensor.cpp:247-248 | on a sensor with both delays 0, `setup` with a valid pair applies both periods |
| SensorSpec.HeartbeatTick | pwiTimer.cpp:256-288 | `objLoop` of the max timer with its callback `OnMaxPeriodCb` (pwiSensor.cpp:266-273): the max timer ends as a plain timer tick leaves it; when it was due and a send callback is installed, exactly one send and the min timer restarted at `now`; otherwise no send and the min timer untouched |
| SensorSpec.CadenceTick | pwiTimer.cpp:256-288 | `objLoop` of the min timer with its callback `OnMinPeriodCb` (pwiSensor.cpp:286-293): the min timer ends as a plain timer tick leaves it; when due with a measure callback and a change, the max timer is restarted at `now` and, with a send callback, exactly one send; otherwise the max timer is untouched and nothing is sent |
| SensorSpec.Cycle | pwiTimer.cpp:210-215 | one registry pass over the sensor's two timers, max timer first: at most two sends, none without a send callback; periods, one-shot flags and callbacks kept; nothing changes while neither timer is due |
| SensorSpec.TicksAgreeWithTimer | pwiTimer.cpp:278-286 | the restarts a sensor callback makes on its own timer are overridden: each sensor tick leaves its firing timer exactly as a plain timer tick |
| SensorSpec.UnchangedCadenceSendsNothing | pwiSensor.cpp:286-293 | a cadence tick whose measure reports no change sends nothing and leaves the heartbeat timer alone |
| SensorSpec.HeartbeatSendsAndRebasesCadence | pwiSensor.cpp:266-273 | a due heartbeat with a send callback sends exactly once and restarts the cadence timer |
| SensorSpec.ChangePushesBackHeartbeat | pwiSensor.cpp:125-128 | a change-triggered send at `t` restarts the max timer at `t`, so the next heartbeat comes no earlier than `t + max delay` |
| SensorSpec.Cycles | pwiTimer.cpp:210-215 | over any number of registry passes the send count never decreases and grows by at most two per pass (none without a send callback); the periods and callbacks stay as they were |
| SensorSpec.SilentSensorWaitsForHeartbeat | pwiSensor.cpp:121-130 | while the measure reports no change and the heartbeat is not due, no pass sends anything or touches the max timer |
| SensorSpec.ChangeAt2000DelaysHeartbeatTo7000 | pwiSensor.cpp:121-130 | with cadence 1000 and heartbeat 5000 from clock 1000, a change at 2000 is sent at once; the heartbeat is then not due at 6000 but due at 7000 and sends |
| SensorSpec.ZeroMaxPeriodSendsOnEveryPass | pwiSensor.cpp:167-179 | as written, `setMaxPeriod(0)` on a running max timer returns OK and leaves it expired at every reading; it then sends on every pass |
| SensorSpec.ZeroMinPeriodMeasuresOnEveryPass | pwiSensor.cpp:199-211 | as written, `setMinPeriod(0)` on a running min timer leaves it expired at every reading |
| SensorSpec.SetMaxPeriodDisabling | pwiSensor.cpp:147-166 | corrected `setMaxPeriod`: the same errors; a zero period stops the max timer and no heartbeat tick ever changes the sensor; otherwise as written |
| SensorSpec.SetMinPeriodDisabling | pwiSensor.cpp:181-198 | corrected `setMinPeriod`: the same errors; a zero period stops the min timer and no cadence tick ever changes the sensor; otherwise as written |
| SensorSpec.SetupDropsNewCadence | pwiSensor.cpp:247-248 | as written, reconfiguring (100, 200) with `setup(300, 1000)` keeps the min period 100 |
| SensorSpec.SetupInEitherOrder | pwiSensor.cpp:213-235 | corrected `setup`: from a consistent sensor, a valid pair is applied in full, the result is consistent, and the callbacks are recorded |
| Scheduler.Timer.constructor | pwiTimer.cpp:28-44 | a new timer is stopped, one-shot, with delay 0 and no callback; it is appended to the registry while there is room, and nothing else in the registry changes |
| Scheduler.Timer.GetDelay | pwiTimer.cpp:51-54 | returns the configured delay |
| Scheduler.Timer.GetRemaining | pwiTimer.cpp:62-83 | returns `Remaining` of the timer's state: 0 for delay 0, and remaining + elapsed == delay while running and unexpired |
| Scheduler.Timer.IsStarted | pwiTimer.cpp:90-93 | true iff the start stamp is non-zero |
| Scheduler.Timer.Restart | pwiTimer.cpp:101-104 | has the same effect as `Start`, the state `Started` gives |
| Scheduler.Timer.Start | pwiTimer.cpp:168-171 | with a non-zero delay the timer runs from the start stamp of `now`; with delay 0 the stamp is unchanged |
| Scheduler.Timer.Stop | pwiTimer.cpp:178-181 | the stamp becomes 0 and the timer is not started |
| Scheduler.Timer.SetDelay | pwiTimer.cpp:117-126 | the new state is `WithDelay` of the old one |
| Scheduler.Timer.Setup | pwiTimer.cpp:149-159 | delay, flag, callback and user data replaced; the label only when the new one is non-empty; the start stamp untouched |
| Scheduler.Timer.ObjLoop | pwiTimer.cpp:256-288 | the timer's new state is `Ticked` of the old; the callback runs exactly once iff the timer was expired and has one; a sensor callback moves its sensor by `CadenceTick`/`HeartbeatTick` |
| Scheduler.Timer.ObjStart | pwiTimer.cpp:301-312 | the new state is `Started` of the old one |
| Scheduler.Registry.Appended | pwiTimer.cpp:38-43 | registering keeps the earlier entries, never exceeds 15, and contains the new timer iff there was room (or it was already in) |
| Scheduler.Registry.constructor | pwiTimer.cpp:18-21 | an empty registry of capacity 15, all slots null |
| Scheduler.Registry.Loop | pwiTimer.cpp:210-215 | `objLoop` runs on each registered timer exactly once, in registration order; a timer no callback can restart ends in the `Ticked` state |
| Scheduler.Registry.Step | pwiTimer.cpp:212-214 | one pass of the loop body: records the timer, ticks it once, and leaves it in the `Ticked` state |
| Scheduler.Sensor.constructor | pwiSensor.cpp:42-48 | constructs (and registers) the max timer, then the min timer; stores id and pin; no callbacks, no user data |
| Scheduler.Sensor.Init | pwiSensor.cpp:53-62 | id, pin, type, both callbacks and user data cleared |
| Scheduler.Sensor.GetId | pwiSensor.cpp:71-74 | returns the id |
| Scheduler.Sensor.GetPin | pwiSensor.cpp:107-110 | returns the pin |
| Scheduler.Sensor.Send | pwiSensor.cpp:139-145 | moves the sensor as `SensorSpec.Send` does |
| Scheduler.Sensor.MeasureAndSend | pwiSensor.cpp:121-130 | moves the sensor as `SensorSpec.MeasureAndSend` does |
| Scheduler.Sensor.SetMaxPeriod | pwiSensor.cpp:167-179 | matches `SensorSpec.SetMaxPeriod`; on OK the max timer calls `OnMaxPeriodCb` on this sensor; on error the max timer is entirely unchanged |
| Scheduler.Sensor.SetMinPeriod | pwiSensor.cpp:199-211 | matches `SensorSpec.SetMinPeriod`; on OK the min timer calls `OnMinPeriodCb` on this sensor; on error the min timer is entirely unchanged |
| Scheduler.Sensor.Setup | pwiSensor.cpp:236-253 | matches `SensorSpec.Setup`: min period, then max period, then the callbacks and user data are recorded; each timer then holds its sensor callback bound to this sensor or the callback it held before, so a timer whose callback was bound stays bound |
| Scheduler.Sensor.OnMaxPeriodCb | pwiSensor.cpp:266-273 | the heartbeat callback is an unconditional `send` |
| Scheduler.Sensor.OnMinPeriodCb | pwiSensor.cpp:286-293 | the cadence callback is an unforced `measureAndSend` |
| Pulse.Sample | pwiPulseSensor.cpp:120-142 | inside the debounce window nothing changes; otherwise the level is recorded; a pulse is counted iff the window is over and the configured edge is seen; it returns true iff the count changed, which then grows by 1 mod 2^32 with `lastMs := now` |
| Pulse.Polls | pwiPulseSensor.cpp:120-142 | over any number of polls the counter grows by the number of counted pulses, mod 2^32 |
| Pulse.DebounceWindowSilent | pwiPulseSensor.cpp:124-125 | however often it is polled inside the debounce window, the sensor counts nothing and stays unchanged |
| Pulse.OtherEdgeNeverCounts | pwiPulseSensor.cpp:128-129 | an edge mode other than FALLING and RISING never counts a pulse |
| Pulse.DebounceSpacing | pwiPulseSensor.cpp:124-133 | after a pulse counted at `now`, every poll at a reading not above `Add32(now, lengthMs)` counts nothing and changes nothing; that sum wraps as in the code (see "## Findings") |
| Pulse.GateAcrossRollOver | pwiPulseSensor.cpp:124-125 | as written: 130 ms after a pulse counted at `0xFFFF_FFE2` (length 20) the gate is shut and the poll changes nothing; 1 ms after a pulse at `0xFFFF_FFFA` it is open |
| Pulse.SampleElapsed | pwiPulseSensor.cpp:120-142 | corrected `loopInput`: the pin is read iff more than `lengthMs` has passed since the last counted pulse, measured by wrapping subtraction, so `k` ms after that pulse the gate is open iff `k > lengthMs` wherever the clock wraps; counting and state as in `Sample` |
| Pulse.ElapsedGateAcrossRollOver | pwiPulseSensor.cpp:124-125 | with the corrected gate, the first reading above reads the pin and counts the falling edge, and the second keeps the gate shut |
| Pulse.NoTwoPulsesInARow | pwiPulseSensor.cpp:128-139 | the poll right after a counted pulse never counts another: the opposite transition must come first |
| Pulse.SteadyLevelNeverCounts | pwiPulseSensor.cpp:128-129 | reading the same level as last time never counts a pulse |
| Pulse.BouncyFallingEdges | pwiPulseSensor.cpp:120-142 | a falling-edge counter with a 20 ms window counts two pulses in a bouncy six-reading trace |
| Pulse.PulseSensor.constructor | pwiPulseSensor.cpp:20-23 | all runtime fields and the edge and pin cleared; the pulse length left as it was |
| Pulse.PulseSensor.WithPin | pwiPulseSensor.cpp:25-31 | id, input pin and edge stored; the runtime fields cleared |
| Pulse.PulseSensor.Init | pwiPulseSensor.cpp:33-42 | input pin, edge, last state, count and last time set to 0; the pulse length untouched |
| Pulse.PulseSensor.GetEdge | pwiPulseSensor.cpp:49-52 | returns the edge mode |
| Pulse.PulseSensor.GetInputPin | pwiPulseSensor.cpp:59-62 | returns the input pin |
| Pulse.PulseSensor.GetPulsesCount | pwiPulseSensor.cpp:69-72 | returns the pulse count |
| Pulse.PulseSensor.SetEdge | pwiPulseSensor.cpp:79-82 | stores the edge mode |
| Pulse.PulseSensor.SetInputPin | pwiPulseSensor.cpp:89-96 | stores the input pin |
| Pulse.PulseSensor.SetPulseLength | pwiPulseSensor.cpp:105-108 | stores the pulse length |
| Pulse.PulseSensor.LoopInput | pwiPulseSensor.cpp:120-142 | result and new state are those of `Sample`; the pin is read exactly when the debounce window is over |
| LinkedList.Present | pwiList.cpp:50-60 | the non-NULL elements in order: no longer than the input, every non-NULL element kept, nothing else |
| LinkedList.PresentAppend | pwiList.cpp:26-38 | the elements `iter` visits after an append are the earlier ones followed by the new one, if not NULL |
| LinkedList.PwiList.constructor | pwiList.cpp:12-16 | a fresh node has NULL data and no next node, and visits nothing |
| LinkedList.PwiList.Last | pwiList.cpp:69-75 | returns the tail of the chain, the node whose `next` is NULL |
| LinkedList.PwiList.LastIsUnique | pwiList.cpp:69-75 | the tail is the only node from the starting position on whose `next` is NULL |
| LinkedList.PwiList.Add | pwiList.cpp:26-38 | a NULL head takes `e` and no node is allocated; otherwise exactly one fresh node holding `e` is linked after the tail, the earlier nodes kept in order; `iter` then visits the earlier elements followed by `e` if it is not NULL |
| LinkedList.PwiList.Append | pwiList.cpp:33-37 | the chain grows by one fresh node at the end, holding `e` |
| LinkedList.PwiList.ChainSnoc | pwiList.cpp:34-35 | linking a node that is not yet in the chain after the tail gives a chain again |
| LinkedList.PwiList.DataOfSnoc | pwiList.cpp:35-36 | the data of the extended chain is the old data followed by the new node's |
| LinkedList.PwiList.Iter | pwiList.cpp:50-60 | with a NULL callback nothing is visited; otherwise the non-NULL data from this node to the tail, in order |

## Left out

- `Scheduler.Registry.Loop`: the state guarantee covers only the timers that no registered callback can restart. A sensor's two timers restart each other, and no member relates `Loop` to `SensorSpec.Cycle`. `Cycle` describes one pass on the value level under two assumptions: both timers are registered (at capacity the constructor registers neither or only the max timer, pwiTimer.cpp:41-43), and the max timer is registered first (member declaration order, pwiSensor.h:50-52).
- `Scheduler.Registry.Loop`: every `objLoop` of one pass sees the same clock reading `now`. In the code each `objLoop` reads `millis()` itself, so the readings can differ within a pass.
- `Scheduler.Timer.ObjLoop`: the rebase after the callback uses the same reading `now` as the expiry test. In the code `restart` reads `millis()` again (pwiTimer.cpp:284, 304), as do the restarts inside the sensor callbacks (pwiSensor.cpp:127, 143); a callback that takes k ms shifts every later period by k ms there, and not in the model.
- `Scheduler.Timer.ObjLoop`: a user callback (`UserCb`) has no effect in the model. Its body is user code, and anything it might do to timers or sensors is not modelled.
- `Scheduler.Timer.Setup`: the `debug` flag is not modelled. It only gates diagnostic printing.
- `Scheduler.Sensor.SetMaxPeriod` and `Scheduler.Sensor.SetMinPeriod`: the timer label is the constant prefix. The sensor id that `snprintf_P` appends is left out.
- All `Serial` output, `Dump`/`objDump`, and the PROGMEM strings: diagnostics only.
- `millis()` and `digitalRead`: they become the parameters `now` and `level`.
- The `user_data` pointer passed to callbacks: it is carried as a field and never interpreted.
- `pwiSensor::getMaxTimer`/`getMinTimer`: they only expose the two timer fields.
- The inherited sensor part of `pwiPulseSensor` (timers, callbacks, `setId`): the default `pwiSensor()` constructor it relies on is only declared in a header that no longer matches `pwiSensor.cpp`. The pulse constructor stores the id directly.
- `Pulse.PulseSensor.SetInputPin`: `digitalWrite`/`pinMode` on the pin are hardware I/O and are left out. Only the field store is kept.
- `Pulse.PulseSensor.constructor`: the uninitialised `length_ms` is whatever value the field held. The contract says nothing about it.
- `LinkedList.PwiList.Add`: the model assumes the allocation of the new node succeeds. On the target `new` returns NULL when the heap is exhausted, and pwiList.cpp:36 then writes through that NULL pointer; the model has no such path.
- `LinkedList.PwiList.Iter`: the callback invocations become the returned sequence of visited elements. `user_data` is not passed.
- `pwiTimer2` (interrupt-driven tick source), `pwiDallasSensor` (bus driver and float conversion), `toHex.cpp`, `pwiCommon.h` and `untilNow.h` are not part of this model.
- The arming API that `pwiSensor.h` still declares is not modelled: `pwiSensor.cpp` no longer implements it.

## Findings

| source | as written | input that shows it | evidently intended | confidence | as-written member | corrected member |
|---|---|---|---|---|---|---|
| pwiSensor.cpp:167-179 | `setMaxPeriod(0)` stores delay 0 and calls `start`, which refuses a zero delay, so a running max timer keeps its stamp | a sensor whose heartbeat is running, then `setMaxPeriod(0)`: every later pass finds the timer expired and sends | a zero period disables the max timer (documented at lines 155-156) | medium, not executed | SensorSpec.ZeroMaxPeriodSendsOnEveryPass | SensorSpec.SetMaxPeriodDisabling |
| pwiSensor.cpp:199-211 | `setMinPeriod(0)` stores delay 0 and calls `start`, which refuses a zero delay, so a running min timer keeps its stamp | a sensor whose cadence is running, then `setMinPeriod(0)`: every later pass finds the timer expired and measures | a zero period stops the min timer (documented at line 188) | medium, not executed | SensorSpec.ZeroMinPeriodMeasuresOnEveryPass | SensorSpec.SetMinPeriodDisabling |
| pwiSensor.cpp:247-248 | `setup` applies the min period before the max period, so the new min is checked against the old max | periods (100, 200), then `setup(300, 1000, ...)`: ERR02 is ignored and the min period stays 100 | a valid pair given to `setup` is applied in full | medium, not executed | SensorSpec.SetupDropsNewCadence | SensorSpec.SetupInEitherOrder |
| pwiTimer.cpp:62-69 | `getRemaining` computes `delay - elapsed` in unsigned arithmetic, which wraps once the timer is overdue | delay 100, started at 1000, read at 1201 before the loop has serviced it: returns 2^32 - 101 | 0 ms remaining once the delay has passed | low, not executed | TimerSpec.RemainingWhenOverdue | TimerSpec.RemainingClamped |
| pwiPulseSensor.cpp:124-125 | the debounce gate tests `now > last_ms + length_ms`, a sum that wraps, instead of the elapsed time `now - last_ms` | length 20, a pulse counted at `0xFFFF_FFE2`: at reading 100 (130 ms later) the pin is not read, and not until the clock passes `0xFFFF_FFF6` again; a pulse at `0xFFFF_FFFA` opens the gate 1 ms later | the pin is read once more than `length_ms` has passed, as the timers measure time | medium, not executed | Pulse.GateAcrossRollOver | Pulse.SampleElapsed |
| pwiTimer.cpp:301-312 | `objStart` bumps a start at reading 0 to the stamp 1, so the elapsed time at reading 0 is `0 - 1`, the largest value | delay 1000, `start()` at reading 0, polled at reading 0: the timer is expired and fires at once | the timer is "started from now" (lines 296-297) and fires only once its delay has passed | low, not executed | TimerSpec.StartAtZeroExpiresInSameMillisecond | TimerSpec.FlaggedStarted |
| pwiTimer.cpp:62-69 | on a stopped timer with a delay, `getRemaining` subtracts the sentinel stamp 0 like a real start | delay 100, stopped, read at reading 50: returns `100 - 50` = 50; read at 150: returns 2^32 - 50 | a stopped timer still has its whole delay to run (the "remaining count of ms", line 59) | low, not executed | TimerSpec.RemainingWhenStopped | TimerSpec.RemainingClamped |
