# Auto-top-off controller: a Dafny model

This project models the control core of an aquarium auto-top-off controller for an ATtiny85. Two water-level sensors decide, on every pass of the Arduino `loop()`, whether the refill valve is open and whether the alarm sounds. The alarm is an LED plus a buzzer that beeps in a fixed pattern. The repository holds several versions of the same controller:

- the sketch `src/main/main.cpp`: a 16 s debounced valve (`SwitchableWithDelay`), a `startBuzzing` buzzer and `WaterLevelSensor`s;
- the sketch `src/main.cpp`: plain `Switchable`s and a `setOn`/`setOff`/`loop` buzzer;
- the reusable headers `include/Buzzer.h`, `include/Valve.h`, `include/AlarmLed.h` and `include/Sensor.h`;
- the host-side test double `test/buzzerTest.cpp`, whose buzzer reports an out-value instead of driving a pin.

The hardware boundary becomes data:

- Each output pin is a `level` field of the object that drives it.
- For idempotent outputs, a `writes` field counts the `digitalWrite` calls.
- A sensor pin is a `Level` argument.
- `millis()` is a `now: U32` argument. Elapsed time is the unsigned 32-bit difference `(now - last) mod 2^32`.

Layout, one module per file:

- `Clock` (`clock.dfy`): 32-bit clock readings, wrap-safe `Elapsed`, pin levels.
- `OnOff` (`on_off.dfy`): the idempotent output shared by `Switchable` and `AlarmLed`.
- `Dwell` (`dwell.dfy`): the debounced switch, with both of the repository's dwell gates and a corrected flag-based gate.
- `Pattern` (`pattern.dfy`): the buzzer's timing state and pin, and the cycle invariant.
- `Sensors` (`sensors.dfy`): the two sensor predicates and the readings of one tick.
- `AlarmLedH`, `ValveH`, `BuzzerH`: the classes of the three headers.
- `MainSketch`, `TopSketch`: the classes and the tick of each sketch, plus the tick's decision-table lemmas.
- `BuzzerTest`: the test double, its reports and its 30-second driver run.

Each class method is proved to leave its object in the state a specification function gives for the old state. The properties themselves are proved about those functions.

Behaviour of the code that the model keeps as it is:

- `Valve` has no first-change exception: with its stamp starting at 0, it first opens only once the clock reads `delayMs` (`Dwell.ValveFirstChangeWaits`).
- The overflow branch of `src/main/main.cpp` calls `switchOffNow`, which bypasses the dwell and writes the pin on every overflow tick (`MainSketch.OverflowCutsOffValve`).
- The buzzer's level is read back from the pin (`!digitalRead`), so it is a field here. `Pattern.RunLoopKeepsPhase` ties it to the toggle count.
- Durations are any `uint32_t`. Lemmas that need a positive first interval say so.
- A poll that finds several intervals elapsed advances only one (`Pattern.MissedIntervalsNotCaughtUp`). This single-step behaviour is kept, as in every version of the code.

## Model

| member | source | states |
|---|---|---|
| `Clock.Elapsed` | include/Valve.h:27 | the unsigned difference is the unique 32-bit value that, added to the earlier reading modulo 2^32, gives the later one; it is the plain difference when no wrap occurred |
| `Clock.ElapsedIsTrueDuration` | include/Buzzer.h:37 | wrap safety: for any true duration below 2^32 the unsigned difference of the two clock readings is that duration, even across a wrap |
| `Clock.Toggle` | include/Buzzer.h:38 | `!digitalRead(pin)` yields the other level |
| `OnOff.Switch` | src/main/main.cpp:73-85 | after a request the output is in the requested state, agrees with its pin, and exactly one write was made iff the state changed |
| `OnOff.SwitchIdempotent` | include/AlarmLed.h:20-32 | a second identical request performs no write and changes nothing |
| `OnOff.Run` | src/main.cpp:36-48 | over any request sequence the remembered state equals the last level written, and it is the last request's state |
| `OnOff.WritesCountChanges` | src/main.cpp:36-48 | over any request sequence the pin is written exactly as many times as the state changes |
| `Dwell.SwitchNow` | src/main/main.cpp:106-116 | `switchOnNow`/`switchOffNow` always set the state, write the pin once and restamp the last change with `now` |
| `Dwell.Request` | include/Valve.h:25-43 | a request commits iff the state differs and the gate is open; a commit is one write stamped `now`; a redundant or dropped request changes nothing |
| `Dwell.Gated` | src/main/main.cpp:118-132 | with either repository gate, a change commits iff the state differs and the gate is open (for `SwitchableWithDelay`: stamp 0 or `delayMs` elapsed; for `Valve`: `delayMs` elapsed); a dropped request leaves every field and the pin unchanged |
| `Dwell.ValveFirstChangeWaits` | include/Valve.h:10-27 | from construction the valve's first opening commits iff the clock reads at least `delayMs` |
| `Dwell.ValveWithoutDelayIsPlainSwitch` | include/Valve.h:27 | with `delayMs = 0` the valve behaves exactly as the idempotent output (state, pin and write count) |
| `Dwell.HoldsWithinDwell` | include/Valve.h:25-43 | debounce: after a change stamped t, every sequence of requests made less than `delayMs` after t leaves the switch unchanged (for `SwitchableWithDelay` only when t is not 0) |
| `Dwell.SentinelSkipsDwell` | src/main/main.cpp:120 | a change committed at clock reading 0 leaves stamp 0, and the opposite request 1 ms later commits despite a 16 000 ms dwell |
| `Dwell.FlaggedRequest` | src/main/main.cpp:118-132 | corrected gate: a change commits iff the state differs and either no change has happened yet or `delayMs` has elapsed; a commit sets the flag, stamps `now` and writes once; otherwise nothing changes |
| `Dwell.FlaggedFirstChangeIsFree` | src/main/main.cpp:120 | with the flag, the first request for a change commits at any clock reading, 0 included |
| `Dwell.FlaggedHoldsWithinDwell` | src/main/main.cpp:126-132 | with the flag, after any change every sequence of requests within `delayMs` of it drops, whatever the stamp |
| `Dwell.FlaggedKeepsDwellAtZero` | src/main/main.cpp:94-132 | the scenario of `SentinelSkipsDwell` replayed with the flag: the second request drops |
| `Pattern.Activate` | test/buzzerTest.cpp:20-28 | activation starts an idle buzzer with a non-empty table at index 0 stamped `now`, never restarts a buzzing one, never starts with N = 0, and keeps `index < N` |
| `Pattern.Advance` | test/buzzerTest.cpp:38-49 | a poll advances the index by one modulo N and restamps `now` iff the wrap-safe elapsed time reaches the current duration, else changes nothing; at most one step; `index < N` kept |
| `Pattern.Deactivate` | test/buzzerTest.cpp:30-36 | deactivation clears the flag wherever the cycle stands, and is a no-op when idle |
| `Pattern.SetOn` | src/main.cpp:73-80 | activation from idle with N > 0 drives the pin HIGH; a repeated `setOn` leaves everything unchanged; the pin is LOW whenever idle |
| `Pattern.Loop` | src/main.cpp:89-97 | a poll toggles the pin iff the interval is due, together with the index step; no-op while idle; invariants kept |
| `Pattern.SetOff` | src/main.cpp:82-87 | the pin is LOW and the flag clear after the call, whatever the cycle position; a no-op when already stopped |
| `Pattern.StartBuzzingIsSetOnThenLoop` | src/main/main.cpp:32-47 | `startBuzzing` while buzzing is exactly one poll; activating with a positive first interval does not toggle in the same call |
| `Pattern.ActivationStartsPhase` | include/Buzzer.h:29-34 | activation leaves the buzzer in phase with zero due polls counted: index 0, pin HIGH |
| `Pattern.RunLoopKeepsPhase` | include/Buzzer.h:36-42 | cycle invariant: after K due polls (K toggles) since activation, index = K mod N and the pin is HIGH iff K is even |
| `Pattern.MissedIntervalsNotCaughtUp` | include/Buzzer.h:37-41 | polled 5000 ms after activation (five intervals, 3600 ms, elapsed), the buzzer advances only to index 1 and toggles once |
| `BuzzerTest.ReportOf` | test/buzzerTest.cpp:41-47 | the test double reports only on a due poll, and its out-value is 1 iff the current index is even |
| `BuzzerTest.ReportIsEndingLevel` | test/buzzerTest.cpp:42 | for an even-length table the reported out-value is the level of the interval that just ended: 1 exactly when the toggle takes the pin LOW |
| `Sensors.ExactlyOneReading` | include/Sensor.h:19-25 | `isSensingWater` holds iff the level is HIGH, `isNotSensingWater` iff LOW, and exactly one of them holds; both depend on the level alone |
| `AlarmLedH.AlarmLed.constructor` | include/AlarmLed.h:8-11 | the LED starts unlit, with no pin write |
| `AlarmLedH.AlarmLed.TurnOn` | include/AlarmLed.h:20-25 | the new state is the idempotent switch-on of the old one: HIGH written and `isLit` set only if unlit |
| `AlarmLedH.AlarmLed.TurnOff` | include/AlarmLed.h:27-32 | the new state is the idempotent switch-off of the old one: LOW written and `isLit` cleared only if lit |
| `ValveH.Valve.constructor` | include/Valve.h:10-16 | closed, last change stamped 0, given delay |
| `ValveH.Valve.OpenValve` | include/Valve.h:25-33 | the new state is the dwell-gated open of the old one, with no first-change exception |
| `ValveH.Valve.CloseValve` | include/Valve.h:35-43 | the new state is the dwell-gated close of the old one, with no first-change exception |
| `BuzzerH.Buzzer.constructor` | include/Buzzer.h:11-19 | idle at index 0 with the pin LOW, N < 256 |
| `BuzzerH.Buzzer.StartBuzzing` | include/Buzzer.h:28-43 | the new state is activation followed by one poll at the same reading; `index < N` kept |
| `BuzzerH.Buzzer.StopBuzzing` | include/Buzzer.h:45-50 | the new state is the immediate cut-off: flag clear, pin LOW |
| `MainSketch.Switchable.constructor` | src/main/main.cpp:61-64 | off, with no pin write |
| `MainSketch.Switchable.SwitchOn` | src/main/main.cpp:73-78 | the new state is the idempotent switch-on of the old one |
| `MainSketch.Switchable.SwitchOff` | src/main/main.cpp:80-85 | the new state is the idempotent switch-off of the old one |
| `MainSketch.SwitchableWithDelay.constructor` | src/main/main.cpp:93-97 | off, last change stamped 0, given delay |
| `MainSketch.SwitchableWithDelay.SwitchOnNow` | src/main/main.cpp:106-110 | on, HIGH written, stamped `now`, unconditionally |
| `MainSketch.SwitchableWithDelay.SwitchOffNow` | src/main/main.cpp:112-116 | off, LOW written, stamped `now`, unconditionally |
| `MainSketch.SwitchableWithDelay.SwitchOn` | src/main/main.cpp:118-124 | the new state is the zero-sentinel-gated switch-on of the old one |
| `MainSketch.SwitchableWithDelay.SwitchOff` | src/main/main.cpp:126-132 | the new state is the zero-sentinel-gated switch-off of the old one |
| `MainSketch.Tick` | src/main/main.cpp:201-216 | one tick keeps every actuator consistent with its pin and the buzzer index in range |
| `MainSketch.OverflowCutsOffValve` | src/main/main.cpp:211-215 | a wet high sensor shuts the valve in the same tick, bypassing the dwell, with a fresh write and stamp; the LED is lit and the buzzer sounds, a sounding buzzer only being polled |
| `MainSketch.DryTickFollowsNormalSensor` | src/main/main.cpp:202-210 | a dry high sensor turns LED and buzzer off (buzzer pin LOW); the valve is on iff the normal sensor reads LOW, unless the closed gate drops the request and leaves the valve untouched |
| `MainSketch.DryTicksRequestValve` | src/main/main.cpp:206-210 | while the high sensor stays dry, the valve sees exactly one request per tick, for the state the normal sensor asks for |
| `MainSketch.ValveWaitsAfterOverflow` | src/main/main.cpp:212 | after an overflow tick at t ≠ 0 the valve stays shut through every dry tick less than 16 s after t |
| `MainSketch.OverflowAtZeroReopensAtOnce` | src/main/main.cpp:120 | an overflow tick at clock reading 0 followed by a dry tick at 1 ms reopens the valve without the dwell |
| `MainSketch.Controller.constructor` | src/main/main.cpp:179-189 | the globals: alarm table, 16 s valve delay, everything off |
| `MainSketch.Controller.Loop` | src/main/main.cpp:201-216 | the new actuator state is the tick of the old one for the two sensor levels |
| `TopSketch.Switchable.constructor` | src/main.cpp:29-32 | off, with the pin written LOW once |
| `TopSketch.Switchable.SetOn` | src/main.cpp:36-41 | the new state is the idempotent switch-on of the old one |
| `TopSketch.Switchable.SetOff` | src/main.cpp:43-48 | the new state is the idempotent switch-off of the old one |
| `TopSketch.Buzzer.constructor` | src/main.cpp:63-69 | idle with the pin LOW |
| `TopSketch.Buzzer.SetOn` | src/main.cpp:73-80 | the new state is `setOn` of the old one |
| `TopSketch.Buzzer.SetOff` | src/main.cpp:82-87 | the new state is the immediate cut-off of the old one |
| `TopSketch.Buzzer.Loop` | src/main.cpp:89-97 | the new state is one poll of the old one |
| `TopSketch.Tick` | src/main.cpp:111-127 | one tick keeps both switches consistent with their pins and the buzzer index in range |
| `TopSketch.DecisionTable` | src/main.cpp:111-127 | for all four sensor combinations: valve on iff both sensors read LOW, LED lit and buzzer sounding iff the high sensor reads HIGH, buzzer pin LOW otherwise |
| `TopSketch.AlarmAsInMainSketch` | src/main.cpp:121-126 | given the same LED and buzzer state, both sketches' ticks leave LED and buzzer in the same state |
| `TopSketch.OverflowTicksPollBuzzer` | src/main.cpp:121-126 | during a sustained overflow the valve stays shut, the LED lit, and a sounding buzzer is only polled, never restarted |
| `TopSketch.SustainedOverflowKeepsPhase` | src/main.cpp:124-125 | during a sustained overflow the buzzer stays in phase: index and pin level advance together, once per poll that finds its interval due |
| `TopSketch.Controller.constructor` | src/main.cpp:100-104 | two distinct switches and the buzzer, all written LOW |
| `TopSketch.Controller.Loop` | src/main.cpp:111-127 | the new actuator state is the tick of the old one for the two sensor levels |
| `BuzzerTest.Buzzer.constructor` | test/buzzerTest.cpp:16 | idle at index 0 |
| `BuzzerTest.Buzzer.SetOn` | test/buzzerTest.cpp:20-28 | the new state is the activation of the old one |
| `BuzzerTest.Buzzer.SetOff` | test/buzzerTest.cpp:30-36 | the flag is cleared |
| `BuzzerTest.Buzzer.Loop` | test/buzzerTest.cpp:38-49 | the new state is one poll of the old one; the report is the index parity, made only when due |
| `BuzzerTest.FirstCycleOffsets` | test/buzzerTest.cpp:54 | polled every millisecond, the first cycle advances at 700, 1100, 1800, 2200, 3600 and 7600 ms after activation |
| `BuzzerTest.OffsetsRepeat` | test/buzzerTest.cpp:54 | the advance schedule repeats with period 7600 ms |
| `BuzzerTest.TwentyThreeAdvances` | test/buzzerTest.cpp:59-65 | exactly 23 advances fall within the 30 000 ms run |
| `BuzzerTest.RunScenario` | test/buzzerTest.cpp:52-70 | the driver run: the j-th advance happens exactly at the j-th schedule offset, 23 advances in all, reports alternate 1, 0, 1, ...; if the 32-bit limit wraps the loop does not run |

## Left out

- `setup()`, `pinMode` and `delay`: hardware configuration and settle pauses, with no logic.
- The `Pins`/`McuPins` pin tables: constants with no logic.
- Virtual destructors, and the `virtual` on `Switchable::switchOn/switchOff`: nothing overrides them.
- `digitalWrite`/`digitalRead`: each pin is a field of the object that drives it. Two objects never share a pin, so pin aliasing is not modelled.
- `millis()`: each call takes one clock reading, `now`. The source may call `millis()` up to three times in one call; if the clock ticks in between, it stamps a reading up to a millisecond later than the one it compared. The model does not capture that.
- The infinite Arduino scheduling of `loop()`: one tick is one method call, and tick sequences are reasoned about with `RunTicks`.
- test/MockCommon.h: the `TimeKeeper` second/minute/hour cascade, the `rand()`-seeded start time and `getDayOfWeek` are not part of this model. The driver takes the start reading as a parameter and advances it by 1 per iteration.
- `std::cout` in test/buzzerTest.cpp: the printed out-value is returned as a `Report` instead. The unused local `currentMillis` is dropped.
- Buzzer pin writes are not counted. Only their resulting level is modelled.
- `uint8_t` indices and template sizes: N is bounded by 256 in each class invariant, and the index is a `nat` kept below N.
- MainSketch.Tick: its contract states only that the invariants are kept. The decision table it implements is stated by `MainSketch.OverflowCutsOffValve` and `MainSketch.DryTickFollowsNormalSensor`.
- TopSketch.Tick: its contract states only that the invariants are kept. The decision table it implements is stated by `TopSketch.DecisionTable`.
- BuzzerTest.Buzzer.SetOff: the test double's "stopped" printout is not modelled.

## Findings

| source | as written | input that shows it | evidently intended | confidence | as-written member | corrected member |
|---|---|---|---|---|---|---|
| src/main/main.cpp:120 | `lastStateChangeMs == 0ul` is read as "never changed", but a change committed when `millis()` reads 0 (once every ~49.7 days) also leaves the stamp 0 | valve off with stamp 0, `switchOn` at 0 ms commits with stamp 0, then `switchOff` at 1 ms commits though `VALVE_DELAY_MS` is 16 000 | only the first change skips the dwell; every later change waits `delayMs` | not executed; follows from the guard | `Dwell.SentinelSkipsDwell` | `Dwell.FlaggedHoldsWithinDwell` |
