/**
 * The sketch of src/main/main.cpp: an alarm LED (`Switchable`), a valve that
 * dwells 16 s between changes (`SwitchableWithDelay`), the pattern buzzer
 * (`BuzzerH.Buzzer`, the same code as include/Buzzer.h) and two water-level
 * sensors, driven once per tick by `loop()`.
 */
module MainSketch {
  import opened Clock
  import OnOff
  import Dwell
  import opened Pattern
  import opened Sensors
  import BuzzerH

  /** `VALVE_DELAY_MS`: sixteen seconds. */
  const ValveDelayMs: U32 := 16 * 1000

  /** `Switchable`: an idempotent output; `level` and `writes` stand for its pin. */
  class Switchable {
    var isOn: bool
    var level: Level
    var writes: nat

    /** The switch as an idempotent output. */
    function State(): OnOff.OutputState
      reads this
    {
      OnOff.OutputState(isOn, level, writes)
    }

    /** `isOn` is the level last written to the pin. */
    ghost predicate Valid()
      reads this
    {
      OnOff.Consistent(State())
    }

    /** Off; the constructor does not write the pin. */
    constructor ()
      ensures Valid() && State() == OnOff.Off
    {
      isOn, level, writes := false, Low, 0;
    }

    /** `switchOn`: writes HIGH only when off. */
    method SwitchOn()
      requires Valid()
      modifies this
      ensures Valid() && State() == OnOff.Switch(old(State()), true)
    {
      if !isOn {
        level, writes := High, writes + 1;
        isOn := true;
      }
    }

    /** `switchOff`: writes LOW only when on. */
    method SwitchOff()
      requires Valid()
      modifies this
      ensures Valid() && State() == OnOff.Switch(old(State()), false)
    {
      if isOn {
        level, writes := Low, writes + 1;
        isOn := false;
      }
    }
  }

  /** `SwitchableWithDelay`: a debounced output whose last-change time 0 means "never changed". */
  class SwitchableWithDelay {
    const delayMs: U32
    var isOn: bool
    var lastStateChangeMs: U32
    var level: Level
    var writes: nat

    /** The switch as a debounced output. */
    function State(): Dwell.DwellState
      reads this
    {
      Dwell.DwellState(isOn, level, writes, lastStateChangeMs)
    }

    /** `isOn` is the level last written to the pin. */
    ghost predicate Valid()
      reads this
    {
      Dwell.Consistent(State())
    }

    /** Off, last change at 0. */
    constructor (delayMs: U32)
      ensures Valid() && this.delayMs == delayMs && State() == Dwell.Initial
    {
      this.delayMs := delayMs;
      isOn, lastStateChangeMs, level, writes := false, 0, Low, 0;
    }

    /** `switchOnNow`: writes HIGH and restamps, unconditionally. */
    method SwitchOnNow(now: U32)
      modifies this
      ensures Valid() && State() == Dwell.SwitchNow(old(State()), true, now)
    {
      level, writes := High, writes + 1;
      isOn := true;
      lastStateChangeMs := now;
    }

    /** `switchOffNow`: writes LOW and restamps, unconditionally. */
    method SwitchOffNow(now: U32)
      modifies this
      ensures Valid() && State() == Dwell.SwitchNow(old(State()), false, now)
    {
      level, writes := Low, writes + 1;
      isOn := false;
      lastStateChangeMs := now;
    }

    /** `switchOn`: when off, switches on if never changed or `delayMs` has elapsed; else drops the request. */
    method SwitchOn(now: U32)
      requires Valid()
      modifies this
      ensures Valid() && State() == Dwell.Gated(Dwell.ZeroSentinel, old(State()), true, delayMs, now)
    {
      if !isOn {
        if lastStateChangeMs == 0 || Elapsed(now, lastStateChangeMs) >= delayMs {
          SwitchOnNow(now);
        }
      }
    }

    /** `switchOff`: when on, switches off if never changed or `delayMs` has elapsed; else drops the request. */
    method SwitchOff(now: U32)
      requires Valid()
      modifies this
      ensures Valid() && State() == Dwell.Gated(Dwell.ZeroSentinel, old(State()), false, delayMs, now)
    {
      if isOn {
        if lastStateChangeMs == 0 || Elapsed(now, lastStateChangeMs) >= delayMs {
          SwitchOffNow(now);
        }
      }
    }
  }

  /** The state of the sketch's three actuators. */
  datatype SketchState = SketchState(valve: Dwell.DwellState, alarmLed: OnOff.OutputState, alarmBuzzer: Signal)

  /** Every actuator agrees with its pin and the buzzer's index is in range. */
  predicate SketchValid(s: SketchState, durations: seq<U32>)
  {
    Dwell.Consistent(s.valve) && OnOff.Consistent(s.alarmLed) && SignalValid(s.alarmBuzzer, durations)
  }

  /**
   * One `loop()` tick given the two sensor levels: a dry high sensor turns the
   * alarm off and requests the valve on iff the normal sensor is dry; a wet
   * high sensor forces the valve off at once and sounds the alarm.
   */
  function Tick(s: SketchState, durations: seq<U32>, delayMs: U32, high: Level, normal: Level, now: U32): (r: SketchState)
    requires SketchValid(s, durations)
    ensures SketchValid(r, durations)
  {
    if IsNotSensingWater(high) then
      SketchState(
        Dwell.Gated(Dwell.ZeroSentinel, s.valve, IsNotSensingWater(normal), delayMs, now),
        OnOff.Switch(s.alarmLed, false),
        SetOff(s.alarmBuzzer))
    else
      SketchState(
        Dwell.SwitchNow(s.valve, false, now),
        OnOff.Switch(s.alarmLed, true),
        Loop(SetOn(s.alarmBuzzer, durations, now), durations, now))
  }

  /**
   * Overflow: a wet high sensor shuts the valve in the same tick, bypassing the
   * dwell, with a fresh write and stamp on every such tick; the LED is lit and
   * the buzzer sounds, a buzzer already sounding only being polled.
   */
  lemma OverflowCutsOffValve(s: SketchState, durations: seq<U32>, delayMs: U32, normal: Level, now: U32)
    requires SketchValid(s, durations) && |durations| > 0
    ensures var r := Tick(s, durations, delayMs, High, normal, now);
            !r.valve.isOn && r.valve.level == Low && r.valve.lastChangeMs == now &&
            r.valve.writes == s.valve.writes + 1 &&
            r.alarmLed.isOn && r.alarmBuzzer.cycle.isBuzzing &&
            (s.alarmBuzzer.cycle.isBuzzing ==> r.alarmBuzzer == Loop(s.alarmBuzzer, durations, now))
  {
  }

  /**
   * A dry high sensor: the LED is off, the buzzer silent and LOW, and the
   * valve is in the state the normal sensor asks for (on iff it reads LOW)
   * unless the dwell drops the request, in which case the valve is untouched.
   */
  lemma DryTickFollowsNormalSensor(s: SketchState, durations: seq<U32>, delayMs: U32, normal: Level, now: U32)
    requires SketchValid(s, durations)
    ensures var r := Tick(s, durations, delayMs, Low, normal, now);
            !r.alarmLed.isOn && !r.alarmBuzzer.cycle.isBuzzing && r.alarmBuzzer.level == Low &&
            (r.valve.isOn == (normal == Low) ||
              (r.valve == s.valve && !Dwell.GateOpen(Dwell.ZeroSentinel, s.valve, delayMs, now)))
  {
  }

  /** The sketch after a sequence of ticks. */
  function RunTicks(s: SketchState, durations: seq<U32>, delayMs: U32, readings: seq<Reading>): (r: SketchState)
    requires SketchValid(s, durations)
    ensures SketchValid(r, durations)
    decreases |readings|
  {
    if readings == [] then s
    else RunTicks(Tick(s, durations, delayMs, readings[0].high, readings[0].normal, readings[0].now),
                  durations, delayMs, readings[1..])
  }

  /** The valve requests made by ticks whose high sensor is dry. */
  function ValveRequests(readings: seq<Reading>): seq<Dwell.Req>
  {
    seq(|readings|, i requires 0 <= i < |readings| => Dwell.Req(readings[i].normal == Low, readings[i].now))
  }

  /** While the high sensor stays dry the valve sees exactly the normal sensor's requests. */
  lemma {:induction false} DryTicksRequestValve(s: SketchState, durations: seq<U32>, delayMs: U32, readings: seq<Reading>)
    requires SketchValid(s, durations)
    requires forall i :: 0 <= i < |readings| ==> readings[i].high == Low
    ensures RunTicks(s, durations, delayMs, readings).valve
            == Dwell.RunRequests(Dwell.ZeroSentinel, s.valve, delayMs, ValveRequests(readings))
    decreases |readings|
  {
    if readings != [] {
      var next := Tick(s, durations, delayMs, readings[0].high, readings[0].normal, readings[0].now);
      assert ValveRequests(readings)[1..] == ValveRequests(readings[1..]);
      DryTicksRequestValve(next, durations, delayMs, readings[1..]);
    }
  }

  /**
   * After an overflow tick at `t`, the valve stays shut through every dry
   * tick less than `delayMs` after `t`, provided `t` is not the clock reading 0.
   */
  lemma ValveWaitsAfterOverflow(s: SketchState, durations: seq<U32>, delayMs: U32, normal: Level, t: U32, readings: seq<Reading>)
    requires SketchValid(s, durations) && t != 0
    requires forall i :: 0 <= i < |readings| ==> readings[i].high == Low && Elapsed(readings[i].now, t) < delayMs
    ensures !RunTicks(Tick(s, durations, delayMs, High, normal, t), durations, delayMs, readings).valve.isOn
  {
    var r := Tick(s, durations, delayMs, High, normal, t);
    DryTicksRequestValve(r, durations, delayMs, readings);
    Dwell.HoldsWithinDwell(Dwell.ZeroSentinel, r.valve, delayMs, ValveRequests(readings));
  }

  /** The sketch as constructed: valve closed, LED off, buzzer silent. */
  const Start: SketchState := SketchState(Dwell.Initial, OnOff.Off, Silent)

  /**
   * The zero sentinel at the controller: an overflow whose last tick falls
   * on the clock reading 0 lets the valve reopen one millisecond later,
   * without the 16 s dwell.
   */
  lemma OverflowAtZeroReopensAtOnce()
    ensures var r1 := Tick(Start, AlarmIntervals, ValveDelayMs, High, High, 0);
            var r2 := Tick(r1, AlarmIntervals, ValveDelayMs, Low, Low, 1);
            !r1.valve.isOn && r2.valve.isOn && Elapsed(1, 0) < ValveDelayMs
  {
  }

  /** The sketch's global actuators, owned by one object. */
  class Controller {
    const alarmBuzzer: BuzzerH.Buzzer
    const alarmLed: Switchable
    const valve: SwitchableWithDelay

    /** The actuators' joint state. */
    function State(): SketchState
      reads alarmBuzzer, alarmLed, valve
    {
      SketchState(valve.State(), alarmLed.State(), alarmBuzzer.State())
    }

    /** Each actuator is valid and configured with the sketch's constants. */
    ghost predicate Valid()
      reads alarmBuzzer, alarmLed, valve
    {
      alarmBuzzer.Valid() && alarmBuzzer.durations == AlarmIntervals &&
      alarmLed.Valid() && valve.Valid() && valve.delayMs == ValveDelayMs
    }

    /** The globals as the sketch declares them. */
    constructor ()
      ensures Valid() && fresh(alarmBuzzer) && fresh(alarmLed) && fresh(valve)
      ensures State() == Start
    {
      alarmBuzzer := new BuzzerH.Buzzer(AlarmIntervals);
      alarmLed := new Switchable();
      valve := new SwitchableWithDelay(ValveDelayMs);
    }

    /** `loop()`: one tick, given the levels read from the high and normal sensors. */
    method Loop(highLevel: Level, normalLevel: Level, now: U32)
      requires Valid()
      modifies alarmBuzzer, alarmLed, valve
      ensures Valid()
      ensures State() == Tick(old(State()), AlarmIntervals, ValveDelayMs, highLevel, normalLevel, now)
    {
      if IsNotSensingWater(highLevel) {
        alarmLed.SwitchOff();
        alarmBuzzer.StopBuzzing();
        if IsNotSensingWater(normalLevel) {
          valve.SwitchOn(now);
        } else {
          valve.SwitchOff(now);
        }
      } else {
        valve.SwitchOffNow(now);
        alarmLed.SwitchOn();
        alarmBuzzer.StartBuzzing(now);
      }
    }
  }
}
