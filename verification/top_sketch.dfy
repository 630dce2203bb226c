/**
 * The sketch of src/main.cpp: valve and alarm LED are plain `Switchable`s
 * (no dwell), the buzzer is the `setOn`/`setOff`/`loop` variant, and `loop()`
 * reads the two sensor pins directly.
 */
module TopSketch {
  import opened Clock
  import OnOff
  import opened Pattern
  import opened Sensors
  import MainSketch

  /** `Switchable`: an idempotent output that drives its pin LOW when constructed. */
  class Switchable {
    var isOn: bool
    var level: Level
    var writes: nat

    /** The switch as an idempotent output. */
    function State(): OnOff.OutputState
      reads this
    {
      OnOff.OutputState(isOn, level, writes)
    }

    /** `isOn` is the level last written to the pin. */
    ghost predicate Valid()
      reads this
    {
      OnOff.Consistent(State())
    }

    /** Off, with the pin written LOW once. */
    constructor ()
      ensures Valid() && State() == OnOff.OutputState(false, Low, 1)
    {
      isOn := false;
      level, writes := Low, 1;
    }

    /** `setOn`: writes HIGH only when off. */
    method SetOn()
      requires Valid()
      modifies this
      ensures Valid() && State() == OnOff.Switch(old(State()), true)
    {
      if !isOn {
        isOn := true;
        level, writes := High, writes + 1;
      }
    }

    /** `setOff`: writes LOW only when on. */
    method SetOff()
      requires Valid()
      modifies this
      ensures Valid() && State() == OnOff.Switch(old(State()), false)
    {
      if isOn {
        isOn := false;
        level, writes := Low, writes + 1;
      }
    }
  }

  /** `Buzzer<N>` with activation and polling split; `level` stands for its pin. */
  class Buzzer {
    const durations: seq<U32>
    var currentIntervalIndex: nat
    var currentIntervalStartMs: U32
    var isBuzzing: bool
    var level: Level

    /** The buzzer's timing state and pin level. */
    function State(): Signal
      reads this
    {
      Signal(Cycle(isBuzzing, currentIntervalIndex, currentIntervalStartMs), level)
    }

    /** N is a `uint8_t`; the index stays below it while buzzing and the pin is LOW while not. */
    ghost predicate Valid()
      reads this
    {
      |durations| < 256 && SignalValid(State(), durations)
    }

    /** Idle, with the pin written LOW. */
    constructor (durations: seq<U32>)
      requires |durations| < 256
      ensures Valid() && this.durations == durations && State() == Silent
    {
      this.durations := durations;
      currentIntervalIndex, currentIntervalStartMs, isBuzzing := 0, 0, false;
      level := Low;
    }

    /** `setOn`: from idle with N > 0, index 0, stamp `now`, pin HIGH; otherwise nothing. */
    method SetOn(now: U32)
      requires Valid()
      modifies this
      ensures Valid() && State() == Pattern.SetOn(old(State()), durations, now)
    {
      if !isBuzzing && |durations| > 0 {
        isBuzzing := true;
        currentIntervalIndex := 0;
        currentIntervalStartMs := now;
        level := High;
      }
    }

    /** `setOff`: when buzzing, clears the flag and drives the pin LOW at once. */
    method SetOff()
      requires Valid()
      modifies this
      ensures Valid() && State() == Pattern.SetOff(old(State()))
    {
      if isBuzzing {
        isBuzzing := false;
        level := Low;
      }
    }

    /** `loop`: when buzzing and the interval is due, toggle the pin and move to the next interval. */
    method Loop(now: U32)
      requires Valid()
      modifies this
      ensures Valid() && State() == Pattern.Loop(old(State()), durations, now)
    {
      if isBuzzing {
        if Elapsed(now, currentIntervalStartMs) >= durations[currentIntervalIndex] {
          level := Toggle(level);
          currentIntervalIndex := (currentIntervalIndex + 1) % |durations|;
          currentIntervalStartMs := now;
        }
      }
    }
  }

  /** The state of the sketch's three actuators. */
  datatype TopState = TopState(valveSwitch: OnOff.OutputState, alarmLed: OnOff.OutputState, alarmBuzzer: Signal)

  /** Every actuator agrees with its pin and the buzzer's index is in range. */
  predicate TopValid(s: TopState, durations: seq<U32>)
  {
    OnOff.Consistent(s.valveSwitch) && OnOff.Consistent(s.alarmLed) && SignalValid(s.alarmBuzzer, durations)
  }

  /** One `loop()` tick given the levels of the high and normal sensor pins. */
  function Tick(s: TopState, durations: seq<U32>, high: Level, normal: Level, now: U32): (r: TopState)
    requires TopValid(s, durations)
    ensures TopValid(r, durations)
  {
    if IsNotSensingWater(high) then
      TopState(OnOff.Switch(s.valveSwitch, IsNotSensingWater(normal)), OnOff.Switch(s.alarmLed, false), SetOff(s.alarmBuzzer))
    else
      TopState(OnOff.Switch(s.valveSwitch, false), OnOff.Switch(s.alarmLed, true),
               Pattern.Loop(Pattern.SetOn(s.alarmBuzzer, durations, now), durations, now))
  }

  /**
   * The decision table, for all four sensor combinations: the valve is on
   * exactly when both sensors are dry, the LED and the buzzer exactly when the
   * high sensor is wet; a dry high sensor leaves the buzzer pin LOW.
   */
  lemma DecisionTable(s: TopState, durations: seq<U32>, high: Level, normal: Level, now: U32)
    requires TopValid(s, durations) && |durations| > 0
    ensures var r := Tick(s, durations, high, normal, now);
            (r.valveSwitch.isOn <==> high == Low && normal == Low) &&
            (r.alarmLed.isOn <==> high == High) &&
            (r.alarmBuzzer.cycle.isBuzzing <==> high == High) &&
            (high == Low ==> r.alarmBuzzer.level == Low)
  {
  }

  /** The alarm half of the tick is the same in both sketches: `startBuzzing` is `setOn` then `loop`. */
  lemma AlarmAsInMainSketch(s: TopState, v: MainSketch.SketchState, durations: seq<U32>, delayMs: U32, high: Level, normal: Level, now: U32)
    requires TopValid(s, durations) && MainSketch.SketchValid(v, durations)
    requires v.alarmLed == s.alarmLed && v.alarmBuzzer == s.alarmBuzzer
    ensures var r := Tick(s, durations, high, normal, now);
            var q := MainSketch.Tick(v, durations, delayMs, high, normal, now);
            q.alarmLed == r.alarmLed && q.alarmBuzzer == r.alarmBuzzer
  {
  }

  /** The sketch after a sequence of ticks, each with its sensor levels and clock reading. */
  function RunTicks(s: TopState, durations: seq<U32>, readings: seq<Reading>): (r: TopState)
    requires TopValid(s, durations)
    ensures TopValid(r, durations)
    decreases |readings|
  {
    if readings == [] then s
    else RunTicks(Tick(s, durations, readings[0].high, readings[0].normal, readings[0].now), durations, readings[1..])
  }

  /** The clock readings of a sequence of ticks. */
  function Times(readings: seq<Reading>): seq<U32>
  {
    seq(|readings|, i requires 0 <= i < |readings| => readings[i].now)
  }

  /**
   * While the high sensor stays wet the valve stays shut, the LED lit, and a
   * sounding buzzer is only polled: `setOn` no longer restarts its cycle.
   */
  lemma {:induction false} OverflowTicksPollBuzzer(s: TopState, durations: seq<U32>, readings: seq<Reading>)
    requires TopValid(s, durations) && s.alarmBuzzer.cycle.isBuzzing
    requires forall i :: 0 <= i < |readings| ==> readings[i].high == High
    ensures RunTicks(s, durations, readings).alarmBuzzer == RunLoop(s.alarmBuzzer, durations, Times(readings))
    ensures readings != [] ==> !RunTicks(s, durations, readings).valveSwitch.isOn &&
                               RunTicks(s, durations, readings).alarmLed.isOn
    decreases |readings|
  {
    if readings != [] {
      var next := Tick(s, durations, readings[0].high, readings[0].normal, readings[0].now);
      assert next.alarmBuzzer == Pattern.Loop(s.alarmBuzzer, durations, readings[0].now);
      assert Times(readings)[1..] == Times(readings[1..]);
      OverflowTicksPollBuzzer(next, durations, readings[1..]);
    }
  }

  /**
   * A sustained overflow keeps the buzzer in phase: its index and pin level
   * advance together, once per interval that runs out.
   */
  lemma SustainedOverflowKeepsPhase(s: TopState, durations: seq<U32>, k: nat, readings: seq<Reading>)
    requires TopValid(s, durations) && InPhase(s.alarmBuzzer, durations, k)
    requires forall i :: 0 <= i < |readings| ==> readings[i].high == High
    ensures InPhase(RunTicks(s, durations, readings).alarmBuzzer, durations,
                    k + DueCount(s.alarmBuzzer, durations, Times(readings)))
  {
    OverflowTicksPollBuzzer(s, durations, readings);
    RunLoopKeepsPhase(s.alarmBuzzer, durations, k, Times(readings));
  }

  /** The sketch's global actuators, owned by one object. */
  class Controller {
    const valveSwitch: Switchable
    const alarmLed: Switchable
    const alarmBuzzer: Buzzer

    /** The actuators' joint state. */
    function State(): TopState
      reads valveSwitch, alarmLed, alarmBuzzer
    {
      TopState(valveSwitch.State(), alarmLed.State(), alarmBuzzer.State())
    }

    /** Two distinct switches, each valid, and the buzzer configured with the alarm table. */
    ghost predicate Valid()
      reads valveSwitch, alarmLed, alarmBuzzer
    {
      valveSwitch != alarmLed && valveSwitch.Valid() && alarmLed.Valid() &&
      alarmBuzzer.Valid() && alarmBuzzer.durations == AlarmIntervals
    }

    /** The globals as the sketch declares them: each constructor writes its pin LOW. */
    constructor ()
      ensures Valid() && fresh(valveSwitch) && fresh(alarmLed) && fresh(alarmBuzzer)
      ensures State() == TopState(OnOff.OutputState(false, Low, 1), OnOff.OutputState(false, Low, 1), Silent)
    {
      valveSwitch := new Switchable();
      alarmLed := new Switchable();
      alarmBuzzer := new Buzzer(AlarmIntervals);
    }

    /** `loop()`: one tick, given the levels read from the high and normal sensor pins. */
    method Loop(highLevel: Level, normalLevel: Level, now: U32)
      requires Valid()
      modifies valveSwitch, alarmLed, alarmBuzzer
      ensures Valid()
      ensures State() == Tick(old(State()), AlarmIntervals, highLevel, normalLevel, now)
    {
      if IsNotSensingWater(highLevel) {
        alarmLed.SetOff();
        alarmBuzzer.SetOff();
        if IsNotSensingWater(normalLevel) {
          valveSwitch.SetOn();
        } else {
          valveSwitch.SetOff();
        }
      } else {
        valveSwitch.SetOff();
        alarmLed.SetOn();
        alarmBuzzer.SetOn(now);
        alarmBuzzer.Loop(now);
      }
    }
  }
}
