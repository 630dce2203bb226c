/**
 * The pattern buzzer of include/Buzzer.h, in which one call, `startBuzzing`,
 * both activates and polls. The `Buzzer` class of src/main/main.cpp is the
 * same code and is modelled by this class too.
 */
module BuzzerH {
  import opened Clock
  import opened Pattern

  /** `Buzzer<N>` with N = |durations|; `level` stands for its output pin. */
  class Buzzer {
    const durations: seq<U32>
    var currentIntervalIndex: nat
    var currentIntervalStartMs: U32
    var isBuzzing: bool
    var level: Level

    /** The buzzer's timing state and pin level. */
    function State(): Signal
      reads this
    {
      Signal(Cycle(isBuzzing, currentIntervalIndex, currentIntervalStartMs), level)
    }

    /** N is a `uint8_t`; the index stays below it while buzzing and the pin is LOW while not. */
    ghost predicate Valid()
      reads this
    {
      |durations| < 256 && SignalValid(State(), durations)
    }

    /** Idle at index 0 with the pin LOW. */
    constructor (durations: seq<U32>)
      requires |durations| < 256
      ensures Valid() && this.durations == durations && State() == Silent
    {
      this.durations := durations;
      currentIntervalIndex, currentIntervalStartMs, isBuzzing, level := 0, 0, false, Low;
    }

    /**
     * `startBuzzing`: activation from idle (index 0, stamp `now`, pin HIGH),
     * then one poll of the current interval.
     */
    method StartBuzzing(now: U32)
      requires Valid()
      modifies this
      ensures Valid()
      ensures State() == Loop(SetOn(old(State()), durations, now), durations, now)
    {
      if !isBuzzing && |durations| > 0 {
        isBuzzing := true;
        currentIntervalIndex := 0;
        currentIntervalStartMs := now;
        level := High;
      }
      if isBuzzing {
        if Elapsed(now, currentIntervalStartMs) >= durations[currentIntervalIndex] {
          level := Toggle(level);
          currentIntervalIndex := (currentIntervalIndex + 1) % |durations|;
          currentIntervalStartMs := now;
        }
      }
    }

    /** `stopBuzzing`: when buzzing, clears the flag and drives the pin LOW at once. */
    method StopBuzzing()
      requires Valid()
      modifies this
      ensures Valid() && State() == SetOff(old(State()))
    {
      if isBuzzing {
        isBuzzing := false;
        level := Low;
      }
    }
  }
}
