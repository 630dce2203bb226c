/** The valve of include/Valve.h: a debounced output whose gate has no first-change exception. */
module ValveH {
  import opened Clock
  import Dwell

  /** `Valve`; `level` and `writes` stand for its output pin. */
  class Valve {
    const delayMs: U32
    var lastStateChangeMs: U32
    var isOpen: bool
    var level: Level
    var writes: nat

    /** The valve as a debounced output. */
    function State(): Dwell.DwellState
      reads this
    {
      Dwell.DwellState(isOpen, level, writes, lastStateChangeMs)
    }

    /** `isOpen` is the level last written to the pin. */
    ghost predicate Valid()
      reads this
    {
      Dwell.Consistent(State())
    }

    /** Closed, last change at 0. */
    constructor (delayMs: U32)
      ensures Valid() && this.delayMs == delayMs && State() == Dwell.Initial
    {
      this.delayMs := delayMs;
      lastStateChangeMs, isOpen, level, writes := 0, false, Low, 0;
    }

    /** `openValve`: opens only when closed and `delayMs` has elapsed since the last change. */
    method OpenValve(now: U32)
      requires Valid()
      modifies this
      ensures Valid() && State() == Dwell.Gated(Dwell.NoSentinel, old(State()), true, delayMs, now)
    {
      if !isOpen {
        if Elapsed(now, lastStateChangeMs) >= delayMs {
          level, writes := High, writes + 1;
          lastStateChangeMs := now;
          isOpen := true;
        }
      }
    }

    /** `closeValve`: closes only when open and `delayMs` has elapsed since the last change. */
    method CloseValve(now: U32)
      requires Valid()
      modifies this
      ensures Valid() && State() == Dwell.Gated(Dwell.NoSentinel, old(State()), false, delayMs, now)
    {
      if isOpen {
        if Elapsed(now, lastStateChangeMs) >= delayMs {
          level, writes := Low, writes + 1;
          lastStateChangeMs := now;
          isOpen := false;
        }
      }
    }
  }
}
