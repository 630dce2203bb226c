/**
 * The pattern buzzer `Buzzer<N>`: it steps a pin through a cyclic table of N
 * millisecond intervals, toggling the pin each time the current interval has
 * elapsed. `Cycle` is the timing state every variant of the class shares;
 * `Signal` adds the level of the pin that the sketches' variants drive.
 */
module Pattern {
  import opened Clock

  /** The interval table every sketch in the repository configures: beep, pause, beep, pause, beep, rest. */
  const AlarmIntervals: seq<U32> := [700, 400, 700, 400, 1400, 4000]

  /** `isBuzzing`, `currentIntervalIndex` and `currentIntervalStartMs`. */
  datatype Cycle = Cycle(isBuzzing: bool, index: nat, startMs: U32)

  /** While buzzing the index names an interval of the table (so the table is not empty). */
  predicate Valid(c: Cycle, durations: seq<U32>)
  {
    c.isBuzzing ==> c.index < |durations|
  }

  /** The state every buzzer is constructed in. */
  const Idle: Cycle := Cycle(false, 0, 0)

  /**
   * Activation (`setOn`, the first half of `startBuzzing`): an idle buzzer with
   * a non-empty table starts at interval 0 stamped `now`; a buzzing one is not
   * restarted; with an empty table the buzzer never starts.
   */
  function Activate(c: Cycle, durations: seq<U32>, now: U32): (r: Cycle)
    requires Valid(c, durations)
    ensures Valid(r, durations)
    ensures r.isBuzzing <==> c.isBuzzing || |durations| > 0
    ensures c.isBuzzing ==> r == c
    ensures r != c ==> r == Cycle(true, 0, now)
  {
    if !c.isBuzzing && |durations| > 0 then Cycle(true, 0, now) else c
  }

  /** The current interval has run out: its wrap-safe elapsed time has reached its duration. */
  predicate Due(c: Cycle, durations: seq<U32>, now: U32)
    requires Valid(c, durations)
  {
    c.isBuzzing && Elapsed(now, c.startMs) >= durations[c.index]
  }

  /**
   * One poll (`loop`, the second half of `startBuzzing`): when the current
   * interval is due the buzzer moves to the next interval, cyclically, stamped
   * `now`; otherwise nothing changes. Never more than one interval per poll.
   */
  function Advance(c: Cycle, durations: seq<U32>, now: U32): (r: Cycle)
    requires Valid(c, durations)
    ensures Valid(r, durations) && r.isBuzzing == c.isBuzzing
    ensures Due(c, durations, now) ==> r == Cycle(true, (c.index + 1) % |durations|, now)
    ensures !Due(c, durations, now) ==> r == c
  {
    if Due(c, durations, now) then Cycle(true, (c.index + 1) % |durations|, now) else c
  }

  /** Deactivation (`setOff`, `stopBuzzing`): the flag is cleared wherever the cycle stands. */
  function Deactivate(c: Cycle): (r: Cycle)
    ensures !r.isBuzzing
    ensures !c.isBuzzing ==> r == c
  {
    if c.isBuzzing then c.(isBuzzing := false) else c
  }

  /** A buzzer that drives a pin: its timing state and the pin level. */
  datatype Signal = Signal(cycle: Cycle, level: Level)

  /** While not buzzing the pin is LOW. */
  predicate Quiet(b: Signal)
  {
    !b.cycle.isBuzzing ==> b.level == Low
  }

  /** The invariant of a pin-driving buzzer. */
  predicate SignalValid(b: Signal, durations: seq<U32>)
  {
    Valid(b.cycle, durations) && Quiet(b)
  }

  /** Constructed: idle with the pin LOW. */
  const Silent: Signal := Signal(Idle, Low)

  /** `setOn`: activation drives the pin HIGH for interval 0; otherwise nothing happens. */
  function SetOn(b: Signal, durations: seq<U32>, now: U32): (r: Signal)
    requires SignalValid(b, durations)
    ensures SignalValid(r, durations)
    ensures r.cycle == Activate(b.cycle, durations, now)
    ensures r.cycle.isBuzzing && !b.cycle.isBuzzing ==> r.level == High
    ensures b.cycle.isBuzzing || |durations| == 0 ==> r == b
  {
    if !b.cycle.isBuzzing && |durations| > 0 then Signal(Activate(b.cycle, durations, now), High) else b
  }

  /** `loop`: when the interval is due the pin is toggled as the cycle advances. */
  function Loop(b: Signal, durations: seq<U32>, now: U32): (r: Signal)
    requires SignalValid(b, durations)
    ensures SignalValid(r, durations)
    ensures r.cycle == Advance(b.cycle, durations, now)
    ensures r.level == if Due(b.cycle, durations, now) then Toggle(b.level) else b.level
  {
    if Due(b.cycle, durations, now) then Signal(Advance(b.cycle, durations, now), Toggle(b.level)) else b
  }

  /** `setOff`/`stopBuzzing`: an immediate cut-off to LOW, a no-op when already stopped. */
  function SetOff(b: Signal): (r: Signal)
    requires Quiet(b)
    ensures !r.cycle.isBuzzing && r.level == Low
    ensures r.cycle == Deactivate(b.cycle)
    ensures !b.cycle.isBuzzing ==> r == b
  {
    if b.cycle.isBuzzing then Signal(Deactivate(b.cycle), Low) else b
  }

  /**
   * `startBuzzing` is `setOn` followed by `loop` at the same reading. When
   * already buzzing it is exactly one poll; when it activates with a positive
   * first interval it does not toggle.
   */
  lemma StartBuzzingIsSetOnThenLoop(b: Signal, durations: seq<U32>, now: U32)
    requires SignalValid(b, durations)
    ensures b.cycle.isBuzzing ==> Loop(SetOn(b, durations, now), durations, now) == Loop(b, durations, now)
    ensures !b.cycle.isBuzzing && |durations| > 0 && durations[0] > 0 ==>
              Loop(SetOn(b, durations, now), durations, now) == Signal(Cycle(true, 0, now), High)
  {
  }

  /**
   * The pin level and the interval index agree with the number `k` of
   * intervals completed since activation: index `k mod N`, HIGH iff `k` is even.
   */
  predicate InPhase(b: Signal, durations: seq<U32>, k: nat)
  {
    b.cycle.isBuzzing && 0 < |durations| && b.cycle.index == k % |durations| &&
    (b.level == High <==> k % 2 == 0)
  }

  /** Activation puts the buzzer in phase with zero intervals completed. */
  lemma ActivationStartsPhase(b: Signal, durations: seq<U32>, now: U32)
    requires SignalValid(b, durations) && !b.cycle.isBuzzing && |durations| > 0
    ensures InPhase(SetOn(b, durations, now), durations, 0)
  {
  }

  /** The buzzer after polls at the given clock readings. */
  function RunLoop(b: Signal, durations: seq<U32>, times: seq<U32>): (r: Signal)
    requires SignalValid(b, durations)
    ensures SignalValid(r, durations)
    ensures r.cycle.isBuzzing == b.cycle.isBuzzing
    decreases |times|
  {
    if times == [] then b else RunLoop(Loop(b, durations, times[0]), durations, times[1..])
  }

  /** How many of those polls found their interval due. */
  function DueCount(b: Signal, durations: seq<U32>, times: seq<U32>): nat
    requires SignalValid(b, durations)
    decreases |times|
  {
    if times == [] then 0
    else (if Due(b.cycle, durations, times[0]) then 1 else 0)
         + DueCount(Loop(b, durations, times[0]), durations, times[1..])
  }

  /** A positive multiple of `n` is at least `n`. */
  lemma MulAtLeast(a: nat, n: nat)
    requires a >= 1
    ensures a * n >= n
  {
    if a > 1 {
      MulAtLeast(a - 1, n);
      assert a * n == (a - 1) * n + n;
    }
  }

  /** A quotient-remainder decomposition determines the remainder. */
  lemma ModUnique(x: nat, n: nat, q: nat, r: nat)
    requires n > 0 && r < n && x == q * n + r
    ensures x % n == r
  {
    var q0, r0 := x / n, x % n;
    assert x == q0 * n + r0;
    if q0 < q {
      assert q * n == q0 * n + (q - q0) * n;
      MulAtLeast(q - q0, n);
      assert false;
    } else if q < q0 {
      assert q0 * n == q * n + (q0 - q) * n;
      MulAtLeast(q0 - q, n);
      assert false;
    }
  }

  /** Stepping an index by one commutes with reducing it modulo `n`. */
  lemma ModSucc(k: nat, n: nat)
    requires n > 0
    ensures (k % n + 1) % n == (k + 1) % n
  {
    var q := k / n;
    assert k == q * n + k % n;
    if k % n + 1 < n {
      ModUnique(k + 1, n, q, k % n + 1);
    } else {
      ModUnique(k + 1, n, q + 1, 0);
    }
  }

  /**
   * The cycle invariant: polling keeps the buzzer in phase, the index and the
   * pin level advancing together by one per due poll.
   */
  lemma {:induction false} RunLoopKeepsPhase(b: Signal, durations: seq<U32>, k: nat, times: seq<U32>)
    requires SignalValid(b, durations) && InPhase(b, durations, k)
    ensures InPhase(RunLoop(b, durations, times), durations, k + DueCount(b, durations, times))
    decreases |times|
  {
    if times != [] {
      var next := Loop(b, durations, times[0]);
      if Due(b.cycle, durations, times[0]) {
        ModSucc(k, |durations|);
        RunLoopKeepsPhase(next, durations, k + 1, times[1..]);
      } else {
        RunLoopKeepsPhase(next, durations, k, times[1..]);
      }
    }
  }

  /**
   * No catch-up: polled 5000 ms after activation, when five intervals of the
   * alarm table (3600 ms) have run out, the buzzer still advances by one.
   */
  lemma MissedIntervalsNotCaughtUp()
    ensures var b := Loop(SetOn(Silent, AlarmIntervals, 0), AlarmIntervals, 5000);
            b == Signal(Cycle(true, 1, 5000), Low)
  {
  }

  /** For an even modulus the residue keeps the parity. */
  lemma EvenModulusKeepsParity(k: nat, n: nat)
    requires n > 0 && n % 2 == 0
    ensures (k % n) % 2 == k % 2
  {
    var q := k / n;
    var h := n / 2;
    assert n == 2 * h;
    assert k == q * n + k % n;
    assert k == 2 * (q * h) + k % n;
  }
}
