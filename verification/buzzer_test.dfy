/**
 * The test double of test/buzzerTest.cpp: a `Buzzer<N>` without a pin whose
 * `loop` reports an out-value (1 for an even interval index, 0 for an odd
 * one) each time it advances, and the `main` driver that polls it once per
 * millisecond of a mock clock for 30 seconds.
 */
module BuzzerTest {
  import opened Clock
  import opened Pattern

  /** What the test double prints on a poll: nothing, or the out-value of the interval that ends. */
  datatype Report = NoReport | Reported(outValue: nat)

  /** The test double's `loop` reports 1 for an even index, 0 for an odd one, and only when due. */
  function ReportOf(c: Cycle, durations: seq<U32>, now: U32): (r: Report)
    requires Valid(c, durations)
    ensures r.Reported? <==> Due(c, durations, now)
    ensures r.Reported? ==> r.outValue <= 1 && (r.outValue == 1 <==> c.index % 2 == 0)
  {
    if Due(c, durations, now) then Reported(if c.index % 2 == 0 then 1 else 0) else NoReport
  }

  /**
   * For a table of even length the value the test double reports is the level
   * of the interval that just ended: 1 when the pin was HIGH and the toggle
   * takes it LOW.
   */
  lemma ReportIsEndingLevel(b: Signal, durations: seq<U32>, k: nat, now: U32)
    requires SignalValid(b, durations) && InPhase(b, durations, k)
    requires |durations| % 2 == 0 && Due(b.cycle, durations, now)
    ensures ReportOf(b.cycle, durations, now) == Reported(if b.level == High then 1 else 0)
    ensures ReportOf(b.cycle, durations, now).outValue == 1 <==> Pattern.Loop(b, durations, now).level == Low
  {
    EvenModulusKeepsParity(k, |durations|);
  }

  /** The test's `Buzzer<N>` with N = |durations|. */
  class Buzzer {
    const durations: seq<U32>
    var currentIntervalIndex: nat
    var currentIntervalStartMs: U32
    var isBuzzing: bool

    /** The buzzer's timing state. */
    function State(): Cycle
      reads this
    {
      Cycle(isBuzzing, currentIntervalIndex, currentIntervalStartMs)
    }

    /** N is a `uint8_t` and the index stays below it while buzzing. */
    ghost predicate Valid()
      reads this
    {
      |durations| < 256 && Pattern.Valid(State(), durations)
    }

    /** Idle at index 0. */
    constructor (intervals: seq<U32>)
      requires |intervals| < 256
      ensures Valid() && durations == intervals && State() == Idle
    {
      durations := intervals;
      currentIntervalIndex, currentIntervalStartMs, isBuzzing := 0, 0, false;
    }

    /** `setOn`: from idle with N > 0, index 0 and stamp `now`. */
    method SetOn(now: U32)
      requires Valid()
      modifies this
      ensures Valid() && State() == Activate(old(State()), durations, now)
    {
      if !isBuzzing && |durations| > 0 {
        isBuzzing := true;
        currentIntervalIndex := 0;
        currentIntervalStartMs := now;
      }
    }

    /** `setOff`: clears the flag. */
    method SetOff()
      requires Valid()
      modifies this
      ensures Valid() && State() == Deactivate(old(State()))
    {
      if isBuzzing {
        isBuzzing := false;
      }
    }

    /** `loop`: when buzzing and due, report the parity of the index, then advance it. */
    method Loop(now: U32) returns (report: Report)
      requires Valid()
      modifies this
      ensures Valid() && State() == Advance(old(State()), durations, now)
      ensures report == ReportOf(old(State()), durations, now)
    {
      report := NoReport;
      if isBuzzing {
        if Elapsed(now, currentIntervalStartMs) >= durations[currentIntervalIndex] {
          var outValue := if currentIntervalIndex % 2 == 0 then 1 else 0;
          report := Reported(outValue);
          currentIntervalIndex := (currentIntervalIndex + 1) % |durations|;
          currentIntervalStartMs := now;
        }
      }
    }
  }

  /** The offset from activation of the `k`-th advance when polled every millisecond. */
  function AdvanceOffset(k: nat): nat
  {
    if k == 0 then 0 else AdvanceOffset(k - 1) + AlarmIntervals[(k - 1) % 6]
  }

  /** The first cycle of the alarm table: advances at 700, 1100, 1800, 2200, 3600 and 7600 ms. */
  lemma FirstCycleOffsets()
    ensures AdvanceOffset(1) == 700 && AdvanceOffset(2) == 1100 && AdvanceOffset(3) == 1800
    ensures AdvanceOffset(4) == 2200 && AdvanceOffset(5) == 3600 && AdvanceOffset(6) == 7600
  {
    assert AdvanceOffset(1) == 700;
    assert AdvanceOffset(2) == 1100;
    assert AdvanceOffset(3) == 1800;
    assert AdvanceOffset(4) == 2200;
    assert AdvanceOffset(5) == 3600;
  }

  /** The schedule repeats with a period of 7600 ms. */
  lemma {:induction false} OffsetsRepeat(k: nat)
    ensures AdvanceOffset(k + 6) == AdvanceOffset(k) + 7600
  {
    if k == 0 {
      FirstCycleOffsets();
    } else {
      OffsetsRepeat(k - 1);
      assert (k + 5) % 6 == (k - 1) % 6;
    }
  }

  /** Advances are strictly ordered in time. */
  lemma {:induction false} OffsetsIncrease(j: nat, k: nat)
    requires j < k
    ensures AdvanceOffset(j) < AdvanceOffset(k)
    decreases k
  {
    if j < k - 1 {
      OffsetsIncrease(j, k - 1);
    }
  }

  /** Within 30 000 ms of activation exactly 23 advances fit: the 23rd at 26 400 ms, the 24th due at 30 400 ms. */
  lemma TwentyThreeAdvances(k: nat)
    requires AdvanceOffset(k) <= 30000 <= AdvanceOffset(k + 1)
    ensures k == 23
  {
    FirstCycleOffsets();
    OffsetsRepeat(5);
    OffsetsRepeat(11);
    OffsetsRepeat(17);
    OffsetsRepeat(6);
    OffsetsRepeat(12);
    OffsetsRepeat(18);
    if k > 23 {
      OffsetsIncrease(24, k);
    } else if k < 23 {
      OffsetsIncrease(k + 1, 23);
    }
  }

  /**
   * The driver `main`: activate, then poll once per mock-clock millisecond
   * while the clock reads below `start + 30000` (a 32-bit sum), then stop.
   * Returns the offset from activation of every advance and the out-value
   * reported with it. Polled every millisecond, the buzzer advances exactly at
   * the schedule's boundaries, 23 times in all, reporting 1, 0, 1, 0, ...;
   * if the 32-bit sum wraps the loop does not run.
   */
  method RunScenario(start: U32) returns (advances: seq<nat>, reports: seq<nat>)
    ensures start + 30000 < TWO32 ==> |advances| == 23
    ensures start + 30000 >= TWO32 ==> advances == []
    ensures forall j :: 0 <= j < |advances| ==> advances[j] == AdvanceOffset(j + 1)
    ensures |reports| == |advances|
    ensures forall j :: 0 <= j < |reports| ==> reports[j] == if j % 2 == 0 then 1 else 0
  {
    var buzzer := new Buzzer(AlarmIntervals);
    buzzer.SetOn(start);
    var limit: U32 := (start + 30000) % TWO32;
    var now: U32 := start;
    advances, reports := [], [];
    while now < limit
      invariant buzzer.Valid() && buzzer.durations == AlarmIntervals && buzzer.isBuzzing
      invariant start <= now
      invariant limit < start ==> now == start && advances == []
      invariant start <= limit ==> limit == start + 30000 && now <= limit
      invariant buzzer.currentIntervalIndex == |advances| % 6
      invariant buzzer.currentIntervalStartMs == start + AdvanceOffset(|advances|)
      invariant AdvanceOffset(|advances|) <= now - start <= AdvanceOffset(|advances| + 1)
      invariant forall j :: 0 <= j < |advances| ==> advances[j] == AdvanceOffset(j + 1)
      invariant |reports| == |advances|
      invariant forall j :: 0 <= j < |reports| ==> reports[j] == if j % 2 == 0 then 1 else 0
      decreases limit - now
    {
      var k := |advances|;
      var report := buzzer.Loop(now);
      if report.Reported? {
        EvenModulusKeepsParity(k, 6);
        advances := advances + [now - start];
        reports := reports + [report.outValue];
      }
      now := now + 1;
    }
    buzzer.SetOff();
    if start + 30000 < TWO32 {
      TwentyThreeAdvances(|advances|);
    }
  }
}
