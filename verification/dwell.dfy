/**
 * The debounced switch: an on/off output that, once it has changed state,
 * must dwell `delayMs` milliseconds before it may change again. A request that
 * arrives too early is dropped, not queued.
 *
 * Two gates appear in the repository. `Valve` (include/Valve.h) has none but
 * the elapsed-time test, so with its last-change time starting at 0 its very
 * first change also waits until the clock reads `delayMs`. `SwitchableWithDelay`
 * (src/main/main.cpp) reads a last-change time of 0 as "never changed", which
 * also fires after a change that happened when the clock read 0.
 */
module Dwell {
  import opened Clock
  import OnOff

  /** The switch's state, its pin level, its pin-write count and the clock reading of its last change. */
  datatype DwellState = DwellState(isOn: bool, level: Level, writes: nat, lastChangeMs: U32)

  /** The remembered state is the level last written to the pin. */
  predicate Consistent(s: DwellState)
  {
    s.level == OnOff.LevelOf(s.isOn)
  }

  /** Off, with a LOW pin, no write and a last-change time of 0. */
  const Initial: DwellState := DwellState(false, Low, 0, 0)

  /**
   * `switchOnNow`/`switchOffNow`: the state is set, the pin written and the
   * last-change time refreshed, whatever the state and the time.
   */
  function SwitchNow(s: DwellState, on: bool, now: U32): (r: DwellState)
    ensures Consistent(r) && r.isOn == on
    ensures r.lastChangeMs == now && r.writes == s.writes + 1
  {
    DwellState(on, OnOff.LevelOf(on), s.writes + 1, now)
  }

  /**
   * A request for state `on` that commits only when the state differs and the
   * dwell gate is open. A commit is one pin write stamped `now`; a redundant
   * or dropped request changes nothing at all.
   */
  function Request(s: DwellState, on: bool, gateOpen: bool, now: U32): (r: DwellState)
    requires Consistent(s)
    ensures Consistent(r)
    ensures r.isOn == on <==> s.isOn == on || gateOpen
    ensures r.isOn != s.isOn ==> r == SwitchNow(s, on, now)
    ensures r.isOn == s.isOn ==> r == s
  {
    if s.isOn != on && gateOpen then SwitchNow(s, on, now) else s
  }

  /** Which of the repository's two dwell gates a switch uses. */
  datatype Gate =
    | NoSentinel    // include/Valve.h
    | ZeroSentinel  // SwitchableWithDelay in src/main/main.cpp

  /** Whether a change may commit at `now`. */
  predicate GateOpen(gate: Gate, s: DwellState, delayMs: U32, now: U32)
  {
    match gate
    case NoSentinel => Elapsed(now, s.lastChangeMs) >= delayMs
    case ZeroSentinel => s.lastChangeMs == 0 || Elapsed(now, s.lastChangeMs) >= delayMs
  }

  /** `openValve`/`closeValve`, `switchOn`/`switchOff` of `SwitchableWithDelay`. */
  function Gated(gate: Gate, s: DwellState, on: bool, delayMs: U32, now: U32): (r: DwellState)
    requires Consistent(s)
    ensures Consistent(r)
    ensures r.isOn != s.isOn <==> s.isOn != on && GateOpen(gate, s, delayMs, now)
    ensures r.isOn != s.isOn ==> r.lastChangeMs == now && r.writes == s.writes + 1
    ensures r.isOn == s.isOn ==> r == s
  {
    Request(s, on, GateOpen(gate, s, delayMs, now), now)
  }

  /**
   * `Valve`'s first change: from the initial state the valve opens only once
   * the clock reads at least `delayMs`.
   */
  lemma ValveFirstChangeWaits(delayMs: U32, now: U32)
    ensures Gated(NoSentinel, Initial, true, delayMs, now).isOn <==> now >= delayMs
  {
  }

  /** With no delay a `Valve` is the plain idempotent output. */
  lemma ValveWithoutDelayIsPlainSwitch(s: DwellState, on: bool, now: U32)
    requires Consistent(s)
    ensures var r := Gated(NoSentinel, s, on, 0, now);
            OnOff.Switch(OnOff.OutputState(s.isOn, s.level, s.writes), on)
            == OnOff.OutputState(r.isOn, r.level, r.writes)
  {
  }

  /** A request made at a clock reading. */
  datatype Req = Req(on: bool, now: U32)

  /** The switch after a sequence of requests. */
  function RunRequests(gate: Gate, s: DwellState, delayMs: U32, reqs: seq<Req>): (r: DwellState)
    requires Consistent(s)
    ensures Consistent(r)
    decreases |reqs|
  {
    if reqs == [] then s
    else RunRequests(gate, Gated(gate, s, reqs[0].on, delayMs, reqs[0].now), delayMs, reqs[1..])
  }

  /**
   * Debounce: once a change has been stamped at `s.lastChangeMs`, no request
   * made less than `delayMs` after it commits, however many there are and
   * whatever they ask for: the state, the pin and the stamp stay as they are.
   * For `SwitchableWithDelay` this holds only when the stamp is not 0.
   */
  lemma {:induction false} HoldsWithinDwell(gate: Gate, s: DwellState, delayMs: U32, reqs: seq<Req>)
    requires Consistent(s)
    requires gate == ZeroSentinel ==> s.lastChangeMs != 0
    requires forall i :: 0 <= i < |reqs| ==> Elapsed(reqs[i].now, s.lastChangeMs) < delayMs
    ensures RunRequests(gate, s, delayMs, reqs) == s
    decreases |reqs|
  {
    if reqs != [] {
      assert Gated(gate, s, reqs[0].on, delayMs, reqs[0].now) == s;
      HoldsWithinDwell(gate, s, delayMs, reqs[1..]);
    }
  }

  /**
   * The zero sentinel as written: a change committed when the clock reads 0
   * leaves a stamp of 0, so the next request commits one millisecond later
   * although the 16-second dwell has not elapsed.
   */
  lemma SentinelSkipsDwell()
    ensures var first := Gated(ZeroSentinel, Initial, true, 16000, 0);
            var second := Gated(ZeroSentinel, first, false, 16000, 1);
            first.isOn && first.lastChangeMs == 0 && Elapsed(1, first.lastChangeMs) < 16000 &&
            !second.isOn && second.writes == first.writes + 1
  {
  }

  /**
   * The dwell switch with an explicit "has changed" flag in place of the zero
   * sentinel: the first change is free, every later one waits `delayMs`.
   */
  datatype Debounced = Debounced(sw: DwellState, hasChanged: bool)

  /** The flag-based switch before its first change. */
  const Fresh: Debounced := Debounced(Initial, false)

  /** A request to the flag-based switch. */
  function FlaggedRequest(d: Debounced, on: bool, delayMs: U32, now: U32): (r: Debounced)
    requires Consistent(d.sw)
    ensures Consistent(r.sw)
    ensures r.sw.isOn != d.sw.isOn <==>
              d.sw.isOn != on && (!d.hasChanged || Elapsed(now, d.sw.lastChangeMs) >= delayMs)
    ensures r.sw.isOn != d.sw.isOn ==> r.hasChanged && r.sw.lastChangeMs == now && r.sw.writes == d.sw.writes + 1
    ensures r.sw.isOn == d.sw.isOn ==> r == d
  {
    var gateOpen := !d.hasChanged || Elapsed(now, d.sw.lastChangeMs) >= delayMs;
    var sw := Request(d.sw, on, gateOpen, now);
    Debounced(sw, d.hasChanged || sw.isOn != d.sw.isOn)
  }

  /** First-transition freedom: the first request for a change commits at any time. */
  lemma FlaggedFirstChangeIsFree(d: Debounced, on: bool, delayMs: U32, now: U32)
    requires Consistent(d.sw) && !d.hasChanged && d.sw.isOn != on
    ensures FlaggedRequest(d, on, delayMs, now).sw.isOn == on
  {
  }

  /** The flag-based switch after a sequence of requests. */
  function FlaggedRun(d: Debounced, delayMs: U32, reqs: seq<Req>): (r: Debounced)
    requires Consistent(d.sw)
    ensures Consistent(r.sw)
    decreases |reqs|
  {
    if reqs == [] then d
    else FlaggedRun(FlaggedRequest(d, reqs[0].on, delayMs, reqs[0].now), delayMs, reqs[1..])
  }

  /**
   * Debounce for the flag-based switch: after any change, at any clock
   * reading including 0, requests within `delayMs` of it all drop.
   */
  lemma {:induction false} FlaggedHoldsWithinDwell(d: Debounced, delayMs: U32, reqs: seq<Req>)
    requires Consistent(d.sw) && d.hasChanged
    requires forall i :: 0 <= i < |reqs| ==> Elapsed(reqs[i].now, d.sw.lastChangeMs) < delayMs
    ensures FlaggedRun(d, delayMs, reqs) == d
    decreases |reqs|
  {
    if reqs != [] {
      assert FlaggedRequest(d, reqs[0].on, delayMs, reqs[0].now) == d;
      FlaggedHoldsWithinDwell(d, delayMs, reqs[1..]);
    }
  }

  /** The scenario of `SentinelSkipsDwell` replayed on the flag-based switch: the second request drops. */
  lemma FlaggedKeepsDwellAtZero()
    ensures var first := FlaggedRequest(Fresh, true, 16000, 0);
            var second := FlaggedRequest(first, false, 16000, 1);
            first.sw.isOn && second == first
  {
  }
}
