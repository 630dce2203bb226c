/**
 * The idempotent on/off output shared by `Switchable` (both sketches) and
 * `AlarmLed`: a remembered state, the pin it drives, and a count of the writes
 * made to that pin. A request writes the pin only when it changes the state.
 */
module OnOff {
  import opened Clock

  /** An output's remembered state, its pin level and the number of pin writes so far. */
  datatype OutputState = OutputState(isOn: bool, level: Level, writes: nat)

  /** The level that represents a state on the pin. */
  function LevelOf(on: bool): Level
  {
    if on then High else Low
  }

  /** The remembered state is the level last written to the pin. */
  predicate Consistent(s: OutputState)
  {
    s.level == LevelOf(s.isOn)
  }

  /** Off, with a LOW pin and no write made. */
  const Off: OutputState := OutputState(false, Low, 0)

  /**
   * Request state `on` (`switchOn`/`switchOff`, `setOn`/`setOff`,
   * `turnOn`/`turnOff`): afterwards the output is in the requested state and
   * agrees with its pin, and exactly one write was made iff the state changed.
   */
  function Switch(s: OutputState, on: bool): (r: OutputState)
    requires Consistent(s)
    ensures Consistent(r) && r.isOn == on
    ensures r.writes == s.writes + (if s.isOn == on then 0 else 1)
  {
    if s.isOn == on then s else OutputState(on, LevelOf(on), s.writes + 1)
  }

  /** A second identical request makes no write and changes nothing. */
  lemma SwitchIdempotent(s: OutputState, on: bool)
    requires Consistent(s)
    ensures Switch(Switch(s, on), on) == Switch(s, on)
    ensures Switch(Switch(s, on), on).writes == Switch(s, on).writes
  {
  }

  /** The output after a sequence of requests, one per controller tick. */
  function Run(s: OutputState, requests: seq<bool>): (r: OutputState)
    requires Consistent(s)
    ensures Consistent(r)
    ensures r.isOn == if requests == [] then s.isOn else requests[|requests| - 1]
    decreases |requests|
  {
    if requests == [] then s else Run(Switch(s, requests[0]), requests[1..])
  }

  /** How many requests in the sequence differ from the state they meet. */
  function Changes(on: bool, requests: seq<bool>): nat
    decreases |requests|
  {
    if requests == [] then 0
    else (if requests[0] == on then 0 else 1) + Changes(requests[0], requests[1..])
  }

  /**
   * One write per real change: over any sequence of requests the pin is
   * written exactly as many times as the state changes.
   */
  lemma {:induction false} WritesCountChanges(s: OutputState, requests: seq<bool>)
    requires Consistent(s)
    ensures Run(s, requests).writes == s.writes + Changes(s.isOn, requests)
    decreases |requests|
  {
    if requests != [] {
      WritesCountChanges(Switch(s, requests[0]), requests[1..]);
    }
  }
}
