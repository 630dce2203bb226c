/** The alarm LED of include/AlarmLed.h. */
module AlarmLedH {
  import opened Clock
  import OnOff

  /** `AlarmLed`; `level` and `writes` stand for its output pin. */
  class AlarmLed {
    var isLit: bool
    var level: Level
    var writes: nat

    /** The LED as an idempotent output. */
    function State(): OnOff.OutputState
      reads this
    {
      OnOff.OutputState(isLit, level, writes)
    }

    /** `isLit` is the level last written to the pin. */
    ghost predicate Valid()
      reads this
    {
      OnOff.Consistent(State())
    }

    /** The LED starts unlit; the constructor does not write the pin. */
    constructor ()
      ensures Valid() && State() == OnOff.Off
    {
      isLit, level, writes := false, Low, 0;
    }

    /** `turnOn`: writes HIGH and sets `isLit` only when unlit. */
    method TurnOn()
      requires Valid()
      modifies this
      ensures Valid() && State() == OnOff.Switch(old(State()), true)
    {
      if !isLit {
        level, writes := High, writes + 1;
        isLit := true;
      }
    }

    /** `turnOff`: writes LOW and clears `isLit` only when lit. */
    method TurnOff()
      requires Valid()
      modifies this
      ensures Valid() && State() == OnOff.Switch(old(State()), false)
    {
      if isLit {
        level, writes := Low, writes + 1;
        isLit := false;
      }
    }
  }
}
