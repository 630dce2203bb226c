/**
 * The water-level sensors: `Sensor` (include/Sensor.h) and `WaterLevelSensor`
 * (src/main/main.cpp). Each is a stateless comparison of the level read from
 * its input pin; the level is passed in.
 */
module Sensors {
  import opened Clock

  /** `isSensingWater`: the input reads HIGH. */
  function IsSensingWater(level: Level): bool
  {
    level == High
  }

  /** `isNotSensingWater`: the input reads LOW. */
  function IsNotSensingWater(level: Level): bool
  {
    level == Low
  }

  /**
   * Each reading answers by the level alone, HIGH meaning water, and for a
   * two-valued level exactly one of the two predicates holds.
   */
  lemma ExactlyOneReading(level: Level)
    ensures IsSensingWater(level) <==> level == High
    ensures IsNotSensingWater(level) <==> level == Low
    ensures IsSensingWater(level) != IsNotSensingWater(level)
  {
  }

  /** The two sensor levels read on one `loop()` tick and the clock reading of the tick. */
  datatype Reading = Reading(high: Level, normal: Level, now: U32)
}
