/**
 * The two hardware quantities every component of the controller depends on:
 * the free-running millisecond clock (an unsigned 32-bit counter that wraps)
 * and the level of a digital pin.
 */
module Clock {

  /** The clock counts modulo 2^32. */
  const TWO32: int := 0x1_0000_0000

  /** An unsigned 32-bit value: a clock reading, a duration or a delay. */
  type U32 = x: int | 0 <= x < TWO32

  /**
   * `now - last` evaluated in unsigned 32-bit arithmetic: the unique U32 that,
   * added to `last` on the wrapping clock, gives `now`.
   */
  function Elapsed(now: U32, last: U32): (r: U32)
    ensures (last + r) % TWO32 == now
    ensures last <= now ==> r == now - last
    ensures now < last ==> r == now + TWO32 - last
  {
    (now - last) % TWO32
  }

  /** The clock reading `d` milliseconds after the reading `t`. */
  function After(t: U32, d: nat): U32
  {
    (t + d) % TWO32
  }

  /**
   * Wrap safety: whenever the true time between two readings is below 2^32,
   * the unsigned difference of the readings is that true time, even when the
   * counter wrapped in between.
   */
  lemma ElapsedIsTrueDuration(t: U32, d: nat)
    requires d < TWO32
    ensures Elapsed(After(t, d), t) == d
  {
    if t + d < TWO32 {
      assert After(t, d) == t + d;
    } else {
      assert After(t, d) == t + d - TWO32;
    }
  }

  /** The two levels of a digital pin. */
  datatype Level = Low | High

  /** `!digitalRead(pin)`: the other level. */
  function Toggle(l: Level): (r: Level)
    ensures r != l
  {
    if l == High then Low else High
  }
}
