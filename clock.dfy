/** Clock times of one day, the values whenever.Time takes: nanoseconds after
    midnight, from Time.MIDNIGHT (00:00:00) up to Time.MAX (23:59:59.999999999).
    The library itself is not part of this model; only its ordering, its two
    constants and the hour constructor Time(h) are used. */
module Clock {

  /** Nanoseconds in one hour */
  const NanosPerHour: int := 3_600_000_000_000

  /** Time.MIDNIGHT */
  const MIDNIGHT: int := 0

  /** Time.MAX: the last nanosecond of the day */
  const MAX: int := 86_399_999_999_999

  /** A time of day; the order of whenever.Time is the order of int */
  type Time = t: int | MIDNIGHT <= t <= MAX

  /** Time(h): the time at hour h of the day */
  function Hour(h: int): (t: Time)
    requires 0 <= h <= 23
    ensures MIDNIGHT <= t < MAX
    ensures t == h * NanosPerHour
  {
    h * 3_600_000_000_000
  }

  /** Python's max of two times */
  function Later(a: Time, b: Time): (t: Time)
    ensures a <= t && b <= t && (t == a || t == b)
  {
    if a < b then b else a
  }

  /** Python's min of two times */
  function Earlier(a: Time, b: Time): (t: Time)
    ensures t <= a && t <= b && (t == a || t == b)
  {
    if b < a then b else a
  }
}
