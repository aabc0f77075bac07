/** Instants as Go's time package builds them with time.Unix: whole
    seconds since the Unix epoch and a nanosecond offset within the
    second. Locations are not modelled; two instants are equal when they
    denote the same moment. */
module GoTime {

  const NanosPerSecond: int := 1_000_000_000

  datatype Time = Time(sec: int, nsec: int)

  /** The zero time.Time, January 1 of year 1, 00:00:00 UTC, which is
      62135596800 seconds before the Unix epoch. */
  const ZeroTime: Time := Time(-62135596800, 0)

  /** time.Unix(sec, nsec): a nanosecond count outside [0, 1e9) is
      carried into the seconds, so the instant is the same and the offset
      is normalised. */
  function Unix(sec: int, nsec: int): (t: Time)
    ensures 0 <= t.nsec < NanosPerSecond
    ensures t.sec * NanosPerSecond + t.nsec == sec * NanosPerSecond + nsec
  {
    Time(sec + nsec / NanosPerSecond, nsec % NanosPerSecond)
  }

  /** Go's `/` on integers: the quotient truncated toward zero. */
  function Quo(a: int, b: int): (q: int)
    requires b > 0
  {
    if a >= 0 then a / b else -((-a) / b)
  }

  /** Go's `%` on integers: the remainder takes the sign of the dividend. */
  function Rem(a: int, b: int): (r: int)
    requires b > 0
    ensures a == Quo(a, b) * b + r
    ensures a >= 0 ==> 0 <= r < b
    ensures a < 0 ==> -b < r <= 0
  {
    a - Quo(a, b) * b
  }
}
