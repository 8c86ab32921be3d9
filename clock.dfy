/**
 * Time and durations as Go's time package has them: a Duration is a signed
 * 64-bit count of nanoseconds, and the difference of two instants saturates
 * at the ends of that range instead of wrapping around.
 */
module Clock {

  const MIN_DURATION: int := -0x8000_0000_0000_0000
  const MAX_DURATION: int := 0x7FFF_FFFF_FFFF_FFFF

  /** One second, in nanoseconds. */
  const SECOND: int := 1_000_000_000

  /** A Go time.Duration. */
  type Duration = d: int | MIN_DURATION <= d <= MAX_DURATION

  /** An instant, in nanoseconds since Go's zero time (the zero value of time.Time). */
  type Time = int

  /** The zero time.Time: the value lastAlive has before the first report. */
  const ZERO_TIME: Time := 0

  /** t - u as Go's Time.Sub computes it: the exact difference, clamped to a Duration. */
  function Sub(t: Time, u: Time): (d: Duration)
    ensures MIN_DURATION <= t - u <= MAX_DURATION ==> d == t - u
    ensures t - u > MAX_DURATION ==> d == MAX_DURATION
    ensures t - u < MIN_DURATION ==> d == MIN_DURATION
  {
    if t - u > MAX_DURATION then MAX_DURATION
    else if t - u < MIN_DURATION then MIN_DURATION
    else t - u
  }

  /**
   * Comparing the saturated difference against a positive duration gives the
   * same answer as comparing the exact difference: the clamp never changes a
   * liveness decision.
   */
  lemma SubBelowExact(t: Time, u: Time, limit: Duration)
    requires limit > 0
    ensures Sub(t, u) < limit <==> t - u < limit
  {
  }
}
