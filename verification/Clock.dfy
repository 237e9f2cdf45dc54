/** Times and durations are counted in nanoseconds, as Go's `time` package does. */
module Clock {
  const SECOND: nat := 1_000_000_000
}
