/** Time as the Go program sees it: instants and durations are whole nanoseconds,
    and every stored timestamp is an instant floored to whole seconds. */
module Clock {

  type Instant = int
  type Duration = int

  function Seconds(n: int): Duration {
    n * 1_000_000_000
  }

  /** `time.Time.Unix()`: the whole seconds elapsed since the epoch, rounded down. */
  function Unix(t: Instant): (s: int)
    ensures Seconds(s) <= t < Seconds(s + 1)
  {
    t / 1_000_000_000
  }

  /** The later of two instants, or the longer of two durations. */
  function Max(a: int, b: int): int {
    if a < b then b else a
  }

  lemma UnixMonotone(a: Instant, b: Instant)
    requires a <= b
    ensures Unix(a) <= Unix(b)
  {}

  lemma UnixAtLeast(t: Instant, s: int)
    ensures Unix(t) >= s <==> t >= Seconds(s)
  {}

  /** A gap of `n` whole seconds between instants is a gap of at least `n` between timestamps. */
  lemma UnixShift(a: Instant, b: Instant, n: int)
    requires a + Seconds(n) <= b
    ensures Unix(a) + n <= Unix(b)
  {}
}
