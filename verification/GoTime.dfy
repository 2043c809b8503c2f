/**
 Go instants and durations. An instant is a number of nanoseconds since the zero
 `time.Time`; a duration is a signed 64-bit number of nanoseconds.
 */
module GoTime {
  const MIN_DURATION := -0x8000_0000_0000_0000
  const MAX_DURATION := 0x7fff_ffff_ffff_ffff
  const MINUTE := 60_000_000_000

  predicate IsZero(t: int) {
    t == 0
  }

  /** `Time.Sub` saturates at both ends of the 64-bit range. */
  function Sub(t: int, u: int): int {
    if t - u < MIN_DURATION then MIN_DURATION else if t - u > MAX_DURATION then MAX_DURATION else t - u
  }

  /** Unary minus wraps: the smallest duration is its own negation. */
  function Neg(d: int): int {
    if d == MIN_DURATION then MIN_DURATION else -d
  }

  /** A difference is exact within 64 bits and otherwise the nearest bound; negation is exact but for one value. */
  lemma DurationsSaturate(t: int, u: int, d: int)
    ensures -0x8000_0000_0000_0000 <= t - u <= 0x7fff_ffff_ffff_ffff ==> Sub(t, u) == t - u
    ensures t - u < -0x8000_0000_0000_0000 ==> Sub(t, u) == -0x8000_0000_0000_0000
    ensures t - u > 0x7fff_ffff_ffff_ffff ==> Sub(t, u) == 0x7fff_ffff_ffff_ffff
    ensures d != -0x8000_0000_0000_0000 ==> Neg(d) == -d
    ensures Neg(-0x8000_0000_0000_0000) == -0x8000_0000_0000_0000
  {
  }
}
