/** Instants and durations are integers in nanoseconds. */
module Clock {
  const MAX_DURATION: int := 0x7FFF_FFFF_FFFF_FFFF
  const MIN_DURATION: int := -0x8000_0000_0000_0000
  const MINUTE: int := 60_000_000_000
  const HOUR: int := 60 * MINUTE

  /** `a.Sub(b)`: Go clamps a difference that does not fit a Duration. */
  function Sub(a: int, b: int): int {
    var d := a - b;
    if d > MAX_DURATION then MAX_DURATION else if d < MIN_DURATION then MIN_DURATION else d
  }

  /** A difference that fits 64 bits is exact, and any other is the nearest one that fits. */
  lemma SubIsNearest(a: int, b: int)
    ensures -0x8000_0000_0000_0000 <= Sub(a, b) <= 0x7FFF_FFFF_FFFF_FFFF
    ensures -0x8000_0000_0000_0000 <= a - b <= 0x7FFF_FFFF_FFFF_FFFF ==> Sub(a, b) == a - b
    ensures a - b > 0x7FFF_FFFF_FFFF_FFFF ==> Sub(a, b) == 0x7FFF_FFFF_FFFF_FFFF
    ensures a - b < -0x8000_0000_0000_0000 ==> Sub(a, b) == -0x8000_0000_0000_0000
  {
  }
}
