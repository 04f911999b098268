/** Server time (backend/app/core/time_authority.py): instants are microseconds UTC. */
module Clock {
  type Time = int
  type Date = int

  const MICROS := 1_000_000
  const MINUTE := 60 * MICROS
  const DAY := 86_400 * MICROS

  /** int(delta.total_seconds()): truncates toward zero. */
  function WholeSeconds(us: int): int {
    if us >= 0 then us / MICROS else -((-us) / MICROS)
  }

  /** The UTC calendar day of an instant, counted from the epoch. */
  function DateOf(t: Time): Date {
    t / DAY
  }

  lemma TruncationLosesUnderOneSecond(us: int)
    requires us >= 0
    ensures 0 <= WholeSeconds(us)
    ensures MICROS * WholeSeconds(us) <= us <= MICROS * WholeSeconds(us) + MICROS - 1
  {
  }

  lemma TruncatesTowardZero(us: int)
    ensures WholeSeconds(-us) == -WholeSeconds(us)
  {
  }

  lemma WholeSecondsMonotone(a: int, b: int)
    requires a <= b
    ensures WholeSeconds(a) <= WholeSeconds(b)
  {
  }

  lemma WholeSecondsOfMultiple(n: int)
    ensures WholeSeconds(MICROS * n) == n
  {
  }
}
