/** Optional values, identifiers and the clock. */
module Base {

  datatype Option<+T> = None | Some(value: T)

  /** The new value when one is given, the old one otherwise. */
  function Given<T>(given: Option<T>, stored: Option<T>): Option<T> {
    if given.Some? then given else stored
  }

  /** Row identifiers (UUIDs in the database). Their order only breaks ties between rows. */
  type Id = nat

  // Instants are microseconds since the epoch (UTC); times of day are microseconds since midnight.

  const SECOND: int := 1_000_000
  const MINUTE: int := 60_000_000
  const DAY: int := 86_400_000_000

  type Instant = nat
  type Time = t: int | 0 <= t < 86_400_000_000 witness 0

  function TimeOf(now: Instant): Time {
    now % DAY
  }

  predicate SameDay(a: Instant, b: Instant) {
    a / DAY == b / DAY
  }

  /** Within one UTC day the time of day advances with the clock. */
  lemma SameDayOrder(a: Instant, b: Instant)
    requires SameDay(a, b)
    ensures TimeOf(b) - TimeOf(a) == b - a
  {
  }

  /** Python's int(x / unit): the quotient rounded toward zero. */
  function Whole(x: int, unit: int): int
    requires unit > 0
  {
    if x >= 0 then x / unit else -((-x) / unit)
  }
}
