/** Whole-day ages computed from millisecond timestamps, as `getAgeInDays`
    does in both credential auditors. Timestamps and the observation instant
    are integers of milliseconds since the epoch. */
module Age {

  /** Milliseconds in one day: 1000 * 60 * 60 * 24. */
  const MsPerDay: int := 86_400_000

  /** Days elapsed from `t` to `now`, rounded down (Math.floor of the
      quotient; Dafny's division by a positive divisor also rounds down). */
  function AgeInDays(now: int, t: int): (age: int)
    ensures age * MsPerDay <= now - t < (age + 1) * MsPerDay
    ensures t <= now ==> age >= 0
    ensures now < t ==> age < 0
  {
    (now - t) / MsPerDay
  }

  /** The bounds in AgeInDays's contract determine the age: it is the only
      integer whose day span contains the elapsed time. */
  lemma AgeUnique(now: int, t: int, k: int)
    requires k * MsPerDay <= now - t < (k + 1) * MsPerDay
    ensures AgeInDays(now, t) == k
  {
  }

  /** A timestamp exactly `days` whole days plus `rest` milliseconds
      before `now` has age `days`. */
  lemma AgeOfWholeDays(now: int, days: int, rest: int)
    requires 0 <= rest < MsPerDay
    ensures AgeInDays(now, now - days * MsPerDay - rest) == days
  {
    AgeUnique(now, now - days * MsPerDay - rest, days);
  }

  /** A later observation never makes a timestamp younger. */
  lemma AgeMonotone(now1: int, now2: int, t: int)
    requires now1 <= now2
    ensures AgeInDays(now1, t) <= AgeInDays(now2, t)
  {
  }
}
