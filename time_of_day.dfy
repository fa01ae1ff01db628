/**
 * The time-slot notions shared by availability, pricing and the booking core:
 * a wall-clock time is a number of seconds since midnight, a date is the
 * proleptic Gregorian ordinal of the day (day 1 is 0001-01-01, a Monday), and
 * booking intervals are half-open.
 */
module TimeOfDay {

  const SecondsPerHour := 3600
  const SecondsPerDay := 86400

  /** A `datetime.time` without microseconds. */
  type Time = t: int | 0 <= t < 86400

  /** A `datetime.date`, as `date.toordinal()`. */
  type Date = int

  /** time(h, m, s). */
  function At(h: int, m: int, s: int): (t: Time)
    requires 0 <= h < 24 && 0 <= m < 60 && 0 <= s < 60
    ensures t / SecondsPerHour == h && t % SecondsPerHour == m * 60 + s
  {
    h * SecondsPerHour + m * 60 + s
  }

  /** Two half-open intervals [s1, e1) and [s2, e2) overlap. */
  predicate Overlaps(s1: int, e1: int, s2: int, e2: int)
  {
    s1 < e2 && s2 < e1
  }

  /** The half-open interval [s, e) contains the instant t. */
  predicate Covers(s: int, e: int, t: int)
  {
    s <= t < e
  }

  /** For non-empty intervals, half-open overlap is exactly "some instant lies in both intervals". */
  lemma OverlapsIffCommonInstant(s1: int, e1: int, s2: int, e2: int)
    requires s1 < e1 && s2 < e2
    ensures Overlaps(s1, e1, s2, e2) <==> exists t :: Covers(s1, e1, t) && Covers(s2, e2, t)
  {
    if Overlaps(s1, e1, s2, e2) {
      var t := if s1 < s2 then s2 else s1;
      assert Covers(s1, e1, t) && Covers(s2, e2, t);
    }
  }

  /** Back-to-back slots such as 10:00-11:00 and 11:00-12:00 do not conflict; equal slots do. */
  lemma BackToBackSlotsDoNotOverlap()
    ensures !Overlaps(At(10, 0, 0), At(11, 0, 0), At(11, 0, 0), At(12, 0, 0))
    ensures Overlaps(At(10, 0, 0), At(11, 0, 0), At(10, 0, 0), At(11, 0, 0))
  {
  }

  /** `date.weekday()`: Monday is 0, Sunday is 6. */
  function Weekday(d: Date): (w: int)
    ensures 0 <= w < 7
  {
    (d + 6) % 7
  }

  /** `datetime.combine(d1, t1) < datetime.combine(d2, t2)`. */
  predicate DateTimeBefore(d1: Date, t1: Time, d2: Date, t2: Time)
  {
    d1 < d2 || (d1 == d2 && t1 < t2)
  }
}
