/** Python `datetime` values at microsecond resolution, reduced to integers:
    a calendar day (the proleptic Gregorian ordinal of `date.toordinal()`)
    and a time of day in microseconds since midnight. */
module Clock {

  const MicrosPerDay: int := 86_400_000_000

  /** `datetime.time` at microsecond resolution. */
  type TimeOfDay = t: int | 0 <= t < 86_400_000_000

  /** `date.weekday()`: Monday is 0, Sunday is 6. */
  type Weekday = d: int | 0 <= d < 7

  const Monday: Weekday := 0
  const Thursday: Weekday := 3
  const Friday: Weekday := 4
  const Saturday: Weekday := 5
  const Sunday: Weekday := 6

  datatype Timestamp = Timestamp(day: int, time: TimeOfDay)

  /** `time(h, m, s, us)` */
  function TimeOf(h: int, m: int, s: int, us: int): (t: TimeOfDay)
    requires 0 <= h < 24 && 0 <= m < 60 && 0 <= s < 60 && 0 <= us < 1_000_000
    ensures t / 3_600_000_000 == h
    ensures t / 60_000_000 % 60 == m && t / 1_000_000 % 60 == s && t % 1_000_000 == us
  {
    ((h * 60 + m) * 60 + s) * 1_000_000 + us
  }

  /** Ordinal 1 (1 January of year 1) is a Monday, as in Python. */
  function WeekdayOf(day: int): Weekday
  {
    (day + 6) % 7
  }

  lemma {:induction false} WeekdayOfNextDay(day: int)
    ensures WeekdayOf(day + 1) == (WeekdayOf(day) + 1) % 7
  {
    var q := (day + 6) / 7;
    assert day + 6 == 7 * q + WeekdayOf(day);
    assert day + 7 == 7 * q + (WeekdayOf(day) + 1);
    if WeekdayOf(day) == 6 {
      assert day + 7 == 7 * (q + 1);
    }
  }

  /** The timestamp as microseconds on one time line. */
  function Instant(t: Timestamp): int
  {
    t.day * MicrosPerDay + t.time
  }

  /** `a <= b` between datetimes: by day, then by time of day. */
  predicate NotAfter(a: Timestamp, b: Timestamp)
  {
    a.day < b.day || (a.day == b.day && a.time <= b.time)
  }

  /** Comparing by day and time of day agrees with comparing on the time line. */
  lemma {:induction false} NotAfterIffInstant(a: Timestamp, b: Timestamp)
    ensures NotAfter(a, b) <==> Instant(a) <= Instant(b)
    ensures Instant(a) == Instant(b) <==> a == b
  {
    if a.day < b.day {
      assert a.day * MicrosPerDay + MicrosPerDay <= b.day * MicrosPerDay;
    } else if b.day < a.day {
      assert b.day * MicrosPerDay + MicrosPerDay <= a.day * MicrosPerDay;
    }
  }

  /** `t + timedelta(microseconds=d)`: carries whole days into the date. */
  function Plus(t: Timestamp, d: nat): (r: Timestamp)
    ensures Instant(r) == Instant(t) + d
  {
    var total := t.time + d;
    Timestamp(t.day + total / MicrosPerDay, total % MicrosPerDay)
  }
}
