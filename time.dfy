/**
 * Time as integer milliseconds since the epoch. "Now" is always passed in.
 * `Midnight` stands for `Date.setHours(0, 0, 0, 0)` and `AddMonths` for
 * `Date.setMonth(getMonth() + m)`; both are modelled on a UTC day and a
 * fixed 30-day month, which is all the properties below rely on.
 */
module Time {

  const SecondMs: int := 1000
  const MinuteMs: int := 60 * SecondMs
  const HourMs: int := 60 * MinuteMs
  const DayMs: int := 24 * HourMs
  const MonthMs: int := 30 * DayMs
  /** The life of a two-factor code (10 minutes). */
  const TenMinutesMs: int := 10 * MinuteMs

  /** The start of the day containing `t`. */
  function Midnight(t: int): (r: int)
    ensures r <= t < r + DayMs
    ensures r % DayMs == 0
  {
    t - t % DayMs
  }

  lemma MidnightIdempotent(t: int)
    ensures Midnight(Midnight(t)) == Midnight(t)
  {
  }

  /** Two instants of the same day have the same midnight. */
  lemma {:induction false} MidnightSameDay(t: int, u: int)
    requires Midnight(t) <= u < Midnight(t) + DayMs
    ensures Midnight(u) == Midnight(t)
  {
    var m := Midnight(t);
    var k := m / DayMs;
    assert m == k * DayMs;
    assert u - k * DayMs < DayMs;
    assert u == k * DayMs + (u - k * DayMs);
    assert u % DayMs == u - k * DayMs;
  }

  /** `t` advanced by `months` calendar months. */
  function AddMonths(t: int, months: int): (r: int)
    ensures months == 0 ==> r == t
    ensures months > 0 ==> r > t
  {
    t + months * MonthMs
  }

  lemma AddMonthsMonotone(t: int, m1: int, m2: int)
    requires m1 <= m2
    ensures AddMonths(t, m1) <= AddMonths(t, m2)
  {
  }

  function AddDays(t: int, days: int): (r: int)
    ensures days > 0 ==> r > t
  {
    t + days * DayMs
  }
}
