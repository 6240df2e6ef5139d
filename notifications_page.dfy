/**
 * The notification list (client/src/pages/notifications/NotificationsPage.jsx):
 * how long ago a notification arrived, and its icon and colour. Times are
 * milliseconds; the clock is an input. Both languages use the same buckets
 * and differ only in wording, which is not modelled.
 */
module NotificationsPage {

  /** The elapsed-time label: "now", or a count of minutes, hours or days, or the date itself. */
  datatype Ago = JustNow | MinutesAgo(minutes: int) | HoursAgo(hours: int) | DaysAgo(days: int) | OnDate

  const MinuteMs: int := 60000

  /**
   * `formatDate`: whole minutes, hours and days elapsed (rounded down), and
   * the first bucket the elapsed time falls in.
   */
  function AgoOf(now: int, date: int): (a: Ago)
    ensures a == JustNow <==> now - date < MinuteMs
    ensures a.MinutesAgo? ==> 1 <= a.minutes < 60
    ensures a.HoursAgo? ==> 1 <= a.hours < 24
    ensures a.DaysAgo? ==> 1 <= a.days < 7
  {
    var diffMins := (now - date) / MinuteMs;
    var diffHours := diffMins / 60;
    var diffDays := diffHours / 24;
    if diffMins < 1 then JustNow
    else if diffMins < 60 then MinutesAgo(diffMins)
    else if diffHours < 24 then HoursAgo(diffHours)
    else if diffDays < 7 then DaysAgo(diffDays)
    else OnDate
  }

  /**
   * Each label says how long ago the notification came, to the unit it
   * shows: under a minute (a date in the future included) is now, and a
   * week or more shows the date.
   */
  lemma AgoBuckets(now: int, date: int)
    ensures var d, a := now - date, AgoOf(now, date);
      (a == JustNow <==> d < MinuteMs) &&
      (a.MinutesAgo? ==> 1 <= a.minutes < 60 && a.minutes * MinuteMs <= d < (a.minutes + 1) * MinuteMs) &&
      (a.HoursAgo? ==> 1 <= a.hours < 24 && a.hours * 60 * MinuteMs <= d < (a.hours + 1) * 60 * MinuteMs) &&
      (a.DaysAgo? ==> 1 <= a.days < 7 && a.days * 24 * 60 * MinuteMs <= d < (a.days + 1) * 24 * 60 * MinuteMs) &&
      (a == OnDate <==> d >= 7 * 24 * 60 * MinuteMs)
  {
    var d := now - date;
    var m := d / MinuteMs;
    var h := m / 60;
    var days := h / 24;
    assert m * MinuteMs <= d < (m + 1) * MinuteMs;
    assert h * 60 <= m < (h + 1) * 60;
    assert days * 24 <= h < (days + 1) * 24;
  }

  datatype Icon = Clock | Check | WarningSign | Siren | Megaphone | Cross | Bell

  datatype Colour = PrimaryColour | SuccessColour | WarningColour | DangerColour

  /** `getNotificationIcon`: one icon per notification type, a bell for any other. */
  function IconOf(kind: string): (i: Icon)
    ensures i == Bell <==> kind !in {"reminder", "confirmation", "delay", "alert", "info", "cancellation"}
    ensures i == Clock <==> kind == "reminder"
    ensures i == Check <==> kind == "confirmation"
    ensures i == WarningSign <==> kind == "delay"
    ensures i == Siren <==> kind == "alert"
    ensures i == Megaphone <==> kind == "info"
    ensures i == Cross <==> kind == "cancellation"
  {
    if kind == "reminder" then Clock
    else if kind == "confirmation" then Check
    else if kind == "delay" then WarningSign
    else if kind == "alert" then Siren
    else if kind == "info" then Megaphone
    else if kind == "cancellation" then Cross
    else Bell
  }

  /** `getNotificationColor`: danger for alerts and cancellations, and primary for any unknown type. */
  function ColourOf(kind: string): (c: Colour)
    ensures kind !in {"reminder", "confirmation", "delay", "alert", "info", "cancellation"} ==> c == PrimaryColour
    ensures c == DangerColour <==> kind == "alert" || kind == "cancellation"
    ensures c == SuccessColour <==> kind == "confirmation"
    ensures c == WarningColour <==> kind == "delay"
  {
    if kind == "reminder" then PrimaryColour
    else if kind == "confirmation" then SuccessColour
    else if kind == "delay" then WarningColour
    else if kind == "alert" then DangerColour
    else if kind == "info" then PrimaryColour
    else if kind == "cancellation" then DangerColour
    else PrimaryColour
  }
}
