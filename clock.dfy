/**
 * The one clock of the model: local time as whole seconds. Every operation that reads
 * `datetime.now()` takes the reading as a parameter `now`.
 */
module Clock {

  const SecondsPerDay: int := 86400
  const SecondsPerHour: int := 3600

  /** The calendar day of an instant (`now.date()`), numbered from the epoch. */
  function DayOf(now: int): int {
    now / SecondsPerDay
  }

  /** The hour of the day of an instant (`now.hour`). */
  function HourOf(now: int): (h: int)
    ensures 0 <= h < 24
  {
    (now % SecondsPerDay) / SecondsPerHour
  }

  /** Instants on the same day share `DayOf`, and a day later is the next day. */
  lemma DayOfNextDay(now: int)
    ensures DayOf(now + SecondsPerDay) == DayOf(now) + 1
    ensures HourOf(now + SecondsPerDay) == HourOf(now)
  {
  }
}
