/** The local clock the dashboard reads through `Date`: calendar day and
    minutes since local midnight, for a fixed offset from UTC and no
    daylight-saving changes. */
module LocalTime {
  import opened Types

  const MsPerSecond: int := 1000
  const MsPerMinute: int := 60000
  const MsPerHour: int := 3600000
  const MsPerDay: int := 86400000
  const MinutesPerDay: int := 1440

  /** Offset of local time from UTC, in milliseconds. */
  const UtcOffsetMs: int := 0

  /** The local calendar day of an instant (what `toDateString` tells apart). */
  function Day(t: Instant): int
  {
    (t + UtcOffsetMs) / MsPerDay
  }

  /** `getHours() * 60 + getMinutes()` of an instant. */
  function MinuteOfDay(t: Instant): (m: nat)
    ensures m < MinutesPerDay
  {
    ((t + UtcOffsetMs) % MsPerDay) / MsPerMinute
  }

  /** The instant at the start of a given minute of a given local day. */
  function At(day: int, minute: int): Instant
  {
    day * MsPerDay + minute * MsPerMinute - UtcOffsetMs
  }

  lemma AtRoundTrip(day: int, minute: int)
    requires 0 <= minute < MinutesPerDay
    ensures Day(At(day, minute)) == day
    ensures MinuteOfDay(At(day, minute)) == minute
  {
    var x := At(day, minute) + UtcOffsetMs;
    assert x == day * MsPerDay + minute * MsPerMinute;
    assert x / MsPerDay == day;
    assert x % MsPerDay == minute * MsPerMinute;
  }
}
