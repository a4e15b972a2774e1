/** Instants are microseconds since the epoch, in UTC. Hours and weeks are numbered: hour `h` starts
    `h` hours after the epoch, week `w` on the Monday `w` weeks after 5 January 1970. */
module Instants {
  type Instant = int

  const HOUR: int := 3_600_000_000
  const DAY: int := 24 * HOUR
  const HOURS_PER_WEEK := 168
  const FIRST_MONDAY := 96

  /** `_floor_hour`. */
  function HourOf(t: Instant): int {
    t / HOUR
  }

  /** `_ceil_hour`. */
  function CeilHour(t: Instant): int {
    if t % HOUR == 0 then HourOf(t) else HourOf(t) + 1
  }

  /** `_week_floor`, `iso_week_start` and `date_trunc('week', …)`. */
  function WeekOf(hour: int): int {
    (hour - FIRST_MONDAY) / HOURS_PER_WEEK
  }

  function WeekStart(week: int): int {
    FIRST_MONDAY + HOURS_PER_WEEK * week
  }

  lemma WeekBounds(hour: int, week: int)
    ensures WeekOf(hour) == week <==> WeekStart(week) <= hour < WeekStart(week + 1)
  {
  }

  function Min(a: int, b: int): int { if a < b then a else b }

  function Max(a: int, b: int): int { if a < b then b else a }
}
