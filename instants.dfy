/** Instants as integer seconds since the Unix epoch, in UTC, and the
    optional time window a query carries. */
module Instants {
  import opened Wrappers

  type Instant = int

  const HOUR: int := 3600
  const DAY: int := 86400
  const WEEK: int := 7 * DAY

  /** The start of the UTC calendar day containing `t` (Python's
      `t.replace(hour=0, minute=0, second=0, microsecond=0)` on an aware UTC
      datetime). The remainder is Euclidean, so this floors for instants
      before the epoch as well. */
  function Midnight(t: Instant): (m: Instant)
    ensures m <= t < m + DAY
    ensures m % DAY == 0
  {
    t - t % DAY
  }

  /** The start of the UTC hour containing `t` (Django's `TruncHour`). */
  function HourOf(t: Instant): (h: Instant)
    ensures h <= t < h + HOUR
    ensures h % HOUR == 0
  {
    t - t % HOUR
  }

  /** The midnight of the day before is exactly one day before this day's
      midnight. */
  lemma MidnightDayBefore(t: Instant)
    ensures Midnight(t - DAY) == Midnight(t) - DAY
  {
    assert (t - DAY) % DAY == t % DAY;
  }

  /** A time window; an absent bound imposes no constraint. */
  datatype Window = Window(start: Option<Instant>, end: Option<Instant>)

  /** The window with neither bound: all recorded history. */
  const Unbounded: Window := Window(None, None)

  /** Whether `t` lies in `w`. Both bounds are inclusive, as the source's
      `timestamp__gte` and `timestamp__lte` filters are. */
  predicate InWindow(t: Instant, w: Window) {
    (w.start.None? || w.start.value <= t) && (w.end.None? || t <= w.end.value)
  }
}
