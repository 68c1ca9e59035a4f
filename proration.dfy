/**
 * The pause-window prorator: `calculatePausedDays` of the dashboard, which
 * the reports page repeats inline.  Dates are day numbers; the month runs
 * from `MonthStart` to `MonthEnd` of the year `new Date(selectedYear, ...)`
 * builds, `FullYear(year)`, while the pause dates are parsed as written.
 */
module Proration {
  import opened Wrappers
  import opened Calendar
  import opened Records

  /**
   * The paused days of month [ms, me] for a pause from day `s` to day `e`:
   * 0 without overlap, otherwise the inclusive length of the clipped interval.
   * Nothing checks `s <= e`.
   */
  function ClippedCount(s: int, e: int, ms: int, me: int): (n: int)
    requires ms <= me
    ensures n <= me - ms + 1
  {
    if e < ms || s > me then 0
    else
      var effectiveStart := if s < ms then ms else s;
      var effectiveEnd := if e > me then me else e;
      effectiveEnd - effectiveStart + 1
  }

  /** `calculatePausedDays(customer)` for month `month0` of `year`. */
  function PausedDays(c: Customer, year: int, month0: int): (n: int)
    requires 0 <= month0 < 12
    ensures n <= DaysInMonth(FullYear(year), month0)
    ensures c.pauseStart.None? || c.pauseEnd.None? ==> n == 0
  {
    if c.pauseStart.None? || c.pauseEnd.None? then 0
    else ClippedCount(DayNumber(c.pauseStart.value), DayNumber(c.pauseEnd.value),
                      MonthStart(FullYear(year), month0), MonthEnd(FullYear(year), month0))
  }

  /** `DAYS_IN_MONTH - pausedDays`. */
  function ActiveDays(c: Customer, year: int, month0: int): (n: int)
    requires 0 <= month0 < 12
    ensures n >= 0
  {
    DaysInMonth(FullYear(year), month0) - PausedDays(c, year, month0)
  }

  /** Independent count: how many days x with lo <= x <= hi also satisfy s <= x <= e. */
  function CoveredDays(lo: int, hi: int, s: int, e: int): nat
    decreases hi - lo
  {
    if hi < lo then 0 else CoveredDays(lo, hi - 1, s, e) + (if s <= hi <= e then 1 else 0)
  }

  lemma {:induction false} CoveredDaysIsClipped(lo: int, hi: int, s: int, e: int)
    requires lo <= hi + 1 && s <= e
    ensures CoveredDays(lo, hi, s, e) == if lo <= hi then ClippedCount(s, e, lo, hi) else 0
    decreases hi - lo
  {
    if lo <= hi {
      CoveredDaysIsClipped(lo, hi - 1, s, e);
    }
  }

  predicate PauseSet(c: Customer)
  {
    c.pauseStart.Some? && c.pauseEnd.Some?
  }

  /** Both dates set and the start not after the end. */
  predicate PauseOrdered(c: Customer)
  {
    PauseSet(c) && DayNumber(c.pauseStart.value) <= DayNumber(c.pauseEnd.value)
  }

  /** The pause interval shares at least one day with the month. */
  predicate PauseOverlaps(c: Customer, year: int, month0: int)
    requires 0 <= month0 < 12
  {
    PauseSet(c)
    && DayNumber(c.pauseEnd.value) >= MonthStart(FullYear(year), month0)
    && DayNumber(c.pauseStart.value) <= MonthEnd(FullYear(year), month0)
  }

  /**
   * For an ordered pause the paused days are exactly the days of the month
   * that fall inside the pause, counted one by one.
   */
  lemma PausedDaysCountsDays(c: Customer, year: int, month0: int)
    requires 0 <= month0 < 12 && PauseOrdered(c)
    ensures PausedDays(c, year, month0)
            == CoveredDays(MonthStart(FullYear(year), month0), MonthEnd(FullYear(year), month0),
                           DayNumber(c.pauseStart.value), DayNumber(c.pauseEnd.value))
  {
    CoveredDaysIsClipped(MonthStart(FullYear(year), month0), MonthEnd(FullYear(year), month0),
                         DayNumber(c.pauseStart.value), DayNumber(c.pauseEnd.value));
  }

  /**
   * Paused days are 0 without an overlap, and for an ordered pause that
   * overlaps they lie in 1..DaysInMonth, so active days lie in 0..DaysInMonth-1.
   */
  lemma PausedDaysBounds(c: Customer, year: int, month0: int)
    requires 0 <= month0 < 12
    ensures !PauseOverlaps(c, year, month0) ==> PausedDays(c, year, month0) == 0
    ensures !PauseOverlaps(c, year, month0) ==> ActiveDays(c, year, month0) == DaysInMonth(FullYear(year), month0)
    ensures PauseOrdered(c) && PauseOverlaps(c, year, month0) ==>
              1 <= PausedDays(c, year, month0) <= DaysInMonth(FullYear(year), month0)
              && 0 <= ActiveDays(c, year, month0) < DaysInMonth(FullYear(year), month0)
  {
  }

  /**
   * An inverted pause (end before start) inside the month is not rejected:
   * it yields `end - start + 1`, a count below 1.
   */
  lemma InvertedPauseCount(c: Customer, year: int, month0: int)
    requires 0 <= month0 < 12 && PauseSet(c)
    requires DayNumber(c.pauseEnd.value) < DayNumber(c.pauseStart.value)
    requires MonthStart(FullYear(year), month0) <= DayNumber(c.pauseEnd.value)
    requires DayNumber(c.pauseStart.value) <= MonthEnd(FullYear(year), month0)
    ensures PausedDays(c, year, month0) == DayNumber(c.pauseEnd.value) - DayNumber(c.pauseStart.value) + 1
    ensures PausedDays(c, year, month0) < 1
    ensures ActiveDays(c, year, month0) >= DaysInMonth(FullYear(year), month0)
  {
  }
}
