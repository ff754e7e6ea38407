/**
 * Calendar dates as the application stores them (`yyyy-MM-dd`), in the
 * proleptic Gregorian calendar, with the day arithmetic of JavaScript's
 * `Date.setDate`, date-fns `addWeeks` and `Date.setFullYear`.
 */
module Dates {

  datatype Date = Date(year: int, month: int, day: int)

  /** A moment: a calendar date and the milliseconds elapsed since its local midnight. */
  datatype Instant = Instant(date: Date, msOfDay: int)

  const MsPerDay: int := 86_400_000

  predicate IsLeapYear(y: int) {
    y % 4 == 0 && (y % 100 != 0 || y % 400 == 0)
  }

  function DaysInMonth(y: int, m: int): int {
    if m == 2 then (if IsLeapYear(y) then 29 else 28)
    else if m == 4 || m == 6 || m == 9 || m == 11 then 30
    else 31
  }

  predicate Valid(d: Date) {
    1 <= d.month <= 12 && 1 <= d.day <= DaysInMonth(d.year, d.month)
  }

  predicate ValidInstant(t: Instant) {
    Valid(t.date) && 0 <= t.msOfDay < MsPerDay
  }

  /** Days of the year before the first of month `m`. */
  function DaysBeforeMonth(y: int, m: int): int
    requires 1 <= m <= 12
  {
    [0, 31, 59, 90, 120, 151, 181, 212, 243, 273, 304, 334][m - 1]
      + (if m > 2 && IsLeapYear(y) then 1 else 0)
  }

  /** Days from 0001-01-01 to the first of January of year `y`. */
  function DaysBeforeYear(y: int): int {
    365 * (y - 1) + (y - 1) / 4 - (y - 1) / 100 + (y - 1) / 400
  }

  /** The day number of a date: 0001-01-01 is day 0. */
  function Ordinal(d: Date): int
    requires Valid(d)
  {
    DaysBeforeYear(d.year) + DaysBeforeMonth(d.year, d.month) + d.day - 1
  }

  /** `a` is a strictly earlier day than `b`. */
  predicate Before(a: Date, b: Date)
    requires Valid(a) && Valid(b)
  {
    Ordinal(a) < Ordinal(b)
  }

  /**
   * `a` falls on the same day as `b` or earlier; a string that is not a
   * calendar date parses to an invalid date, which is never on or before
   * anything.
   */
  predicate OnOrBefore(a: Date, b: Date) {
    Valid(a) && Valid(b) && Ordinal(a) <= Ordinal(b)
  }

  /** `a` is strictly later than `b`, comparing instants (JavaScript's `a > b` on Dates). */
  predicate Later(a: Instant, b: Instant)
    requires ValidInstant(a) && ValidInstant(b)
  {
    Ordinal(a.date) > Ordinal(b.date) || (Ordinal(a.date) == Ordinal(b.date) && a.msOfDay > b.msOfDay)
  }

  /** Local midnight of a date, which is what parsing `yyyy-MM-dd` yields. */
  function Midnight(d: Date): Instant {
    Instant(d, 0)
  }

  function NextDay(d: Date): Date {
    if d.day < DaysInMonth(d.year, d.month) then Date(d.year, d.month, d.day + 1)
    else if d.month < 12 then Date(d.year, d.month + 1, 1)
    else Date(d.year + 1, 1, 1)
  }

  /** `date.setDate(date.getDate() + n)` for `n >= 0`. */
  function AddDays(d: Date, n: nat): (r: Date)
    ensures Valid(d) ==> Valid(r)
    decreases n
  {
    if n == 0 then d
    else
      if Valid(d) then NextDayOrdinal(d); AddDays(NextDay(d), n - 1)
      else AddDays(NextDay(d), n - 1)
  }

  /** date-fns `addWeeks(d, w)`: the same time of day, `7 * w` calendar days later. */
  function AddWeeks(t: Instant, w: nat): (r: Instant)
    ensures r.msOfDay == t.msOfDay
    ensures ValidInstant(t) ==> ValidInstant(r)
  {
    Instant(AddDays(t.date, 7 * w), t.msOfDay)
  }

  /**
   * `date.setFullYear(date.getFullYear() + n)`: the same month and day in
   * year `year + n`; the 29th of February of a year that is not a leap
   * year is normalised to the 1st of March.
   */
  function AddYears(d: Date, n: int): (r: Date)
    ensures Valid(d) ==> Valid(r)
  {
    var y := d.year + n;
    if d.month == 2 && d.day == 29 && !IsLeapYear(y) then Date(y, 3, 1)
    else Date(y, d.month, d.day)
  }

  /** Counting multiples of `k` up to `y` adds one exactly at a multiple of `k`. */
  lemma DivStep(y: int, k: int)
    requires k == 4 || k == 100 || k == 400
    ensures y / k - (y - 1) / k == (if y % k == 0 then 1 else 0)
  {
    var q, r := (y - 1) / k, (y - 1) % k;
    assert y - 1 == k * q + r && 0 <= r < k;
    if r == k - 1 {
      assert y == k * (q + 1);
    } else {
      assert y == k * q + (r + 1) && 0 < r + 1 < k;
    }
  }

  /** Every hundredth year is a fourth year, every four-hundredth a hundredth. */
  lemma CenturyMultiples(y: int)
    ensures y % 100 == 0 ==> y % 4 == 0
    ensures y % 400 == 0 ==> y % 100 == 0
  {
    if y % 100 == 0 {
      assert y == 4 * (25 * (y / 100));
    }
    if y % 400 == 0 {
      assert y == 100 * (4 * (y / 400));
    }
  }

  /** A year is 366 days long exactly when it is a leap year. */
  lemma YearLength(y: int)
    ensures DaysBeforeYear(y + 1) - DaysBeforeYear(y) == (if IsLeapYear(y) then 366 else 365)
  {
    DivStep(y, 4);
    DivStep(y, 100);
    DivStep(y, 400);
    CenturyMultiples(y);
  }

  /** The next day is a valid date exactly one day number later. */
  lemma NextDayOrdinal(d: Date)
    requires Valid(d)
    ensures Valid(NextDay(d))
    ensures Ordinal(NextDay(d)) == Ordinal(d) + 1
  {
    if d.day == DaysInMonth(d.year, d.month) && d.month == 12 {
      YearLength(d.year);
    }
  }

  /** `n` days later is a valid date exactly `n` day numbers later. */
  lemma {:induction false} AddDaysOrdinal(d: Date, n: nat)
    requires Valid(d)
    ensures Valid(AddDays(d, n))
    ensures Ordinal(AddDays(d, n)) == Ordinal(d) + n
    decreases n
  {
    if n > 0 {
      NextDayOrdinal(d);
      AddDaysOrdinal(NextDay(d), n - 1);
    }
  }

  /** Adding weeks keeps an instant valid and moves it exactly `7 * w` days. */
  lemma AddWeeksOrdinal(t: Instant, w: nat)
    requires ValidInstant(t)
    ensures ValidInstant(AddWeeks(t, w))
    ensures Ordinal(AddWeeks(t, w).date) == Ordinal(t.date) + 7 * w
    ensures AddWeeks(t, w).msOfDay == t.msOfDay
  {
    AddDaysOrdinal(t.date, 7 * w);
  }
}
