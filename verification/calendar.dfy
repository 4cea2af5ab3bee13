/**
 * Calendar dates at whole-day granularity, in the proleptic Gregorian
 * calendar that JavaScript's `Date` uses, and the week number the weekly
 * chart buckets by.
 */
module Calendar {

  /** A `quiz_date`: a year and the number of whole days since 1 January of
      that year (0 for 1 January). */
  datatype Date = Date(year: int, dayOfYear: nat)

  predicate IsLeapYear(y: int) {
    y % 4 == 0 && (y % 100 != 0 || y % 400 == 0)
  }

  function DaysInYear(y: int): nat {
    if IsLeapYear(y) then 366 else 365
  }

  /** A date that names a day of its own year. */
  predicate ValidDate(d: Date) {
    d.dayOfYear < DaysInYear(d.year)
  }

  /** The number of days from 1 January of year 0 to 1 January of year `y`. */
  function DaysBeforeYear(y: int): int {
    365 * y + (y + 3) / 4 - (y + 99) / 100 + (y + 399) / 400
  }

  /** The date's position on a single day line: what subtracting two `Date`
      objects measures, in days. */
  function DayNumber(d: Date): (n: int)
    ensures ValidDate(d) ==> DaysBeforeYear(d.year) <= n < DaysBeforeYear(d.year + 1)
  {
    YearLength(d.year);
    DaysBeforeYear(d.year) + d.dayOfYear
  }

  /** The day after `d`: the next day of the year, or 1 January of the next year. */
  function NextDay(d: Date): (e: Date)
    requires ValidDate(d)
    ensures ValidDate(e)
    ensures DayNumber(e) == DayNumber(d) + 1
  {
    YearLength(d.year);
    if d.dayOfYear + 1 < DaysInYear(d.year) then Date(d.year, d.dayOfYear + 1) else Date(d.year + 1, 0)
  }

  /** `getDay()`: 0 for Sunday up to 6 for Saturday (1 January of year 0 was a Saturday). */
  function Weekday(d: Date): (r: nat)
    ensures r < 7
  {
    (DayNumber(d) + 6) % 7
  }

  /** `startOfYear.getDay()` */
  function Jan1Weekday(y: int): (r: nat)
    ensures r < 7
  {
    Weekday(Date(y, 0))
  }

  /** 1 January 1970, the first day of the Unix epoch, was a Thursday. */
  lemma EpochThursday()
    ensures Weekday(Date(1970, 0)) == 4
  {
  }

  /** `getDay()` advances by one from each day to the next, Saturday wrapping to Sunday. */
  lemma WeekdayNextDay(d: Date)
    requires ValidDate(d)
    ensures Weekday(NextDay(d)) == (Weekday(d) + 1) % 7
  {
    var n := DayNumber(d) + 6;
    assert DayNumber(NextDay(d)) + 6 == n + 1;
    ModShift(n / 7, n % 7 + 1);
  }

  /** Each year starts as many weekdays after the previous one as that year has days, modulo 7. */
  lemma Jan1WeekdayNextYear(y: int)
    ensures Jan1Weekday(y + 1) == (Jan1Weekday(y) + DaysInYear(y)) % 7
  {
    YearLength(y);
    var n := DaysBeforeYear(y) + 6;
    assert DayNumber(Date(y + 1, 0)) + 6 == n + DaysInYear(y);
    ModShift(n / 7, n % 7 + DaysInYear(y));
  }

  /** `getWeekFromDate`: `Math.ceil((pastDaysOfYear + startOfYear.getDay() + 1) / 7)`. */
  function WeekFromDate(d: Date): (w: nat)
    ensures 7 * (w - 1) < d.dayOfYear + Jan1Weekday(d.year) + 1 <= 7 * w
  {
    (d.dayOfYear + Jan1Weekday(d.year) + 1 + 6) / 7
  }

  /** A year's first day follows the previous year's last. */
  lemma YearLength(y: int)
    ensures DaysBeforeYear(y + 1) == DaysBeforeYear(y) + DaysInYear(y)
  {
    assert (y + 4) / 4 == (y + 3) / 4 + (if y % 4 == 0 then 1 else 0);
    assert (y + 100) / 100 == (y + 99) / 100 + (if y % 100 == 0 then 1 else 0);
    assert (y + 400) / 400 == (y + 399) / 400 + (if y % 400 == 0 then 1 else 0);
  }

  lemma {:induction false} YearsAhead(y: int, z: int)
    requires y < z
    ensures DaysBeforeYear(y) + DaysInYear(y) <= DaysBeforeYear(z)
    decreases z - y
  {
    YearLength(y);
    if y + 1 < z {
      YearsAhead(y + 1, z);
    }
  }

  /** Different valid dates lie on different days, so ordering by `DayNumber`
      orders them strictly. */
  lemma DayNumberInjective(a: Date, b: Date)
    requires ValidDate(a) && ValidDate(b) && a != b
    ensures DayNumber(a) != DayNumber(b)
  {
    if a.year < b.year {
      YearsAhead(a.year, b.year);
    } else if b.year < a.year {
      YearsAhead(b.year, a.year);
    }
  }

  /** Every date falls in week 1 or later. */
  lemma WeekAtLeastOne(d: Date)
    ensures WeekFromDate(d) >= 1
  {
  }

  /** Later days of the same year never fall in an earlier week. */
  lemma WeekNonDecreasing(y: int, d1: nat, d2: nat)
    requires d1 <= d2
    ensures WeekFromDate(Date(y, d1)) <= WeekFromDate(Date(y, d2))
  {
  }

  /** From one day to the next the week number grows by at most one. */
  lemma WeekStep(y: int, d: nat)
    ensures WeekFromDate(Date(y, d)) <= WeekFromDate(Date(y, d + 1)) <= WeekFromDate(Date(y, d)) + 1
  {
  }

  lemma CeilStep(n: nat)
    ensures (n + 7) / 7 == (n + 6) / 7 + 1 <==> n % 7 == 0
  {
    var q, r := n / 7, n % 7;
    assert n == 7 * q + r;
    assert (n + 7) / 7 == q + (r + 7) / 7;
    assert (n + 6) / 7 == q + (r + 6) / 7;
  }

  lemma ModShift(q: int, m: int)
    ensures (7 * q + m) % 7 == m % 7
  {
  }

  /** Weeks begin on Sundays: the week number goes up exactly on a day whose
      `getDay()` is 0. */
  lemma WeekStartsOnSunday(y: int, d: nat)
    ensures WeekFromDate(Date(y, d + 1)) == WeekFromDate(Date(y, d)) + 1
            <==> Weekday(Date(y, d + 1)) == 0
  {
    var s := Jan1Weekday(y);
    var x := DaysBeforeYear(y) + 6;
    var q := x / 7;
    assert x == 7 * q + s;
    assert DayNumber(Date(y, d + 1)) + 6 == 7 * q + (s + d + 1);
    ModShift(q, s + d + 1);
    CeilStep(d + s + 1);
  }
}
