/**
 * Calendar dates of the proleptic Gregorian calendar, as chrono's
 * `NaiveDate` and the `YYYY-MM-DD` strings of both front ends use them.
 */
module Dates {
  import opened Text

  datatype Date = Date(year: int, month: int, day: int)

  /** Gregorian leap-year rule, as `ensure_yearly_entries` writes it. */
  predicate IsLeapYear(y: int) {
    (y % 4 == 0 && y % 100 != 0) || y % 400 == 0
  }

  function DaysInYear(y: int): int {
    if IsLeapYear(y) then 366 else 365
  }

  function DaysInMonth(y: int, m: int): int
    requires 1 <= m <= 12
  {
    if m == 2 then (if IsLeapYear(y) then 29 else 28)
    else if m == 4 || m == 6 || m == 9 || m == 11 then 30
    else 31
  }

  /** A date that exists in the calendar. */
  predicate Valid(d: Date) {
    1 <= d.month <= 12 && 1 <= d.day <= DaysInMonth(d.year, d.month)
  }

  /** Chronological order of `NaiveDate`: by year, then month, then day. */
  predicate Less(a: Date, b: Date) {
    a.year < b.year || (a.year == b.year && (a.month < b.month || (a.month == b.month && a.day < b.day)))
  }

  predicate LessEq(a: Date, b: Date) {
    a == b || Less(a, b)
  }

  /** Number of days in the months of year `y` before month `m`. */
  function DaysBeforeMonth(y: int, m: int): (r: int)
    requires 1 <= m <= 13
    ensures r >= 0
  {
    if m == 1 then 0 else DaysBeforeMonth(y, m - 1) + DaysInMonth(y, m - 1)
  }

  /** The twelve month lengths add up to the year length: 366 in a leap year, 365 otherwise. */
  lemma MonthsFillYear(y: int)
    ensures DaysBeforeMonth(y, 13) == DaysInYear(y)
  {
    var feb := DaysInMonth(y, 2);
    assert DaysBeforeMonth(y, 2) == 31;
    assert DaysBeforeMonth(y, 3) == 31 + feb;
    assert DaysBeforeMonth(y, 4) == 62 + feb;
    assert DaysBeforeMonth(y, 5) == 92 + feb;
    assert DaysBeforeMonth(y, 6) == 123 + feb;
    assert DaysBeforeMonth(y, 7) == 153 + feb;
    assert DaysBeforeMonth(y, 8) == 184 + feb;
    assert DaysBeforeMonth(y, 9) == 215 + feb;
    assert DaysBeforeMonth(y, 10) == 245 + feb;
    assert DaysBeforeMonth(y, 11) == 276 + feb;
    assert DaysBeforeMonth(y, 12) == 306 + feb;
    assert DaysBeforeMonth(y, 13) == 337 + feb;
  }

  lemma {:induction false} DaysBeforeMonthMonotone(y: int, m1: int, m2: int)
    requires 1 <= m1 < m2 <= 13
    ensures DaysBeforeMonth(y, m1) + DaysInMonth(y, m1) <= DaysBeforeMonth(y, m2)
    decreases m2 - m1
  {
    if m1 + 1 < m2 {
      DaysBeforeMonthMonotone(y, m1 + 1, m2);
    }
  }

  /** Zero-based position of a date in its year (1 January is 0). */
  function Ordinal(d: Date): (r: int)
    requires Valid(d)
    ensures 0 <= r < DaysInYear(d.year)
  {
    MonthsFillYear(d.year);
    DaysBeforeMonthMonotone(d.year, d.month, 13);
    DaysBeforeMonth(d.year, d.month) + d.day - 1
  }

  /** The month of year `y` that holds the day at zero-based position `i`, searched from month `m`. */
  function MonthOf(y: int, i: int, m: int): (r: int)
    requires 1 <= m <= 12 && DaysBeforeMonth(y, m) <= i < DaysInYear(y)
    ensures m <= r <= 12
    ensures DaysBeforeMonth(y, r) <= i < DaysBeforeMonth(y, r) + DaysInMonth(y, r)
    decreases 12 - m
  {
    MonthsFillYear(y);
    if m == 12 || i < DaysBeforeMonth(y, m + 1) then m else MonthOf(y, i, m + 1)
  }

  /** The date `start_date + Duration::days(i)` with `start_date` 1 January of `y`, for `i` within the year. */
  function NthDay(y: int, i: int): (d: Date)
    requires 0 <= i < DaysInYear(y)
    ensures Valid(d) && d.year == y && Ordinal(d) == i
  {
    var m := MonthOf(y, i, 1);
    Date(y, m, i - DaysBeforeMonth(y, m) + 1)
  }

  /** Every valid date is reached by counting days from 1 January of its year. */
  lemma NthDayOrdinal(d: Date)
    requires Valid(d)
    ensures NthDay(d.year, Ordinal(d)) == d
  {
    var y, i := d.year, Ordinal(d);
    var m := MonthOf(y, i, 1);
    if m < d.month {
      DaysBeforeMonthMonotone(y, m, d.month);
    } else if d.month < m {
      DaysBeforeMonthMonotone(y, d.month, m);
    }
  }

  /** Distinct positions within a year are distinct dates. */
  lemma NthDayInjective(y: int, i: int, j: int)
    requires 0 <= i < DaysInYear(y) && 0 <= j < DaysInYear(y)
    requires NthDay(y, i) == NthDay(y, j)
    ensures i == j
  {
  }

  function Pad2(n: int): string
    requires 0 <= n < 100
  {
    [DigitChar(n / 10), DigitChar(n % 10)]
  }

  function Pad4(n: int): string
    requires 0 <= n < 10000
  {
    Pad2(n / 100) + Pad2(n % 100)
  }

  /** Dates that chrono renders with `%Y` as exactly four digits. */
  predicate Formattable(d: Date) {
    Valid(d) && 0 <= d.year <= 9999
  }

  /** `date.format("%Y-%m-%d")`. */
  function Format(d: Date): (r: string)
    requires Formattable(d)
    ensures |r| == 10 && r[4] == '-' && r[7] == '-'
  {
    Pad4(d.year) + "-" + Pad2(d.month) + "-" + Pad2(d.day)
  }

  lemma Pad2Injective(a: int, b: int)
    requires 0 <= a < 100 && 0 <= b < 100
    requires Pad2(a) == Pad2(b)
    ensures a == b
  {
    assert DigitChar(a / 10) == DigitChar(b / 10);
    assert DigitChar(a % 10) == DigitChar(b % 10);
    assert (DigitChar(a / 10) as int) == 48 + a / 10;
    assert (DigitChar(b / 10) as int) == 48 + b / 10;
    assert (DigitChar(a % 10) as int) == 48 + a % 10;
    assert (DigitChar(b % 10) as int) == 48 + b % 10;
  }

  /** Distinct dates have distinct `YYYY-MM-DD` strings. */
  lemma FormatInjective(a: Date, b: Date)
    requires Formattable(a) && Formattable(b)
    requires Format(a) == Format(b)
    ensures a == b
  {
    var fa, fb := Format(a), Format(b);
    assert fa[0..2] == Pad2(a.year / 100) && fb[0..2] == Pad2(b.year / 100);
    assert fa[2..4] == Pad2(a.year % 100) && fb[2..4] == Pad2(b.year % 100);
    assert fa[5..7] == Pad2(a.month) && fb[5..7] == Pad2(b.month);
    assert fa[8..10] == Pad2(a.day) && fb[8..10] == Pad2(b.day);
    Pad2Injective(a.year / 100, b.year / 100);
    Pad2Injective(a.year % 100, b.year % 100);
    Pad2Injective(a.month, b.month);
    Pad2Injective(a.day, b.day);
  }
}
