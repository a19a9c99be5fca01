/**
 * Calendar dates as integer day numbers (1970-01-01 is day 0), with the
 * overflow rules of JavaScript's `new Date(year, monthIndex, day)`: a month
 * index outside 0..11 rolls into the neighbouring years and a day outside
 * the month rolls into the neighbouring months. Time of day and time zones
 * are not modelled.
 */
module Dates {

  /** A local calendar date as JavaScript's `Date` reports it: `getFullYear`, `getMonth` (0-based), `getDate`. */
  datatype Civil = Civil(year: int, month0: int, day: int)

  /** The moment an operation runs: its `toISOString()` and its local calendar date. */
  datatype Clock = Clock(timestamp: string, today: Civil)

  predicate IsLeapYear(y: int) {
    (y % 4 == 0 && y % 100 != 0) || y % 400 == 0
  }

  /** Length of month `m` (1..12) of year `y` in the proleptic Gregorian calendar. */
  function DaysInMonth(y: int, m: int): int
    requires 1 <= m <= 12
  {
    if m == 2 then (if IsLeapYear(y) then 29 else 28)
    else if m == 4 || m == 6 || m == 9 || m == 11 then 30
    else 31
  }

  /** Days from 0000-03-01 to the first of March of year `y` (the year of H. Hinnant's days-from-civil). */
  function MarchBase(y: int): int {
    var era := y / 400;
    var yoe := y - era * 400;
    era * 146097 + yoe * 365 + yoe / 4 - yoe / 100
  }

  /** Days from the first of March to the first of month `mp` counted from March (0..11). */
  function MonthOffset(mp: int): int
    requires 0 <= mp < 12
  {
    (153 * mp + 2) / 5
  }

  /** Day number of the first day of month `m` (1..12) of year `y`. */
  function FirstOfMonth(y: int, m: int): int
    requires 1 <= m <= 12
  {
    if m > 2 then MarchBase(y) + MonthOffset(m - 3) - 719468
    else MarchBase(y - 1) + MonthOffset(m + 9) - 719468
  }

  /** `new Date(y, m0, d)` as a day number: month and day overflow carried as JavaScript does. */
  function MakeDay(y: int, m0: int, d: int): int {
    FirstOfMonth(y + m0 / 12, m0 % 12 + 1) + d - 1
  }

  function DayOf(c: Civil): int {
    MakeDay(c.year, c.month0, c.day)
  }

  /** `date.setMonth(date.getMonth() + k)`: same day of the month, `k` months later, with overflow. */
  function AddMonths(c: Civil, k: int): (r: int)
    ensures k == 12 ==> r == MakeDay(c.year + 1, c.month0, c.day)
  {
    MakeDay(c.year, c.month0 + k, c.day)
  }

  /** The epoch is day 0. */
  lemma EpochIsZero()
    ensures MakeDay(1970, 0, 1) == 0
  {
    assert 1969 / 400 == 4;
    assert MarchBase(1969) == 719162;
    assert MonthOffset(10) == 306;
  }

  lemma MarchBaseOf(y: int, q: int, r: int)
    requires 0 <= r < 400 && y == 400 * q + r
    ensures MarchBase(y) == q * 146097 + r * 365 + r / 4 - r / 100
  {
    assert y / 400 == q;
  }

  lemma ResidueOf4(y: int, q: int, r: int)
    requires 0 <= r < 400 && y == 400 * q + r
    ensures y % 4 == r % 4
  {
    ModOfSplit4(y, 100 * q + r / 4, r % 4);
  }

  lemma ModOfSplit4(y: int, t: int, b: int)
    requires 0 <= b < 4 && y == 4 * t + b
    ensures y % 4 == b
  {
  }

  lemma ModOfSplit100(y: int, t: int, b: int)
    requires 0 <= b < 100 && y == 100 * t + b
    ensures y % 100 == b
  {
  }

  lemma ResidueOf100(y: int, q: int, r: int)
    requires 0 <= r < 400 && y == 400 * q + r
    ensures y % 100 == r % 100
  {
    ModOfSplit100(y, 4 * q + r / 100, r % 100);
  }

  lemma QuotientStep(r: int, k: int)
    requires k == 4 || k == 100
    requires 0 < r
    ensures r / k - (r - 1) / k == if r % k == 0 then 1 else 0
  {
    var a, b := r / k, (r - 1) / k;
    assert r == k * a + r % k;
    assert r - 1 == k * b + (r - 1) % k;
  }

  lemma MarchYearStep(y: int)
    ensures MarchBase(y) - MarchBase(y - 1) ==
      if y % 400 == 0 then 366
      else 365 + (if (y % 400) % 4 == 0 then 1 else 0) - (if (y % 400) % 100 == 0 then 1 else 0)
  {
    var q, r := y / 400, y % 400;
    MarchBaseOf(y, q, r);
    if r == 0 {
      MarchBaseOf(y - 1, q - 1, 399);
    } else {
      MarchBaseOf(y - 1, q, r - 1);
      QuotientStep(r, 4);
      QuotientStep(r, 100);
    }
  }

  /** A year from March to March has 366 days exactly when it ends in a leap February. */
  lemma MarchYear(y: int)
    ensures MarchBase(y) - MarchBase(y - 1) == if IsLeapYear(y) then 366 else 365
  {
    MarchYearStep(y);
    var r := y % 400;
    ResidueOf4(y, y / 400, r);
    ResidueOf100(y, y / 400, r);
    assert IsLeapYear(y) <==> r == 0 || (r % 4 == 0 && r % 100 != 0);
  }

  /** Consecutive months of one year are exactly `DaysInMonth` apart. */
  lemma MonthsAreContiguous(y: int, m: int)
    requires 1 <= m < 12
    ensures FirstOfMonth(y, m + 1) == FirstOfMonth(y, m) + DaysInMonth(y, m)
  {
    if m == 2 {
      MarchYear(y);
    }
  }

  /** December runs into January of the next year. */
  lemma YearsAreContiguous(y: int)
    ensures FirstOfMonth(y + 1, 1) == FirstOfMonth(y, 12) + 31
  {
  }

  /** A day past the end of the month is the first day of the next month. */
  lemma DayOverflow(y: int, m0: int)
    requires 0 <= m0 < 11
    ensures MakeDay(y, m0, DaysInMonth(y, m0 + 1) + 1) == MakeDay(y, m0 + 1, 1)
  {
    assert m0 / 12 == 0 && m0 % 12 == m0;
    assert (m0 + 1) / 12 == 0 && (m0 + 1) % 12 == m0 + 1;
    MonthsAreContiguous(y, m0 + 1);
  }
}
