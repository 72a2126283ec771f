/**
 * Calendar arithmetic of the ECMAScript `Date` object (ECMA-262,
 * "Date Objects"): day numbers from the epoch, month lengths, MakeDay and
 * `Date.prototype.setMonth`. Dates are UTC dates at midnight; `month` is
 * the zero-based month index that `getMonth` returns.
 */
module Calendar {

  /** ECMA-262's msPerDay: a fixed 24-hour day. */
  const MsPerDay: int := 86400000

  predicate IsLeapYear(y: int) {
    y % 4 == 0 && (y % 100 != 0 || y % 400 == 0)
  }

  /** ECMA-262's DaysInYear. */
  function DaysInYear(y: int): int {
    if IsLeapYear(y) then 366 else 365
  }

  function DaysInMonth(y: int, m: int): int
    requires 0 <= m < 12
  {
    if m == 1 then (if IsLeapYear(y) then 29 else 28)
    else if m == 3 || m == 5 || m == 8 || m == 10 then 30
    else 31
  }

  /** Days of year `y` that lie before the first of month `m`. */
  function DaysBeforeMonth(y: int, m: int): int
    requires 0 <= m < 12
  {
    if m == 0 then 0 else DaysBeforeMonth(y, m - 1) + DaysInMonth(y, m - 1)
  }

  /** ECMA-262's DayFromYear: the day number of January 1 of year `y` (floor division). */
  function DayFromYear(y: int): int {
    365 * (y - 1970) + (y - 1969) / 4 - (y - 1901) / 100 + (y - 1601) / 400
  }

  /** The day number of the first day of month `m` of year `y`. */
  function MonthStart(y: int, m: int): int
    requires 0 <= m < 12
  {
    DayFromYear(y) + DaysBeforeMonth(y, m)
  }

  datatype CalendarDate = CalendarDate(year: int, month: int, day: int)

  predicate ValidDate(d: CalendarDate) {
    0 <= d.month < 12 && 1 <= d.day <= DaysInMonth(d.year, d.month)
  }

  /** Days since 1 January 1970 (negative before it). */
  function DayNumber(d: CalendarDate): int
    requires ValidDate(d)
  {
    MonthStart(d.year, d.month) + d.day - 1
  }

  /** The time value (milliseconds since the epoch) of midnight UTC on `d`. */
  function TimeValue(d: CalendarDate): int
    requires ValidDate(d)
  {
    DayNumber(d) * MsPerDay
  }

  /** A whole number of days, in milliseconds, divides evenly by the day length. */
  lemma WholeDays(k: int)
    ensures (k * MsPerDay) % MsPerDay == 0 && (k * MsPerDay) / MsPerDay == k
  {
  }

  /** Each month starts where the previous one ends. */
  lemma MonthStep(y: int, m: int)
    requires 0 <= m < 11
    ensures MonthStart(y, m + 1) == MonthStart(y, m) + DaysInMonth(y, m)
  {
  }

  /** Floor division by 12 of `12 y + x`. */
  lemma DivShift(y: int, x: int)
    ensures (y * 12 + x) / 12 == y + x / 12
    ensures (y * 12 + x) % 12 == x % 12
  {
  }

  lemma Step4(y: int)
    ensures (y - 1968) / 4 == (y - 1969) / 4 + (if y % 4 == 0 then 1 else 0)
  {
  }

  lemma Step100(y: int)
    ensures (y - 1900) / 100 == (y - 1901) / 100 + (if y % 100 == 0 then 1 else 0)
  {
  }

  lemma Step400(y: int)
    ensures (y - 1600) / 400 == (y - 1601) / 400 + (if y % 400 == 0 then 1 else 0)
  {
  }

  /** The first eleven months of a year last 334 days, 335 in a leap year. */
  lemma DaysBeforeDecember(y: int)
    ensures DaysBeforeMonth(y, 11) == if IsLeapYear(y) then 335 else 334
  {
    var leap := if IsLeapYear(y) then 1 else 0;
    assert DaysBeforeMonth(y, 1) == 31;
    assert DaysBeforeMonth(y, 2) == 59 + leap;
    assert DaysBeforeMonth(y, 3) == 90 + leap;
    assert DaysBeforeMonth(y, 4) == 120 + leap;
    assert DaysBeforeMonth(y, 5) == 151 + leap;
    assert DaysBeforeMonth(y, 6) == 181 + leap;
    assert DaysBeforeMonth(y, 7) == 212 + leap;
    assert DaysBeforeMonth(y, 8) == 243 + leap;
    assert DaysBeforeMonth(y, 9) == 273 + leap;
    assert DaysBeforeMonth(y, 10) == 304 + leap;
  }

  /** Year `y + 1` starts where December of year `y` ends. */
  lemma YearStep(y: int)
    ensures DayFromYear(y + 1) == MonthStart(y, 11) + 31
  {
    DaysBeforeDecember(y);
    Step4(y);
    Step100(y);
    Step400(y);
  }

  /**
   * The date `day - 1` days after the first of month `m` of year `y`: a day
   * past the end of the month rolls forward into the following months.
   */
  function RollForward(y: int, m: int, day: int): (r: CalendarDate)
    requires 0 <= m < 12 && day >= 1
    ensures ValidDate(r)
    ensures DayNumber(r) == MonthStart(y, m) + day - 1
    decreases day
  {
    var length := DaysInMonth(y, m);
    if day <= length then CalendarDate(y, m, day)
    else if m == 11 then
      YearStep(y);
      RollForward(y + 1, 0, day - length)
    else
      MonthStep(y, m);
      RollForward(y, m + 1, day - length)
  }

  /**
   * The date that `setMonth(month)` leaves in a Date holding `d` (ECMA-262's
   * `Date.prototype.setMonth`, through MakeDay): the month index carries
   * into the year by floor division by 12, the day of the month is kept
   * and rolls forward past the end of the target month.
   */
  function WithMonth(d: CalendarDate, month: int): (r: CalendarDate)
    requires ValidDate(d)
    ensures ValidDate(r)
    ensures DayNumber(r) == MonthStart(d.year + month / 12, month % 12) + d.day - 1
  {
    RollForward(d.year + month / 12, month % 12, d.day)
  }

  /** Consecutive years start `DaysInYear` days apart. */
  lemma YearLength(y: int)
    ensures DayFromYear(y + 1) == DayFromYear(y) + DaysInYear(y)
  {
    YearStep(y);
    DaysBeforeDecember(y);
  }

  /** The start of the `k`-th month counted from January of year 0. */
  function MonthStartAt(k: int): int {
    MonthStart(k / 12, k % 12)
  }

  /**
   * `setMonth(getMonth() + n)`: `d` advanced by `n` calendar months. The
   * result is the day `d.day - 1` days after the start of the month that
   * comes `n` months after `d`'s month in the absolute month count.
   */
  function AddMonths(d: CalendarDate, n: int): (r: CalendarDate)
    requires ValidDate(d)
    ensures ValidDate(r)
    ensures DayNumber(r) == MonthStartAt(d.year * 12 + d.month + n) + d.day - 1
  {
    DivShift(d.year, d.month + n);
    WithMonth(d, d.month + n)
  }

  lemma MonthStartAtStep(k: int)
    ensures MonthStartAt(k + 1) >= MonthStartAt(k) + 28
  {
    if k % 12 == 11 {
      assert (k + 1) / 12 == k / 12 + 1 && (k + 1) % 12 == 0;
      YearStep(k / 12);
    } else {
      assert (k + 1) / 12 == k / 12 && (k + 1) % 12 == k % 12 + 1;
      MonthStep(k / 12, k % 12);
    }
  }

  /** Month starts grow by at least 28 days a month. */
  lemma {:induction false} MonthStartAtMonotone(k: int, j: int)
    requires k <= j
    ensures MonthStartAt(j) >= MonthStartAt(k) + 28 * (j - k)
    decreases j - k
  {
    if k < j {
      MonthStartAtMonotone(k, j - 1);
      MonthStartAtStep(j - 1);
    }
  }

  /** The day number of a date, through its absolute month index. */
  lemma DayNumberAt(d: CalendarDate)
    requires ValidDate(d)
    ensures DayNumber(d) == MonthStartAt(d.year * 12 + d.month) + d.day - 1
  {
    DivShift(d.year, d.month);
  }

  /**
   * Advancing by a non-negative number of months never moves a date
   * backwards, and advancing by at least one month moves it forwards.
   */
  lemma AddMonthsNeverPrecedes(d: CalendarDate, n: int)
    requires ValidDate(d)
    ensures n >= 0 ==> DayNumber(AddMonths(d, n)) >= DayNumber(d)
    ensures n > 0 ==> DayNumber(AddMonths(d, n)) > DayNumber(d)
  {
    if n >= 0 {
      var k := d.year * 12 + d.month;
      var before, after := MonthStartAt(k), MonthStartAt(k + n);
      assert after >= before + 28 * n by {
        MonthStartAtMonotone(k, k + n);
      }
      assert DayNumber(d) == before + d.day - 1 by {
        DayNumberAt(d);
      }
      assert DayNumber(AddMonths(d, n)) == after + d.day - 1;
    }
  }

  /** Adding zero months keeps the date. */
  lemma AddMonthsZero(d: CalendarDate)
    requires ValidDate(d)
    ensures AddMonths(d, 0) == d
  {
  }

  /** Worked examples of the month-carry and day-overflow rules. */
  lemma AddMonthsExamples()
    ensures AddMonths(CalendarDate(2024, 0, 31), 1) == CalendarDate(2024, 2, 2)
    ensures AddMonths(CalendarDate(2023, 0, 31), 1) == CalendarDate(2023, 2, 3)
    ensures AddMonths(CalendarDate(2024, 10, 15), 3) == CalendarDate(2025, 1, 15)
    ensures AddMonths(CalendarDate(2024, 0, 15), -1) == CalendarDate(2023, 11, 15)
    ensures AddMonths(CalendarDate(2024, 7, 31), 6) == CalendarDate(2025, 2, 3)
  {
  }

  /** A mutable `Date` object holding a calendar date at midnight. */
  class DateCell {
    var value: CalendarDate

    ghost predicate Valid()
      reads this
    {
      ValidDate(value)
    }

    /** `new Date(d)` */
    constructor (d: CalendarDate)
      requires ValidDate(d)
      ensures Valid() && value == d
    {
      value := d;
    }

    /** `getMonth()` */
    function Month(): (m: int)
      reads this
      requires Valid()
      ensures m == value.month && 0 <= m < 12
    {
      value.month
    }

    /** `getTime()`: midnight UTC of the held day, in milliseconds. */
    function Time(): (t: int)
      reads this
      requires Valid()
      ensures t % MsPerDay == 0 && t / MsPerDay == DayNumber(value)
    {
      WholeDays(DayNumber(value));
      TimeValue(value)
    }

    /** `setMonth(month)`: the object now holds `WithMonth` of the date it held. */
    method SetMonth(month: int)
      requires Valid()
      modifies this
      ensures Valid()
      ensures value == WithMonth(old(value), month)
    {
      value := WithMonth(value, month);
    }
  }
}
