/** The Gregorian calendar of JavaScript dates: time values, day numbers and civil dates, after
    section 21.4.1 of ECMA-262. Months count from 0; a month index counts months from year 0. */
module CivilDates {
  const DAY_MS: int := 86_400_000

  function DayFromYear(y: int): int {
    365 * (y - 1970) + (y - 1969) / 4 - (y - 1901) / 100 + (y - 1601) / 400
  }

  predicate Leap(y: int) {
    y % 4 == 0 && (y % 100 != 0 || y % 400 == 0)
  }

  function DaysBeforeMonth(leap: bool, month: int): int
    requires 0 <= month <= 12
  {
    var l := if leap then 1 else 0;
    if month == 0 then 0 else if month == 1 then 31 else if month == 2 then 59 + l else if month == 3 then 90 + l
    else if month == 4 then 120 + l else if month == 5 then 151 + l else if month == 6 then 181 + l
    else if month == 7 then 212 + l else if month == 8 then 243 + l else if month == 9 then 273 + l
    else if month == 10 then 304 + l else if month == 11 then 334 + l else 365 + l
  }

  // ----- from civil dates to day numbers -----

  /** The day number of the first day of a month, any month index. */
  function FirstDay(monthIndex: int): int {
    DayFromYear(monthIndex / 12) + DaysBeforeMonth(Leap(monthIndex / 12), monthIndex % 12)
  }

  function DaysInMonth(monthIndex: int): int {
    FirstDay(monthIndex + 1) - FirstDay(monthIndex)
  }

  /** MakeDay: any integers; months and days beyond their range carry over. */
  function MakeDay(year: int, month: int, date: int): int {
    var ym, mn := year + month / 12, month % 12;
    DayFromYear(ym) + DaysBeforeMonth(Leap(ym), mn) + date - 1
  }

  // ----- from day numbers to civil dates -----

  function YearUp(d: int, y: int): (r: int)
    requires DayFromYear(y) <= d
    ensures DayFromYear(r) <= d < DayFromYear(r + 1)
    decreases d - DayFromYear(y)
  {
    YearLength(y);
    if d < DayFromYear(y + 1) then y else YearUp(d, y + 1)
  }

  function YearDown(d: int, y: int): (r: int)
    requires d < DayFromYear(y + 1)
    ensures DayFromYear(r) <= d < DayFromYear(r + 1)
    decreases DayFromYear(y + 1) - d
  {
    YearLength(y);
    if DayFromYear(y) <= d then y else YearDown(d, y - 1)
  }

  /** The largest year that has begun by day `d`. */
  function YearOfDay(d: int): (r: int)
    ensures DayFromYear(r) <= d < DayFromYear(r + 1)
  {
    if DayFromYear(1970) <= d then YearUp(d, 1970) else YearDown(d, 1969)
  }

  function MonthInYear(leap: bool, n: int): (m: int)
    requires 0 <= n < 365 + (if leap then 1 else 0)
    ensures 0 <= m < 12 && DaysBeforeMonth(leap, m) <= n < DaysBeforeMonth(leap, m + 1)
  {
    var l := if leap then 1 else 0;
    if n < 31 then 0 else if n < 59 + l then 1 else if n < 90 + l then 2 else if n < 120 + l then 3
    else if n < 151 + l then 4 else if n < 181 + l then 5 else if n < 212 + l then 6 else if n < 243 + l then 7
    else if n < 273 + l then 8 else if n < 304 + l then 9 else if n < 334 + l then 10 else 11
  }

  function MonthOfDay(d: int): int {
    var y := YearOfDay(d);
    YearLength(y);
    MonthInYear(Leap(y), d - DayFromYear(y))
  }

  function DateOfDay(d: int): int {
    var y := YearOfDay(d);
    YearLength(y);
    d - DayFromYear(y) - DaysBeforeMonth(Leap(y), MonthInYear(Leap(y), d - DayFromYear(y))) + 1
  }

  function MonthIndexOfDay(d: int): int {
    12 * YearOfDay(d) + MonthOfDay(d)
  }

  // ----- the two are inverse -----

  lemma YearLength(y: int)
    ensures DayFromYear(y + 1) - DayFromYear(y) == if Leap(y) then 366 else 365
  {
    FloorStep(y - 1969, 4);
    FloorStep(y - 1901, 100);
    FloorStep(y - 1601, 400);
  }

  lemma FloorStep(a: int, k: int)
    requires k in {4, 100, 400}
    ensures (a + 1) / k - a / k == if (a + 1) % k == 0 then 1 else 0
  {
  }

  /** The first day of a month and of the next one, within one year. */
  lemma MonthBounds(y: int, m: int)
    requires 0 <= m < 12
    ensures FirstDay(12 * y + m) == DayFromYear(y) + DaysBeforeMonth(Leap(y), m)
    ensures FirstDay(12 * y + m + 1) == DayFromYear(y) + DaysBeforeMonth(Leap(y), m + 1)
  {
    YearLength(y);
    assert (12 * y + m) / 12 == y && (12 * y + m) % 12 == m;
    if m == 11 {
      assert (12 * y + m + 1) / 12 == y + 1 && (12 * y + m + 1) % 12 == 0;
    } else {
      assert (12 * y + m + 1) / 12 == y && (12 * y + m + 1) % 12 == m + 1;
    }
  }

  lemma MonthGap(leap: bool, m: int)
    requires 0 <= m < 12
    ensures 28 <= DaysBeforeMonth(leap, m + 1) - DaysBeforeMonth(leap, m) <= 31
  {
  }

  lemma MonthLengthOf(y: int, m: int)
    requires 0 <= m < 12
    ensures 28 <= FirstDay(12 * y + m + 1) - FirstDay(12 * y + m) <= 31
  {
    MonthBounds(y, m);
    MonthGap(Leap(y), m);
    hide FirstDay, DayFromYear, Leap, DaysBeforeMonth;
  }

  lemma MonthLength(i: int)
    ensures 28 <= DaysInMonth(i) <= 31
  {
    hide FirstDay;
    MonthLengthOf(i / 12, i % 12);
    assert 12 * (i / 12) + i % 12 == i;
  }

  /** Which calendar this is: that of 30 days in April, June, September and November, 28 in February, 29 in
      the leap years of Gregory, 31 in every other month; counted from the first of January 1970. */
  lemma GregorianMonths(y: int, m: int)
    requires 0 <= m < 12
    ensures DaysInMonth(12 * y + m) ==
      if m == 1 then if y % 4 == 0 && (y % 100 != 0 || y % 400 == 0) then 29 else 28
      else if m in {3, 5, 8, 10} then 30 else 31
    ensures FirstDay(12 * 1970) == 0
  {
    MonthBounds(y, m);
    MonthBounds(1970, 0);
    hide FirstDay;
  }

  lemma {:induction false} FirstDaysIncrease(i: int, j: int)
    requires i <= j
    ensures FirstDay(i) + 28 * (j - i) <= FirstDay(j)
    decreases j - i
  {
    if i < j {
      FirstDaysIncrease(i, j - 1);
      MonthLength(j - 1);
    }
  }

  lemma MonthOfDayBounds(d: int)
    ensures var y, m := YearOfDay(d), MonthOfDay(d);
      && 0 <= m < 12
      && DayFromYear(y) + DaysBeforeMonth(Leap(y), m) <= d < DayFromYear(y) + DaysBeforeMonth(Leap(y), m + 1)
      && DateOfDay(d) == d - DayFromYear(y) - DaysBeforeMonth(Leap(y), m) + 1
  {
    YearLength(YearOfDay(d));
    hide DaysBeforeMonth, DayFromYear, Leap, YearOfDay;
  }

  lemma DayIsInItsMonth(d: int)
    ensures FirstDay(MonthIndexOfDay(d)) <= d < FirstDay(MonthIndexOfDay(d) + 1)
    ensures DateOfDay(d) == d - FirstDay(MonthIndexOfDay(d)) + 1
  {
    hide FirstDay, DayFromYear, Leap, DaysBeforeMonth, YearOfDay, MonthOfDay, DateOfDay;
    MonthOfDayBounds(d);
    MonthBounds(YearOfDay(d), MonthOfDay(d));
  }

  lemma MonthIndexParts(d: int)
    ensures YearOfDay(d) == MonthIndexOfDay(d) / 12 && MonthOfDay(d) == MonthIndexOfDay(d) % 12
    ensures 0 <= MonthOfDay(d) < 12
  {
    YearLength(YearOfDay(d));
  }

  /** A day number and its civil date determine each other. */
  lemma {:induction false} CivilRoundTrip(monthIndex: int, date: int)
    requires 1 <= date <= DaysInMonth(monthIndex)
    ensures var d := FirstDay(monthIndex) + date - 1;
      MonthIndexOfDay(d) == monthIndex && DateOfDay(d) == date
  {
    var d := FirstDay(monthIndex) + date - 1;
    var i := MonthIndexOfDay(d);
    DayIsInItsMonth(d);
    hide FirstDay, MonthIndexOfDay, DateOfDay;
    if i < monthIndex {
      FirstDaysIncrease(i + 1, monthIndex);
    } else if i > monthIndex {
      FirstDaysIncrease(monthIndex + 1, i);
    }
  }

  lemma {:induction false} DayRoundTrip(d: int)
    ensures 1 <= DateOfDay(d) <= DaysInMonth(MonthIndexOfDay(d))
    ensures FirstDay(MonthIndexOfDay(d)) + DateOfDay(d) - 1 == d
    ensures MakeDay(YearOfDay(d), MonthOfDay(d), DateOfDay(d)) == d
  {
    DayIsInItsMonth(d);
    MakeDayIsFirstDay(YearOfDay(d), MonthOfDay(d), DateOfDay(d));
    hide FirstDay, YearOfDay, MonthOfDay, DateOfDay, MakeDay;
  }

  lemma MakeDayIsFirstDay(year: int, month: int, date: int)
    ensures MakeDay(year, month, date) == FirstDay(12 * year + month) + date - 1
  {
    assert (12 * year + month) / 12 == year + month / 12;
    assert (12 * year + month) % 12 == month % 12;
  }

  /** Earlier days have earlier month indices, or the same one and an earlier date. */
  lemma {:induction false} CivilOrder(d: int, e: int)
    ensures d < e <==>
      || MonthIndexOfDay(d) < MonthIndexOfDay(e)
      || (MonthIndexOfDay(d) == MonthIndexOfDay(e) && DateOfDay(d) < DateOfDay(e))
  {
    DayIsInItsMonth(d);
    DayIsInItsMonth(e);
    hide FirstDay, MonthIndexOfDay, DateOfDay;
    assert FirstDay(MonthIndexOfDay(d)) <= d;
    var i, j := MonthIndexOfDay(d), MonthIndexOfDay(e);
    if i < j { FirstDaysIncrease(i + 1, j); }
    if j < i { FirstDaysIncrease(j + 1, i); }
  }
}
