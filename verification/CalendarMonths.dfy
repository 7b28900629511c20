/** addCalendarMonths on time values, and what it promises about month arithmetic. */
module CalendarMonths {
  import opened CivilDates

  // ----- JavaScript dates in UTC -----

  function DayOf(t: int): int { t / DAY_MS }
  function FullYear(t: int): int { YearOfDay(DayOf(t)) }
  function Month(t: int): int { MonthOfDay(DayOf(t)) }
  function Date(t: int): int { DateOfDay(DayOf(t)) }
  function MonthIndex(t: int): int { MonthIndexOfDay(DayOf(t)) }

  /** `Date.UTC(year, month, date)`; it reads years 0 to 99 as 1900 to 1999. */
  function DateUTC(year: int, month: int, date: int): int {
    MakeDay(if 0 <= year <= 99 then 1900 + year else year, month, date) * DAY_MS
  }

  function AddCalendarMonths(t: int, months: int): int {
    var targetMonthIndex := Month(t) + months;
    var daysInTargetMonth := Date(DateUTC(FullYear(t), targetMonthIndex + 1, 0));
    var clampedDay := Min(Date(t), daysInTargetMonth);
    DateUTC(FullYear(t), targetMonthIndex, clampedDay)
  }

  function Min(a: int, b: int): int { if a <= b then a else b }

  /** The years `Date.UTC` takes literally. */
  predicate LiteralYear(t: int) {
    !(0 <= FullYear(t) <= 99)
  }

  /** Midnight of a day of a month. */
  function Midnight(monthIndex: int, date: int): int {
    (FirstDay(monthIndex) + date - 1) * DAY_MS
  }

  // ----- what it computes -----

  lemma MidnightParts(monthIndex: int, date: int)
    requires 1 <= date <= DaysInMonth(monthIndex)
    ensures var t := Midnight(monthIndex, date); MonthIndex(t) == monthIndex && Date(t) == date
  {
    CivilRoundTrip(monthIndex, date);
    hide FirstDay, DaysInMonth;
    assert DayOf(Midnight(monthIndex, date)) == FirstDay(monthIndex) + date - 1;
  }

  lemma DateUTCForm(year: int, month: int, date: int)
    ensures DateUTC(year, month, date) ==
      Midnight(12 * (if 0 <= year <= 99 then 1900 + year else year) + month, date)
  {
    MakeDayIsFirstDay(if 0 <= year <= 99 then 1900 + year else year, month, date);
  }

  /** The months between a year that `Date.UTC` takes for one of the twentieth century and that one. */
  const NINETEEN_CENTURIES := 12 * 1900

  /** How many months `Date.UTC` adds of its own. */
  function Shift(t: int): int {
    if LiteralYear(t) then 0 else NINETEEN_CENTURIES
  }

  lemma Parts(t: int)
    ensures MonthIndex(t) == 12 * FullYear(t) + Month(t)
    ensures 1 <= Date(t) <= DaysInMonth(MonthIndex(t)) <= 31
    ensures t % DAY_MS == 0 ==> t == Midnight(MonthIndex(t), Date(t))
  {
    hide FirstDay, YearOfDay, MonthOfDay, DateOfDay, MakeDay;
    DayRoundTrip(DayOf(t));
    MonthLength(MonthIndex(t));
    assert MonthIndexOfDay(DayOf(t)) == 12 * YearOfDay(DayOf(t)) + MonthOfDay(DayOf(t));
  }

  /** Date.UTC on the year of `t`, with its two-digit years. */
  lemma DateUTCShift(t: int, months: int, date: int)
    ensures DateUTC(FullYear(t), Month(t) + months, date) == Midnight(MonthIndex(t) + months + Shift(t), date)
  {
    Parts(t);
    DateUTCForm(FullYear(t), Month(t) + months, date);
    hide FirstDay, FullYear, Month, MonthIndex, DateUTC, Midnight;
    assert 12 * FullYear(t) + Month(t) + months == MonthIndex(t) + months;
  }

  /** Day 0 of the month after is the last day of a month. */
  lemma LastDay(i: int)
    ensures Midnight(i + 1, 0) == Midnight(i, DaysInMonth(i))
    ensures 28 <= DaysInMonth(i) && Date(Midnight(i + 1, 0)) == DaysInMonth(i)
  {
    MonthLength(i);
    MidnightParts(i, DaysInMonth(i));
    hide FirstDay, Date;
  }

  /** The month is moved by exactly the months asked for, plus the shift of a two-digit year; the day
      stays, or becomes the last one of a shorter month. */
  lemma AddForm(t: int, months: int)
    ensures var i := MonthIndex(t) + months + Shift(t);
      && 1 <= Min(Date(t), DaysInMonth(i)) <= DaysInMonth(i)
      && AddCalendarMonths(t, months) == Midnight(i, Min(Date(t), DaysInMonth(i)))
  {
    var i := MonthIndex(t) + months + Shift(t);
    Parts(t);
    LastDay(i);
    DateUTCShift(t, months + 1, 0);
    DateUTCShift(t, months, Min(Date(t), DaysInMonth(i)));
    hide FullYear, Month, MonthIndex, DateUTC, Date, Midnight, DaysInMonth, Shift;
    assert Month(t) + months + 1 == Month(t) + (months + 1);
    assert MonthIndex(t) + (months + 1) + Shift(t) == i + 1;
  }

  // ----- the promises -----

  /** Exactly outside the years 0 to 99 the month index moves by the given amount. The result never
      spills into the next month: its day is the old one, or the last day of the target month. */
  lemma {:induction false} MovesExactly(t: int, months: int)
    ensures var r := AddCalendarMonths(t, months);
      && (MonthIndex(r) == MonthIndex(t) + months <==> LiteralYear(t))
      && Date(r) == Min(Date(t), DaysInMonth(MonthIndex(r)))
      && r % DAY_MS == 0
  {
    var i := MonthIndex(t) + months + Shift(t);
    AddForm(t, months);
    hide FirstDay, DaysInMonth, MonthIndex, Date, LiteralYear, AddCalendarMonths;
    MidnightParts(i, Min(Date(t), DaysInMonth(i)));
  }

  lemma MidnightOrder(i: int, a: int, j: int, b: int)
    requires 1 <= a <= DaysInMonth(i) && 1 <= b <= DaysInMonth(j)
    ensures Midnight(i, a) < Midnight(j, b) <==> i < j || (i == j && a < b)
  {
    hide FirstDay;
    if i < j { FirstDaysIncrease(i + 1, j); }
    if j < i { FirstDaysIncrease(j + 1, i); }
  }

  lemma LaterParts(t: int, u: int)
    requires t <= u
    ensures MonthIndex(t) < MonthIndex(u) || (MonthIndex(t) == MonthIndex(u) && Date(t) <= Date(u))
  {
    CivilOrder(DayOf(t), DayOf(u));
    CivilOrder(DayOf(u), DayOf(t));
    hide MonthIndexOfDay, DateOfDay;
    assert DayOf(t) <= DayOf(u);
  }

  /** Later dates stay later or become equal, exactly unless the earlier one lies in the years 0 to 99, the
      later one does not, and moving the earlier one to the twentieth century takes it past the later. */
  lemma {:induction false} MonotoneInDate(t: int, u: int, months: int)
    requires t <= u
    ensures AddCalendarMonths(t, months) <= AddCalendarMonths(u, months) <==>
      || LiteralYear(t) || !LiteralYear(u)
      || MonthIndex(t) + NINETEEN_CENTURIES < MonthIndex(u)
      || (MonthIndex(t) + NINETEEN_CENTURIES == MonthIndex(u) && Min(Date(t), DaysInMonth(MonthIndex(u) + months)) <= Date(u))
  {
    hide AddCalendarMonths, DaysInMonth, MonthIndex, Date, LiteralYear, Midnight;
    var i, j := MonthIndex(t) + months + Shift(t), MonthIndex(u) + months + Shift(u);
    AddForm(t, months);
    AddForm(u, months);
    LaterParts(t, u);
    var a, b := Min(Date(t), DaysInMonth(i)), Min(Date(u), DaysInMonth(j));
    assert AddCalendarMonths(t, months) == Midnight(i, a) && AddCalendarMonths(u, months) == Midnight(j, b);
    MidnightOrder(j, b, i, a);
  }

  /** More months give a strictly later date. */
  lemma {:induction false} StrictInMonths(t: int, m: int, n: int)
    requires m < n
    ensures AddCalendarMonths(t, m) < AddCalendarMonths(t, n)
  {
    hide AddCalendarMonths, FirstDay, DaysInMonth, MonthIndex, Date, Midnight;
    AddForm(t, m);
    AddForm(t, n);
    var i, j := MonthIndex(t) + m + Shift(t), MonthIndex(t) + n + Shift(t);
    MidnightOrder(i, Min(Date(t), DaysInMonth(i)), j, Min(Date(t), DaysInMonth(j)));
  }

  /** Adding in two steps is never later than adding at once exactly when the middle date lies outside the
      years 0 to 99; and it is then the same exactly when the middle month did not clamp the day or clamped
      it no harder than the last one. */
  lemma {:induction false} AddInTwoSteps(t: int, a: int, b: int)
    ensures var middle := AddCalendarMonths(t, a);
      var twice, once := AddCalendarMonths(middle, b), AddCalendarMonths(t, a + b);
      && (twice <= once <==> LiteralYear(middle))
      && (LiteralYear(middle) ==>
            (twice == once <==>
              Date(t) <= DaysInMonth(MonthIndex(middle)) || DaysInMonth(MonthIndex(middle) + b) <= DaysInMonth(MonthIndex(middle))))
  {
    hide AddCalendarMonths, FirstDay, DaysInMonth, MonthIndex, Date, LiteralYear, Midnight;
    var u := AddCalendarMonths(t, a);
    var i := MonthIndex(t) + a + Shift(t);
    var d := Min(Date(t), DaysInMonth(i));
    AddForm(t, a);
    AddForm(u, b);
    AddForm(t, a + b);
    MidnightParts(i, d);
    assert MonthIndex(u) == i && Date(u) == d;
    MidnightOrder(i + b, Min(Date(t), DaysInMonth(i + b)), i + b + Shift(u), Min(d, DaysInMonth(i + b + Shift(u))));
    MidnightOrder(i + b + Shift(u), Min(d, DaysInMonth(i + b + Shift(u))), i + b, Min(Date(t), DaysInMonth(i + b)));
  }

  lemma MidnightGap(i: int, a: int, b: int)
    ensures Midnight(i, a) - Midnight(i, b) == (a - b) * DAY_MS
  {
  }

  /** There and back is never after the day of the start and at most three days before it, exactly when
      neither the start nor the date in between lies in the years 0 to 99; and then it is that very day
      exactly when its date exists in the month in between. */
  lemma {:induction false} ThereAndBack(t: int, months: int)
    ensures var there := AddCalendarMonths(t, months);
      var back, start := AddCalendarMonths(there, -months), DayOf(t) * DAY_MS;
      && (start - 3 * DAY_MS <= back <= start <==> LiteralYear(t) && LiteralYear(there))
      && (LiteralYear(t) && LiteralYear(there) ==> (back == start <==> Date(t) <= DaysInMonth(MonthIndex(t) + months)))
  {
    hide AddCalendarMonths, FirstDay, DaysInMonth, MonthIndex, Date, LiteralYear, Midnight;
    var u, i := AddCalendarMonths(t, months), MonthIndex(t) + months + Shift(t);
    AddForm(t, months);
    AddForm(u, -months);
    MonthLength(i);
    Parts(t);
    var d := Min(Date(t), DaysInMonth(i));
    MidnightParts(i, d);
    var j := MonthIndex(t) + Shift(t) + Shift(u);
    var e := Min(d, DaysInMonth(j));
    assert AddCalendarMonths(u, -months) == Midnight(j, e);
    StartOfDay(t);
    MidnightGap(MonthIndex(t), Date(t), e);
    MidnightOrder(MonthIndex(t), Date(t), j, e);
  }

  lemma StartOfDay(t: int)
    ensures DayOf(t) * DAY_MS == Midnight(MonthIndex(t), Date(t))
  {
    hide MonthIndexOfDay, DateOfDay, FirstDay;
    DayRoundTrip(DayOf(t));
  }

  /** A date of the years 0 to 99 does move by nineteen centuries more: the first of January of the year 50,
      with no months added, becomes that of 1950. */
  lemma EarlyYearMoves()
    ensures var t := Midnight(12 * 50, 1);
      !LiteralYear(t) && AddCalendarMonths(t, 0) == Midnight(12 * 1950, 1) != t
  {
    hide AddCalendarMonths, FirstDay, DaysInMonth, MonthIndex, Date, FullYear, Month, Midnight;
    var t := Midnight(12 * 50, 1);
    MonthLength(12 * 50);
    MonthLength(12 * 1950);
    MidnightParts(12 * 50, 1);
    YearBounds(t);
    AddForm(t, 0);
    MidnightOrder(12 * 50, 1, 12 * 1950, 1);
  }

  lemma YearBounds(t: int)
    ensures 12 * FullYear(t) <= MonthIndex(t) < 12 * FullYear(t) + 12
  {
    MonthIndexParts(DayOf(t));
  }
}
