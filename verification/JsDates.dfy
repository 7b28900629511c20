/** Mutable JavaScript dates, and the two services that change one in place: business-day arithmetic
    and the importer's inclusive term start. */
module JsDates {
  import opened Decimals
  import opened Options
  import opened CivilDates
  import opened CalendarMonths
  import opened DateKeys

  /** What `setUTCDate` and `setUTCMonth` leave in a date. */
  function WithDate(t: int, date: int): int {
    (FirstDay(MonthIndex(t)) + date - 1) * DAY_MS + t % DAY_MS
  }

  function WithMonth(t: int, month: int): int {
    (FirstDay(12 * FullYear(t) + month) + Date(t) - 1) * DAY_MS + t % DAY_MS
  }

  class JsDate {
    var time: int

    constructor (t: int)
      ensures time == t
    {
      time := t;
    }

    /** `setUTCDate`: same month, same time of day. */
    method SetUTCDate(date: int)
      modifies this
      ensures time == WithDate(old(time), date)
    {
      hide FirstDay, YearOfDay, MonthOfDay, DateOfDay, MakeDay;
      Parts(time);
      MakeDayIsFirstDay(FullYear(time), Month(time), date);
      time := MakeDay(FullYear(time), Month(time), date) * DAY_MS + time % DAY_MS;
    }

    /** `setUTCMonth`: same date, which may carry over, and same time of day. */
    method SetUTCMonth(month: int)
      modifies this
      ensures time == WithMonth(old(time), month)
    {
      hide FirstDay, YearOfDay, MonthOfDay, DateOfDay, MakeDay;
      MakeDayIsFirstDay(FullYear(time), month, Date(time));
      time := MakeDay(FullYear(time), month, Date(time)) * DAY_MS + time % DAY_MS;
    }
  }

  // ----- business days -----

  /** The key Intl builds in the business time zone for an instant on business day `d`: the year in all
      its digits, month and day in two. */
  function BusinessDateKey(d: int): string {
    MonthIndexParts(d);
    DayRoundTrip(d);
    var y := YearOfDay(d);
    (if y >= 0 then Decimal(y) else "-" + Decimal(-y)) + "-" + Pad(MonthOfDay(d) + 1, 2) + "-" + Pad(DateOfDay(d), 2)
  }

  /** `Math.floor(Date.parse(...) / DAY_MS)`; None stands for NaN. */
  function Ordinal(dateKey: string): Option<int> {
    match ParseKey(dateKey)
    case None => None
    case Some(t) => Some(t / DAY_MS)
  }

  function DaysUntil(dueDate: int, asOfKey: string): Option<int> {
    var due, today := Ordinal(DateKey(dueDate)), Ordinal(asOfKey);
    if due.None? || today.None? then None else Some(due.value - today.value)
  }

  /** `addBusinessDays`, for the business date the instant falls on; None stands for an invalid date. */
  method AddBusinessDays(asOfKey: string, days: int) returns (t: Option<int>)
    ensures t == match ParseKey(asOfKey) case None => None case Some(today) => Some(today + days * DAY_MS)
  {
    hide FirstDay, MonthIndex, Date, ParseKey;
    var today := ParseKey(asOfKey);
    if today.None? { return None; }
    var date := new JsDate(today.value);
    date.SetUTCDate(Date(date.time) + days);
    Parts(today.value);
    ParsedIsMidnight(asOfKey);
    t := Some(date.time);
  }

  lemma ParsedIsMidnight(key: string)
    requires ParseKey(key).Some?
    ensures ParseKey(key).value % DAY_MS == 0
  {
    hide FirstDay, ParseDigits, DaysInMonth;
  }

  lemma BusinessKeyIsKey(d: int)
    requires 1000 <= YearOfDay(d) <= 9999
    ensures BusinessDateKey(d) == Key(d)
  {
    Powers();
    DecimalIsPad(YearOfDay(d), 4);
  }

  /** Days until a date, through printing, slicing and parsing both keys, is the difference of the two
      day numbers. */
  lemma {:induction false} DaysUntilIsDifference(dueDate: int, today: int)
    requires 0 <= FullYear(dueDate) <= 9999 && 1000 <= YearOfDay(today) <= 9999
    ensures DaysUntil(dueDate, BusinessDateKey(today)) == Some(DayOf(dueDate) - today)
  {
    hide YearOfDay, Key, BusinessDateKey, DateKey, ParseKey;
    DateKeyIsKey(dueDate);
    BusinessKeyIsKey(today);
    KeyParses(DayOf(dueDate));
    KeyParses(today);
  }

  /** Adding n business days gives a date n days away, for every day and every n in range. */
  lemma {:induction false} BusinessDaysRoundTrip(today: int, n: int)
    requires 1000 <= YearOfDay(today) <= 9999 && 0 <= YearOfDay(today + n) <= 9999
    ensures ParseKey(BusinessDateKey(today)) == Some(today * DAY_MS)
    ensures DaysUntil(today * DAY_MS + n * DAY_MS, BusinessDateKey(today)) == Some(n)
  {
    hide YearOfDay, Key, BusinessDateKey, DaysUntil, ParseKey;
    BusinessKeyIsKey(today);
    KeyParses(today);
    var due := today * DAY_MS + n * DAY_MS;
    assert DayOf(due) == today + n;
    DaysUntilIsDifference(due, today);
  }

  // ----- the importer -----

  /** The writes of `inclusiveTermStart`, one after the other. */
  function TermStartTime(end: int, months: int): int {
    var first := WithDate(end, 1);
    var moved := WithMonth(first, Month(first) - months);
    var lastDay := Date(DateUTC(FullYear(moved), Month(moved) + 1, 0));
    WithDate(moved, Min(Date(end), lastDay) + 1)
  }

  /** The importer's own month arithmetic, on one date changed in place; None is the RangeError of an
      unreadable date. */
  method InclusiveTermStart(endDate: string, months: int) returns (start: Option<string>)
    ensures start == match ParseKey(endDate) case None => None case Some(end) => Some(DateKey(TermStartTime(end, months)))
    ensures start.Some? && IsAddition(ParseKey(endDate).value, months) ==>
      start == Some(DateKey(AddCalendarMonths(ParseKey(endDate).value, -months) + DAY_MS))
  {
    hide FirstDay, MonthIndex, Date, FullYear, Month, AddCalendarMonths, DateUTC, DateKey, ParseKey, IsAddition, WithDate, WithMonth;
    var parsed := ParseKey(endDate);
    if parsed.None? { return None; }
    var end := parsed.value;
    ParsedIsMidnight(endDate);
    var date := new JsDate(end);
    var originalDay := Date(date.time);
    date.SetUTCDate(1);
    date.SetUTCMonth(Month(date.time) - months);
    var lastDay := Date(DateUTC(FullYear(date.time), Month(date.time) + 1, 0));
    date.SetUTCDate(Min(originalDay, lastDay) + 1);
    TermStartIsAddition(end, months);
    start := Some(DateKey(date.time));
  }

  /** The end date lies outside the years 0 to 99, and the month reached is not the February of the year 0
      for one of its last days: `Date.UTC` takes it for that of 1900, which has no 29th. */
  predicate IsAddition(end: int, months: int) {
    LiteralYear(end) && (MonthIndex(end) - months != 1 || Date(end) <= 28)
  }

  lemma MonthYear(t: int)
    ensures FullYear(t) == MonthIndex(t) / 12
  {
    MonthIndexParts(DayOf(t));
  }

  lemma WithDateForm(i: int, date: int, to: int)
    requires 1 <= date <= DaysInMonth(i)
    ensures WithDate(Midnight(i, date), to) == Midnight(i, to)
  {
    hide FirstDay, MonthIndex, Date;
    MidnightParts(i, date);
  }

  lemma WithMonthForm(i: int, months: int)
    ensures WithMonth(Midnight(i, 1), Month(Midnight(i, 1)) - months) == Midnight(i - months, 1)
  {
    hide FirstDay, MonthIndex, Date, Month, FullYear;
    MonthLength(i);
    MidnightParts(i, 1);
    Parts(Midnight(i, 1));
    assert 12 * FullYear(Midnight(i, 1)) + (Month(Midnight(i, 1)) - months) == i - months;
  }

  /** The length the importer takes a month for: that of 1900 to 1999 in the years 0 to 99. */
  function TakenLength(i: int): int {
    DaysInMonth(if 0 <= i / 12 <= 99 then i + NINETEEN_CENTURIES else i)
  }

  lemma LengthBy(y: int, m: int)
    requires 0 <= m < 12
    ensures DaysInMonth(12 * y + m) == DaysBeforeMonth(Leap(y), m + 1) - DaysBeforeMonth(Leap(y), m)
  {
    MonthBounds(y, m);
    hide FirstDay, DaysBeforeMonth, Leap, DayFromYear;
  }

  lemma CenturiesKeepLeap(y: int)
    requires 0 <= y <= 99
    ensures Leap(0) && (Leap(y + 1900) <==> Leap(y) && y != 0)
  {
  }

  /** A leap year changes the length of February only. */
  lemma OnlyFebruaryGrows(m: int)
    requires 0 <= m < 12
    ensures DaysBeforeMonth(true, m + 1) - DaysBeforeMonth(true, m)
      == DaysBeforeMonth(false, m + 1) - DaysBeforeMonth(false, m) + (if m == 1 then 1 else 0)
    ensures DaysBeforeMonth(false, 2) - DaysBeforeMonth(false, 1) == 28
  {
  }

  lemma LengthLater(y: int, m: int)
    requires 0 <= y <= 99 && 0 <= m < 12
    ensures DaysInMonth(12 * y + m + NINETEEN_CENTURIES) == if 12 * y + m == 1 then 28 else DaysInMonth(12 * y + m)
    ensures DaysInMonth(1) == 29
  {
    hide DaysInMonth, FirstDay, DaysBeforeMonth, Leap;
    LengthBy(0, 1);
    LengthBy(y, m);
    LengthBy(y + 1900, m);
    CenturiesKeepLeap(y);
    CenturiesKeepLeap(0);
    OnlyFebruaryGrows(m);
    OnlyFebruaryGrows(1);
    assert 12 * (y + 1900) + m == 12 * y + m + NINETEEN_CENTURIES;
  }

  /** It is the month's own length but for the February of the year 0. */
  lemma TakenLengthIsLength(i: int)
    ensures TakenLength(i) == if i == 1 then 28 else DaysInMonth(i)
    ensures DaysInMonth(1) == 29 && 28 <= TakenLength(i) <= 31
  {
    hide DaysInMonth;
    MonthLength(i);
    LengthLater(0, 1);
    if 0 <= i / 12 <= 99 { LengthLater(i / 12, i % 12); }
  }

  /** The day after the end day, or after the last one taken for the month's, in the month reached. */
  lemma TermForm(end: int, months: int)
    requires end % DAY_MS == 0
    ensures var i := MonthIndex(end) - months;
      TermStartTime(end, months) == Midnight(i, Min(Date(end), TakenLength(i)) + 1)
  {
    hide FirstDay, DaysInMonth, MonthIndex, Date, FullYear, Month, AddCalendarMonths, DateUTC, WithDate, WithMonth, Midnight;
    var e := MonthIndex(end);
    var i := e - months;
    Parts(end);
    MonthLength(i);
    WithDateForm(e, Date(end), 1);
    WithMonthForm(e, months);
    var moved := Midnight(i, 1);
    MidnightParts(i, 1);
    MonthYear(moved);
    DateUTCShift(moved, 1, 0);
    LastDay(i + Shift(moved));
    WithDateForm(i, 1, Min(Date(end), TakenLength(i)) + 1);
  }

  lemma FarLater(j: int, x: int, e: int, y: int)
    requires j >= e + 2 && x >= 1 && y <= 32
    ensures Midnight(j, x) > Midnight(e, y)
  {
    hide FirstDay;
    FirstDaysIncrease(e, j);
  }

  lemma NextDayIs(i: int, c: int, j: int, d: int)
    requires c <= 31 && d >= 1 && (j == i || j >= i + 2)
    ensures Midnight(i, c + 1) == Midnight(j, d) + DAY_MS <==> i == j && c == d
  {
    MidnightGap(j, d + 1, d);
    MidnightGap(i, c + 1, d + 1);
    if j != i { FarLater(j, d + 1, i, c + 1); }
    hide Midnight;
  }

  /** The importer computes what addCalendarMonths computes, plus one day, exactly under that condition. */
  lemma {:induction false} TermStartIsAddition(end: int, months: int)
    requires end % DAY_MS == 0
    ensures TermStartTime(end, months) == AddCalendarMonths(end, -months) + DAY_MS <==> IsAddition(end, months)
  {
    hide FirstDay, DaysInMonth, MonthIndex, Date, FullYear, AddCalendarMonths, Midnight, TakenLength, TermStartTime;
    var i := MonthIndex(end) - months;
    var j := i + Shift(end);
    Parts(end);
    TermForm(end, months);
    TakenLengthIsLength(i);
    AddForm(end, -months);
    NextDayIs(i, Min(Date(end), TakenLength(i)), j, Min(Date(end), DaysInMonth(j)));
  }

  lemma NextMonth(i: int)
    ensures Midnight(i, DaysInMonth(i) + 1) == Midnight(i + 1, 1)
  {
  }

  /** Months added to a day of month `k` of the years 0 to 99 land nineteen centuries further on. */
  lemma EarlyStartNeverBack(start: int, e: int, months: int, day: int)
    requires !LiteralYear(start) && MonthIndex(start) + months >= e && day <= 32
    ensures AddCalendarMonths(start, months) != Midnight(e, day)
  {
    hide FirstDay, DaysInMonth, MonthIndex, Date, AddCalendarMonths, LiteralYear, Midnight;
    AddForm(start, months);
    var k := MonthIndex(start) + months + NINETEEN_CENTURIES;
    FarLater(k, Min(Date(start), DaysInMonth(k)), e, day);
  }

  /** The end day has a successor in the month reached: the start is that successor. */
  lemma AddBackWithin(end: int, months: int)
    requires end % DAY_MS == 0 && MonthIndex(end) - months != 1 && Date(end) < DaysInMonth(MonthIndex(end) - months)
    ensures var start := TermStartTime(end, months);
      && MonthIndex(start) == MonthIndex(end) - months
      && (LiteralYear(start) ==>
            (AddCalendarMonths(start, months) == end + DAY_MS <==> Date(end) < DaysInMonth(MonthIndex(end))))
  {
    hide FirstDay, DaysInMonth, MonthIndex, Date, AddCalendarMonths, LiteralYear, Midnight, TakenLength, TermStartTime;
    var i, d := MonthIndex(end) - months, Date(end);
    Parts(end);
    TermForm(end, months);
    TakenLengthIsLength(i);
    MidnightParts(i, d + 1);
    AddForm(Midnight(i, d + 1), months);
    MidnightGap(MonthIndex(end), Min(d + 1, DaysInMonth(MonthIndex(end))), d);
  }

  /** The end day is beyond or at the last day of the month reached: the start is the first of the next. */
  lemma StartAcross(end: int, months: int)
    requires end % DAY_MS == 0 && MonthIndex(end) - months != 1 && Date(end) >= DaysInMonth(MonthIndex(end) - months)
    ensures var i, start := MonthIndex(end) - months + 1, TermStartTime(end, months);
      start == Midnight(i, 1) && MonthIndex(start) == i && Date(start) == 1
  {
    hide FirstDay, DaysInMonth, MonthIndex, Date, Midnight, TakenLength, TermStartTime;
    var i := MonthIndex(end) - months;
    TermForm(end, months);
    TakenLengthIsLength(i);
    NextMonth(i);
    MonthLength(i + 1);
    MidnightParts(i + 1, 1);
  }

  lemma AddBackAcross(end: int, months: int)
    requires end % DAY_MS == 0 && MonthIndex(end) - months != 1 && Date(end) >= DaysInMonth(MonthIndex(end) - months)
    ensures var start := TermStartTime(end, months);
      && MonthIndex(start) == MonthIndex(end) - months + 1
      && (LiteralYear(start) ==>
            (AddCalendarMonths(start, months) == end + DAY_MS <==> Date(end) == DaysInMonth(MonthIndex(end))))
  {
    hide FirstDay, DaysInMonth, MonthIndex, Date, AddCalendarMonths, LiteralYear, Midnight, TakenLength, TermStartTime;
    var m, start := MonthIndex(end), TermStartTime(end, months);
    StartAcross(end, months);
    Parts(end);
    MonthLength(m + 1);
    AddForm(start, months);
    NextMonth(m);
    MidnightGap(m, DaysInMonth(m) + 1, Date(end));
  }

  /** In the February of the year 0 the start stays in that month, whose year `Date.UTC` moves. */
  lemma FebruaryOfYearZero(end: int, months: int)
    requires end % DAY_MS == 0 && MonthIndex(end) - months == 1
    ensures var start := TermStartTime(end, months); MonthIndex(start) == 1 && !LiteralYear(start)
  {
    hide FirstDay, DaysInMonth, MonthIndex, Date, FullYear, Midnight, TakenLength, TermStartTime;
    Parts(end);
    TermForm(end, months);
    TakenLengthIsLength(1);
    MidnightParts(1, Min(Date(end), 28) + 1);
    YearBounds(TermStartTime(end, months));
  }

  /** Adding the months back to the term start gives the day after its end exactly when the start lies
      outside the years 0 to 99, and the end day has a successor both in its own month and in the month
      reached, or in neither. */
  lemma {:induction false} TermAddsBack(end: int, months: int)
    requires end % DAY_MS == 0
    ensures var start := TermStartTime(end, months);
      AddCalendarMonths(start, months) == end + DAY_MS
      <==> LiteralYear(start)
           && (Date(end) < DaysInMonth(MonthIndex(end) - months) <==> Date(end) < DaysInMonth(MonthIndex(end)))
  {
    hide FirstDay, DaysInMonth, MonthIndex, Date, AddCalendarMonths, LiteralYear, Midnight, TakenLength, TermStartTime;
    var m, d, start := MonthIndex(end), Date(end), TermStartTime(end, months);
    Parts(end);
    if m - months == 1 {
      FebruaryOfYearZero(end, months);
    } else if d < DaysInMonth(m - months) {
      AddBackWithin(end, months);
    } else {
      AddBackAcross(end, months);
    }
    if !LiteralYear(start) {
      EarlyStartNeverBack(start, m, months, d + 1);
      MidnightGap(m, d + 1, d);
    }
  }

  /** For end days up to 27 the months add back exactly when the start lies outside the years 0 to 99. */
  lemma {:induction false} EarlyTermAddsBack(end: int, months: int)
    requires end % DAY_MS == 0 && Date(end) <= 27
    ensures AddCalendarMonths(TermStartTime(end, months), months) == end + DAY_MS <==> LiteralYear(TermStartTime(end, months))
  {
    hide FirstDay, DaysInMonth, MonthIndex, Date, AddCalendarMonths, LiteralYear, TermStartTime;
    TermAddsBack(end, months);
    MonthLength(MonthIndex(end));
    MonthLength(MonthIndex(end) - months);
  }

  // ----- validating the dates of a row -----

  datatype DateIssue = StartMissing | EndMissing | StartNotBeforeEnd | IntervalMismatch

  predicate Absent(date: Option<string>) {
    date.None? || date.value == ""
  }

  predicate NoInterval(interval: Option<int>) {
    interval.None? || interval.value == 0
  }

  /** The issues pushed for a row; None is the RangeError raised by an unreadable end date. A missing date is
      named and ends the matter. Of two keys the start must be the earlier day, and, if the row has an
      interval, the start of the term that ends on the other. */
  method ValidateSourceDates(startDate: Option<string>, endDate: Option<string>, interval: Option<int>)
    returns (issues: Option<seq<DateIssue>>)
    ensures startDate in {None, Some("")} || endDate in {None, Some("")} ==>
      issues == Some((if startDate in {None, Some("")} then [StartMissing] else [])
                     + (if endDate in {None, Some("")} then [EndMissing] else []))
    ensures startDate !in {None, Some("")} && endDate !in {None, Some("")} ==>
      && (issues.None? <==>
            LexLess(startDate.value, endDate.value) && interval !in {None, Some(0)} && ParseKey(endDate.value).None?)
      && (issues == Some([StartNotBeforeEnd]) <==> !LexLess(startDate.value, endDate.value))
      && (issues == Some([IntervalMismatch]) <==>
            && LexLess(startDate.value, endDate.value) && interval !in {None, Some(0)} && ParseKey(endDate.value).Some?
            && DateKey(TermStartTime(ParseKey(endDate.value).value, interval.value)) != startDate.value)
      && issues in {None, Some([]), Some([StartNotBeforeEnd]), Some([IntervalMismatch])}
    ensures forall a, b ::
      (&& 0 <= YearOfDay(a) <= 9999 && 0 <= YearOfDay(b) <= 9999
       && startDate == Some(Key(a)) && endDate == Some(Key(b))) ==>
        issues == Some(
          if a >= b then [StartNotBeforeEnd]
          else if interval !in {None, Some(0)} && a * DAY_MS != TermStartTime(b * DAY_MS, interval.value) then [IntervalMismatch]
          else [])
  {
    hide LexLess, ParseKey, TermStartTime, DateKey, IsAddition, AddCalendarMonths, Key, YearOfDay;
    var found: seq<DateIssue> := [];
    if Absent(startDate) { found := found + [StartMissing]; }
    if Absent(endDate) { found := found + [EndMissing]; }
    assert found == (if Absent(startDate) then [StartMissing] else []) + (if Absent(endDate) then [EndMissing] else []);
    KeysArePresent(startDate, endDate);
    if Absent(startDate) || Absent(endDate) { return Some(found); }
    DaysDecide(startDate.value, endDate.value, if interval.Some? then interval.value else 0);
    if !LexLess(startDate.value, endDate.value) {
      found := found + [StartNotBeforeEnd];
      assert found == [StartNotBeforeEnd];
      return Some(found);
    }
    if !NoInterval(interval) {
      var start := InclusiveTermStart(endDate.value, interval.value);
      if start.None? { return None; }
      if start.value != startDate.value { found := found + [IntervalMismatch]; }
      assert found == if start.value != startDate.value then [IntervalMismatch] else [];
    }
    issues := Some(found);
  }

  lemma KeysArePresent(startDate: Option<string>, endDate: Option<string>)
    ensures forall a :: 0 <= YearOfDay(a) <= 9999 && startDate == Some(Key(a)) ==> !Absent(startDate)
    ensures forall a :: 0 <= YearOfDay(a) <= 9999 && endDate == Some(Key(a)) ==> !Absent(endDate)
  {
    hide YearOfDay, Key;
    forall a | 0 <= YearOfDay(a) <= 9999 ensures |Key(a)| == 10 {
      KeyParts(a);
    }
  }

  /** For every two days whose keys these are, the two string tests compare the days. */
  lemma DaysDecide(startDate: string, endDate: string, interval: int)
    ensures forall a, b :: 0 <= YearOfDay(a) <= 9999 && 0 <= YearOfDay(b) <= 9999 && startDate == Key(a) && endDate == Key(b) ==>
      && (LexLess(startDate, endDate) <==> a < b)
      && ParseKey(endDate) == Some(b * DAY_MS)
      && (DateKey(TermStartTime(b * DAY_MS, interval)) == startDate <==> a * DAY_MS == TermStartTime(b * DAY_MS, interval))
  {
    hide YearOfDay, Key, LexLess, ParseKey, DateKey, TermStartTime;
    forall a, b | 0 <= YearOfDay(a) <= 9999 && 0 <= YearOfDay(b) <= 9999 && startDate == Key(a) && endDate == Key(b)
      ensures LexLess(startDate, endDate) <==> a < b
      ensures ParseKey(endDate) == Some(b * DAY_MS)
      ensures DateKey(TermStartTime(b * DAY_MS, interval)) == startDate <==> a * DAY_MS == TermStartTime(b * DAY_MS, interval)
    {
      IssuesMean(a, b, interval);
    }
  }

  /** What the two string tests mean for days with printed keys: the start is the earlier day, and it is
      the start of the term that ends on the other. */
  lemma {:induction false} IssuesMean(a: int, b: int, interval: int)
    requires 0 <= YearOfDay(a) <= 9999 && 0 <= YearOfDay(b) <= 9999
    ensures LexLess(Key(a), Key(b)) <==> a < b
    ensures ParseKey(Key(b)) == Some(b * DAY_MS)
    ensures DateKey(TermStartTime(b * DAY_MS, interval)) == Key(a) <==> a * DAY_MS == TermStartTime(b * DAY_MS, interval)
  {
    hide YearOfDay, Key, DateKey, ParseKey, TermStartTime, IsAddition, LexLess, AddCalendarMonths, Midnight;
    KeyOrder(a, b);
    KeyParses(b);
    TermStartIsMidnight(b * DAY_MS, interval);
    KeyIsOfMidnight(a, TermStartTime(b * DAY_MS, interval));
  }

  lemma TermStartIsMidnight(end: int, months: int)
    requires end % DAY_MS == 0
    ensures TermStartTime(end, months) % DAY_MS == 0
  {
    hide TermStartTime, Midnight, MonthIndex, Date, TakenLength;
    TermForm(end, months);
    WholeDays(MonthIndex(end) - months, Min(Date(end), TakenLength(MonthIndex(end) - months)) + 1);
  }

  lemma KeyIsOfMidnight(a: int, t: int)
    requires 0 <= YearOfDay(a) <= 9999 && t % DAY_MS == 0
    ensures DateKey(t) == Key(a) <==> a * DAY_MS == t
  {
    hide YearOfDay, Key, DateKey, LexLess;
    assert DayOf(t) * DAY_MS == t;
    if 0 <= FullYear(t) <= 9999 {
      DateKeyIsKey(t);
      KeyOrder(a, DayOf(t));
    } else {
      LongYearsHaveSigns(t, a);
      assert DayOf(a * DAY_MS) == a;
    }
  }

  lemma WholeDays(i: int, date: int)
    ensures Midnight(i, date) % DAY_MS == 0
  {
    hide FirstDay;
  }

  /** A year without four digits is printed with a sign, which no key starts with. */
  lemma LongYearsHaveSigns(t: int, a: int)
    requires 0 <= YearOfDay(a) <= 9999 && !(0 <= FullYear(t) <= 9999)
    ensures DateKey(t) != Key(a)
  {
    SignFirst(t);
    DigitFirst(a);
    hide DateKey, Key;
  }

  lemma SignFirst(t: int)
    requires !(0 <= FullYear(t) <= 9999)
    ensures |DateKey(t)| == 10 && !IsDigit(DateKey(t)[0])
  {
    hide Pad, FullYear, Month, Date;
    IsoIsLong(t);
  }

  lemma DigitFirst(a: int)
    requires 0 <= YearOfDay(a) <= 9999
    ensures |Key(a)| == 10 && IsDigit(Key(a)[0])
  {
    hide YearOfDay, MonthOfDay, DateOfDay;
    KeyParts(a);
    PadDigits(YearOfDay(a), 4);
    assert Key(a)[0] == Key(a)[..4][0];
  }

  lemma {:induction false} PadDigits(n: nat, width: nat)
    ensures forall i :: 0 <= i < width ==> IsDigit(Pad(n, width)[i])
    decreases width
  {
    if width > 0 { PadDigits(n / 10, width - 1); }
  }
}
