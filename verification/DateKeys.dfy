/** Date keys "YYYY-MM-DD": printed from time values, parsed back, and compared as strings. */
module DateKeys {
  import opened Decimals
  import opened Options
  import opened CivilDates
  import opened CalendarMonths

  // ----- printing -----

  function YearText(y: int): string {
    if 0 <= y <= 9999 then Pad(y, 4) else if y < 0 then "-" + Pad(-y, 6) else "+" + Pad(y, 6)
  }

  /** `toISOString` */
  function ToISOString(t: int): string {
    var ms := t % DAY_MS;
    MonthIndexParts(DayOf(t));
    Parts(t);
    YearText(FullYear(t)) + "-" + Pad(Month(t) + 1, 2) + "-" + Pad(Date(t), 2) + "T"
    + Pad(ms / 3_600_000, 2) + ":" + Pad(ms / 60_000 % 60, 2) + ":" + Pad(ms / 1000 % 60, 2) + "." + Pad(ms % 1000, 3) + "Z"
  }

  lemma IsoIsLong(t: int)
    ensures |ToISOString(t)| >= 10
  {
  }

  /** `toISOString().slice(0, 10)` */
  function DateKey(t: int): string {
    IsoIsLong(t);
    ToISOString(t)[..10]
  }

  /** The key of a day whose year has four digits. */
  function Key(d: int): string
    requires 0 <= YearOfDay(d) <= 9999
  {
    MonthIndexParts(d);
    DayRoundTrip(d);
    Pad(YearOfDay(d), 4) + "-" + Pad(MonthOfDay(d) + 1, 2) + "-" + Pad(DateOfDay(d), 2)
  }

  lemma DateKeyIsKey(t: int)
    requires 0 <= FullYear(t) <= 9999
    ensures DateKey(t) == Key(DayOf(t))
  {
  }

  // ----- parsing -----

  /** `Date.parse(key + "T00:00:00.000Z")` for a key of the form YYYY-MM-DD; None stands for NaN. As the V8
      engine reads it: a day from 1 to 31 that the month does not have rolls over into the next month. */
  function ParseKey(key: string): Option<int> {
    if |key| != 10 || key[4] != '-' || key[7] != '-' then None
    else
      var year, month, date := ParseDigits(key[..4]), ParseDigits(key[5..7]), ParseDigits(key[8..]);
      if year.None? || month.None? || date.None? || !(1 <= month.value <= 12) then None
      else
        var i := 12 * year.value + month.value - 1;
        if 1 <= date.value <= 31 then Some(Midnight(i, date.value)) else None
  }

  lemma KeyParts(d: int)
    requires 0 <= YearOfDay(d) <= 9999
    ensures 0 <= MonthOfDay(d) < 12 && 1 <= DateOfDay(d) <= 31
    ensures var k := Key(d);
      && |k| == 10 && k[4] == '-' && k[7] == '-'
      && k[..4] == Pad(YearOfDay(d), 4) && k[5..7] == Pad(MonthOfDay(d) + 1, 2) && k[8..] == Pad(DateOfDay(d), 2)
  {
    hide YearOfDay, MonthOfDay, DateOfDay, FirstDay, DaysInMonth;
    MonthIndexParts(d);
    DayRoundTrip(d);
    MonthLength(MonthIndexOfDay(d));
  }

  lemma Powers()
    ensures Pow10(1) == 10 && Pow10(2) == 100 && Pow10(3) == 1000 && Pow10(4) == 10_000
  {
    assert Pow10(2) == 10 * Pow10(1);
    assert Pow10(3) == 10 * Pow10(2);
    assert Pow10(4) == 10 * Pow10(3);
  }

  /** Every printed key parses back to midnight of its day. */
  lemma {:induction false} KeyParses(d: int)
    requires 0 <= YearOfDay(d) <= 9999
    ensures ParseKey(Key(d)) == Some(d * DAY_MS)
  {
    hide YearOfDay, MonthOfDay, DateOfDay, FirstDay, DaysInMonth, Key, Pad, ParseDigits;
    KeyParts(d);
    Powers();
    PadParses(YearOfDay(d), 4);
    PadParses(MonthOfDay(d) + 1, 2);
    PadParses(DateOfDay(d), 2);
    DayRoundTrip(d);
    assert MonthIndexOfDay(d) == 12 * YearOfDay(d) + MonthOfDay(d);
  }

  // ----- comparing keys as strings -----

  /** JavaScript's `<` on strings. */
  predicate LexLess(s: string, t: string) {
    if t == "" then false
    else if s == "" then true
    else s[0] < t[0] || (s[0] == t[0] && LexLess(s[1..], t[1..]))
  }

  lemma {:induction false} LexPlus(a: string, b: string, c: string, d: string)
    requires |a| == |b|
    ensures LexLess(a + c, b + d) <==> LexLess(a, b) || (a == b && LexLess(c, d))
    decreases |a|
  {
    if a == "" {
      assert a + c == c && b + d == d;
    } else {
      assert (a + c)[1..] == a[1..] + c && (b + d)[1..] == b[1..] + d;
      assert a == [a[0]] + a[1..] && b == [b[0]] + b[1..];
      LexPlus(a[1..], b[1..], c, d);
    }
  }

  lemma {:induction false} PadOrder(n: nat, m: nat, width: nat)
    requires n < Pow10(width) && m < Pow10(width)
    ensures LexLess(Pad(n, width), Pad(m, width)) <==> n < m
    ensures Pad(n, width) == Pad(m, width) <==> n == m
    decreases width
  {
    if width > 0 {
      PadOrder(n / 10, m / 10, width - 1);
      LexPlus(Pad(n / 10, width - 1), Pad(m / 10, width - 1), [Digit(n % 10)], [Digit(m % 10)]);
      var s, t := Pad(n, width), Pad(m, width);
      assert s[..width - 1] == Pad(n / 10, width - 1) && t[..width - 1] == Pad(m / 10, width - 1);
      assert s[width - 1] == Digit(n % 10) && t[width - 1] == Digit(m % 10);
    }
  }

  /** Keys of four-digit years compare as strings the way their days compare in time. */
  lemma {:induction false} KeyOrder(d: int, e: int)
    requires 0 <= YearOfDay(d) <= 9999 && 0 <= YearOfDay(e) <= 9999
    ensures LexLess(Key(d), Key(e)) <==> d < e
    ensures Key(d) == Key(e) <==> d == e
  {
    hide YearOfDay, MonthOfDay, DateOfDay, Key, Pad, LexLess, Pow10;
    KeyParts(d);
    KeyParts(e);
    Powers();
    var y, m, a := YearOfDay(d), MonthOfDay(d) + 1, DateOfDay(d);
    var z, n, b := YearOfDay(e), MonthOfDay(e) + 1, DateOfDay(e);
    PadOrder(y, z, 4);
    PadOrder(m, n, 2);
    PadOrder(a, b, 2);
    DashOrder(Pad(m, 2) + ("-" + Pad(a, 2)), Pad(n, 2) + ("-" + Pad(b, 2)));
    DashOrder(Pad(a, 2), Pad(b, 2));
    LexPlus(Pad(m, 2), Pad(n, 2), "-" + Pad(a, 2), "-" + Pad(b, 2));
    LexPlus(Pad(y, 4), Pad(z, 4), "-" + (Pad(m, 2) + ("-" + Pad(a, 2))), "-" + (Pad(n, 2) + ("-" + Pad(b, 2))));
    KeyText(d);
    KeyText(e);
    CivilOrder(d, e);
    CivilOrder(e, d);
    assert MonthIndexOfDay(d) == 12 * y + m - 1 && MonthIndexOfDay(e) == 12 * z + n - 1;
  }

  lemma DashOrder(s: string, t: string)
    ensures LexLess("-" + s, "-" + t) <==> LexLess(s, t)
  {
    LexPlus("-", "-", s, t);
    assert !LexLess("-", "-");
  }

  lemma KeyText(d: int)
    requires 0 <= YearOfDay(d) <= 9999
    ensures 0 <= MonthOfDay(d) && 0 <= DateOfDay(d)
    ensures Key(d) == Pad(YearOfDay(d), 4) + ("-" + (Pad(MonthOfDay(d) + 1, 2) + ("-" + Pad(DateOfDay(d), 2))))
  {
    KeyParts(d);
    hide YearOfDay, MonthOfDay, DateOfDay, Pad;
  }

  lemma SliceKey(y: string, m: string, d: string)
    requires |y| == 4 && |m| == 2 && |d| == 2
    ensures var key := y + "-" + m + "-" + d;
      |key| == 10 && key[4] == '-' && key[7] == '-' && key[..4] == y && key[5..7] == m && key[8..] == d
  {
  }

  /** A day that its month does not have parses as the day it rolls over to. */
  lemma ImpossibleDayRollsOver(year: nat, month: nat, date: nat)
    requires year <= 9999 && 1 <= month <= 12 && DaysInMonth(12 * year + month - 1) < date <= 31
    ensures var i := 12 * year + month - 1;
      ParseKey(Pad(year, 4) + "-" + Pad(month, 2) + "-" + Pad(date, 2)) == Some(Midnight(i + 1, date - DaysInMonth(i)))
  {
    hide Pad, ParseDigits, Pow10, FirstDay;
    SliceKey(Pad(year, 4), Pad(month, 2), Pad(date, 2));
    Powers();
    PadParses(year, 4);
    PadParses(month, 2);
    PadParses(date, 2);
    MonthLength(12 * year + month - 1);
  }
}
