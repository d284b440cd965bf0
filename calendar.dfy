/** The part of `LocalDate` the core uses: reading an ISO 8601 calendar
    date in the complete extended form `YYYY-MM-DD` (section 4.1.2.2 of
    ISO 8601:2004) and naming its day of the week in the proleptic
    Gregorian calendar. */
module Calendar {
  import opened Wrappers

  datatype Date = Date(year: int, month: int, day: int)

  predicate IsLeapYear(y: int)
  {
    y % 4 == 0 && (y % 100 != 0 || y % 400 == 0)
  }

  function DaysInMonth(y: int, m: int): (n: int)
    requires 1 <= m <= 12
    ensures m == 2 ==> (n == 29 <==> IsLeapYear(y)) && 28 <= n <= 29
    ensures m != 2 ==> n == (if m in {4, 6, 9, 11} then 30 else 31)
  {
    if m == 2 then (if IsLeapYear(y) then 29 else 28)
    else if m == 4 || m == 6 || m == 9 || m == 11 then 30
    else 31
  }

  /** A day of the proleptic Gregorian calendar from year 0 on. */
  predicate IsCalendarDate(d: Date)
  {
    0 <= d.year && 1 <= d.month <= 12 && 1 <= d.day <= DaysInMonth(d.year, d.month)
  }

  /** A calendar date whose year fits the four digits of `YYYY-MM-DD`. */
  predicate IsIsoDate(d: Date)
  {
    IsCalendarDate(d) && d.year <= 9999
  }

  // ---------------------------------------------------------------------
  // Counting days

  /** Number of leap years among 0, 1, ..., y - 1, in closed form. */
  function LeapYearsBefore(y: nat): (n: int)
  {
    (y + 3) / 4 - (y + 99) / 100 + (y + 399) / 400
  }

  /** The same count, one year at a time: the reference definition. */
  function CountLeapYears(y: nat): (n: nat)
  {
    if y == 0 then 0 else CountLeapYears(y - 1) + (if IsLeapYear(y - 1) then 1 else 0)
  }

  lemma LeapYearsStep(y: nat)
    ensures LeapYearsBefore(y + 1) == LeapYearsBefore(y) + (if IsLeapYear(y) then 1 else 0)
  {
    assert (y + 4) / 4 == (y + 3) / 4 + (if y % 4 == 0 then 1 else 0);
    assert (y + 100) / 100 == (y + 99) / 100 + (if y % 100 == 0 then 1 else 0);
    assert (y + 400) / 400 == (y + 399) / 400 + (if y % 400 == 0 then 1 else 0);
  }

  /** The closed form counts exactly the leap years before `y`. */
  lemma {:induction false} LeapYearsBeforeCounts(y: nat)
    ensures LeapYearsBefore(y) == CountLeapYears(y)
  {
    if y > 0 {
      LeapYearsBeforeCounts(y - 1);
      LeapYearsStep(y - 1);
    }
  }

  /** Days in the years 0 .. y - 1. */
  function DaysBeforeYear(y: nat): (n: int)
  {
    365 * y + LeapYearsBefore(y)
  }

  /** Days in the months 1 .. m - 1 of year `y`. */
  function DaysBeforeMonth(y: int, m: int): (n: int)
    requires 1 <= m <= 12
  {
    if m == 1 then 0 else DaysBeforeMonth(y, m - 1) + DaysInMonth(y, m - 1)
  }

  lemma DaysInYear(y: nat)
    ensures DaysBeforeMonth(y, 12) + DaysInMonth(y, 12) == (if IsLeapYear(y) then 366 else 365)
  {
    assert DaysBeforeMonth(y, 2) == 31;
    assert DaysBeforeMonth(y, 3) == 31 + DaysInMonth(y, 2);
    assert DaysBeforeMonth(y, 4) == DaysBeforeMonth(y, 3) + 31;
    assert DaysBeforeMonth(y, 5) == DaysBeforeMonth(y, 4) + 30;
    assert DaysBeforeMonth(y, 6) == DaysBeforeMonth(y, 5) + 31;
    assert DaysBeforeMonth(y, 7) == DaysBeforeMonth(y, 6) + 30;
    assert DaysBeforeMonth(y, 8) == DaysBeforeMonth(y, 7) + 31;
    assert DaysBeforeMonth(y, 9) == DaysBeforeMonth(y, 8) + 31;
    assert DaysBeforeMonth(y, 10) == DaysBeforeMonth(y, 9) + 30;
    assert DaysBeforeMonth(y, 11) == DaysBeforeMonth(y, 10) + 31;
    assert DaysBeforeMonth(y, 12) == DaysBeforeMonth(y, 11) + 30;
  }

  /** Days elapsed since 0000-01-01. */
  function DayNumber(d: Date): (n: int)
    requires IsCalendarDate(d)
  {
    DaysBeforeYear(d.year) + DaysBeforeMonth(d.year, d.month) + d.day - 1
  }

  /** The calendar day after `d`. */
  function NextDay(d: Date): (r: Date)
    requires IsCalendarDate(d)
    ensures IsCalendarDate(r)
  {
    if d.day < DaysInMonth(d.year, d.month) then Date(d.year, d.month, d.day + 1)
    else if d.month < 12 then Date(d.year, d.month + 1, 1)
    else Date(d.year + 1, 1, 1)
  }

  /** The day count advances by exactly one from each day to the next,
      across month and year ends. */
  lemma NextDayNumber(d: Date)
    requires IsCalendarDate(d)
    ensures DayNumber(NextDay(d)) == DayNumber(d) + 1
  {
    if d.day == DaysInMonth(d.year, d.month) && d.month == 12 {
      LeapYearsStep(d.year);
      DaysInYear(d.year);
    }
  }

  // ---------------------------------------------------------------------
  // Day of the week

  /** Day of the week, 0 for Monday through 6 for Sunday; 0000-01-01 of the
      proleptic Gregorian calendar was a Saturday. */
  function DayOfWeek(d: Date): (w: int)
    requires IsCalendarDate(d)
    ensures 0 <= w < 7
  {
    (DayNumber(d) + 5) % 7
  }

  const WeekdayNames: seq<string> :=
    ["Monday", "Tuesday", "Wednesday", "Thursday", "Friday", "Saturday", "Sunday"]

  /** The full English name of the day of the week. */
  function WeekdayName(d: Date): (r: string)
    requires IsCalendarDate(d)
    ensures r in WeekdayNames
  {
    WeekdayNames[DayOfWeek(d)]
  }

  /** Consecutive days fall on consecutive days of the week. */
  lemma NextDayOfWeek(d: Date)
    requires IsCalendarDate(d)
    ensures DayOfWeek(NextDay(d)) == (DayOfWeek(d) + 1) % 7
  {
    var n, e := DayNumber(d), NextDay(d);
    NextDayNumber(d);
    assert DayNumber(e) == n + 1;
    WeekdaySuccessor(n);
    assert DayOfWeek(e) == (n + 1 + 5) % 7;
  }

  lemma WeekdaySuccessor(n: int)
    ensures (n + 1 + 5) % 7 == ((n + 5) % 7 + 1) % 7
  {
    var q := (n + 5) / 7;
    assert n + 5 == 7 * q + (n + 5) % 7;
  }

  /** Anchors: 2000-01-01 was a Saturday and 2024-05-01 a Wednesday. */
  lemma KnownWeekdays()
    ensures WeekdayName(Date(2000, 1, 1)) == "Saturday"
    ensures WeekdayName(Date(2024, 5, 1)) == "Wednesday"
  {
    assert DaysBeforeMonth(2024, 5) == 121;
    assert DayNumber(Date(2024, 5, 1)) == 739372;
    assert DayNumber(Date(2000, 1, 1)) == 730485;
  }

  // ---------------------------------------------------------------------
  // The text form YYYY-MM-DD

  predicate IsDigit(c: char)
  {
    '0' <= c <= '9'
  }

  function DigitValue(c: char): (n: int)
    requires IsDigit(c)
    ensures 0 <= n <= 9
  {
    c as int - '0' as int
  }

  function DigitChar(n: int): (c: char)
    requires 0 <= n <= 9
    ensures IsDigit(c) && DigitValue(c) == n
  {
    ('0' as int + n) as char
  }

  predicate AllDigits(s: string)
  {
    forall k :: 0 <= k < |s| ==> IsDigit(s[k])
  }

  /** Value of a two-digit field. */
  function Value2(s: string): (n: int)
    requires |s| == 2 && AllDigits(s)
    ensures 0 <= n <= 99
  {
    10 * DigitValue(s[0]) + DigitValue(s[1])
  }

  /** Value of a four-digit field. */
  function Value4(s: string): (n: int)
    requires |s| == 4 && AllDigits(s)
    ensures 0 <= n <= 9999
  {
    1000 * DigitValue(s[0]) + 100 * DigitValue(s[1]) + 10 * DigitValue(s[2]) + DigitValue(s[3])
  }

  function Format2(n: int): (s: string)
    requires 0 <= n <= 99
    ensures |s| == 2 && AllDigits(s)
  {
    [DigitChar(n / 10), DigitChar(n % 10)]
  }

  function Format4(n: int): (s: string)
    requires 0 <= n <= 9999
    ensures |s| == 4 && AllDigits(s)
  {
    [DigitChar(n / 1000), DigitChar(n / 100 % 10), DigitChar(n / 10 % 10), DigitChar(n % 10)]
  }

  lemma Value2Format2(n: int)
    requires 0 <= n <= 99
    ensures Value2(Format2(n)) == n
  {
  }

  lemma Format2Value2(s: string)
    requires |s| == 2 && AllDigits(s)
    ensures Format2(Value2(s)) == s
  {
    var a, b := DigitValue(s[0]), DigitValue(s[1]);
    assert (10 * a + b) / 10 == a && (10 * a + b) % 10 == b;
  }

  lemma Value4Format4(n: int)
    requires 0 <= n <= 9999
    ensures Value4(Format4(n)) == n
  {
    var t, h, k := n / 10, n / 100, n / 1000;
    assert n == 10 * t + n % 10;
    assert h == t / 10 && t == 10 * h + t % 10;
    assert k == h / 10 && h == 10 * k + h % 10;
    assert Format4(n) == [DigitChar(k), DigitChar(h % 10), DigitChar(t % 10), DigitChar(n % 10)];
  }

  lemma Format4Value4(s: string)
    requires |s| == 4 && AllDigits(s)
    ensures Format4(Value4(s)) == s
  {
    var a, b, c, d := DigitValue(s[0]), DigitValue(s[1]), DigitValue(s[2]), DigitValue(s[3]);
    var n := 1000 * a + 100 * b + 10 * c + d;
    assert n / 1000 == a;
    assert n / 100 == 10 * a + b;
    assert n / 10 == 100 * a + 10 * b + c;
  }

  /** The text `YYYY-MM-DD` of an ISO date. */
  function FormatIso(d: Date): (s: string)
    requires IsIsoDate(d)
    ensures |s| == 10
  {
    Format4(d.year) + "-" + Format2(d.month) + "-" + Format2(d.day)
  }

  /** `LocalDate.parse` on unsigned text: exactly four year digits, a
      dash, two month digits, a dash, two day digits, naming a day that
      exists in the Gregorian calendar; anything else is refused (the
      source catches the exception). */
  function ParseIsoDate(s: string): (r: Option<Date>)
    ensures r.Some? ==> IsIsoDate(r.value) && FormatIso(r.value) == s
  {
    if |s| == 10 && s[4] == '-' && s[7] == '-'
       && AllDigits(s[..4]) && AllDigits(s[5..7]) && AllDigits(s[8..])
    then
      var d := Date(Value4(s[..4]), Value2(s[5..7]), Value2(s[8..]));
      if IsIsoDate(d) then
        Format4Value4(s[..4]);
        Format2Value2(s[5..7]);
        Format2Value2(s[8..]);
        assert s == s[..4] + "-" + s[5..7] + "-" + s[8..];
        Some(d)
      else None
    else None
  }

  /** Reading the text of a date gives that date back. */
  lemma ParseFormatIso(d: Date)
    requires IsIsoDate(d)
    ensures ParseIsoDate(FormatIso(d)) == Some(d)
  {
    var s := FormatIso(d);
    assert s[..4] == Format4(d.year);
    assert s[5..7] == Format2(d.month);
    assert s[8..] == Format2(d.day);
    Value4Format4(d.year);
    Value2Format2(d.month);
    Value2Format2(d.day);
  }

  /** The parser accepts exactly the texts of ISO dates, and nothing else. */
  lemma ParseIsoDateExact(s: string, d: Date)
    ensures ParseIsoDate(s) == Some(d) <==> IsIsoDate(d) && s == FormatIso(d)
  {
    if IsIsoDate(d) && s == FormatIso(d) {
      ParseFormatIso(d);
    }
  }

  /** Every ISO date text is free of the date/time separator `T`. */
  lemma FormatIsoHasNoT(d: Date)
    requires IsIsoDate(d)
    ensures 'T' !in FormatIso(d)
  {
    var s := FormatIso(d);
    forall k | 0 <= k < |s| ensures s[k] != 'T' {
      assert IsDigit(s[k]) || s[k] == '-';
    }
  }
}
