/** The weekday of an ISO "YYYY-MM-DD" date string, as the app obtains it by
    reading the string as local midnight of that calendar day and asking
    for its day of the week (0 = Sunday .. 6 = Saturday). Dates follow the
    proleptic Gregorian calendar; a string that names no calendar day has
    no weekday (`None`, the original's NaN, which is in no list of days). */
module Calendar {
  import opened Types
  import opened Clock
  import opened Arith

  datatype CivilDate = CivilDate(year: nat, month: nat, day: nat)

  predicate IsLeapYear(y: int) {
    y % 4 == 0 && (y % 100 != 0 || y % 400 == 0)
  }

  function DaysInMonth(y: int, m: nat): (n: nat)
    requires 1 <= m <= 12
    ensures 28 <= n <= 31
  {
    if m == 2 then (if IsLeapYear(y) then 29 else 28)
    else if m == 4 || m == 6 || m == 9 || m == 11 then 30
    else 31
  }

  function Digits2(a: char, b: char): nat
    requires IsDigit(a) && IsDigit(b)
  {
    DigitValue(a) * 10 + DigitValue(b)
  }

  /** A day of the proleptic Gregorian calendar with a four-digit year. */
  predicate ValidDate(c: CivilDate) {
    c.year < 10000 && 1 <= c.month <= 12 && 1 <= c.day <= DaysInMonth(c.year, c.month)
  }

  /** The ISO "YYYY-MM-DD" string of a day. */
  function FormatDate(c: CivilDate): (s: string)
    requires ValidDate(c)
    ensures |s| == 10 && s[4] == '-' && s[7] == '-'
  {
    [DigitChar(c.year / 1000), DigitChar(c.year / 100 % 10), DigitChar(c.year / 10 % 10), DigitChar(c.year % 10), '-',
     DigitChar(c.month / 10), DigitChar(c.month % 10), '-',
     DigitChar(c.day / 10), DigitChar(c.day % 10)]
  }

  /** The calendar day an ISO date string names, if it names one. */
  function ParseDate(s: string): (r: Option<CivilDate>)
    ensures r.Some? ==> ValidDate(r.value)
  {
    if |s| == 10 && s[4] == '-' && s[7] == '-'
       && IsDigit(s[0]) && IsDigit(s[1]) && IsDigit(s[2]) && IsDigit(s[3])
       && IsDigit(s[5]) && IsDigit(s[6]) && IsDigit(s[8]) && IsDigit(s[9])
    then
      var y := Digits2(s[0], s[1]) * 100 + Digits2(s[2], s[3]);
      var m := Digits2(s[5], s[6]);
      var d := Digits2(s[8], s[9]);
      if 1 <= m <= 12 && 1 <= d <= DaysInMonth(y, m) then Some(CivilDate(y, m, d)) else None
    else None
  }

  lemma DigitRoundTrip(c: char)
    requires IsDigit(c)
    ensures DigitChar(DigitValue(c)) == c
  {
  }

  /** The four decimal digits of a year below 10000, and how the two-digit
      halves read them back. */
  lemma YearDigits(y: nat, d0: nat, d1: nat, d2: nat, d3: nat)
    requires d0 < 10 && d1 < 10 && d2 < 10 && d3 < 10
    requires y == (d0 * 10 + d1) * 100 + d2 * 10 + d3
    ensures y / 1000 == d0 && y / 100 % 10 == d1 && y / 10 % 10 == d2 && y % 10 == d3
  {
    DivModUnique(y, 1000, d0, d1 * 100 + d2 * 10 + d3);
    DivModUnique(y, 100, d0 * 10 + d1, d2 * 10 + d3);
    DivModUnique(y / 100, 10, d0, d1);
    DivModUnique(y, 10, d0 * 100 + d1 * 10 + d2, d3);
    DivModUnique(y / 10, 10, d0 * 10 + d1, d2);
  }

  /** A year below 10000 is its four decimal digits put back together. */
  lemma YearFromDigits(y: nat)
    requires y < 10000
    ensures y == (y / 1000 * 10 + y / 100 % 10) * 100 + y / 10 % 10 * 10 + y % 10
  {
    DivModUnique(y, 10, y / 10, y % 10);
    DivModUnique(y / 10, 10, y / 100, y / 10 % 10);
    DivModUnique(y / 100, 10, y / 1000, y / 100 % 10);
  }

  /** Two decimal digits of a value below 100. */
  lemma TwoDigits(v: nat, d0: nat, d1: nat)
    requires d0 < 10 && d1 < 10 && v == d0 * 10 + d1
    ensures v / 10 == d0 && v % 10 == d1
  {
    DivModUnique(v, 10, d0, d1);
  }

  /** Every day with a four-digit year is named by its ISO string. */
  lemma DateFormatParseRoundTrip(c: CivilDate)
    requires ValidDate(c)
    ensures ParseDate(FormatDate(c)) == Some(c)
  {
    var s := FormatDate(c);
    var y := c.year;
    var d0, d1, d2, d3 := y / 1000, y / 100 % 10, y / 10 % 10, y % 10;
    YearFromDigits(y);
    assert Digits2(s[0], s[1]) == d0 * 10 + d1;
    assert Digits2(s[2], s[3]) == d2 * 10 + d3;
    assert Digits2(s[5], s[6]) == c.month;
    assert Digits2(s[8], s[9]) == c.day;
  }

  /** A string that names a day is that day's ISO string. */
  lemma DateParseFormatRoundTrip(s: string)
    requires ParseDate(s).Some?
    ensures FormatDate(ParseDate(s).value) == s
  {
    var c := ParseDate(s).value;
    YearDigits(c.year, DigitValue(s[0]), DigitValue(s[1]), DigitValue(s[2]), DigitValue(s[3]));
    TwoDigits(c.month, DigitValue(s[5]), DigitValue(s[6]));
    TwoDigits(c.day, DigitValue(s[8]), DigitValue(s[9]));
    DigitRoundTrip(s[0]); DigitRoundTrip(s[1]); DigitRoundTrip(s[2]); DigitRoundTrip(s[3]);
    DigitRoundTrip(s[5]); DigitRoundTrip(s[6]); DigitRoundTrip(s[8]); DigitRoundTrip(s[9]);
    assert FormatDate(c) == [s[0], s[1], s[2], s[3], '-', s[5], s[6], '-', s[8], s[9]];
  }

  /** Days from 1970-01-01 to the given day (negative before it), by
      counting in 400-year eras of 146097 days from a March-based year. */
  function DaysFromCivil(date: CivilDate): int
    requires 1 <= date.month <= 12
  {
    var y := if date.month <= 2 then date.year - 1 else date.year;
    var era := y / 400;
    var yoe := y - era * 400;
    var mp := if date.month > 2 then date.month - 3 else date.month + 9;
    var doy := (153 * mp + 2) / 5 + date.day - 1;
    var doe := yoe * 365 + yoe / 4 - yoe / 100 + doy;
    era * 146097 + doe - 719468
  }

  /** Day of the week of an ISO date, 0 = Sunday; 1970-01-01 was a Thursday. */
  function Weekday(date: string): (w: Option<int>)
    ensures w.Some? <==> ParseDate(date).Some?
    ensures w.Some? ==> 0 <= w.value <= 6
  {
    match ParseDate(date)
    case None => None
    case Some(c) => Some((DaysFromCivil(c) + 4) % 7)
  }

  /** The calendar day after `c`. */
  function NextDay(c: CivilDate): (n: CivilDate)
    requires 1 <= c.month <= 12 && 1 <= c.day <= DaysInMonth(c.year, c.month)
    ensures 1 <= n.month <= 12 && 1 <= n.day <= DaysInMonth(n.year, n.month)
  {
    if c.day < DaysInMonth(c.year, c.month) then c.(day := c.day + 1)
    else if c.month < 12 then CivilDate(c.year, c.month + 1, 1)
    else CivilDate(c.year + 1, 1, 1)
  }

  /** Days from the start of era 0 to March 1 of the March-based year `y`. */
  function MarchYearStart(y: int): int {
    var era := y / 400;
    var yoe := y - era * 400;
    era * 146097 + yoe * 365 + yoe / 4 - yoe / 100
  }

  /** Inside a 400-year era, stepping the year of era `k` adds one leap
      day exactly when the next year is a leap year. */
  lemma EraYearStep(k: int)
    requires 0 <= k < 399
    ensures (k + 1) / 4 - k / 4 == if (k + 1) % 4 == 0 then 1 else 0
    ensures (k + 1) / 100 - k / 100 == if (k + 1) % 100 == 0 then 1 else 0
  {
  }

  /** A March-based year has 366 days when the February that ends it is a
      leap February, 365 otherwise. */
  lemma MarchYearLength(y: int)
    ensures MarchYearStart(y + 1) == MarchYearStart(y) + if IsLeapYear(y + 1) then 366 else 365
  {
    var era := y / 400;
    var yoe := y - era * 400;
    assert 0 <= yoe < 400;
    if yoe < 399 {
      DivModUnique(y + 1, 400, era, yoe + 1);
      DivModUnique(y + 1, 4, era * 100 + (yoe + 1) / 4, (yoe + 1) % 4);
      DivModUnique(y + 1, 100, era * 4 + (yoe + 1) / 100, (yoe + 1) % 100);
      EraYearStep(yoe);
    } else {
      DivModUnique(y + 1, 400, era + 1, 0);
      DivModUnique(y + 1, 4, era * 100 + 100, 0);
      assert MarchYearStart(y + 1) == (era + 1) * 146097;
      assert MarchYearStart(y) == era * 146097 + 399 * 365 + 99 - 3;
    }
  }

  /** Days from March 1 to the first of month `m` of the same March-based year. */
  function MonthOffset(m: nat): nat
    requires 1 <= m <= 12
  {
    (153 * (if m > 2 then m - 3 else m + 9) + 2) / 5
  }

  lemma DaysFromCivilByYear(c: CivilDate)
    requires 1 <= c.month <= 12
    ensures DaysFromCivil(c)
         == MarchYearStart(if c.month <= 2 then c.year - 1 else c.year) + MonthOffset(c.month) + c.day - 1 - 719468
  {
  }

  /** Outside February, the next month of the same March-based year starts
      as many days later as the month is long. */
  lemma MonthOffsetStep(y: int, m: nat)
    requires 1 <= m <= 12 && m != 2
    ensures MonthOffset(if m == 12 then 1 else m + 1) == MonthOffset(m) + DaysInMonth(y, m)
  {
    if m == 1 { assert MonthOffset(1) == 306 && MonthOffset(2) == 337; }
    else if m == 3 { assert MonthOffset(3) == 0 && MonthOffset(4) == 31; }
    else if m == 4 { assert MonthOffset(5) == 61; }
    else if m == 5 { assert MonthOffset(5) == 61 && MonthOffset(6) == 92; }
    else if m == 6 { assert MonthOffset(6) == 92 && MonthOffset(7) == 122; }
    else if m == 7 { assert MonthOffset(7) == 122 && MonthOffset(8) == 153; }
    else if m == 8 { assert MonthOffset(8) == 153 && MonthOffset(9) == 184; }
    else if m == 9 { assert MonthOffset(9) == 184 && MonthOffset(10) == 214; }
    else if m == 10 { assert MonthOffset(10) == 214 && MonthOffset(11) == 245; }
    else if m == 11 { assert MonthOffset(11) == 245 && MonthOffset(12) == 275; }
    else { assert MonthOffset(12) == 275 && MonthOffset(1) == 306; }
  }

  /** Consecutive days are one day count apart. */
  lemma DaysFromCivilNext(c: CivilDate)
    requires 1 <= c.month <= 12 && 1 <= c.day <= DaysInMonth(c.year, c.month)
    ensures DaysFromCivil(NextDay(c)) == DaysFromCivil(c) + 1
  {
    var n := NextDay(c);
    DaysFromCivilByYear(c);
    DaysFromCivilByYear(n);
    if c.day < DaysInMonth(c.year, c.month) {
    } else if c.month == 2 {
      MarchYearLength(c.year - 1);
      assert MonthOffset(2) == 337 && MonthOffset(3) == 0;
    } else {
      MonthOffsetStep(c.year, c.month);
    }
  }

  /** The weekday of a day's ISO string comes from its day count. */
  lemma WeekdayOfDay(c: CivilDate)
    requires ValidDate(c)
    ensures Weekday(FormatDate(c)) == Some((DaysFromCivil(c) + 4) % 7)
  {
    DateFormatParseRoundTrip(c);
  }

  lemma NextRemainder(d: int)
    ensures (d + 1) % 7 == ((d % 7) + 1) % 7
  {
    var q, r := d / 7, d % 7;
    if r < 6 {
      DivModUnique(d + 1, 7, q, r + 1);
    } else {
      DivModUnique(d + 1, 7, q + 1, 0);
    }
  }

  /** The weekday advances by one, modulo 7, from each day to the next. */
  lemma WeekdayNext(c: CivilDate)
    requires ValidDate(c) && ValidDate(NextDay(c))
    ensures Weekday(FormatDate(c)).Some? && Weekday(FormatDate(NextDay(c))).Some?
    ensures Weekday(FormatDate(NextDay(c))).value == (Weekday(FormatDate(c)).value + 1) % 7
  {
    WeekdayOfDay(c);
    WeekdayOfDay(NextDay(c));
    DaysFromCivilNext(c);
    NextRemainder(DaysFromCivil(c) + 4);
  }

  lemma EpochWeekday()
    ensures Weekday("1970-01-01") == Some(4)
  {
    assert ParseDate("1970-01-01") == Some(CivilDate(1970, 1, 1));
    DivModUnique(1969, 400, 4, 369);
    assert MarchYearStart(1969) == 4 * 146097 + 369 * 365 + 92 - 3;
    DaysFromCivilByYear(CivilDate(1970, 1, 1));
    assert MonthOffset(1) == 306;
    assert DaysFromCivil(CivilDate(1970, 1, 1)) == 0;
  }

  lemma LeapDay2000Weekday()
    ensures Weekday("2000-02-29") == Some(2)
  {
    assert ParseDate("2000-02-29") == Some(CivilDate(2000, 2, 29));
    DivModUnique(1999, 400, 4, 399);
    assert MarchYearStart(1999) == 4 * 146097 + 399 * 365 + 99 - 3;
    DaysFromCivilByYear(CivilDate(2000, 2, 29));
    assert MonthOffset(2) == 337;
    assert DaysFromCivil(CivilDate(2000, 2, 29)) == 11016;
  }

  lemma June2024Weekday()
    ensures Weekday("2024-06-10") == Some(1)
  {
    assert ParseDate("2024-06-10") == Some(CivilDate(2024, 6, 10));
    DivModUnique(2024, 400, 5, 24);
    assert MarchYearStart(2024) == 5 * 146097 + 24 * 365 + 6;
    DaysFromCivilByYear(CivilDate(2024, 6, 10));
    assert MonthOffset(6) == 92;
    assert DaysFromCivil(CivilDate(2024, 6, 10)) == 19884;
  }

  /** Known anchors: the epoch, a leap day, and a Monday. */
  lemma WeekdayAnchors()
    ensures Weekday("1970-01-01") == Some(4)
    ensures Weekday("2000-02-29") == Some(2)
    ensures Weekday("2024-06-10") == Some(1)
    ensures Weekday("2023-02-29") == None
  {
    EpochWeekday();
    LeapDay2000Weekday();
    June2024Weekday();
    assert !IsLeapYear(2023);
  }
}
