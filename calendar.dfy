/** Calendar dates as the endpoint reads them: text in the form YYYY-MM-DD,
    turned into day numbers of the proleptic Gregorian calendar. A datetime
    holds the years 1 to 9999, so day numbers run from MIN_DAY (0001-01-01)
    to MAX_DAY (9999-12-31); date arithmetic that leaves that range is the
    overflow the endpoint reports. */
module Calendar {
  import opened Common

  /** Day number of a date: 0001-01-01 is day 1. */
  type Day = int

  const MIN_YEAR := 1
  const MAX_YEAR := 9999
  const MIN_DAY: Day := 1
  const MAX_DAY: Day := 3652059

  datatype CivilDate = CivilDate(year: int, month: int, day: int)

  predicate IsLeapYear(y: int) {
    y % 4 == 0 && (y % 100 != 0 || y % 400 == 0)
  }

  function DaysInYear(y: int): int {
    if IsLeapYear(y) then 366 else 365
  }

  function DaysInMonth(y: int, m: int): int
    requires 1 <= m <= 12
  {
    if m == 2 then (if IsLeapYear(y) then 29 else 28)
    else if m == 4 || m == 6 || m == 9 || m == 11 then 30
    else 31
  }

  predicate IsValidDate(d: CivilDate) {
    && MIN_YEAR <= d.year <= MAX_YEAR
    && 1 <= d.month <= 12
    && 1 <= d.day <= DaysInMonth(d.year, d.month)
  }

  /** Days of the years 1 .. y - 1. */
  function DaysBeforeYear(y: int): int
    requires y >= 1
  {
    var p := y - 1;
    p * 365 + p / 4 - p / 100 + p / 400
  }

  /** Days of the months 1 .. m - 1 of year y. */
  function DaysBeforeMonth(y: int, m: int): int
    requires 1 <= m <= 12
  {
    var common :=
      if m == 1 then 0 else if m == 2 then 31 else if m == 3 then 59
      else if m == 4 then 90 else if m == 5 then 120 else if m == 6 then 151
      else if m == 7 then 181 else if m == 8 then 212 else if m == 9 then 243
      else if m == 10 then 273 else if m == 11 then 304 else 334;
    common + (if m > 2 && IsLeapYear(y) then 1 else 0)
  }

  function Ordinal(d: CivilDate): Day
    requires IsValidDate(d)
  {
    DaysBeforeYear(d.year) + DaysBeforeMonth(d.year, d.month) + d.day
  }

  /** The order of datetimes at midnight: by year, then month, then day. */
  predicate IsBefore(a: CivilDate, b: CivilDate) {
    || a.year < b.year
    || (a.year == b.year && a.month < b.month)
    || (a.year == b.year && a.month == b.month && a.day < b.day)
  }

  lemma YearStep(y: int)
    requires y >= 1
    ensures DaysBeforeYear(y + 1) == DaysBeforeYear(y) + DaysInYear(y)
  {
    var p := y - 1;
    assert (p + 1) / 4 == p / 4 + (if y % 4 == 0 then 1 else 0);
    assert (p + 1) / 100 == p / 100 + (if y % 100 == 0 then 1 else 0);
    assert (p + 1) / 400 == p / 400 + (if y % 400 == 0 then 1 else 0);
  }

  /** A whole year y1 ends no later than any later year y2 begins. */
  lemma {:induction false} YearsAscend(y1: int, y2: int)
    requires 1 <= y1 < y2
    ensures DaysBeforeYear(y1) + DaysInYear(y1) <= DaysBeforeYear(y2)
    decreases y2 - y1
  {
    YearStep(y1);
    if y1 + 1 < y2 {
      YearsAscend(y1 + 1, y2);
    }
  }

  /** Within a year, a month m1 ends no later than a later month m2 begins,
      and every month ends within its year. */
  lemma MonthsAscend(y: int, m1: int, m2: int)
    requires 1 <= m1 <= 12 && 1 <= m2 <= 12
    ensures DaysBeforeMonth(y, m1) + DaysInMonth(y, m1) <= DaysInYear(y)
    ensures m1 < m2 ==> DaysBeforeMonth(y, m1) + DaysInMonth(y, m1) <= DaysBeforeMonth(y, m2)
  {
  }

  /** Every valid date has a day number between MIN_DAY and MAX_DAY. */
  lemma OrdinalInRange(d: CivilDate)
    requires IsValidDate(d)
    ensures MIN_DAY <= Ordinal(d) <= MAX_DAY
  {
    MonthsAscend(d.year, d.month, d.month);
    if d.year < MAX_YEAR {
      YearsAscend(d.year, MAX_YEAR);
    }
    assert DaysBeforeYear(MAX_YEAR) + DaysInYear(MAX_YEAR) == MAX_DAY;
  }

  /** Day numbers order dates as datetimes are ordered, and name each date
      once: comparing day numbers is comparing the parsed datetimes. */
  lemma OrdinalOrder(a: CivilDate, b: CivilDate)
    requires IsValidDate(a) && IsValidDate(b)
    ensures IsBefore(a, b) <==> Ordinal(a) < Ordinal(b)
    ensures a == b <==> Ordinal(a) == Ordinal(b)
  {
    MonthsAscend(a.year, a.month, b.month);
    MonthsAscend(b.year, b.month, a.month);
    if a.year < b.year {
      YearsAscend(a.year, b.year);
    } else if b.year < a.year {
      YearsAscend(b.year, a.year);
    }
  }

  /** The calendar day after `d`, as adding `timedelta(days=1)` gives it. */
  function NextDate(d: CivilDate): CivilDate
    requires IsValidDate(d)
  {
    if d.day < DaysInMonth(d.year, d.month) then CivilDate(d.year, d.month, d.day + 1)
    else if d.month < 12 then CivilDate(d.year, d.month + 1, 1)
    else CivilDate(d.year + 1, 1, 1)
  }

  /** Consecutive calendar days have consecutive day numbers, so adding or
      subtracting whole days is adding or subtracting day numbers. */
  lemma NextDateIsNextDay(d: CivilDate)
    requires IsValidDate(d) && d != CivilDate(MAX_YEAR, 12, 31)
    ensures IsValidDate(NextDate(d))
    ensures Ordinal(NextDate(d)) == Ordinal(d) + 1
    ensures IsBefore(d, NextDate(d))
  {
    if d.day == DaysInMonth(d.year, d.month) && d.month == 12 {
      YearStep(d.year);
    }
  }

  /** 9999-12-31 is the day MAX_DAY. */
  lemma LastDayNumber()
    ensures IsValidDate(CivilDate(MAX_YEAR, 12, 31))
    ensures Ordinal(CivilDate(MAX_YEAR, 12, 31)) == MAX_DAY
  {
    assert DaysBeforeYear(MAX_YEAR) == 3651694;
  }

  /** `d` is a valid date whose day number is `n`. */
  predicate Names(d: CivilDate, n: Day) {
    IsValidDate(d) && Ordinal(d) == n
  }

  /** Every day number from MIN_DAY to MAX_DAY names a valid date, so every
      window bound the endpoint derives inside that range is a datetime. */
  lemma {:induction false} EveryDayIsADate(n: Day)
    requires MIN_DAY <= n <= MAX_DAY
    ensures exists d :: Names(d, n)
    decreases n
  {
    if n == MIN_DAY {
      FirstDayNumber();
    } else {
      EveryDayIsADate(n - 1);
      var d :| Names(d, n - 1);
      LastDayNumber();
      assert d != CivilDate(MAX_YEAR, 12, 31);
      NextDateIsNextDay(d);
      assert Names(NextDate(d), n);
    }
  }

  /** 0001-01-01 is the day MIN_DAY. */
  lemma FirstDayNumber()
    ensures Names(CivilDate(MIN_YEAR, 1, 1), MIN_DAY)
  {
  }

  predicate IsDigit(c: char) {
    '0' <= c <= '9'
  }

  function DigitValue(c: char): int
    requires IsDigit(c)
  {
    c as int - '0' as int
  }

  /** The number written by the decimal digits of `s`, or None when `s` is
      not made of digits only. */
  function Number(s: string): (r: Option<int>)
    ensures r.Some? <==> forall i :: 0 <= i < |s| ==> IsDigit(s[i])
    ensures r.Some? ==> r.value >= 0
  {
    if s == [] then Some(0)
    else
      match Number(s[..|s| - 1])
      case None => None
      case Some(n) =>
        if IsDigit(s[|s| - 1]) then Some(10 * n + DigitValue(s[|s| - 1])) else None
  }

  /** Parsing with the format %Y-%m-%d, in its strict form: four digits of
      year, two of month, two of day, separated by '-', naming a date that
      exists. */
  function ParseDate(s: string): (r: Option<CivilDate>)
    ensures r.Some? ==> IsValidDate(r.value)
    ensures r.Some? ==> |s| == 10 && s[4] == '-' && s[7] == '-'
  {
    if |s| == 10 && s[4] == '-' && s[7] == '-' then
      match (Number(s[0..4]), Number(s[5..7]), Number(s[8..10]))
      case (Some(y), Some(m), Some(d)) =>
        if IsValidDate(CivilDate(y, m, d)) then Some(CivilDate(y, m, d)) else None
      case _ => None
    else None
  }

  /** The day number of a date written as YYYY-MM-DD, or None when the text
      is not such a date. */
  function ParseDay(s: string): (r: Option<Day>)
    ensures r.Some? <==> ParseDate(s).Some?
    ensures r.Some? ==> IsValidDate(ParseDate(s).value) && r.value == Ordinal(ParseDate(s).value)
    ensures r.Some? ==> MIN_DAY <= r.value <= MAX_DAY
  {
    match ParseDate(s)
    case None => None
    case Some(d) => OrdinalInRange(d); Some(Ordinal(d))
  }

  function Pow10(w: nat): nat {
    if w == 0 then 1 else 10 * Pow10(w - 1)
  }

  function DigitChar(k: int): char
    requires 0 <= k < 10
  {
    ('0' as int + k) as char
  }

  /** `n` written with exactly `w` decimal digits, zero-padded on the left. */
  function Digits(n: nat, w: nat): (s: string)
    requires n < Pow10(w)
    ensures |s| == w
  {
    if w == 0 then ""
    else Digits(n / 10, w - 1) + [DigitChar(n % 10)]
  }

  /** The text of a date as %Y-%m-%d writes it: YYYY-MM-DD, zero-padded. */
  function FormatDate(d: CivilDate): (s: string)
    requires IsValidDate(d)
    ensures |s| == 10
  {
    Digits(d.year, 4) + "-" + Digits(d.month, 2) + "-" + Digits(d.day, 2)
  }

  /** A zero-padded numeral reads back as its number. */
  lemma {:induction false} NumberOfDigits(n: nat, w: nat)
    requires n < Pow10(w)
    ensures Number(Digits(n, w)) == Some(n)
  {
    if w > 0 {
      var s := Digits(n, w);
      assert n / 10 < Pow10(w - 1);
      NumberOfDigits(n / 10, w - 1);
      assert s[..|s| - 1] == Digits(n / 10, w - 1);
      assert DigitValue(s[|s| - 1]) == n % 10;
    }
  }

  /** A text of digits is the zero-padded numeral of the number it reads as. */
  lemma {:induction false} DigitsOfNumber(s: string)
    requires Number(s).Some?
    ensures Number(s).value < Pow10(|s|)
    ensures s == Digits(Number(s).value, |s|)
  {
    if s != [] {
      var prefix, c := s[..|s| - 1], s[|s| - 1];
      DigitsOfNumber(prefix);
      var m, k := Number(prefix).value, DigitValue(c);
      assert Number(s).value == 10 * m + k;
      assert (10 * m + k) / 10 == m && (10 * m + k) % 10 == k;
      assert DigitChar(k) == c;
      assert s == prefix + [c];
    }
  }

  /** Every valid date, written as YYYY-MM-DD, parses back to itself. */
  lemma ParseFormat(d: CivilDate)
    requires IsValidDate(d)
    ensures ParseDate(FormatDate(d)) == Some(d)
    ensures ParseDay(FormatDate(d)) == Some(Ordinal(d))
  {
    var s := FormatDate(d);
    assert s[0..4] == Digits(d.year, 4);
    assert s[5..7] == Digits(d.month, 2);
    assert s[8..10] == Digits(d.day, 2);
    NumberOfDigits(d.year, 4);
    NumberOfDigits(d.month, 2);
    NumberOfDigits(d.day, 2);
  }

  /** A text that parses is the YYYY-MM-DD text of the date it names. */
  lemma FormatParse(s: string)
    requires ParseDate(s).Some?
    ensures s == FormatDate(ParseDate(s).value)
  {
    var d := ParseDate(s).value;
    var year, month, day := s[0..4], s[5..7], s[8..10];
    assert Number(year) == Some(d.year) && Number(month) == Some(d.month) && Number(day) == Some(d.day);
    DigitsOfNumber(year);
    DigitsOfNumber(month);
    DigitsOfNumber(day);
    assert FormatDate(d) == year + "-" + month + "-" + day;
    assert s == year + "-" + month + "-" + day;
  }

  /** A text parses to a date exactly when it is that valid date written as
      YYYY-MM-DD. */
  lemma ParseDateExactly(s: string, d: CivilDate)
    ensures ParseDate(s) == Some(d) <==> IsValidDate(d) && s == FormatDate(d)
  {
    if ParseDate(s) == Some(d) {
      FormatParse(s);
    }
    if IsValidDate(d) && s == FormatDate(d) {
      ParseFormat(d);
    }
  }

  /** Comparing parsed texts by day number is comparing the dates they name. */
  lemma ParseDayOrder(s: string, t: string)
    requires ParseDay(s).Some? && ParseDay(t).Some?
    ensures ParseDay(s).value < ParseDay(t).value <==> IsBefore(ParseDate(s).value, ParseDate(t).value)
    ensures ParseDay(s).value == ParseDay(t).value <==> ParseDate(s).value == ParseDate(t).value
  {
    OrdinalOrder(ParseDate(s).value, ParseDate(t).value);
  }
}
