/**
 * Calendar values as the aggregation sees them: dates pandas can hold as
 * nanosecond timestamps, the `YYYY-MM` month bucket, its parse back to a
 * first-of-month timestamp, and English month names.
 */
module Calendar {
  import opened Base

  datatype Date = Date(year: int, month: int, day: int)

  predicate IsLeapYear(y: int)
  {
    y % 4 == 0 && (y % 100 != 0 || y % 400 == 0)
  }

  function DaysInMonth(y: int, m: int): int
    requires 1 <= m <= 12
  {
    if m == 2 then (if IsLeapYear(y) then 29 else 28)
    else if m == 4 || m == 6 || m == 9 || m == 11 then 30
    else 31
  }

  /** Lexicographic order on (year, month, day). */
  predicate NotAfter(a: Date, b: Date)
  {
    a.year < b.year
    || (a.year == b.year && (a.month < b.month || (a.month == b.month && a.day <= b.day)))
  }

  /**
   * A real calendar date whose midnight lies within pandas' nanosecond
   * timestamp range (1677-09-21 00:12:43 to 2262-04-11 23:47:16).
   */
  predicate IsTimestampDate(d: Date)
  {
    && 1 <= d.month <= 12
    && 1 <= d.day <= DaysInMonth(d.year, d.month)
    && NotAfter(Date(1677, 9, 22), d)
    && NotAfter(d, Date(2262, 4, 11))
  }

  type TimestampDate = d: Date | IsTimestampDate(d) witness Date(2000, 1, 1)

  const MonthNames: seq<string> := [
    "January", "February", "March", "April", "May", "June",
    "July", "August", "September", "October", "November", "December"]

  /** `strftime('%B')` of a month number. */
  function MonthName(month: int): string
    requires 1 <= month <= 12
  {
    MonthNames[month - 1]
  }

  function DigitChar(d: int): char
    requires 0 <= d <= 9
  {
    ('0' as int + d) as char
  }

  function DigitValue(c: char): Option<int>
  {
    if '0' <= c <= '9' then Some(c as int - '0' as int) else None
  }

  /** The month bucket `to_period('M').astype(str)` renders: four year digits, a dash, two month digits. */
  function YearMonthText(year: int, month: int): string
    requires 1000 <= year <= 9999 && 1 <= month <= 12
  {
    [ DigitChar(year / 1000), DigitChar(year / 100 % 10), DigitChar(year / 10 % 10), DigitChar(year % 10),
      '-', DigitChar(month / 10), DigitChar(month % 10) ]
  }

  /** The month bucket of a date. */
  function YearMonthOf(d: TimestampDate): string
  {
    YearMonthText(d.year, d.month)
  }

  /** The value of a run of decimal digits, or `None` if some character is not a digit. */
  function DigitsValue(s: string): (r: Option<int>)
    ensures r.Some? <==> forall k :: 0 <= k < |s| ==> '0' <= s[k] <= '9'
    ensures r.Some? ==> r.value >= 0
    decreases |s|
  {
    if |s| == 0 then Some(0)
    else
      match (DigitsValue(s[..|s| - 1]), DigitValue(s[|s| - 1]))
      case (Some(high), Some(low)) => Some(10 * high + low)
      case _ => None
  }

  /**
   * `pd.to_datetime` of a month bucket: the year and month of the first day of
   * that month, or `None` where pandas raises (not of the `YYYY-MM` form, a
   * month outside 1..12, or a first day outside the timestamp range).
   */
  function ParseYearMonth(s: string): Option<(int, int)>
  {
    if |s| != 7 || s[4] != '-' then None
    else
      match (DigitsValue(s[..4]), DigitsValue(s[5..]))
      case (Some(y), Some(m)) =>
        if 1 <= m <= 12 && IsTimestampDate(Date(y, m, 1)) then Some((y, m)) else None
      case _ => None
  }

  lemma DigitRoundTrip(d: int)
    requires 0 <= d <= 9
    ensures DigitValue(DigitChar(d)) == Some(d)
  {
  }

  /** Appending a digit to a run of digits multiplies its value by ten and adds the digit. */
  lemma DigitsValueAppend(s: string, d: int)
    requires 0 <= d <= 9 && DigitsValue(s).Some?
    ensures DigitsValue(s + [DigitChar(d)]) == Some(10 * DigitsValue(s).value + d)
  {
    var t := s + [DigitChar(d)];
    assert t[..|t| - 1] == s;
    DigitRoundTrip(d);
  }

  lemma DigitsOfFour(a: int, b: int, c: int, d: int)
    requires 0 <= a <= 9 && 0 <= b <= 9 && 0 <= c <= 9 && 0 <= d <= 9
    ensures DigitsValue([DigitChar(a), DigitChar(b), DigitChar(c), DigitChar(d)]) == Some(1000 * a + 100 * b + 10 * c + d)
  {
    var e: string := [];
    DigitsValueAppend(e, a);
    assert e + [DigitChar(a)] == [DigitChar(a)];
    DigitsValueAppend([DigitChar(a)], b);
    assert [DigitChar(a)] + [DigitChar(b)] == [DigitChar(a), DigitChar(b)];
    DigitsValueAppend([DigitChar(a), DigitChar(b)], c);
    assert [DigitChar(a), DigitChar(b)] + [DigitChar(c)] == [DigitChar(a), DigitChar(b), DigitChar(c)];
    DigitsValueAppend([DigitChar(a), DigitChar(b), DigitChar(c)], d);
    assert [DigitChar(a), DigitChar(b), DigitChar(c)] + [DigitChar(d)] == [DigitChar(a), DigitChar(b), DigitChar(c), DigitChar(d)];
  }

  lemma DecimalPlaces(year: int)
    requires 1000 <= year <= 9999
    ensures year == 1000 * (year / 1000) + 100 * (year / 100 % 10) + 10 * (year / 10 % 10) + year % 10
  {
    var q1 := year / 10;
    var q2 := q1 / 10;
    assert year / 100 == q2;
    assert year / 1000 == q2 / 10;
  }

  lemma FourDigits(year: int)
    requires 1000 <= year <= 9999
    ensures DigitsValue([DigitChar(year / 1000), DigitChar(year / 100 % 10), DigitChar(year / 10 % 10), DigitChar(year % 10)]) == Some(year)
  {
    DigitsOfFour(year / 1000, year / 100 % 10, year / 10 % 10, year % 10);
    DecimalPlaces(year);
  }

  lemma TwoDigits(month: int)
    requires 1 <= month <= 12
    ensures DigitsValue([DigitChar(month / 10), DigitChar(month % 10)]) == Some(month)
  {
    var e: string := [];
    DigitsValueAppend(e, month / 10);
    assert e + [DigitChar(month / 10)] == [DigitChar(month / 10)];
    DigitsValueAppend([DigitChar(month / 10)], month % 10);
  }

  /**
   * Reading a month bucket back yields its year and month exactly when its
   * first day is a timestamp; for any date, that fails only in September 1677.
   */
  lemma ParseYearMonthText(year: int, month: int)
    requires 1000 <= year <= 9999 && 1 <= month <= 12
    ensures ParseYearMonth(YearMonthText(year, month)) ==
      (if IsTimestampDate(Date(year, month, 1)) then Some((year, month)) else None)
  {
    var s := YearMonthText(year, month);
    FourDigits(year);
    TwoDigits(month);
    assert s[..4] == [DigitChar(year / 1000), DigitChar(year / 100 % 10), DigitChar(year / 10 % 10), DigitChar(year % 10)];
    assert s[5..] == [DigitChar(month / 10), DigitChar(month % 10)];
  }

  /** The bucket of a timestamp date can be read back unless the date lies in September 1677. */
  lemma MonthStartRepresentable(d: TimestampDate)
    ensures IsTimestampDate(Date(d.year, d.month, 1)) <==> !(d.year == 1677 && d.month == 9)
  {
  }
}
