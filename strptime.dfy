/**
 * The two string formats the planner reads and writes:
 * `datetime.strptime(s, "%Y-%m-%d")`, `datetime.strptime(s, "%H:%M")` and
 * `date.isoformat()`.
 *
 * CPython's `_strptime` turns each directive into a regular expression
 * (`%Y` is four digits, `%m` is `1[0-2]|0[1-9]|[1-9]`, `%d` is
 * `3[01]|[12]\d|0[1-9]|[1-9]| [1-9]`, `%H` is `2[0-3]|[0-1]\d|\d`, `%M` is
 * `[0-5]\d|\d`), requires the match to consume the whole string, and then
 * raises ValueError when the fields do not form a real date. The fields
 * contain no separator, so the text between two separators is the field.
 */
module Strptime {
  import opened Wrappers
  import opened Dates

  predicate IsDigit(c: char) {
    '0' <= c <= '9'
  }

  function DigitValue(c: char): (v: int)
    requires IsDigit(c)
    ensures 0 <= v <= 9
  {
    c as int - '0' as int
  }

  function DigitChar(v: int): (c: char)
    requires 0 <= v <= 9
    ensures IsDigit(c) && DigitValue(c) == v
  {
    ('0' as int + v) as char
  }

  /** `%m` */
  function MonthField(t: string): (r: Option<int>)
    ensures r.Some? ==> 1 <= r.value <= 12
  {
    if |t| == 1 && '1' <= t[0] <= '9' then Some(DigitValue(t[0]))
    else if |t| == 2 && t[0] == '0' && '1' <= t[1] <= '9' then Some(DigitValue(t[1]))
    else if |t| == 2 && t[0] == '1' && '0' <= t[1] <= '2' then Some(10 + DigitValue(t[1]))
    else None
  }

  /** `%d` (one alternative is a space followed by a digit). */
  function DayField(t: string): (r: Option<int>)
    ensures r.Some? ==> 1 <= r.value <= 31
  {
    if |t| == 1 && '1' <= t[0] <= '9' then Some(DigitValue(t[0]))
    else if |t| == 2 && (t[0] == ' ' || t[0] == '0') && '1' <= t[1] <= '9' then Some(DigitValue(t[1]))
    else if |t| == 2 && (t[0] == '1' || t[0] == '2') && IsDigit(t[1]) then Some(10 * DigitValue(t[0]) + DigitValue(t[1]))
    else if |t| == 2 && t[0] == '3' && (t[1] == '0' || t[1] == '1') then Some(30 + DigitValue(t[1]))
    else None
  }

  /** `%H` */
  function HourField(t: string): (r: Option<int>)
    ensures r.Some? ==> 0 <= r.value <= 23
  {
    if |t| == 1 && IsDigit(t[0]) then Some(DigitValue(t[0]))
    else if |t| == 2 && (t[0] == '0' || t[0] == '1') && IsDigit(t[1]) then Some(10 * DigitValue(t[0]) + DigitValue(t[1]))
    else if |t| == 2 && t[0] == '2' && '0' <= t[1] <= '3' then Some(20 + DigitValue(t[1]))
    else None
  }

  /** `%M` */
  function MinuteField(t: string): (r: Option<int>)
    ensures r.Some? ==> 0 <= r.value <= 59
  {
    if |t| == 1 && IsDigit(t[0]) then Some(DigitValue(t[0]))
    else if |t| == 2 && '0' <= t[0] <= '5' && IsDigit(t[1]) then Some(10 * DigitValue(t[0]) + DigitValue(t[1]))
    else None
  }

  /** `%Y` */
  function YearField(t: string): (r: Option<int>)
    ensures r.Some? ==> 0 <= r.value <= 9999
  {
    if |t| == 4 && IsDigit(t[0]) && IsDigit(t[1]) && IsDigit(t[2]) && IsDigit(t[3]) then
      Some(1000 * DigitValue(t[0]) + 100 * DigitValue(t[1]) + 10 * DigitValue(t[2]) + DigitValue(t[3]))
    else None
  }

  /** The date the three fields name, or None where `datetime.date` raises ValueError. */
  function DateOfFields(y: Option<int>, m: Option<int>, d: Option<int>): (r: Option<Date>)
    ensures r.Some? ==> ValidDate(r.value)
  {
    if y.Some? && m.Some? && d.Some? && MinYear <= y.value <= MaxYear
       && 1 <= m.value <= 12 && 1 <= d.value <= DaysInMonth(y.value, m.value)
    then Some(Date(y.value, m.value, d.value))
    else None
  }

  /** `datetime.strptime(s, "%Y-%m-%d").date()`; None where it raises ValueError. */
  function ParseIsoDate(s: string): (r: Option<Date>)
    ensures r.Some? ==> ValidDate(r.value)
  {
    if |s| < 5 || s[4] != '-' then None
    else
      var rest := s[5..];
      if |rest| >= 2 && rest[1] == '-' then DateOfFields(YearField(s[..4]), MonthField(rest[..1]), DayField(rest[2..]))
      else if |rest| >= 3 && rest[2] == '-' then DateOfFields(YearField(s[..4]), MonthField(rest[..2]), DayField(rest[3..]))
      else None
  }

  /** `datetime.strptime(s, "%H:%M").time()`; None where it raises ValueError. */
  function ParseHourMinute(s: string): (r: Option<Time>)
    ensures r.Some? ==> ValidTime(r.value) && r.value.second == 0 && r.value.microsecond == 0
  {
    if |s| >= 2 && s[1] == ':' then TimeOfFields(HourField(s[..1]), MinuteField(s[2..]))
    else if |s| >= 3 && s[2] == ':' then TimeOfFields(HourField(s[..2]), MinuteField(s[3..]))
    else None
  }

  function TimeOfFields(h: Option<int>, m: Option<int>): (r: Option<Time>)
    requires h.Some? ==> 0 <= h.value <= 23
    requires m.Some? ==> 0 <= m.value <= 59
    ensures r.Some? ==> ValidTime(r.value) && r.value.second == 0 && r.value.microsecond == 0
  {
    if h.Some? && m.Some? then Some(Time(h.value, m.value, 0, 0)) else None
  }

  function TwoDigits(v: int): (s: string)
    requires 0 <= v <= 99
    ensures |s| == 2 && IsDigit(s[0]) && IsDigit(s[1])
  {
    [DigitChar(v / 10), DigitChar(v % 10)]
  }

  function FourDigits(v: int): (s: string)
    requires 0 <= v <= 9999
    ensures |s| == 4 && forall i :: 0 <= i < 4 ==> IsDigit(s[i])
  {
    [DigitChar(v / 1000), DigitChar(v / 100 % 10), DigitChar(v / 10 % 10), DigitChar(v % 10)]
  }

  lemma YearFieldOfDigits(v: int)
    requires 0 <= v <= 9999
    ensures YearField(FourDigits(v)) == Some(v)
  {
    var a, b, c, d := v / 1000, v / 100 % 10, v / 10 % 10, v % 10;
    assert v / 10 == 10 * (v / 100) + c;
    assert v / 100 == 10 * a + b;
    assert v == 1000 * a + 100 * b + 10 * c + d;
  }

  lemma MonthFieldOfDigits(v: int)
    requires 1 <= v <= 12
    ensures MonthField(TwoDigits(v)) == Some(v)
  {
  }

  lemma DayFieldOfDigits(v: int)
    requires 1 <= v <= 31
    ensures DayField(TwoDigits(v)) == Some(v)
  {
  }

  lemma HourFieldOfDigits(v: int)
    requires 0 <= v <= 23
    ensures HourField(TwoDigits(v)) == Some(v)
  {
  }

  lemma MinuteFieldOfDigits(v: int)
    requires 0 <= v <= 59
    ensures MinuteField(TwoDigits(v)) == Some(v)
  {
  }

  /** `date.isoformat()`: the full-date form of section 5.6 of RFC 3339, `YYYY-MM-DD`. */
  function IsoFormat(d: Date): (s: string)
    requires ValidDate(d)
    ensures |s| == 10 && s[4] == '-' && s[7] == '-'
    ensures forall i :: 0 <= i < 10 && i != 4 && i != 7 ==> IsDigit(s[i])
  {
    FourDigits(d.year) + "-" + TwoDigits(d.month) + "-" + TwoDigits(d.day)
  }

  /** `t.strftime("%H:%M")`, the value an HTML time input posts. */
  function FormatHourMinute(t: Time): (s: string)
    requires ValidTime(t)
    ensures |s| == 5 && s[2] == ':'
    ensures forall i :: 0 <= i < 5 && i != 2 ==> IsDigit(s[i])
  {
    TwoDigits(t.hour) + ":" + TwoDigits(t.minute)
  }

  /** A formatted date reads back as the same date. */
  lemma ParseIsoFormat(d: Date)
    requires ValidDate(d)
    ensures ParseIsoDate(IsoFormat(d)) == Some(d)
  {
    var s := IsoFormat(d);
    var rest := s[5..];
    assert s[..4] == FourDigits(d.year);
    assert rest[..2] == TwoDigits(d.month) && rest[2] == '-' && rest[3..] == TwoDigits(d.day);
    YearFieldOfDigits(d.year);
    MonthFieldOfDigits(d.month);
    DayFieldOfDigits(d.day);
  }

  /** A formatted wall-clock minute reads back as that minute. */
  lemma ParseFormatHourMinute(t: Time)
    requires ValidTime(t) && t.second == 0 && t.microsecond == 0
    ensures ParseHourMinute(FormatHourMinute(t)) == Some(t)
  {
    var s := FormatHourMinute(t);
    assert s[..2] == TwoDigits(t.hour) && s[2] == ':' && s[3..] == TwoDigits(t.minute);
    HourFieldOfDigits(t.hour);
    MinuteFieldOfDigits(t.minute);
  }

  /** Examples of what the date format accepts and rejects. */
  lemma IsoDateAccepts()
    ensures ParseIsoDate("2024-03-05") == Some(Date(2024, 3, 5))
    ensures ParseIsoDate("2024-3-5") == Some(Date(2024, 3, 5))
    ensures ParseIsoDate("2024-03- 5") == Some(Date(2024, 3, 5))
  {
  }

  /** The format only lets real calendar dates through. */
  lemma IsoDateRejects()
    ensures ParseIsoDate("2024-02-29") == Some(Date(2024, 2, 29))
    ensures ParseIsoDate("2023-02-29") == None
    ensures ParseIsoDate("0000-01-01") == None
    ensures ParseIsoDate("2024-13-01") == None
    ensures ParseIsoDate("2024-03-05x") == None
    ensures ParseIsoDate("") == None
  {
  }

  /** Examples of what the time format accepts and rejects. */
  lemma HourMinuteExamples()
    ensures ParseHourMinute("09:00") == Some(Time(9, 0, 0, 0))
    ensures ParseHourMinute("9:5") == Some(Time(9, 5, 0, 0))
    ensures ParseHourMinute("23:59") == Some(Time(23, 59, 0, 0))
    ensures ParseHourMinute("00:00") == Some(MinTime)
    ensures ParseHourMinute("24:00") == None
    ensures ParseHourMinute("12:60") == None
    ensures ParseHourMinute("09:00:00") == None
    ensures ParseHourMinute("9am") == None
  {
  }
}
