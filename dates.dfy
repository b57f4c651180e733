/**
 * Calendar dates and wall-clock times with the semantics of Python's
 * `datetime` module: the proleptic Gregorian calendar, years 1 to 9999,
 * ordinals counted from 0001-01-01 (ordinal 1, a Monday), and comparison of
 * dates and date-times as tuples.
 */
module Dates {
  import opened Wrappers

  datatype Date = Date(year: int, month: int, day: int)
  datatype Time = Time(hour: int, minute: int, second: int, microsecond: int)
  datatype DateTime = DateTime(date: Date, time: Time)

  const MinYear := 1
  const MaxYear := 9999
  const MinDate := Date(MinYear, 1, 1)
  const MaxDate := Date(MaxYear, 12, 31)
  /** `time.min` */
  const MinTime := Time(0, 0, 0, 0)
  /** `time.max` */
  const MaxTime := Time(23, 59, 59, 999999)
  const MicrosPerDay := 86_400_000_000
  const MicrosPerHour := 3_600_000_000

  predicate IsLeapYear(year: int) {
    year % 4 == 0 && (year % 100 != 0 || year % 400 == 0)
  }

  function DaysInYear(year: int): int {
    if IsLeapYear(year) then 366 else 365
  }

  function DaysInMonth(year: int, month: int): (n: int)
    requires 1 <= month <= 12
    ensures 28 <= n <= 31
    ensures n == 29 <==> month == 2 && IsLeapYear(year)
  {
    if month == 2 then (if IsLeapYear(year) then 29 else 28)
    else if month == 4 || month == 6 || month == 9 || month == 11 then 30
    else 31
  }

  ghost predicate ValidDate(d: Date) {
    MinYear <= d.year <= MaxYear && 1 <= d.month <= 12 && 1 <= d.day <= DaysInMonth(d.year, d.month)
  }

  predicate ValidTime(t: Time) {
    0 <= t.hour < 24 && 0 <= t.minute < 60 && 0 <= t.second < 60 && 0 <= t.microsecond < 1_000_000
  }

  ghost predicate ValidDateTime(dt: DateTime) {
    ValidDate(dt.date) && ValidTime(dt.time)
  }

  /** A date-time value as a database column holds it. */
  type Timestamp = dt: DateTime | ValidDateTime(dt) witness DateTime(MinDate, MinTime)

  /** Days in the years before `year` (Python's `_days_before_year`). */
  function DaysBeforeYear(year: int): int
    requires year >= 1
  {
    var y := year - 1;
    y * 365 + y / 4 - y / 100 + y / 400
  }

  /** Days in the months of `year` before `month` (Python's `_days_before_month`). */
  function DaysBeforeMonth(year: int, month: int): int
    requires 1 <= month <= 12
  {
    var table :=
      if month == 1 then 0 else if month == 2 then 31 else if month == 3 then 59
      else if month == 4 then 90 else if month == 5 then 120 else if month == 6 then 151
      else if month == 7 then 181 else if month == 8 then 212 else if month == 9 then 243
      else if month == 10 then 273 else if month == 11 then 304 else 334;
    table + (if month > 2 && IsLeapYear(year) then 1 else 0)
  }

  /** `date.toordinal()`: 0001-01-01 has ordinal 1. */
  function Ordinal(d: Date): int
    requires ValidDate(d)
  {
    DaysBeforeYear(d.year) + DaysBeforeMonth(d.year, d.month) + d.day
  }

  /** `date.weekday()`: Monday is 0 and Sunday is 6. */
  function Weekday(d: Date): int
    requires ValidDate(d)
  {
    (Ordinal(d) + 6) % 7
  }

  const Sunday := 6

  lemma DaysBeforeNextYear(year: int)
    requires year >= 1
    ensures DaysBeforeYear(year + 1) == DaysBeforeYear(year) + DaysInYear(year)
  {
    assert year / 4 == (year - 1) / 4 + (if year % 4 == 0 then 1 else 0);
    assert year / 100 == (year - 1) / 100 + (if year % 100 == 0 then 1 else 0);
    assert year / 400 == (year - 1) / 400 + (if year % 400 == 0 then 1 else 0);
  }

  lemma DaysBeforeNextMonth(year: int, month: int)
    requires 1 <= month < 12
    ensures DaysBeforeMonth(year, month + 1) == DaysBeforeMonth(year, month) + DaysInMonth(year, month)
  {
  }

  /** The day after `d` (`d + timedelta(days=1)`); None where Python raises OverflowError. */
  function NextDay(d: Date): (r: Option<Date>)
    requires ValidDate(d)
    ensures r.None? <==> d == MaxDate
    ensures r.Some? ==> ValidDate(r.value) && Ordinal(r.value) == Ordinal(d) + 1
  {
    if d.day < DaysInMonth(d.year, d.month) then Some(Date(d.year, d.month, d.day + 1))
    else if d.month < 12 then
      DaysBeforeNextMonth(d.year, d.month);
      Some(Date(d.year, d.month + 1, 1))
    else if d.year < MaxYear then
      DaysBeforeNextYear(d.year);
      Some(Date(d.year + 1, 1, 1))
    else None
  }

  /** The day before `d` (`d - timedelta(days=1)`); None where Python raises OverflowError. */
  function PrevDay(d: Date): (r: Option<Date>)
    requires ValidDate(d)
    ensures r.None? <==> d == MinDate
    ensures r.Some? ==> ValidDate(r.value) && Ordinal(r.value) == Ordinal(d) - 1
  {
    if d.day > 1 then Some(Date(d.year, d.month, d.day - 1))
    else if d.month > 1 then
      DaysBeforeNextMonth(d.year, d.month - 1);
      Some(Date(d.year, d.month - 1, DaysInMonth(d.year, d.month - 1)))
    else if d.year > MinYear then
      DaysBeforeNextYear(d.year - 1);
      Some(Date(d.year - 1, 12, 31))
    else None
  }

  /** `d + timedelta(days=n)`; None where Python raises OverflowError. */
  function PlusDays(d: Date, n: nat): (r: Option<Date>)
    requires ValidDate(d)
    ensures r.Some? ==> ValidDate(r.value)
    decreases n
  {
    if n == 0 then Some(d)
    else match NextDay(d)
      case None => None
      case Some(e) => PlusDays(e, n - 1)
  }

  /** Adding `n` days advances the ordinal by `n`; it fails only by running past 9999-12-31. */
  lemma {:induction false} PlusDaysOrdinal(d: Date, n: nat)
    requires ValidDate(d)
    ensures PlusDays(d, n).Some? ==> Ordinal(PlusDays(d, n).value) == Ordinal(d) + n
    ensures PlusDays(d, n).None? ==> Ordinal(d) + n > Ordinal(MaxDate)
    decreases n
  {
    if n > 0 {
      match NextDay(d)
      case None =>
      case Some(e) => PlusDaysOrdinal(e, n - 1);
    }
  }

  /** Python's tuple comparison of dates: `a <= b`. */
  predicate DateLe(a: Date, b: Date) {
    a.year < b.year
    || (a.year == b.year && (a.month < b.month || (a.month == b.month && a.day <= b.day)))
  }

  function TimeOfDayMicros(t: Time): int {
    ((t.hour * 60 + t.minute) * 60 + t.second) * 1_000_000 + t.microsecond
  }

  /** Python's comparison of naive date-times: `a <= b`. */
  predicate DateTimeLe(a: DateTime, b: DateTime) {
    (a.date != b.date && DateLe(a.date, b.date))
    || (a.date == b.date && TimeOfDayMicros(a.time) <= TimeOfDayMicros(b.time))
  }

  /** A quotient and a remainder below `d` are determined by the value they make up. */
  lemma DivModUnique(q1: int, r1: int, q2: int, r2: int, d: int)
    requires d > 0 && 0 <= r1 < d && 0 <= r2 < d && q1 * d + r1 == q2 * d + r2
    ensures q1 == q2 && r1 == r2
  {
    if q1 < q2 {
      MulAtLeast(q2 - q1, d);
    } else if q2 < q1 {
      MulAtLeast(q1 - q2, d);
    }
  }

  lemma {:induction false} MulAtLeast(k: nat, d: nat)
    requires k >= 1
    ensures k * d >= d
  {
    if k > 1 {
      MulAtLeast(k - 1, d);
      assert k * d == (k - 1) * d + d;
    }
  }

  /** Two valid times at the same microsecond of the day are the same time. */
  lemma TimeOfDayMicrosInjective(a: Time, b: Time)
    requires ValidTime(a) && ValidTime(b) && TimeOfDayMicros(a) == TimeOfDayMicros(b)
    ensures a == b
  {
    DivModUnique((a.hour * 60 + a.minute) * 60 + a.second, a.microsecond,
                 (b.hour * 60 + b.minute) * 60 + b.second, b.microsecond, 1_000_000);
    DivModUnique(a.hour * 60 + a.minute, a.second, b.hour * 60 + b.minute, b.second, 60);
    DivModUnique(a.hour, a.minute, b.hour, b.minute, 60);
  }

  /** `a <= b <= a` only for equal date-times. */
  lemma DateTimeLeAntisymmetric(a: DateTime, b: DateTime)
    requires ValidDateTime(a) && ValidDateTime(b) && DateTimeLe(a, b) && DateTimeLe(b, a)
    ensures a == b
  {
    if a.date == b.date {
      TimeOfDayMicrosInjective(a.time, b.time);
    }
  }

  /** Microseconds elapsed since 0001-01-01T00:00 (the measure `timedelta` arithmetic works on). */
  function Micros(dt: DateTime): int
    requires ValidDateTime(dt)
  {
    (Ordinal(dt.date) - 1) * MicrosPerDay + TimeOfDayMicros(dt.time)
  }

  /** `dt + timedelta(hours=1)`; None where Python raises OverflowError. */
  function AddOneHour(dt: DateTime): (r: Option<DateTime>)
    requires ValidDateTime(dt)
    ensures r.None? <==> dt.date == MaxDate && dt.time.hour == 23
    ensures r.Some? ==> ValidDateTime(r.value) && Micros(r.value) == Micros(dt) + MicrosPerHour
  {
    var t := dt.time;
    if t.hour < 23 then Some(DateTime(dt.date, Time(t.hour + 1, t.minute, t.second, t.microsecond)))
    else match NextDay(dt.date)
      case None => None
      case Some(next) => Some(DateTime(next, Time(0, t.minute, t.second, t.microsecond)))
  }
}
