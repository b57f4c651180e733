/**
 * How the planner views read their inputs (core/views.py): the `date`
 * query parameter, posted form fields, and "HH:MM" strings merged with the
 * selected date. Time zones are not modelled: a timestamp is the local
 * wall-clock value, and "today" is a parameter supplied by the clock.
 */
module PlannerInput {
  import opened Wrappers
  import opened Dates
  import opened Strptime

  /**
   * `QueryDict.get(key)` as the views use it: every use treats a missing
   * key exactly like the empty string (both are falsy, and `get(key, '')`
   * defaults to it), so a missing key reads as "".
   */
  function Field(fields: map<string, string>, key: string): string
  {
    if key in fields then fields[key] else ""
  }

  /** Python's `str.isspace()` for one character. */
  predicate IsSpace(c: char) {
    var n := c as int;
    (9 <= n <= 13) || (0x1c <= n <= 0x20) || n == 0x85 || n == 0xa0 || n == 0x1680
    || (0x2000 <= n <= 0x200a) || n == 0x2028 || n == 0x2029 || n == 0x202f || n == 0x205f || n == 0x3000
  }

  function StripStart(s: string): string
  {
    if s != [] && IsSpace(s[0]) then StripStart(s[1..]) else s
  }

  function StripEnd(s: string): string
  {
    if s != [] && IsSpace(s[|s| - 1]) then StripEnd(s[..|s| - 1]) else s
  }

  lemma {:induction false} StripStartDrops(s: string)
    ensures var r := StripStart(s);
            |r| <= |s| && r == s[|s| - |r|..]
            && (forall i :: 0 <= i < |s| - |r| ==> IsSpace(s[i]))
            && (r != [] ==> !IsSpace(r[0]))
  {
    if s != [] && IsSpace(s[0]) {
      var t := s[1..];
      StripStartDrops(t);
      var r := StripStart(t);
      assert StripStart(s) == r;
      assert t[|t| - |r|..] == s[|s| - |r|..];
      forall i | 0 <= i < |s| - |r| ensures IsSpace(s[i]) {
        if i > 0 {
          assert s[i] == t[i - 1];
        }
      }
    }
  }

  lemma {:induction false} StripEndDrops(s: string)
    ensures var r := StripEnd(s);
            |r| <= |s| && r == s[..|r|]
            && (forall i :: |r| <= i < |s| ==> IsSpace(s[i]))
            && (r != [] ==> !IsSpace(r[|r| - 1]))
  {
    if s != [] && IsSpace(s[|s| - 1]) {
      var t := s[..|s| - 1];
      StripEndDrops(t);
      var r := StripEnd(t);
      assert StripEnd(s) == r;
      assert t[..|r|] == s[..|r|];
      forall i | |r| <= i < |s| ensures IsSpace(s[i]) {
        if i < |t| {
          assert s[i] == t[i];
        }
      }
    }
  }

  /** `str.strip()`: removes leading and trailing whitespace. */
  function Strip(s: string): (r: string)
    ensures |r| <= |s|
    ensures r != "" ==> !IsSpace(r[0]) && !IsSpace(r[|r| - 1])
  {
    StripStartDrops(s);
    StripEndDrops(StripStart(s));
    StripEnd(StripStart(s))
  }

  /** A stripped text is empty exactly when the text is all whitespace. */
  lemma StripBlank(s: string)
    ensures Strip(s) == "" <==> forall i :: 0 <= i < |s| ==> IsSpace(s[i])
  {
    var left := StripStart(s);
    StripStartDrops(s);
    StripEndDrops(left);
    if StripEnd(left) == "" {
      // every character of `left` would be blank, but its first one is not
      assert left == "";
    }
  }

  /**
   * `_parse_selected_date`: the `date` query parameter as a calendar date;
   * `today` when it is absent, empty, or not a valid `%Y-%m-%d` date.
   */
  function ParseSelectedDate(query: map<string, string>, today: Date): (r: Date)
    requires ValidDate(today)
    ensures ValidDate(r)
    ensures ParseIsoDate(Field(query, "date")).None? ==> r == today
    ensures ParseIsoDate(Field(query, "date")).Some? ==> r == ParseIsoDate(Field(query, "date")).value
  {
    var param := Field(query, "date");
    if param != "" then
      match ParseIsoDate(param)
      case Some(d) => d
      case None => today
    else today
  }

  /** Every absent or empty `date` parameter selects today. */
  lemma MissingDateIsToday(query: map<string, string>, today: Date)
    requires ValidDate(today)
    requires "date" !in query || query["date"] == ""
    ensures ParseSelectedDate(query, today) == today
  {
    assert ParseIsoDate("") == None;
  }

  /**
   * The redirect a successful form writes (`?date=<isoformat>`) selects the
   * same date again on the next request, whatever "today" is by then.
   */
  lemma SelectedDateRoundTrip(query: map<string, string>, d: Date, today: Date)
    requires ValidDate(d) && ValidDate(today)
    requires "date" in query && query["date"] == IsoFormat(d)
    ensures ParseSelectedDate(query, today) == d
  {
    ParseIsoFormat(d);
  }

  /**
   * `_combine_with_date`: `selected` at the parsed "HH:MM" time, or at
   * `fallback` when the string is empty; None where `strptime` raises
   * ValueError.
   */
  function CombineWithDate(selected: Date, timeText: string, fallback: Time): (r: Option<DateTime>)
    requires ValidDate(selected) && ValidTime(fallback)
    ensures r.Some? ==> ValidDateTime(r.value) && r.value.date == selected
    ensures timeText == "" ==> r == Some(DateTime(selected, fallback))
    ensures timeText != "" ==> (r.Some? <==> ParseHourMinute(timeText).Some?)
    ensures timeText != "" && r.Some? ==> r.value.time == ParseHourMinute(timeText).value
  {
    if timeText != "" then
      match ParseHourMinute(timeText)
      case Some(t) => Some(DateTime(selected, t))
      case None => None
    else Some(DateTime(selected, fallback))
  }

  /** A time posted in "HH:MM" form lands on exactly that minute of the selected day. */
  lemma CombineFormattedTime(selected: Date, t: Time, fallback: Time)
    requires ValidDate(selected) && ValidTime(fallback)
    requires ValidTime(t) && t.second == 0 && t.microsecond == 0
    ensures CombineWithDate(selected, FormatHourMinute(t), fallback) == Some(DateTime(selected, t))
  {
    ParseFormatHourMinute(t);
  }

  /** The two boundaries `_build_planner_context` asks for never raise. */
  lemma DayBoundaries(selected: Date)
    requires ValidDate(selected)
    ensures CombineWithDate(selected, "00:00", MinTime) == Some(DateTime(selected, MinTime))
    ensures CombineWithDate(selected, "23:59", MaxTime) == Some(DateTime(selected, Time(23, 59, 0, 0)))
  {
    HourMinuteExamples();
  }
}
