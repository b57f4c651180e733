/**
 * `_build_calendar_data` (core/views.py): the month view of the planner.
 * Month navigation, the Sunday-first grid of `calendar.Calendar(6)`
 * `.monthdatescalendar`, and per-day counts of the user's tasks, built from
 * a date -> set-of-ids index.
 */
module MonthCalendar {
  import opened Wrappers
  import opened Dates
  import opened Records
  import opened Query

  /** `calendar.Calendar(firstweekday=6)`: weeks start on Sunday. */
  const FirstWeekday := Sunday

  /** `calendar._prevmonth` */
  function PrevMonthOf(year: int, month: int): (r: (int, int))
    requires 1 <= month <= 12
    ensures 1 <= r.1 <= 12
    ensures r.0 * 12 + r.1 == year * 12 + month - 1
  {
    if month == 1 then (year - 1, 12) else (year, month - 1)
  }

  /** `calendar._nextmonth` */
  function NextMonthOf(year: int, month: int): (r: (int, int))
    requires 1 <= month <= 12
    ensures 1 <= r.1 <= 12
    ensures r.0 * 12 + r.1 == year * 12 + month + 1
  {
    if month == 12 then (year + 1, 1) else (year, month + 1)
  }

  /** The months whose calendar the view can build without an OverflowError. */
  predicate Navigable(year: int, month: int) {
    MinYear <= year <= MaxYear && 1 <= month <= 12
    && (year, month) != (MinYear, 1) && (year, month) != (MaxYear, 12)
  }

  /** The first day of the previous month is a real date, and so is that of the next. */
  lemma NavigableNeighbours(year: int, month: int)
    requires Navigable(year, month)
    ensures ValidDate(Date(PrevMonthOf(year, month).0, PrevMonthOf(year, month).1, 1))
    ensures ValidDate(Date(NextMonthOf(year, month).0, NextMonthOf(year, month).1, 1))
  {
  }

  // ---------------------------------------------------------------------
  // `first_of_month + timedelta(days=32)` and `first_of_month - timedelta(days=1)`

  lemma {:induction false} PlusDaysThen(d: Date, a: nat, b: nat)
    requires ValidDate(d)
    ensures PlusDays(d, a + b) == (match PlusDays(d, a) case None => None case Some(e) => PlusDays(e, b))
    decreases a
  {
    if a > 0 {
      match NextDay(d)
      case None =>
      case Some(e) => PlusDaysThen(e, a - 1, b);
    }
  }

  lemma {:induction false} PlusDaysWithinMonth(d: Date, n: nat)
    requires ValidDate(d) && d.day + n <= DaysInMonth(d.year, d.month)
    ensures PlusDays(d, n) == Some(Date(d.year, d.month, d.day + n))
    decreases n
  {
    if n > 0 {
      PlusDaysWithinMonth(Date(d.year, d.month, d.day + 1), n - 1);
    }
  }

  /**
   * Adding 32 days to the first of a month always lands in the next month;
   * it overflows only from 9999-12-01.
   */
  lemma PlusThirtyTwoDays(year: int, month: int)
    requires MinYear <= year <= MaxYear && 1 <= month <= 12
    ensures var r := PlusDays(Date(year, month, 1), 32);
            (r.None? <==> (year, month) == (MaxYear, 12))
            && (r.Some? ==> (r.value.year, r.value.month) == NextMonthOf(year, month))
  {
    var first := Date(year, month, 1);
    var n := DaysInMonth(year, month);
    var last := Date(year, month, n);
    PlusDaysWithinMonth(first, n - 1);
    PlusDaysThen(first, n - 1, 33 - n);
    PlusDaysThen(last, 1, 32 - n);
    assert PlusDays(last, 1) == NextDay(last);
    if (year, month) != (MaxYear, 12) {
      var (ny, nm) := NextMonthOf(year, month);
      assert NextDay(last) == Some(Date(ny, nm, 1));
      PlusDaysWithinMonth(Date(ny, nm, 1), 32 - n);
    }
  }

  /** The day before the first of a month is in the previous month; it overflows only from 0001-01-01. */
  lemma DayBeforeFirst(year: int, month: int)
    requires MinYear <= year <= MaxYear && 1 <= month <= 12
    ensures var r := PrevDay(Date(year, month, 1));
            (r.None? <==> (year, month) == (MinYear, 1))
            && (r.Some? ==> r.value == Date(PrevMonthOf(year, month).0, PrevMonthOf(year, month).1,
                                            DaysInMonth(PrevMonthOf(year, month).0, PrevMonthOf(year, month).1)))
  {
  }

  // ---------------------------------------------------------------------
  // `Calendar.itermonthdays3` and `monthdatescalendar`

  /**
   * The dates `Calendar(6).itermonthdates(year, month)` yields: the tail of
   * the previous month back to a Sunday, the month itself, and the head of
   * the next month up to a Saturday.
   */
  function MonthDates(year: int, month: int): (dates: seq<Date>)
    requires Navigable(year, month)
    ensures |dates| % 7 == 0 && 28 <= |dates| <= 42
  {
    WholeWeeksArith(Ordinal(Date(year, month, 1)), DaysInMonth(year, month));
    var day1 := Weekday(Date(year, month, 1));
    var ndays := DaysInMonth(year, month);
    var before := (day1 - FirstWeekday) % 7;
    var after := (FirstWeekday - day1 - ndays) % 7;
    var (py, pm) := PrevMonthOf(year, month);
    var end := DaysInMonth(py, pm) + 1;
    var (ny, nm) := NextMonthOf(year, month);
    seq(before, i => Date(py, pm, end - before + i))
    + seq(ndays, i => Date(year, month, i + 1))
    + seq(after, i => Date(ny, nm, i + 1))
  }

  /** Python's `(weekday - 6) % 7` for a weekday computed as `(o + 6) % 7`. */
  lemma SundayOffset(o: int)
    ensures ((o + 6) % 7 - FirstWeekday) % 7 == o % 7
  {
    var q := o % 7;
    assert (o + 6) % 7 == (if q == 0 then 6 else q - 1);
  }

  /** `before + ndays + after` is a multiple of seven. */
  lemma WholeWeeksArith(o: int, ndays: int)
    requires 28 <= ndays <= 31
    ensures var day1 := (o + 6) % 7;
            var total := (day1 - FirstWeekday) % 7 + ndays + (FirstWeekday - day1 - ndays) % 7;
            total % 7 == 0 && ndays <= total <= 42
  {
    var q := o % 7;
    var day1 := (o + 6) % 7;
    assert day1 == (if q == 0 then 6 else q - 1);
    SundayOffset(o);
    var r := ndays - 28;
    assert (FirstWeekday - day1 - ndays) % 7 == (7 - q - r) % 7;
  }

  /** How many days of the previous month open the grid. */
  function LeadingDays(year: int, month: int): (n: int)
    requires Navigable(year, month)
    ensures 0 <= n < 7
    ensures n == Ordinal(Date(year, month, 1)) % 7
  {
    SundayOffset(Ordinal(Date(year, month, 1)));
    (Weekday(Date(year, month, 1)) - FirstWeekday) % 7
  }

  /**
   * The grid is a run of consecutive days: the date at index `k` has ordinal
   * `Ordinal(first of month) - LeadingDays + k`, and the first of the month
   * sits at index `LeadingDays`.
   */
  lemma MonthDatesConsecutive(year: int, month: int)
    requires Navigable(year, month)
    ensures var dates := MonthDates(year, month);
            var start := Ordinal(Date(year, month, 1)) - LeadingDays(year, month);
            (forall k :: 0 <= k < |dates| ==> ValidDate(dates[k]) && Ordinal(dates[k]) == start + k)
  {
    var dates := MonthDates(year, month);
    var first := Date(year, month, 1);
    var ndays := DaysInMonth(year, month);
    var before := LeadingDays(year, month);
    var (py, pm) := PrevMonthOf(year, month);
    var (ny, nm) := NextMonthOf(year, month);
    var start := Ordinal(first) - before;
    DayBeforeFirst(year, month);
    var prevLast := Date(py, pm, DaysInMonth(py, pm));
    assert Ordinal(prevLast) == Ordinal(first) - 1;
    var last := Date(year, month, ndays);
    assert NextDay(last) == Some(Date(ny, nm, 1));
    forall k | 0 <= k < |dates|
      ensures ValidDate(dates[k]) && Ordinal(dates[k]) == start + k
    {
      if k < before {
        assert dates[k] == Date(py, pm, DaysInMonth(py, pm) + 1 - before + k);
      } else if k < before + ndays {
        assert dates[k] == Date(year, month, k - before + 1);
      } else {
        assert dates[k] == Date(ny, nm, k - before - ndays + 1);
      }
    }
  }

  /**
   * Each day of the month appears exactly once, at index `LeadingDays + day - 1`;
   * every other cell belongs to another month.
   */
  lemma MonthDatesCoverMonth(year: int, month: int)
    requires Navigable(year, month)
    ensures var dates := MonthDates(year, month);
            var before := LeadingDays(year, month);
            var ndays := DaysInMonth(year, month);
            |dates| >= before + ndays
            && (forall d :: 1 <= d <= ndays ==> dates[before + d - 1] == Date(year, month, d))
            && (forall k :: 0 <= k < |dates| ==>
                  ((dates[k].year == year && dates[k].month == month) <==> before <= k < before + ndays))
            && (forall k :: 0 <= k < |dates| ==> (dates[k].month == month <==> before <= k < before + ndays))
  {
  }

  /** `Calendar.monthdatescalendar`: the dates cut into weeks of seven. */
  function MonthDatesCalendar(year: int, month: int): (weeks: seq<seq<Date>>)
    requires Navigable(year, month)
    ensures 4 <= |weeks| <= 6 && 7 * |weeks| == |MonthDates(year, month)|
    ensures forall w :: 0 <= w < |weeks| ==> |weeks[w]| == 7
  {
    var dates := MonthDates(year, month);
    seq(|dates| / 7, w requires 0 <= w < |dates| / 7 => dates[7 * w .. 7 * w + 7])
  }

  /** The `7 * w + i`-th date sits in row `w`, column `i`; there are four to six rows. */
  lemma CalendarShape(year: int, month: int)
    requires Navigable(year, month)
    ensures var weeks := MonthDatesCalendar(year, month);
            var dates := MonthDates(year, month);
            4 <= |weeks| <= 6 && |dates| == 7 * |weeks|
            && (forall w :: 0 <= w < |weeks| ==> |weeks[w]| == 7)
            && (forall w, i :: 0 <= w < |weeks| && 0 <= i < 7 ==> weeks[w][i] == dates[7 * w + i])
  {
  }

  /** A date `7 * w + i` days after a multiple of seven falls on weekday `(6 + i) % 7`. */
  lemma RowWeekdayArith(o: int, w: int, i: int)
    ensures (o - o % 7 + 7 * w + i + 6) % 7 == (FirstWeekday + i) % 7
  {
    assert o - o % 7 == 7 * (o / 7);
    assert o - o % 7 + 7 * w + i + 6 == 7 * (o / 7 + w) + (i + 6);
  }

  /**
   * Every row holds seven consecutive dates starting on a Sunday, and each
   * row starts the day after the previous one ends.
   */
  lemma CalendarRows(year: int, month: int)
    requires Navigable(year, month)
    ensures var weeks := MonthDatesCalendar(year, month);
            (forall w, i :: 0 <= w < |weeks| && 0 <= i < |weeks[w]| ==>
                  ValidDate(weeks[w][i]) && Weekday(weeks[w][i]) == (FirstWeekday + i) % 7)
            && (forall w, i :: 0 <= w < |weeks| && 0 <= i < |weeks[w]| - 1 ==>
                  Ordinal(weeks[w][i + 1]) == Ordinal(weeks[w][i]) + 1)
            && (forall w :: 0 <= w < |weeks| - 1 ==> Ordinal(weeks[w + 1][0]) == Ordinal(weeks[w][6]) + 1)
  {
    CalendarShape(year, month);
    MonthDatesConsecutive(year, month);
    var weeks := MonthDatesCalendar(year, month);
    var dates := MonthDates(year, month);
    var o := Ordinal(Date(year, month, 1));
    var start := o - LeadingDays(year, month);
    forall w, i | 0 <= w < |weeks| && 0 <= i < |weeks[w]|
      ensures ValidDate(weeks[w][i]) && Weekday(weeks[w][i]) == (FirstWeekday + i) % 7
    {
      assert Ordinal(dates[7 * w + i]) == start + 7 * w + i;
      RowWeekdayArith(o, w, i);
    }
    forall w, i | 0 <= w < |weeks| && 0 <= i < |weeks[w]| - 1
      ensures Ordinal(weeks[w][i + 1]) == Ordinal(weeks[w][i]) + 1
    {
      assert weeks[w][i + 1] == dates[7 * w + i + 1];
    }
    forall w | 0 <= w < |weeks| - 1
      ensures Ordinal(weeks[w + 1][0]) == Ordinal(weeks[w][6]) + 1
    {
      assert weeks[w + 1][0] == dates[7 * w + 7] && weeks[w][6] == dates[7 * w + 6];
    }
  }

  // ---------------------------------------------------------------------
  // `monthly_tasks` and `tasks_by_day`

  /** `first_of_month <= day <= month_end`, Python's comparison of dates. */
  predicate InRange(day: Date, monthStart: Date, monthEnd: Date) {
    DateLe(monthStart, day) && DateLe(day, monthEnd)
  }

  /** For a real date, lying between the first and the last day of a month means lying in that month. */
  lemma InRangeIsInMonth(day: Date, year: int, month: int)
    requires ValidDate(day) && 1 <= month <= 12
    ensures InRange(day, Date(year, month, 1), Date(year, month, DaysInMonth(year, month)))
            <==> day.year == year && day.month == month
  {
  }

  /** A nullable timestamp column with a value in the range (`start_at__date__range`). */
  predicate StampInRange(stamp: Option<Timestamp>, monthStart: Date, monthEnd: Date) {
    stamp.Some? && InRange(stamp.value.date, monthStart, monthEnd)
  }

  /** The `monthly_tasks` query: the user's tasks starting or due within the month. */
  predicate IsMonthlyTask(t: Task, owner: UserId, monthStart: Date, monthEnd: Date) {
    t.owner == owner && (StampInRange(t.startAt, monthStart, monthEnd) || StampInRange(t.dueAt, monthStart, monthEnd))
  }

  /** The `monthly_tasks` query's filter as a function value. */
  function MonthlyQuery(owner: UserId, monthStart: Date, monthEnd: Date): Task -> bool {
    t => IsMonthlyTask(t, owner, monthStart, monthEnd)
  }

  /** A task marks `day` when its start or due date is `day` and `day` lies in the month. */
  predicate MarksDay(t: Task, day: Date, monthStart: Date, monthEnd: Date) {
    (StampOn(t.startAt, day) || StampOn(t.dueAt, day)) && InRange(day, monthStart, monthEnd)
  }

  /** `tasks_by_day.get(day, set())` */
  function IdsOn(byDay: map<Date, set<nat>>, day: Date): set<nat> {
    if day in byDay then byDay[day] else {}
  }

  /** One pass of the inner loop: a timestamp in the month adds the id under its date. */
  function AddStamp(byDay: map<Date, set<nat>>, stamp: Option<Timestamp>, id: nat,
                    monthStart: Date, monthEnd: Date): map<Date, set<nat>>
  {
    if StampInRange(stamp, monthStart, monthEnd)
    then byDay[stamp.value.date := IdsOn(byDay, stamp.value.date) + {id}]
    else byDay
  }

  /** The index after the loop has visited `tasks`. */
  function TasksByDay(tasks: seq<Task>, monthStart: Date, monthEnd: Date): (byDay: map<Date, set<nat>>)
    ensures forall day :: day in byDay ==> InRange(day, monthStart, monthEnd) && byDay[day] != {}
  {
    if tasks == [] then map[]
    else
      var t := tasks[|tasks| - 1];
      var before := TasksByDay(tasks[..|tasks| - 1], monthStart, monthEnd);
      AddStamp(AddStamp(before, t.startAt, t.id, monthStart, monthEnd), t.dueAt, t.id, monthStart, monthEnd)
  }

  /**
   * The index holds, under each day, exactly the ids of the tasks that start
   * or are due that day, when the day is in the month, and nothing else.
   */
  lemma {:induction false} TasksByDayIds(tasks: seq<Task>, day: Date, monthStart: Date, monthEnd: Date)
    ensures IdsOn(TasksByDay(tasks, monthStart, monthEnd), day)
            == set t | t in tasks && MarksDay(t, day, monthStart, monthEnd) :: t.id
    ensures day in TasksByDay(tasks, monthStart, monthEnd) ==> IdsOn(TasksByDay(tasks, monthStart, monthEnd), day) != {}
  {
    if tasks != [] {
      var init, t := tasks[..|tasks| - 1], tasks[|tasks| - 1];
      assert tasks == init + [t];
      TasksByDayIds(init, day, monthStart, monthEnd);
      var lhs := set u | u in tasks && MarksDay(u, day, monthStart, monthEnd) :: u.id;
      var rhs := (set u | u in init && MarksDay(u, day, monthStart, monthEnd) :: u.id)
                 + (if MarksDay(t, day, monthStart, monthEnd) then {t.id} else {});
      assert lhs == rhs;
    }
  }

  /** `tasks_by_day`, filled by the nested loop of the view. */
  method IndexTasksByDay(tasks: seq<Task>, monthStart: Date, monthEnd: Date)
    returns (byDay: map<Date, set<nat>>)
    ensures byDay == TasksByDay(tasks, monthStart, monthEnd)
  {
    byDay := map[];
    for i := 0 to |tasks|
      invariant byDay == TasksByDay(tasks[..i], monthStart, monthEnd)
    {
      var t := tasks[i];
      assert tasks[..i + 1][..i] == tasks[..i];
      if t.startAt.Some? {
        var day := t.startAt.value.date;
        if DateLe(monthStart, day) && DateLe(day, monthEnd) {
          byDay := byDay[day := (if day in byDay then byDay[day] else {}) + {t.id}];
        }
      }
      if t.dueAt.Some? {
        var day := t.dueAt.value.date;
        if DateLe(monthStart, day) && DateLe(day, monthEnd) {
          byDay := byDay[day := (if day in byDay then byDay[day] else {}) + {t.id}];
        }
      }
    }
    assert tasks[..|tasks|] == tasks;
  }

  // ---------------------------------------------------------------------
  // The cells

  /** One entry of `calendar_weeks`. */
  datatype Cell = Cell(date: Date, inMonth: bool, isToday: bool, isSelected: bool, taskCount: nat)

  datatype CalendarData =
    | CalendarOverflow  // `first_of_month +/- timedelta` raised OverflowError
    | Calendar(weeks: seq<seq<Cell>>, weekdays: seq<string>, prevMonth: Date, nextMonth: Date)

  /** `calendar_weekdays`: the column headings, Sunday first (일 월 화 수 목 금 토). */
  const WeekdayHeadings: seq<string> :=
    ["\U{C77C}", "\U{C6D4}", "\U{D654}", "\U{C218}", "\U{BAA9}", "\U{AE08}", "\U{D1A0}"]

  function CellOf(day: Date, selected: Date, today: Date, byDay: map<Date, set<nat>>): Cell {
    Cell(day, day.month == selected.month, day == today, day == selected, |IdsOn(byDay, day)|)
  }

  /** The cells of a grid of dates. */
  function CellsOf(dateWeeks: seq<seq<Date>>, selected: Date, today: Date, byDay: map<Date, set<nat>>)
    : seq<seq<Cell>>
  {
    seq(|dateWeeks|, w requires 0 <= w < |dateWeeks| =>
      seq(|dateWeeks[w]|, i requires 0 <= i < |dateWeeks[w]| => CellOf(dateWeeks[w][i], selected, today, byDay)))
  }

  /** `calendar_weeks` for a given index. */
  function CalendarGrid(selected: Date, today: Date, byDay: map<Date, set<nat>>): (weeks: seq<seq<Cell>>)
    requires Navigable(selected.year, selected.month)
    ensures 4 <= |weeks| <= 6 && |weeks| == |MonthDatesCalendar(selected.year, selected.month)|
    ensures forall w :: 0 <= w < |weeks| ==> |weeks[w]| == 7
  {
    CellsOf(MonthDatesCalendar(selected.year, selected.month), selected, today, byDay)
  }

  /** The loop that appends a row of cells per week of dates. */
  method BuildWeeks(dateWeeks: seq<seq<Date>>, selected: Date, today: Date, byDay: map<Date, set<nat>>)
    returns (weeks: seq<seq<Cell>>)
    ensures weeks == CellsOf(dateWeeks, selected, today, byDay)
  {
    ghost var grid := CellsOf(dateWeeks, selected, today, byDay);
    weeks := [];
    for w := 0 to |dateWeeks|
      invariant |weeks| == w
      invariant forall j :: 0 <= j < w ==> weeks[j] == grid[j]
    {
      var week := dateWeeks[w];
      var cells: seq<Cell> := [];
      for i := 0 to |week|
        invariant |cells| == i
        invariant forall k :: 0 <= k < i ==> cells[k] == grid[w][k]
      {
        var day := week[i];
        cells := cells + [Cell(day, day.month == selected.month, day == today, day == selected,
                               |if day in byDay then byDay[day] else {}|)];
      }
      weeks := weeks + [cells];
    }
  }

  /**
   * The calendar part of the context for `selected`: an overflow when a
   * neighbouring month is out of range, otherwise the grid of the month's
   * dates with the user's tasks of the month counted per day, the headings,
   * and the first days of the previous and the next month.
   */
  function CalendarDataOf(selected: Date, today: Date, owner: UserId, tasks: seq<Task>): CalendarData
    requires ValidDate(selected)
  {
    if !Navigable(selected.year, selected.month) then CalendarOverflow
    else
      var monthStart := Date(selected.year, selected.month, 1);
      var monthEnd := Date(selected.year, selected.month, DaysInMonth(selected.year, selected.month));
      var monthly := Filter(tasks, MonthlyQuery(owner, monthStart, monthEnd));
      Calendar(CalendarGrid(selected, today, TasksByDay(monthly, monthStart, monthEnd)), WeekdayHeadings,
               Date(PrevMonthOf(selected.year, selected.month).0, PrevMonthOf(selected.year, selected.month).1, 1),
               Date(NextMonthOf(selected.year, selected.month).0, NextMonthOf(selected.year, selected.month).1, 1))
  }

  /** `_build_calendar_data(selected_date, user)`, with `today` from the clock. */
  method BuildCalendarData(selected: Date, today: Date, owner: UserId, tasks: seq<Task>)
    returns (data: CalendarData)
    requires ValidDate(selected)
    ensures data.CalendarOverflow? <==> !Navigable(selected.year, selected.month)
    ensures data.Calendar? ==>
              var monthStart := Date(selected.year, selected.month, 1);
              var monthEnd := Date(selected.year, selected.month, DaysInMonth(selected.year, selected.month));
              var monthly := Filter(tasks, MonthlyQuery(owner, monthStart, monthEnd));
              && data.prevMonth == Date(PrevMonthOf(selected.year, selected.month).0, PrevMonthOf(selected.year, selected.month).1, 1)
              && data.nextMonth == Date(NextMonthOf(selected.year, selected.month).0, NextMonthOf(selected.year, selected.month).1, 1)
              && data.weeks == CalendarGrid(selected, today, TasksByDay(monthly, monthStart, monthEnd))
              && data.weekdays == WeekdayHeadings
    ensures data == CalendarDataOf(selected, today, owner, tasks)
  {
    var first := Date(selected.year, selected.month, 1);
    PlusThirtyTwoDays(selected.year, selected.month);
    DayBeforeFirst(selected.year, selected.month);
    var nextBase := PlusDays(first, 32);
    if nextBase.None? {
      return CalendarOverflow;
    }
    var prevBase := PrevDay(first);
    if prevBase.None? {
      return CalendarOverflow;
    }
    var nextMonth := Date(nextBase.value.year, nextBase.value.month, 1);
    var prevMonth := Date(prevBase.value.year, prevBase.value.month, 1);

    var monthEnd := Date(selected.year, selected.month, DaysInMonth(selected.year, selected.month));
    var monthly := Filter(tasks, MonthlyQuery(owner, first, monthEnd));
    var byDay := IndexTasksByDay(monthly, first, monthEnd);

    var weeks := BuildWeeks(MonthDatesCalendar(selected.year, selected.month), selected, today, byDay);
    return Calendar(weeks, WeekdayHeadings, prevMonth, nextMonth);
  }

  /**
   * The flags of every cell: `in_month` holds exactly for the days of the
   * selected month, `is_today` for today, and `is_selected` for exactly one
   * cell, the one at row-major position `LeadingDays + day - 1`.
   */
  lemma GridFlags(selected: Date, today: Date, byDay: map<Date, set<nat>>)
    requires ValidDate(selected) && Navigable(selected.year, selected.month)
    ensures var weeks := CalendarGrid(selected, today, byDay);
            var dateWeeks := MonthDatesCalendar(selected.year, selected.month);
            var before := LeadingDays(selected.year, selected.month);
            |weeks| == |dateWeeks|
            && forall w, i :: 0 <= w < |weeks| && 0 <= i < |weeks[w]| ==>
                 weeks[w][i].date == dateWeeks[w][i]
                 && (weeks[w][i].inMonth <==>
                       weeks[w][i].date.year == selected.year && weeks[w][i].date.month == selected.month)
                 && (weeks[w][i].isToday <==> weeks[w][i].date == today)
                 && (weeks[w][i].isSelected <==> 7 * w + i == before + selected.day - 1)
  {
    CalendarShape(selected.year, selected.month);
    MonthDatesCoverMonth(selected.year, selected.month);
  }

  /** The user's tasks that start or are due on `day` (`Task.objects.filter(owner=user)` and a date match). */
  function OwnedIdsOn(tasks: seq<Task>, owner: UserId, day: Date): set<nat> {
    set t | t in tasks && t.owner == owner && (StampOn(t.startAt, day) || StampOn(t.dueAt, day)) :: t.id
  }

  /** Indexing the `monthly_tasks` query result finds, for a day of the month, every task of the user on that day. */
  lemma MonthlyIndexIds(tasks: seq<Task>, owner: UserId, day: Date)
    requires ValidDate(day)
    ensures var monthStart := Date(day.year, day.month, 1);
            var monthEnd := Date(day.year, day.month, DaysInMonth(day.year, day.month));
            var monthly := Filter(tasks, MonthlyQuery(owner, monthStart, monthEnd));
            IdsOn(TasksByDay(monthly, monthStart, monthEnd), day) == OwnedIdsOn(tasks, owner, day)
  {
    var monthStart := Date(day.year, day.month, 1);
    var monthEnd := Date(day.year, day.month, DaysInMonth(day.year, day.month));
    var p := MonthlyQuery(owner, monthStart, monthEnd);
    var monthly := Filter(tasks, p);
    FilterMembers(tasks, p);
    TasksByDayIds(monthly, day, monthStart, monthEnd);
    InRangeIsInMonth(day, day.year, day.month);
    var lhs := set t | t in monthly && MarksDay(t, day, monthStart, monthEnd) :: t.id;
    forall id | id in OwnedIdsOn(tasks, owner, day) ensures id in lhs {
      var t :| t in tasks && t.owner == owner && (StampOn(t.startAt, day) || StampOn(t.dueAt, day)) && t.id == id;
      var k :| 0 <= k < |tasks| && tasks[k] == t;
      assert p(tasks[k]);
      assert t in monthly;
    }
  }

  /**
   * `task_count`: on a day of the selected month, the number of distinct ids
   * of the user's tasks starting or due that day; 0 on the days of the
   * neighbouring months.
   */
  lemma GridTaskCounts(selected: Date, today: Date, owner: UserId, tasks: seq<Task>)
    requires ValidDate(selected) && Navigable(selected.year, selected.month)
    ensures var monthStart := Date(selected.year, selected.month, 1);
            var monthEnd := Date(selected.year, selected.month, DaysInMonth(selected.year, selected.month));
            var monthly := Filter(tasks, MonthlyQuery(owner, monthStart, monthEnd));
            var weeks := CalendarGrid(selected, today, TasksByDay(monthly, monthStart, monthEnd));
            forall w, i :: 0 <= w < |weeks| && 0 <= i < |weeks[w]| ==>
              weeks[w][i].taskCount == if weeks[w][i].inMonth then |OwnedIdsOn(tasks, owner, weeks[w][i].date)| else 0
  {
    var monthStart := Date(selected.year, selected.month, 1);
    var monthEnd := Date(selected.year, selected.month, DaysInMonth(selected.year, selected.month));
    var monthly := Filter(tasks, MonthlyQuery(owner, monthStart, monthEnd));
    var byDay := TasksByDay(monthly, monthStart, monthEnd);
    var weeks: seq<seq<Cell>> := CalendarGrid(selected, today, byDay);
    GridFlags(selected, today, byDay);
    CalendarRows(selected.year, selected.month);
    forall w: int, i: int | 0 <= w < |weeks| && 0 <= i < |weeks[w]|
      ensures weeks[w][i].taskCount == if weeks[w][i].inMonth then |OwnedIdsOn(tasks, owner, weeks[w][i].date)| else 0
    {
      var day := weeks[w][i].date;
      TasksByDayIds(monthly, day, monthStart, monthEnd);
      InRangeIsInMonth(day, selected.year, selected.month);
      if weeks[w][i].inMonth {
        MonthlyIndexIds(tasks, owner, day);
      }
    }
  }

  /** A task starting and due on the same day adds one id to that day, not two. */
  lemma SameDayCountsOnce(t: Task, monthStart: Date, monthEnd: Date)
    requires StampInRange(t.startAt, monthStart, monthEnd) && t.dueAt.Some? && t.dueAt.value.date == t.startAt.value.date
    ensures IdsOn(TasksByDay([t], monthStart, monthEnd), t.startAt.value.date) == {t.id}
  {
    assert [t][..0] == [];
  }

  /** A task whose start and due dates are two days of the month counts on both. */
  lemma SpanningTaskCountsOnBoth(tasks: seq<Task>, t: Task, monthStart: Date, monthEnd: Date)
    requires t in tasks
    requires StampInRange(t.startAt, monthStart, monthEnd) && StampInRange(t.dueAt, monthStart, monthEnd)
    ensures t.id in IdsOn(TasksByDay(tasks, monthStart, monthEnd), t.startAt.value.date)
    ensures t.id in IdsOn(TasksByDay(tasks, monthStart, monthEnd), t.dueAt.value.date)
  {
    TasksByDayIds(tasks, t.startAt.value.date, monthStart, monthEnd);
    TasksByDayIds(tasks, t.dueAt.value.date, monthStart, monthEnd);
  }

  /** A task with neither timestamp leaves the index unchanged. */
  lemma UndatedTaskCountsNowhere(tasks: seq<Task>, t: Task, monthStart: Date, monthEnd: Date)
    requires t.startAt.None? && t.dueAt.None?
    ensures TasksByDay(tasks + [t], monthStart, monthEnd) == TasksByDay(tasks, monthStart, monthEnd)
  {
    assert (tasks + [t])[..|tasks|] == tasks;
  }
}
