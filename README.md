# Planner core of todomate_budget_django, in Dafny

This project models the planner helpers of `core/views.py` in the
todomate_budget_django application. The planner page combines a day
planner (tasks) with a household budget (transactions). The model covers:

- **Reading the inputs.** `_parse_selected_date` turns the `date` query
  parameter into a calendar date, falling back to today. `_combine_with_date`
  merges a date with an `"HH:MM"` string, or with a fallback time when the
  string is empty. Both follow Python's `datetime` rules, modelled in
  `Dates` and `Strptime`:
  - years 1 to 9999, with leap years;
  - `strptime`'s exact patterns for `%Y-%m-%d` and `%H:%M`;
  - `isoformat()`;
  - `timedelta` arithmetic, together with the OverflowError it raises at
    the ends of the calendar.
- **The planner forms.** `_process_planner_forms` handles the
  `schedule_entry` and `loose_transaction` posts.
  - The method works on a `Store` class that holds the task and transaction
    tables; `create` appends a row with the next id.
  - The method is proved equal to a decision function, `FormEffect`. It
    yields the outcome (page shown again with its errors, redirect, or
    escaping exception) and the rows written.
  - Nothing wraps the two `create` calls of `schedule_entry` in a
    transaction, so an amount the decimal column refuses raises after the
    task was saved, and the task stays without its transaction. This
    holds with `ATOMIC_REQUESTS` off, Django's default; the settings are
    not part of this model.
- **The month calendar.** `_build_calendar_data` is modelled with:
  - previous and next month;
  - the Sunday-first grid of `calendar.Calendar(6).monthdatescalendar`;
  - the cell flags;
  - the per-day task counts, built from a date to set-of-ids index.
  The loops that fill the index and the rows are methods, proved against
  specification functions.
- **The day context.** `_build_planner_context` is modelled with:
  - the day window;
  - the day's tasks and transactions, as filters and stable sorts over
    in-memory tables;
  - the loop that separates timed from untimed tasks;
  - the loose transactions;
  - the per-kind totals.

Modules, in dependency order:

| file | module | contents |
|---|---|---|
| wrappers.dfy | `Wrappers` | `Option` |
| dates.dfy | `Dates` | dates and times with Python's `datetime` semantics |
| strptime.dfy | `Strptime` | the two `strptime` formats and `isoformat()` |
| records.dfy | `Records` | Task, Transaction, Account, Category rows |
| query.dfy | `Query` | ORM `filter` and `order_by` over sequences |
| planner_input.dfy | `PlannerInput` | `_parse_selected_date`, `_combine_with_date`, `str.strip` |
| planner_forms.dfy | `PlannerForms` | `_process_planner_forms` |
| month_calendar.dfy | `MonthCalendar` | `_build_calendar_data` |
| day_context.dfy | `DayContext` | `_build_planner_context` |

Where the code and its written description disagree, the model follows
the code:

- **The end of the day window.** The day window is computed as
  `_combine_with_date(selected_date, "23:59", time.max)`. The string is
  non-empty, so the window ends at 23:59:00, not at 23:59:59.999999.
  Transactions in the last 59.999999 seconds of a day belong to no day's
  page (`DayContext.LastMinuteExcluded`).
- **A malformed time raises.** `strptime` raises ValueError on a malformed
  posted time, and nothing catches it, so the exception escapes the view.
  It is not turned into a fallback or a validation message. The model
  reports it as the outcome `Raised(ValueError)`.

## Model

| member | source | states |
|---|---|---|
| Dates.DaysInMonth | todomate_budget_django/core/views.py:139 | `calendar.monthrange(...)[1]`: 28 to 31 days, and 29 exactly for February of a leap year |
| Dates.NextDay | todomate_budget_django/core/views.py:131 | adding one day yields the date whose ordinal is one more; it overflows exactly from 9999-12-31 |
| Dates.PrevDay | todomate_budget_django/core/views.py:132 | `first_of_month - timedelta(days=1)`: the date whose ordinal is one less; it overflows exactly from 0001-01-01 |
| Dates.PlusDaysOrdinal | todomate_budget_django/core/views.py:131 | `+ timedelta(days=n)` advances the ordinal by exactly n, and overflows only when that would pass 9999-12-31 |
| Dates.AddOneHour | todomate_budget_django/core/views.py:59 | `start_at + timedelta(hours=1)` is exactly one hour later; it overflows exactly in the last hour of 9999-12-31 |
| Strptime.ParseIsoDate | todomate_budget_django/core/views.py:23 | `strptime(s, "%Y-%m-%d")` only yields real calendar dates |
| Strptime.ParseHourMinute | todomate_budget_django/core/views.py:271 | `strptime(s, "%H:%M")` only yields valid times with zero seconds |
| Strptime.IsoFormat | todomate_budget_django/core/views.py:95 | `isoformat()` is ten characters: zero-padded digits everywhere except the dashes at positions 4 and 7 (the full-date form of RFC 3339, section 5.6) |
| Strptime.ParseIsoFormat | todomate_budget_django/core/views.py:95 | round trip: parsing the `isoformat()` text of a date gives back that date |
| Strptime.ParseFormatHourMinute | todomate_budget_django/core/views.py:271 | round trip: an `HH:MM` rendering of a whole-minute time parses back to that time |
| Strptime.IsoDateAccepts | todomate_budget_django/core/views.py:23 | single-digit and space-padded month and day fields are accepted |
| Strptime.IsoDateRejects | todomate_budget_django/core/views.py:23-24 | 2023-02-29, year 0, month 13, trailing text and "" are rejected; 2024-02-29 is accepted |
| Strptime.HourMinuteExamples | todomate_budget_django/core/views.py:271 | accepts "09:00", "9:5", "23:59" and "00:00"; rejects "24:00", "12:60", "09:00:00" and "9am" |
| PlannerInput.StripStartDrops | todomate_budget_django/core/views.py:42 | stripping the start removes exactly a whitespace prefix, and what remains starts with a non-space |
| PlannerInput.StripEndDrops | todomate_budget_django/core/views.py:42 | stripping the end removes exactly a whitespace suffix, and what remains ends with a non-space |
| PlannerInput.Strip | todomate_budget_django/core/views.py:42 | `str.strip()` never lengthens the text, and a non-empty result starts and ends with a non-space |
| PlannerInput.StripBlank | todomate_budget_django/core/views.py:42-48 | `title.strip()` is empty exactly when the title is all whitespace, which is what `not title` tests |
| PlannerInput.ParseSelectedDate | todomate_budget_django/core/views.py:16-26 | the result is a valid date: the parsed `date` parameter when it parses, today otherwise |
| PlannerInput.MissingDateIsToday | todomate_budget_django/core/views.py:20-26 | an absent or empty `date` parameter selects today |
| PlannerInput.SelectedDateRoundTrip | todomate_budget_django/core/views.py:16-26 | the `?date=` written by a redirect selects the same date on the next request, whatever today is |
| PlannerInput.CombineWithDate | todomate_budget_django/core/views.py:266-279 | the result lies on the given date; an empty string gives the fallback time; otherwise it succeeds exactly when the `HH:MM` text parses, at that time |
| PlannerInput.CombineFormattedTime | todomate_budget_django/core/views.py:270-275 | a posted `HH:MM` lands on exactly that minute of the selected day |
| PlannerInput.DayBoundaries | todomate_budget_django/core/views.py:189-190 | the two window boundaries never raise, and they are 00:00 and 23:59:00 |
| PlannerForms.Store.constructor | todomate_budget_django/core/views.py:83 | an empty store keeps the id invariant |
| PlannerForms.Store.CreateTask | todomate_budget_django/core/views.py:83-90 | appends exactly one task with the next id, leaves the transactions alone, keeps ids unique; no earlier task has the new id and no earlier transaction points at it |
| PlannerForms.Store.CreateTransaction | todomate_budget_django/core/views.py:113-120 | appends exactly one transaction with the next id, leaves the tasks alone, keeps ids unique; its `task` link must name a task already handed out |
| PlannerForms.ScheduleFieldErrors | todomate_budget_django/core/views.py:47-51 | at most two errors: title-required exactly when the stripped title is blank, start-required exactly when there is no start time, in that order |
| PlannerForms.LooseFieldErrors | todomate_budget_django/core/views.py:105-109 | at most two errors: time-required exactly when there is no time; fields-required exactly when the account, category or amount is missing |
| PlannerForms.ScheduleEntryEffect | todomate_budget_django/core/views.py:40-95 | the `schedule_entry` decision: at most one task, on the selected day with the store's next id; a transaction only beside that task and linked to it; a task is written only on a redirect or when the amount is refused |
| PlannerForms.LooseTransactionEffect | todomate_budget_django/core/views.py:97-121 | the `loose_transaction` decision: never a task; a transaction, unlinked, on the selected day with the next id, exactly when the view redirects |
| PlannerForms.FormEffect | todomate_budget_django/core/views.py:29-123 | `_process_planner_forms`: at most one task and one transaction; a page shown again writes nothing; every redirect leads to `base?date=<isoformat>`; a request that is not a POST does nothing |
| PlannerForms.ProcessPlannerForms | todomate_budget_django/core/views.py:29-123 | the outcome and the rows appended to the store are those of `FormEffect`; a task the call adds owns its id, and only this call's transaction can be linked to it |
| PlannerForms.SubmitScheduleEntry | todomate_budget_django/core/views.py:40-95 | the `schedule_entry` branch's outcome and appended rows are those of `ScheduleEntryEffect`, the task saved before its transaction; the transactions linked to the new task are this call's only |
| PlannerForms.SubmitLooseTransaction | todomate_budget_django/core/views.py:97-121 | the `loose_transaction` branch's outcome and appended row are those of `LooseTransactionEffect` |
| PlannerForms.NoAction | todomate_budget_django/core/views.py:34-36 | a non-POST request or an unknown `form_type` gives no errors, no redirect and no rows |
| PlannerForms.WritesOnlyOnRedirect | todomate_budget_django/core/views.py:29-123 | rows are written only on a redirect, except that a `schedule_entry` whose amount is refused has already saved its task (and only its task); every redirect goes to `base?date=<isoformat>` and writes at least one row; at most two errors are ever shown |
| PlannerForms.ScheduleEntryFieldErrors | todomate_budget_django/core/views.py:47-53 | a blank title or a missing start time gives exactly those errors, in order, and writes nothing |
| PlannerForms.ScheduleEntryRaises | todomate_budget_django/core/views.py:54-59 | a bad start or end time raises ValueError; a blank end time in the last hour of 9999-12-31 raises OverflowError; nothing is written |
| PlannerForms.ScheduleEntryAmountNeedsAccount | todomate_budget_django/core/views.py:68-70 | once title and times are good, an amount without both an account and a category is the only error, and nothing is written |
| PlannerForms.ScheduleEntrySuccess | todomate_budget_django/core/views.py:53-95 | on a redirect: one task, not all-day, stripped title and description, starting at the posted time on the selected day, due at the end time or one hour later; a linked transaction at the start, with the converted amount, exactly when an amount was posted |
| PlannerForms.ScheduleEntryRedirectsIff | todomate_budget_django/core/views.py:40-95 | the exact condition under which `schedule_entry` succeeds, in both directions, including an amount the decimal column accepts |
| PlannerForms.ScheduleEntryAmountRefused | todomate_budget_django/core/views.py:81-93 | the exact condition under which the transaction `create` raises after the task `create`: every check passed and the amount is refused; the task stays written, without a transaction and without a redirect |
| PlannerForms.LooseTransactionOutcome | todomate_budget_django/core/views.py:97-121 | missing fields give their errors and no row; a bad time raises ValueError and a refused amount ValidationError, with no row; otherwise exactly one unlinked transaction at the posted time and a redirect |
| MonthCalendar.PrevMonthOf | todomate_budget_django/core/views.py:132-134 | the month before, with the January to December rollover (month index minus one) |
| MonthCalendar.NextMonthOf | todomate_budget_django/core/views.py:131-133 | the month after, with the December to January rollover (month index plus one) |
| MonthCalendar.NavigableNeighbours | todomate_budget_django/core/views.py:129-134 | for every month but 0001-01 and 9999-12, the first days of both neighbouring months exist |
| MonthCalendar.PlusThirtyTwoDays | todomate_budget_django/core/views.py:130-133 | 32 days after the first of a month always falls in the next month; it overflows only from 9999-12 |
| MonthCalendar.DayBeforeFirst | todomate_budget_django/core/views.py:132-134 | the day before the first of a month is the last day of the previous month; it overflows only from 0001-01 |
| MonthCalendar.LeadingDays | todomate_budget_django/core/views.py:136 | the grid opens with 0 to 6 days of the previous month, as many as the first of the month is past Sunday |
| MonthCalendar.MonthDates | todomate_budget_django/core/views.py:163 | `itermonthdates` covers whole weeks: a multiple of seven dates, between 28 and 42 |
| MonthCalendar.MonthDatesConsecutive | todomate_budget_django/core/views.py:163 | the grid's dates are valid and consecutive |
| MonthCalendar.MonthDatesCoverMonth | todomate_budget_django/core/views.py:163 | every day of the month appears once, in order, and every other date belongs to another month |
| MonthCalendar.MonthDatesCalendar | todomate_budget_django/core/views.py:163 | `monthdatescalendar`: four to six rows of exactly seven dates, together as many dates as `itermonthdates` yields |
| MonthCalendar.CalendarShape | todomate_budget_django/core/views.py:163 | four to six rows of seven dates, read row by row |
| MonthCalendar.CalendarRows | todomate_budget_django/core/views.py:136-163 | every row holds seven consecutive dates starting on a Sunday, and each row continues the previous one |
| MonthCalendar.TasksByDay | todomate_budget_django/core/views.py:152-160 | `tasks_by_day` after the loop: every key is a day of the month, and no key maps to an empty set |
| MonthCalendar.TasksByDayIds | todomate_budget_django/core/views.py:152-160 | the index holds, under each day, exactly the ids of the tasks starting or due that day within the month; a key is never mapped to an empty set |
| MonthCalendar.IndexTasksByDay | todomate_budget_django/core/views.py:152-160 | the nested loop builds exactly the index `TasksByDay` describes |
| MonthCalendar.BuildWeeks | todomate_budget_django/core/views.py:162-175 | the week loop builds exactly one cell per date, with the view's flags and count |
| MonthCalendar.CalendarGrid | todomate_budget_django/core/views.py:162-175 | `calendar_weeks`: one row of seven cells per row of `monthdatescalendar`, four to six rows |
| MonthCalendar.BuildCalendarData | todomate_budget_django/core/views.py:126-182 | overflows exactly for 0001-01 and 9999-12; otherwise gives the neighbouring months' first days, the grid of the month's tasks, and the Sunday-first weekday headings; the result is `CalendarDataOf`, the calendar described by month, tasks and headings |
| MonthCalendar.GridFlags | todomate_budget_django/core/views.py:166-172 | `in_month` exactly for the selected month's days; `is_today` exactly for today; `is_selected` in exactly one cell, the selected day's |
| MonthCalendar.MonthlyIndexIds | todomate_budget_django/core/views.py:143-160 | the index of the `monthly_tasks` query holds, for a day of the month, the ids of all the user's tasks on that day |
| MonthCalendar.GridTaskCounts | todomate_budget_django/core/views.py:152-172 | `task_count` is the number of distinct ids of the user's tasks starting or due that day, and 0 outside the month |
| MonthCalendar.SameDayCountsOnce | todomate_budget_django/core/views.py:154-160 | a task starting and due on the same day adds its id once |
| MonthCalendar.SpanningTaskCountsOnBoth | todomate_budget_django/core/views.py:154-160 | a task starting and due on two days of the month is counted on both |
| MonthCalendar.UndatedTaskCountsNowhere | todomate_budget_django/core/views.py:155-157 | a task with neither timestamp leaves the index unchanged |
| Query.SortBy | todomate_budget_django/core/views.py:200 | `order_by`: the result is sorted by the key and is a permutation of the input |
| Query.FilterMembers | todomate_budget_django/core/views.py:193-198 | `filter` keeps exactly the rows satisfying the condition |
| Query.FilterSubMultiset | todomate_budget_django/core/views.py:204-205 | `filter` never duplicates a row |
| Query.SortByMembers | todomate_budget_django/core/views.py:207 | `order_by` keeps exactly the rows it was given |
| DayContext.DayStart | todomate_budget_django/core/views.py:189 | the window opens at 00:00 of the selected day |
| DayContext.DayEnd | todomate_budget_django/core/views.py:190 | the window closes at 23:59:00 of the selected day, since `time.max` is never used |
| DayContext.WindowIsDayUntilLastMinute | todomate_budget_django/core/views.py:189-205 | `occurred_at__range` holds exactly for the selected day up to and including 23:59:00 |
| DayContext.LastMinuteExcluded | todomate_budget_django/core/views.py:190-205 | 23:59:30 on the selected day is outside the window; 00:00 and 23:59:00 are inside |
| DayContext.DateTimeKeyOrder | todomate_budget_django/core/views.py:207 | the sort key of a date-time orders exactly as Python's date-time comparison |
| DayContext.DayTasks | todomate_budget_django/core/views.py:193-201 | the `tasks` query: sorted by (start, due, title) and drawn from the table without repeats |
| DayContext.DayTasksExactly | todomate_budget_django/core/views.py:193-201 | the day's tasks are exactly the user's tasks starting or due that day, sorted by (start, due, title), none duplicated |
| DayContext.DayTransactions | todomate_budget_django/core/views.py:204-208 | the `transactions` query: sorted by `occurred_at` and drawn from the table without repeats |
| DayContext.DayTransactionsExactly | todomate_budget_django/core/views.py:204-208 | the day's transactions are exactly the user's transactions in the window, oldest first, none duplicated |
| DayContext.LinkedTransactions | todomate_budget_django/finance/models.py:41-55 | `linked_transactions.all()`: in the model's `-occurred_at` order and drawn from the table without repeats |
| DayContext.LinkedTransactionsExactly | todomate_budget_django/finance/models.py:54-55 | `linked_transactions.all()` holds exactly the task's transactions, newest first |
| DayContext.NewestFirstOrder | todomate_budget_django/finance/models.py:55 | the `-occurred_at` key puts a later transaction before an earlier one |
| DayContext.EntriesAt | todomate_budget_django/core/views.py:214-225 | the i-th payload is that of the i-th task |
| DayContext.EntryListed | todomate_budget_django/core/views.py:214-225 | every task has its payload among the payloads |
| DayContext.PartitionTasks | todomate_budget_django/core/views.py:211-230 | the loop yields the payloads with a start or due time, in order, as `timed_tasks` and the others, in order, as `untimed_tasks` |
| DayContext.FilterSplits | todomate_budget_django/core/views.py:227-230 | a condition and its negation split a sequence: together they hold every element as often as the input |
| DayContext.PartitionSplitsEntries | todomate_budget_django/core/views.py:227-230 | every payload lands in exactly one of the two lists |
| DayContext.UntimedAlwaysEmpty | todomate_budget_django/core/views.py:193-230 | every task the day query returns has a timestamp on that day, so `untimed_tasks` is always empty and `timed_tasks` holds every payload |
| DayContext.LooseTransactions | todomate_budget_django/core/views.py:233-235 | `loose_transactions`: every member has no task |
| DayContext.LooseExactly | todomate_budget_django/core/views.py:233-235 | the loose list holds the day's transactions without a task, all of them, and none twice |
| DayContext.KindOfFinds | todomate_budget_django/core/views.py:239 | `category__kind` is the kind of the category with the transaction's key, absent exactly when no category has that key |
| DayContext.DailyTotals | todomate_budget_django/core/views.py:237-241 | the corrected `daily_totals`: every key maps to the sum of that kind's amounts, and a kind without a key sums to zero, so `daily_totals.get(kind, 0)` is that kind's sum |
| DayContext.DailyTotalsKeys | todomate_budget_django/core/views.py:238-241 | the corrected totals have a key exactly for the kinds present among the day's transactions |
| DayContext.KindTotalSnoc | todomate_budget_django/core/views.py:238-241 | one more transaction adds its amount to its own kind's sum and nothing to the others |
| DayContext.KindTotalAbsent | todomate_budget_django/core/views.py:238-241 | a kind that none of the transactions has sums to zero |
| DayContext.DailyTotalsAreKindSums | todomate_budget_django/core/views.py:238-241 | per-kind totals have a key exactly for the kinds present that day, none zero-filled, and each maps to the sum of that kind's amounts |
| DayContext.TotalsAsWritten | todomate_budget_django/core/views.py:238-241 | `daily_totals` as the code computes it: the same keys as the corrected totals; its values are stated by `TotalsAsWrittenValues` |
| DayContext.GroupedKeys | todomate_budget_django/core/views.py:238-241 | the as-written grouping has a row for exactly the kinds the corrected totals have |
| Dates.DateTimeLeAntisymmetric | todomate_budget_django/core/views.py:207 | two valid date-times each no later than the other are equal, so `order_by('occurred_at')` puts equal times next to each other |
| DayContext.GroupedRowsAsWritten | todomate_budget_django/core/views.py:207-241 | for rows in `occurred_at` order, the as-written entry of each kind holds the kind's latest time and the sum of that kind's rows at exactly that time; a kind without rows has no entry |
| DayContext.TotalsAsWrittenValues | todomate_budget_django/core/views.py:207-241 | for rows in `occurred_at` order, each kind in the as-written `daily_totals` maps to the sum of that kind's amounts at the kind's latest `occurred_at`, not over the whole day |
| DayContext.DayTransactionsInOrder | todomate_budget_django/core/views.py:204-208 | the day's transactions come in `occurred_at` order, so the lemma above applies to them |
| DayContext.TwoTimesAsWritten | todomate_budget_django/core/views.py:238-241 | two rows of one kind at different times: as written, the kind maps to the later row's amount alone |
| DayContext.TwoRowsCorrected | todomate_budget_django/core/views.py:238-241 | two rows of one kind: the corrected totals map the kind to both amounts added, and hold no other key |
| DayContext.TotalsAsWrittenDropsEarlierRows | todomate_budget_django/core/views.py:238-241 | two expenses at 09:00 and 14:30 give 1250 as written; the intended per-kind sum is 1750 |
| DayContext.LoosePostListedOnDay | todomate_budget_django/core/views.py:112-121 | after a successful `loose_transaction` post, the redirected page lists the new transaction among the loose ones |
| DayContext.DayTaskListedTimed | todomate_budget_django/core/views.py:193-230 | every task of the user on the day is listed, and its payload is among the timed ones |
| DayContext.SchedulePostListedOnDay | todomate_budget_django/core/views.py:83-95 | after a successful `schedule_entry` post, the page lists the new task among the day's and the timed tasks, and its transaction among the task's |
| DayContext.PostedRowsListed | todomate_budget_django/core/views.py:214-228 | a new task of the user on the day, and the transactions linked to it, all show up on the day's page |
| DayContext.BuildPlannerContext | todomate_budget_django/core/views.py:185-263 | every context field is the query or computation above, with the corrected `daily_totals` (see Left out); `untimed_tasks` is empty; the calendar is present exactly when asked for, overflows exactly for 0001-01 and 9999-12, and otherwise is `CalendarDataOf`: `prev_month`, `next_month`, `calendar_weeks` and `calendar_weekdays` as `MonthCalendar.BuildCalendarData` states them |

## Left out

- Time zones. `timezone.localtime`, `make_aware` and `localdate` are not modelled: a timestamp is its local wall-clock value, and "today" is a parameter.
- HTTP and rendering. `redirect`, `render`, authentication and the views that call these helpers are not part of this model. A redirect is its location string.
- Error message text. The Korean messages are the `FormError` codes, kept in the order they are appended.
- Amount parsing. The conversion of the posted amount text to the two-place decimal column is the parameter `toCents`, which yields nothing for a text the column refuses; which texts those are is Django's and is not modelled. A refused amount is modelled as an exception from `create`, reported as ValidationError. In Django a text that is not a number raises ValidationError, but one with more than 14 digits (`max_digits=14`) fails later, with `decimal.InvalidOperation` or a database error; the model does not tell these apart.
- PlannerForms.ScheduleEntryEffect and PlannerForms.LooseTransactionEffect: account and category keys are the posted text and always accepted. In the code, a non-numeric key or one naming no row makes the transaction `create` raise as well, which for `schedule_entry` again leaves the task saved without its transaction. That the keys belong to the user is not checked by the code either. Text lengths are not modelled: the task title is a `CharField(max_length=200)` (tasks/models.py:25) and the memo a `CharField(max_length=255)` (finance/models.py:50). On a database that enforces them, an over-long title makes the task `create` raise, and an over-long memo makes the transaction `create` raise after the task was saved, a second way to get the partial write.
- The Unicode digits Python's `\d` also accepts in `strptime` are not modelled; only ASCII digits are.
- `QueryDict` keys posted several times: the model keeps one value per key, as `.get` returns the last one.
- `Transaction.created_at`: the newest-first order of `linked_transactions` breaks ties by id instead, since rows get ids in creation order.
- Database collation and NULL placement. Titles compare by code point. Where NULL sorts in `order_by('start_at', 'due_at', 'title')` depends on the database, so it is the parameter `NullPlacement`. `SortBy` is stable, so rows with equal keys keep their table order; SQL `ORDER BY` promises no order among such rows.
- Columns the planner neither reads nor writes: task priority, status, tags and `updated_at`; account type and balance; budget periods and items.
- `prefetch_related`, `select_related` and `.only` change how rows are loaded, not which rows; they are left out.
- DayContext.BuildPlannerContext: its `dailyTotals` field is the corrected `DayContext.DailyTotals`, grouped by kind alone, not what the code as written puts in the context (`DayContext.TotalsAsWritten`, the same keys with each kind's last time's sum); see Findings.

## Findings

| source | as written | input that shows it | evidently intended | confidence | as-written member | corrected member |
|---|---|---|---|---|---|---|
| todomate_budget_django/core/views.py:238-241 | `transactions` is ordered by `occurred_at`, so `values('category__kind').annotate(Sum)` groups by kind and `occurred_at`, one row per distinct time. The dict comprehension keeps the last row of each kind, so `daily_totals` holds only the latest time's sum per kind. | two expenses of the same category on one day, 500 at 09:00 and 1250 at 14:30 | the day's total per kind: 1750 for expenses | not executed; high (Django adds `order_by` fields to GROUP BY) | DayContext.TotalsAsWrittenDropsEarlierRows | DayContext.DailyTotalsAreKindSums |
