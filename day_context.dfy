/**
 * `_build_planner_context` (core/views.py): what the planner page shows for
 * the selected day. The database queries become filters and stable sorts
 * over in-memory tables; the loop that separates timed from untimed tasks
 * stays a loop.
 */
module DayContext {
  import opened Wrappers
  import opened Dates
  import opened Records
  import opened Query
  import opened PlannerInput
  import opened PlannerForms
  import opened MonthCalendar

  // ---------------------------------------------------------------------
  // The day window

  /** `day_start` and `day_end` as the view computes them. */
  function DayStart(selected: Date): (start: DateTime)
    requires ValidDate(selected)
    ensures ValidDateTime(start) && start == DateTime(selected, MinTime)
  {
    DayBoundaries(selected);
    CombineWithDate(selected, "00:00", MinTime).value
  }

  function DayEnd(selected: Date): (end: DateTime)
    requires ValidDate(selected)
    ensures ValidDateTime(end) && end == DateTime(selected, Time(23, 59, 0, 0))
  {
    DayBoundaries(selected);
    CombineWithDate(selected, "23:59", MaxTime).value
  }

  /** `occurred_at__range=(day_start, day_end)`: both ends included. */
  predicate InWindow(at: DateTime, start: DateTime, end: DateTime) {
    DateTimeLe(start, at) && DateTimeLe(at, end)
  }

  /**
   * The window is the selected day up to and including 23:59:00; the last
   * 59.999999 seconds of the day fall outside it.
   */
  lemma WindowIsDayUntilLastMinute(selected: Date, at: DateTime)
    requires ValidDate(selected) && ValidDateTime(at)
    ensures InWindow(at, DayStart(selected), DayEnd(selected))
            <==> at.date == selected && TimeOfDayMicros(at.time) <= TimeOfDayMicros(Time(23, 59, 0, 0))
  {
  }

  /** A transaction at 23:59:30 on the selected day is left out of the day. */
  lemma LastMinuteExcluded(selected: Date)
    requires ValidDate(selected)
    ensures !InWindow(DateTime(selected, Time(23, 59, 30, 0)), DayStart(selected), DayEnd(selected))
    ensures InWindow(DateTime(selected, Time(23, 59, 0, 0)), DayStart(selected), DayEnd(selected))
    ensures InWindow(DateTime(selected, MinTime), DayStart(selected), DayEnd(selected))
  {
  }

  // ---------------------------------------------------------------------
  // ORDER BY keys

  /** The columns of a date-time, most significant first. */
  function DateTimeKey(dt: DateTime): (key: seq<int>)
    ensures |key| == 7
  {
    [dt.date.year, dt.date.month, dt.date.day, dt.time.hour, dt.time.minute, dt.time.second, dt.time.microsecond]
  }

  lemma LexLeCons(x: int, a: seq<int>, y: int, b: seq<int>)
    ensures LexLe([x] + a, [y] + b) <==> x < y || (x == y && LexLe(a, b))
  {
    assert ([x] + a)[1..] == a && ([y] + b)[1..] == b;
  }

  /** Sorting by `DateTimeKey` is sorting by Python's date-time order. */
  lemma DateTimeKeyOrder(a: DateTime, b: DateTime)
    requires ValidDateTime(a) && ValidDateTime(b)
    ensures LexLe(DateTimeKey(a), DateTimeKey(b)) <==> DateTimeLe(a, b)
  {
    var ka, kb := DateTimeKey(a), DateTimeKey(b);
    LexLeCons(ka[6], [], kb[6], []);
    LexLeCons(ka[5], ka[6..], kb[5], kb[6..]);
    LexLeCons(ka[4], ka[5..], kb[4], kb[5..]);
    LexLeCons(ka[3], ka[4..], kb[3], kb[4..]);
    LexLeCons(ka[2], ka[3..], kb[2], kb[3..]);
    LexLeCons(ka[1], ka[2..], kb[1], kb[2..]);
    LexLeCons(ka[0], ka[1..], kb[0], kb[1..]);
    assert ka == [ka[0]] + ka[1..] && kb == [kb[0]] + kb[1..];
    assert ka[1..] == [ka[1]] + ka[2..] && kb[1..] == [kb[1]] + kb[2..];
    assert ka[2..] == [ka[2]] + ka[3..] && kb[2..] == [kb[2]] + kb[3..];
    assert ka[3..] == [ka[3]] + ka[4..] && kb[3..] == [kb[3]] + kb[4..];
    assert ka[4..] == [ka[4]] + ka[5..] && kb[4..] == [kb[4]] + kb[5..];
    assert ka[5..] == [ka[5]] + ka[6..] && kb[5..] == [kb[5]] + kb[6..];
    assert ka[6..] == [ka[6]] + [] && kb[6..] == [kb[6]] + [];
  }

  /** Where the database puts NULL in an ascending ORDER BY (PostgreSQL: last; SQLite: first). */
  datatype NullPlacement = NullsFirst | NullsLast

  /** A nullable date-time column as an ORDER BY key of fixed width. */
  function NullableKey(stamp: Option<Timestamp>, nulls: NullPlacement): (key: seq<int>)
    ensures |key| == 8
  {
    match stamp
    case None => [if nulls == NullsFirst then 0 else 1, 0, 0, 0, 0, 0, 0, 0]
    case Some(dt) => [if nulls == NullsFirst then 1 else 0] + DateTimeKey(dt)
  }

  /** A text column compared character by character. */
  function TextKey(s: string): (key: seq<int>)
    ensures |key| == |s|
  {
    seq(|s|, i requires 0 <= i < |s| => s[i] as int)
  }

  /** `order_by('start_at', 'due_at', 'title')` */
  function TaskOrderKey(t: Task, nulls: NullPlacement): seq<int> {
    NullableKey(t.startAt, nulls) + NullableKey(t.dueAt, nulls) + TextKey(t.title)
  }

  /** `order_by('occurred_at')` */
  function OccurredKey(tx: Transaction): seq<int> {
    DateTimeKey(tx.occurredAt)
  }

  /**
   * `Meta.ordering = ["-occurred_at", "-created_at"]`, the order of
   * `task.linked_transactions.all()`; rows are created in id order, so the
   * id stands in for `created_at`.
   */
  function NewestFirstKey(tx: Transaction): seq<int> {
    var k := DateTimeKey(tx.occurredAt);
    [-k[0], -k[1], -k[2], -k[3], -k[4], -k[5], -k[6], -(tx.id as int)]
  }

  // ---------------------------------------------------------------------
  // The day's rows

  /** The `tasks` query: the user's tasks that start or are due on the selected day. */
  predicate IsDayTask(t: Task, owner: UserId, selected: Date) {
    t.owner == owner && (StampOn(t.startAt, selected) || StampOn(t.dueAt, selected))
  }

  /** The `tasks` query's filter as a function value. */
  function DayTaskQuery(owner: UserId, selected: Date): Task -> bool {
    t => IsDayTask(t, owner, selected)
  }

  /** The `tasks` query's ORDER BY as a function value. */
  function TaskOrder(nulls: NullPlacement): Task -> seq<int> {
    t => TaskOrderKey(t, nulls)
  }

  /** The `tasks` query: drawn from the table without repeats, in ORDER BY order. */
  function DayTasks(tasks: seq<Task>, owner: UserId, selected: Date, nulls: NullPlacement): (r: seq<Task>)
    ensures SortedBy(r, TaskOrder(nulls)) && multiset(r) <= multiset(tasks)
  {
    FilterSubMultiset(tasks, DayTaskQuery(owner, selected));
    SortBy(Filter(tasks, DayTaskQuery(owner, selected)), TaskOrder(nulls))
  }

  /** The day's tasks are exactly the user's tasks starting or due that day, in ORDER BY order. */
  lemma DayTasksExactly(tasks: seq<Task>, owner: UserId, selected: Date, nulls: NullPlacement)
    ensures var r := DayTasks(tasks, owner, selected, nulls);
            (forall t :: t in r <==> t in tasks && IsDayTask(t, owner, selected))
            && SortedBy(r, TaskOrder(nulls))
            && multiset(r) <= multiset(tasks)
  {
    var picked := Filter(tasks, DayTaskQuery(owner, selected));
    FilterMembers(tasks, DayTaskQuery(owner, selected));
    FilterSubMultiset(tasks, DayTaskQuery(owner, selected));
    SortByMembers(picked, TaskOrder(nulls));
  }

  /** The `transactions` query: the user's transactions in the window, oldest first. */
  predicate IsDayTransaction(tx: Transaction, owner: UserId, selected: Date)
    requires ValidDate(selected)
  {
    tx.owner == owner && InWindow(tx.occurredAt, DayStart(selected), DayEnd(selected))
  }

  /** The `transactions` query's filter as a function value. */
  function DayTransactionQuery(owner: UserId, selected: Date): Transaction -> bool
    requires ValidDate(selected)
  {
    tx => IsDayTransaction(tx, owner, selected)
  }

  /** The `transactions` query: drawn from the table without repeats, by `occurred_at`. */
  function DayTransactions(transactions: seq<Transaction>, owner: UserId, selected: Date): (r: seq<Transaction>)
    requires ValidDate(selected)
    ensures SortedBy(r, OccurredKey) && multiset(r) <= multiset(transactions)
  {
    FilterSubMultiset(transactions, DayTransactionQuery(owner, selected));
    SortBy(Filter(transactions, DayTransactionQuery(owner, selected)), OccurredKey)
  }

  /** The day's transactions are exactly the user's transactions in the window, oldest first. */
  lemma DayTransactionsExactly(transactions: seq<Transaction>, owner: UserId, selected: Date)
    requires ValidDate(selected)
    ensures var r := DayTransactions(transactions, owner, selected);
            (forall tx :: tx in r <==> tx in transactions && IsDayTransaction(tx, owner, selected))
            && (forall i, j :: 0 <= i < j < |r| ==> DateTimeLe(r[i].occurredAt, r[j].occurredAt))
            && multiset(r) <= multiset(transactions)
  {
    var picked := Filter(transactions, DayTransactionQuery(owner, selected));
    FilterMembers(transactions, DayTransactionQuery(owner, selected));
    FilterSubMultiset(transactions, DayTransactionQuery(owner, selected));
    SortByMembers(picked, OccurredKey);
    var r := SortBy(picked, OccurredKey);
    forall i, j | 0 <= i < j < |r|
      ensures DateTimeLe(r[i].occurredAt, r[j].occurredAt)
    {
      DateTimeKeyOrder(r[i].occurredAt, r[j].occurredAt);
    }
  }

  /** `task.linked_transactions.all()` */
  function LinkedTo(taskId: nat): Transaction -> bool {
    (tx: Transaction) => tx.task == Some(taskId)
  }

  /** The task's transactions: drawn from the table without repeats, newest first. */
  function LinkedTransactions(transactions: seq<Transaction>, taskId: nat): (r: seq<Transaction>)
    ensures SortedBy(r, NewestFirstKey) && multiset(r) <= multiset(transactions)
  {
    FilterSubMultiset(transactions, LinkedTo(taskId));
    SortBy(Filter(transactions, LinkedTo(taskId)), NewestFirstKey)
  }

  /** Every transaction pointing at the task, and only those, newest first. */
  lemma LinkedTransactionsExactly(transactions: seq<Transaction>, taskId: nat)
    ensures var r := LinkedTransactions(transactions, taskId);
            (forall tx :: tx in r <==> tx in transactions && tx.task == Some(taskId))
            && (forall i, j :: 0 <= i < j < |r| ==> DateTimeLe(r[j].occurredAt, r[i].occurredAt))
  {
    var picked := Filter(transactions, LinkedTo(taskId));
    FilterMembers(transactions, LinkedTo(taskId));
    SortByMembers(picked, NewestFirstKey);
    var r := SortBy(picked, NewestFirstKey);
    forall i, j | 0 <= i < j < |r|
      ensures DateTimeLe(r[j].occurredAt, r[i].occurredAt)
    {
      NewestFirstOrder(r[i], r[j]);
    }
  }

  /** The newest-first key puts a later occurrence before an earlier one. */
  lemma NewestFirstOrder(a: Transaction, b: Transaction)
    requires LexLe(NewestFirstKey(a), NewestFirstKey(b))
    ensures DateTimeLe(b.occurredAt, a.occurredAt)
  {
    var ka, kb := NewestFirstKey(a), NewestFirstKey(b);
    var da, db := DateTimeKey(a.occurredAt), DateTimeKey(b.occurredAt);
    forall k | 0 <= k < 7 ensures ka[k] == -da[k] && kb[k] == -db[k] {}
    NegatedKeyOrder(ka, kb, da, db, 0);
    DateTimeKeyOrder(b.occurredAt, a.occurredAt);
  }

  /** Comparing negated columns reverses the comparison of the first seven columns. */
  lemma {:induction false} NegatedKeyOrder(ka: seq<int>, kb: seq<int>, da: seq<int>, db: seq<int>, n: nat)
    requires |ka| == |kb| == 8 && |da| == |db| == 7 && n <= 7
    requires forall k :: 0 <= k < 7 ==> ka[k] == -da[k] && kb[k] == -db[k]
    requires LexLe(ka[n..], kb[n..])
    ensures LexLe(db[n..], da[n..])
    decreases 7 - n
  {
    if n < 7 {
      assert ka[n..][0] == ka[n] && kb[n..][0] == kb[n];
      assert ka[n..][1..] == ka[n + 1..] && kb[n..][1..] == kb[n + 1..];
      assert db[n..][0] == db[n] && da[n..][0] == da[n];
      assert db[n..][1..] == db[n + 1..] && da[n..][1..] == da[n + 1..];
      if ka[n] == kb[n] {
        NegatedKeyOrder(ka, kb, da, db, n + 1);
      }
    }
  }

  // ---------------------------------------------------------------------
  // `timed_tasks` and `untimed_tasks`

  /** `task_payload` */
  datatype TaskEntry = TaskEntry(
    task: Task,
    startLocal: Option<DateTime>,
    endLocal: Option<DateTime>,
    transactions: seq<Transaction>)

  function EntryOf(t: Task, transactions: seq<Transaction>): TaskEntry {
    TaskEntry(t,
              if t.startAt.Some? then Some(t.startAt.value) else None,
              if t.dueAt.Some? then Some(t.dueAt.value) else None,
              LinkedTransactions(transactions, t.id))
  }

  /** The payloads of `tasks`, in order. */
  function Entries(tasks: seq<Task>, transactions: seq<Transaction>): (r: seq<TaskEntry>)
    ensures |r| == |tasks|
  {
    if tasks == [] then []
    else Entries(tasks[..|tasks| - 1], transactions) + [EntryOf(tasks[|tasks| - 1], transactions)]
  }

  lemma {:induction false} EntriesAt(tasks: seq<Task>, transactions: seq<Transaction>)
    ensures forall i :: 0 <= i < |tasks| ==> Entries(tasks, transactions)[i] == EntryOf(tasks[i], transactions)
  {
    if tasks != [] {
      EntriesAt(tasks[..|tasks| - 1], transactions);
    }
  }

  /** Each task has its payload among the payloads. */
  lemma {:induction false} EntryListed(tasks: seq<Task>, transactions: seq<Transaction>, task: Task)
    requires task in tasks
    ensures EntryOf(task, transactions) in Entries(tasks, transactions)
  {
    var init := tasks[..|tasks| - 1];
    if task != tasks[|tasks| - 1] {
      assert tasks == init + [tasks[|tasks| - 1]];
      EntryListed(init, transactions, task);
    }
  }

  /** `if start_local or end_local` */
  predicate IsTimed(e: TaskEntry) {
    e.startLocal.Some? || e.endLocal.Some?
  }

  predicate IsUntimed(e: TaskEntry) {
    !IsTimed(e)
  }

  /** The loop over the day's tasks that fills the two lists. */
  method PartitionTasks(tasks: seq<Task>, transactions: seq<Transaction>)
    returns (timed: seq<TaskEntry>, untimed: seq<TaskEntry>)
    ensures timed == Filter(Entries(tasks, transactions), IsTimed)
    ensures untimed == Filter(Entries(tasks, transactions), IsUntimed)
  {
    timed, untimed := [], [];
    for i := 0 to |tasks|
      invariant timed == Filter(Entries(tasks[..i], transactions), IsTimed)
      invariant untimed == Filter(Entries(tasks[..i], transactions), IsUntimed)
    {
      var task := tasks[i];
      var startLocal := if task.startAt.Some? then Some(task.startAt.value) else None;
      var endLocal := if task.dueAt.Some? then Some(task.dueAt.value) else None;
      var linked := LinkedTransactions(transactions, task.id);
      var payload := TaskEntry(task, startLocal, endLocal, linked);
      assert tasks[..i + 1][..i] == tasks[..i];
      assert Entries(tasks[..i + 1], transactions) == Entries(tasks[..i], transactions) + [payload];
      FilterSnoc(Entries(tasks[..i], transactions), payload, IsTimed);
      FilterSnoc(Entries(tasks[..i], transactions), payload, IsUntimed);
      if startLocal.Some? || endLocal.Some? {
        timed := timed + [payload];
      } else {
        untimed := untimed + [payload];
      }
    }
    assert tasks[..|tasks|] == tasks;
  }

  /** The two lists split the entries: together they hold each entry exactly as often as the input. */
  lemma {:induction false} FilterSplits<T>(s: seq<T>, p: T -> bool, q: T -> bool)
    requires forall x :: q(x) == !p(x)
    ensures multiset(Filter(s, p)) + multiset(Filter(s, q)) == multiset(s)
  {
    if s != [] {
      var init, last := s[..|s| - 1], s[|s| - 1];
      assert s == init + [last];
      FilterSplits(init, p, q);
    }
  }

  lemma PartitionSplitsEntries(entries: seq<TaskEntry>)
    ensures multiset(Filter(entries, IsTimed)) + multiset(Filter(entries, IsUntimed)) == multiset(entries)
  {
    FilterSplits(entries, IsTimed, IsUntimed);
  }

  /**
   * Every task the day query returns has a start or a due date on that day,
   * so `untimed_tasks` is always empty and `timed_tasks` holds every task.
   */
  lemma UntimedAlwaysEmpty(tasks: seq<Task>, transactions: seq<Transaction>, owner: UserId, selected: Date,
                           nulls: NullPlacement)
    ensures var entries := Entries(DayTasks(tasks, owner, selected, nulls), transactions);
            Filter(entries, IsUntimed) == [] && Filter(entries, IsTimed) == entries
  {
    var dayTasks := DayTasks(tasks, owner, selected, nulls);
    var entries := Entries(dayTasks, transactions);
    DayTasksExactly(tasks, owner, selected, nulls);
    EntriesAt(dayTasks, transactions);
    assert forall i :: 0 <= i < |entries| ==> IsTimed(entries[i]) by {
      forall i | 0 <= i < |entries| ensures IsTimed(entries[i]) {
        assert dayTasks[i] in dayTasks;
      }
    }
    FilterKeepsAll(entries, IsTimed);
    FilterNone(entries, IsUntimed);
  }

  // ---------------------------------------------------------------------
  // `loose_transactions`

  predicate IsLoose(tx: Transaction) {
    tx.task.None?
  }

  /** `[tx for tx in transactions if tx.task_id is None]` */
  function LooseTransactions(dayTransactions: seq<Transaction>): (r: seq<Transaction>)
    ensures forall tx :: tx in r ==> tx.task.None?
  {
    FilterMembers(dayTransactions, IsLoose);
    Filter(dayTransactions, IsLoose)
  }

  /**
   * The loose list is the day's list with the linked transactions taken
   * out: its members are exactly the day's transactions without a task, and
   * none of them appears more often than in the day's list.
   */
  lemma LooseExactly(dayTransactions: seq<Transaction>)
    ensures forall tx :: tx in LooseTransactions(dayTransactions) <==> tx in dayTransactions && tx.task.None?
    ensures multiset(LooseTransactions(dayTransactions)) <= multiset(dayTransactions)
  {
    FilterMembers(dayTransactions, IsLoose);
    FilterSubMultiset(dayTransactions, IsLoose);
  }

  // ---------------------------------------------------------------------
  // `daily_totals`

  /** `category__kind`: the kind of the transaction's category, looked up by key. */
  function KindOf(categories: seq<Category>, key: string): Option<CategoryKind> {
    if categories == [] then None
    else if categories[0].id == key then Some(categories[0].kind)
    else KindOf(categories[1..], key)
  }

  /** The kind found is that of the first category with the key; there is none exactly when no category has it. */
  lemma {:induction false} KindOfFinds(categories: seq<Category>, key: string)
    ensures KindOf(categories, key).Some? ==>
              exists i :: 0 <= i < |categories| && categories[i].id == key
                          && categories[i].kind == KindOf(categories, key).value
                          && forall j :: 0 <= j < i ==> categories[j].id != key
    ensures KindOf(categories, key).None? ==> forall i :: 0 <= i < |categories| ==> categories[i].id != key
  {
    if categories != [] && categories[0].id != key {
      var rest := categories[1..];
      KindOfFinds(rest, key);
      if KindOf(rest, key).Some? {
        var i :| 0 <= i < |rest| && rest[i].id == key && rest[i].kind == KindOf(rest, key).value
                 && forall j :: 0 <= j < i ==> rest[j].id != key;
        assert categories[i + 1] == rest[i];
        assert forall j :: 0 <= j < i + 1 ==> categories[j].id != key by {
          forall j | 0 <= j < i + 1 ensures categories[j].id != key {
            if j > 0 {
              assert categories[j] == rest[j - 1];
            }
          }
        }
      } else {
        forall i | 0 <= i < |categories| ensures categories[i].id != key {
          if i > 0 {
            assert categories[i] == rest[i - 1];
          }
        }
      }
    }
  }

  function SumAmounts(transactions: seq<Transaction>): int {
    if transactions == [] then 0
    else SumAmounts(transactions[..|transactions| - 1]) + transactions[|transactions| - 1].amount
  }

  /** The reference definition: the amounts of the day's transactions of one kind, added up. */
  function OfKind(categories: seq<Category>, kind: CategoryKind): Transaction -> bool {
    (tx: Transaction) => KindOf(categories, tx.category) == Some(kind)
  }

  function KindTotal(transactions: seq<Transaction>, categories: seq<Category>, kind: CategoryKind): int {
    SumAmounts(Filter(transactions, OfKind(categories, kind)))
  }

  /** Adds one transaction into its kind's running total. */
  function AddToTotals(totals: map<CategoryKind, int>, tx: Transaction, categories: seq<Category>)
    : map<CategoryKind, int>
  {
    match KindOf(categories, tx.category)
    case None => totals
    case Some(k) => totals[k := (if k in totals then totals[k] else 0) + tx.amount]
  }

  /**
   * `daily_totals` grouped by kind alone, the grouping the view means:
   * `daily_totals.get(kind, 0)` is the sum of that kind's amounts.
   */
  function DailyTotals(transactions: seq<Transaction>, categories: seq<Category>): (totals: map<CategoryKind, int>)
    ensures forall kind :: kind in totals ==> totals[kind] == KindTotal(transactions, categories, kind)
    ensures forall kind :: kind !in totals ==> KindTotal(transactions, categories, kind) == 0
  {
    if transactions == [] then map[]
    else
      var init, last := transactions[..|transactions| - 1], transactions[|transactions| - 1];
      var before := DailyTotals(init, categories);
      AddToTotalsSums(before, transactions, categories);
      AddToTotals(before, last, categories)
  }

  /**
   * Adding the last transaction to totals that are the kind sums of the
   * others gives the kind sums of them all.
   */
  lemma AddToTotalsSums(before: map<CategoryKind, int>, transactions: seq<Transaction>, categories: seq<Category>)
    requires transactions != []
    requires forall kind :: kind in before ==> before[kind] == KindTotal(transactions[..|transactions| - 1], categories, kind)
    requires forall kind :: kind !in before ==> KindTotal(transactions[..|transactions| - 1], categories, kind) == 0
    ensures var after := AddToTotals(before, transactions[|transactions| - 1], categories);
            (forall kind :: kind in after ==> after[kind] == KindTotal(transactions, categories, kind))
            && (forall kind :: kind !in after ==> KindTotal(transactions, categories, kind) == 0)
  {
    var init, last := transactions[..|transactions| - 1], transactions[|transactions| - 1];
    assert init + [last] == transactions;
    var after := AddToTotals(before, last, categories);
    forall kind | kind in after
      ensures after[kind] == KindTotal(init + [last], categories, kind)
    {
      KindTotalSnoc(init, last, categories, kind);
      AddToTotalsSum(before, last, categories, kind, KindTotal(init, categories, kind),
                     KindTotal(init + [last], categories, kind));
    }
    forall kind | kind !in after
      ensures KindTotal(init + [last], categories, kind) == 0
    {
      KindTotalSnoc(init, last, categories, kind);
      AddToTotalsSum(before, last, categories, kind, KindTotal(init, categories, kind),
                     KindTotal(init + [last], categories, kind));
    }
  }

  /** `AddToTotalsSums` for one kind, whose sum goes from `sum` to `sum'`. */
  lemma AddToTotalsSum(before: map<CategoryKind, int>, last: Transaction, categories: seq<Category>,
                       kind: CategoryKind, sum: int, sum': int)
    requires kind in before ==> before[kind] == sum
    requires kind !in before ==> sum == 0
    requires sum' == sum + (if KindOf(categories, last.category) == Some(kind) then last.amount else 0)
    ensures var after := AddToTotals(before, last, categories);
            (kind in after ==> after[kind] == sum') && (kind !in after ==> sum' == 0)
  {
  }

  /** `daily_totals` has a key exactly for the kinds present among the day's transactions. */
  lemma {:induction false} DailyTotalsKeys(transactions: seq<Transaction>, categories: seq<Category>,
                                           kind: CategoryKind)
    ensures kind in DailyTotals(transactions, categories)
            <==> exists i :: 0 <= i < |transactions| && KindOf(categories, transactions[i].category) == Some(kind)
  {
    if transactions != [] {
      var init, last := transactions[..|transactions| - 1], transactions[|transactions| - 1];
      assert transactions == init + [last];
      DailyTotalsKeys(init, categories, kind);
      var before := DailyTotals(init, categories);
      assert DailyTotals(transactions, categories) == AddToTotals(before, last, categories);
      AddToTotalsKeys(before, last, categories, kind);
      KindPresentSnoc(init, last, categories, kind);
    }
  }

  lemma AddToTotalsKeys(before: map<CategoryKind, int>, tx: Transaction, categories: seq<Category>, kind: CategoryKind)
    ensures kind in AddToTotals(before, tx, categories) <==> kind in before || KindOf(categories, tx.category) == Some(kind)
  {
  }

  lemma KindPresentSnoc(init: seq<Transaction>, last: Transaction, categories: seq<Category>, kind: CategoryKind)
    ensures (exists i :: 0 <= i < |init + [last]| && KindOf(categories, (init + [last])[i].category) == Some(kind))
            <==> (exists i :: 0 <= i < |init| && KindOf(categories, init[i].category) == Some(kind))
                 || KindOf(categories, last.category) == Some(kind)
  {
    var s := init + [last];
    if exists i :: 0 <= i < |s| && KindOf(categories, s[i].category) == Some(kind) {
      var i :| 0 <= i < |s| && KindOf(categories, s[i].category) == Some(kind);
      if i < |init| {
        assert s[i] == init[i];
      }
    }
    if exists i :: 0 <= i < |init| && KindOf(categories, init[i].category) == Some(kind) {
      var i :| 0 <= i < |init| && KindOf(categories, init[i].category) == Some(kind);
      assert s[i] == init[i];
    }
    if KindOf(categories, last.category) == Some(kind) {
      assert s[|init|] == last;
    }
  }

  lemma SumAmountsSnoc(transactions: seq<Transaction>, tx: Transaction)
    ensures SumAmounts(transactions + [tx]) == SumAmounts(transactions) + tx.amount
  {
    assert (transactions + [tx])[..|transactions|] == transactions;
  }

  /** One more transaction adds its amount to its own kind's total and nothing to the others. */
  lemma KindTotalSnoc(transactions: seq<Transaction>, tx: Transaction, categories: seq<Category>, kind: CategoryKind)
    ensures KindTotal(transactions + [tx], categories, kind)
            == KindTotal(transactions, categories, kind) + (if KindOf(categories, tx.category) == Some(kind) then tx.amount else 0)
  {
    var isKind := OfKind(categories, kind);
    FilterSnoc(transactions, tx, isKind);
    if isKind(tx) {
      SumAmountsSnoc(Filter(transactions, isKind), tx);
    } else {
      assert Filter(transactions + [tx], isKind) == Filter(transactions, isKind);
    }
  }

  /** A kind none of the transactions has totals zero. */
  lemma KindTotalAbsent(transactions: seq<Transaction>, categories: seq<Category>, kind: CategoryKind)
    requires forall i :: 0 <= i < |transactions| ==> KindOf(categories, transactions[i].category) != Some(kind)
    ensures KindTotal(transactions, categories, kind) == 0
  {
    var isKind := OfKind(categories, kind);
    forall i | 0 <= i < |transactions| ensures !isKind(transactions[i]) {}
    FilterNone(transactions, isKind);
  }

  /**
   * `daily_totals` has a key exactly for the kinds present among the day's
   * transactions (no zero-filled keys), and maps each to the sum of that
   * kind's amounts. This joins the contract of `DailyTotals` with
   * `DailyTotalsKeys` into the one statement the corrected behaviour of the
   * aggregate is checked against.
   */
  lemma DailyTotalsAreKindSums(transactions: seq<Transaction>, categories: seq<Category>, kind: CategoryKind)
    ensures kind in DailyTotals(transactions, categories)
            <==> exists i :: 0 <= i < |transactions| && KindOf(categories, transactions[i].category) == Some(kind)
    ensures kind in DailyTotals(transactions, categories)
            ==> DailyTotals(transactions, categories)[kind] == KindTotal(transactions, categories, kind)
  {
    DailyTotalsKeys(transactions, categories, kind);
  }

  /**
   * `daily_totals` as the code computes it: the queryset is ordered by
   * `occurred_at`, so the aggregate groups by kind and `occurred_at`, one row
   * per distinct time, and the dict comprehension keeps the row it meets
   * last for each kind. Each entry holds the time of its group and the
   * group's sum. This matches the SQL only for rows in `occurred_at` order,
   * which the `transactions` queryset guarantees; the lemmas about the
   * values require it (`OccurredInOrder`).
   */
  function GroupedAsWritten(transactions: seq<Transaction>, categories: seq<Category>)
    : map<CategoryKind, (DateTime, int)>
  {
    if transactions == [] then map[]
    else
      var rows := GroupedAsWritten(transactions[..|transactions| - 1], categories);
      var tx := transactions[|transactions| - 1];
      match KindOf(categories, tx.category)
      case None => rows
      case Some(k) =>
        if k in rows && rows[k].0 == tx.occurredAt then rows[k := (tx.occurredAt, rows[k].1 + tx.amount)]
        else rows[k := (tx.occurredAt, tx.amount)]
  }

  /** The totals the view renders: the right kinds, but only each kind's last time's sum. */
  function TotalsAsWritten(transactions: seq<Transaction>, categories: seq<Category>): (totals: map<CategoryKind, int>)
    ensures totals.Keys == DailyTotals(transactions, categories).Keys
  {
    GroupedKeys(transactions, categories);
    var rows := GroupedAsWritten(transactions, categories);
    map k | k in rows :: rows[k].1
  }

  /** The as-written grouping has a row for exactly the kinds the corrected totals have. */
  lemma {:induction false} GroupedKeys(transactions: seq<Transaction>, categories: seq<Category>)
    ensures GroupedAsWritten(transactions, categories).Keys == DailyTotals(transactions, categories).Keys
  {
    if transactions != [] {
      GroupedKeys(transactions[..|transactions| - 1], categories);
    }
  }

  /** Rows in `occurred_at` order, as `order_by('occurred_at')` returns them. */
  ghost predicate OccurredInOrder(transactions: seq<Transaction>) {
    forall i, j :: 0 <= i < j < |transactions| ==> DateTimeLe(transactions[i].occurredAt, transactions[j].occurredAt)
  }

  /** The rows of one GROUP BY group of the as-written aggregate: one kind at one time. */
  function OfKindAt(categories: seq<Category>, kind: CategoryKind, at: DateTime): Transaction -> bool {
    (tx: Transaction) => KindOf(categories, tx.category) == Some(kind) && tx.occurredAt == at
  }

  /** `at` is the latest `occurred_at` among the rows of `kind`. */
  ghost predicate IsLatestOfKind(transactions: seq<Transaction>, categories: seq<Category>, kind: CategoryKind,
                                 at: DateTime)
  {
    (exists i :: 0 <= i < |transactions| && KindOf(categories, transactions[i].category) == Some(kind)
                 && transactions[i].occurredAt == at)
    && (forall i :: 0 <= i < |transactions| && KindOf(categories, transactions[i].category) == Some(kind)
                    ==> DateTimeLe(transactions[i].occurredAt, at))
  }

  /** What the as-written grouping holds for one kind, given rows in `occurred_at` order. */
  ghost predicate GroupedRowOf(transactions: seq<Transaction>, categories: seq<Category>, kind: CategoryKind)
  {
    var rows := GroupedAsWritten(transactions, categories);
    (kind !in rows ==> forall i :: 0 <= i < |transactions| ==> KindOf(categories, transactions[i].category) != Some(kind))
    && (kind in rows ==>
          IsLatestOfKind(transactions, categories, kind, rows[kind].0)
          && rows[kind].1 == SumAmounts(Filter(transactions, OfKindAt(categories, kind, rows[kind].0))))
  }

  lemma OccurredInOrderPrefix(transactions: seq<Transaction>)
    requires transactions != [] && OccurredInOrder(transactions)
    ensures OccurredInOrder(transactions[..|transactions| - 1])
  {
    var init := transactions[..|transactions| - 1];
    forall i, j | 0 <= i < j < |init| ensures DateTimeLe(init[i].occurredAt, init[j].occurredAt) {
      assert init[i] == transactions[i] && init[j] == transactions[j];
    }
  }

  /**
   * For rows in `occurred_at` order, the as-written entry of each kind is the
   * kind's latest time together with the sum of that kind's rows at exactly
   * that time; a kind without rows has no entry.
   */
  lemma {:induction false} GroupedRowsAsWritten(transactions: seq<Transaction>, categories: seq<Category>,
                                                kind: CategoryKind)
    requires OccurredInOrder(transactions)
    ensures GroupedRowOf(transactions, categories, kind)
  {
    if transactions != [] {
      var init, last := transactions[..|transactions| - 1], transactions[|transactions| - 1];
      OccurredInOrderPrefix(transactions);
      GroupedRowsAsWritten(init, categories, kind);
      var before := GroupedAsWritten(init, categories);
      if KindOf(categories, last.category) != Some(kind) {
        GroupedOtherKind(init, last, categories, kind);
      } else if kind in before && before[kind].0 == last.occurredAt {
        GroupedSameTime(init, last, categories, kind);
      } else {
        GroupedNewTime(init, last, categories, kind);
      }
      assert init + [last] == transactions;
    }
  }

  /** A row of another kind leaves this kind's entry as it was. */
  lemma GroupedOtherKind(init: seq<Transaction>, last: Transaction, categories: seq<Category>, kind: CategoryKind)
    requires GroupedRowOf(init, categories, kind)
    requires KindOf(categories, last.category) != Some(kind)
    ensures GroupedRowOf(init + [last], categories, kind)
  {
    var s := init + [last];
    assert s[..|s| - 1] == init;
    var before := GroupedAsWritten(init, categories);
    var rows := GroupedAsWritten(s, categories);
    assert kind in rows <==> kind in before;
    if kind in rows {
      assert rows[kind] == before[kind];
      var at := before[kind].0;
      var p := OfKindAt(categories, kind, at);
      FilterSnoc(init, last, p);
      assert !p(last);
      assert Filter(s, p) == Filter(init, p);
      var i :| 0 <= i < |init| && KindOf(categories, init[i].category) == Some(kind) && init[i].occurredAt == at;
      assert s[i] == init[i];
      forall j | 0 <= j < |s| && KindOf(categories, s[j].category) == Some(kind) ensures DateTimeLe(s[j].occurredAt, at) {
        assert s[j] == init[j];
      }
    } else {
      forall j | 0 <= j < |s| ensures KindOf(categories, s[j].category) != Some(kind) {
        if j < |init| {
          assert s[j] == init[j];
        }
      }
    }
  }

  /** A row of the kind at the entry's own time adds its amount to that group. */
  lemma GroupedSameTime(init: seq<Transaction>, last: Transaction, categories: seq<Category>, kind: CategoryKind)
    requires GroupedRowOf(init, categories, kind)
    requires KindOf(categories, last.category) == Some(kind)
    requires kind in GroupedAsWritten(init, categories) && GroupedAsWritten(init, categories)[kind].0 == last.occurredAt
    ensures GroupedRowOf(init + [last], categories, kind)
  {
    var s := init + [last];
    assert s[..|s| - 1] == init;
    var before := GroupedAsWritten(init, categories);
    var at := before[kind].0;
    var rows := GroupedAsWritten(s, categories);
    assert rows[kind] == (at, before[kind].1 + last.amount);
    var p := OfKindAt(categories, kind, at);
    FilterSnoc(init, last, p);
    SumAmountsSnoc(Filter(init, p), last);
    var i :| 0 <= i < |init| && KindOf(categories, init[i].category) == Some(kind) && init[i].occurredAt == at;
    assert s[i] == init[i];
    forall j | 0 <= j < |s| && KindOf(categories, s[j].category) == Some(kind) ensures DateTimeLe(s[j].occurredAt, at) {
      if j < |init| {
        assert s[j] == init[j];
      }
    }
  }

  /**
   * A row of the kind at a new time starts a new group that replaces the
   * entry: in `occurred_at` order, no earlier row of the kind has that time.
   */
  lemma GroupedNewTime(init: seq<Transaction>, last: Transaction, categories: seq<Category>, kind: CategoryKind)
    requires OccurredInOrder(init + [last])
    requires GroupedRowOf(init, categories, kind)
    requires KindOf(categories, last.category) == Some(kind)
    requires !(kind in GroupedAsWritten(init, categories) && GroupedAsWritten(init, categories)[kind].0 == last.occurredAt)
    ensures GroupedRowOf(init + [last], categories, kind)
  {
    var s := init + [last];
    assert s[..|s| - 1] == init;
    var before := GroupedAsWritten(init, categories);
    var rows := GroupedAsWritten(s, categories);
    assert rows[kind] == (last.occurredAt, last.amount);
    var p := OfKindAt(categories, kind, last.occurredAt);
    forall j | 0 <= j < |init| ensures !p(init[j]) {
      assert s[j] == init[j];
      if p(init[j]) {
        var at := before[kind].0;
        var i :| 0 <= i < |init| && KindOf(categories, init[i].category) == Some(kind) && init[i].occurredAt == at;
        assert s[i] == init[i];
        assert DateTimeLe(at, last.occurredAt);
        DateTimeLeAntisymmetric(at, last.occurredAt);
      }
    }
    FilterNone(init, p);
    FilterSnoc(init, last, p);
    assert Filter(s, p) == [last];
    assert [last][..0] == [];
    assert s[|init|] == last;
    forall j | 0 <= j < |s| && KindOf(categories, s[j].category) == Some(kind)
      ensures DateTimeLe(s[j].occurredAt, last.occurredAt)
    {
    }
  }

  /**
   * The totals the code renders, for rows in `occurred_at` order: each kind
   * present maps to the sum of that kind's amounts at the kind's latest
   * time only.
   */
  lemma TotalsAsWrittenValues(transactions: seq<Transaction>, categories: seq<Category>, kind: CategoryKind)
    requires OccurredInOrder(transactions)
    ensures kind in TotalsAsWritten(transactions, categories) ==>
              exists at :: IsLatestOfKind(transactions, categories, kind, at)
                           && TotalsAsWritten(transactions, categories)[kind]
                              == SumAmounts(Filter(transactions, OfKindAt(categories, kind, at)))
  {
    GroupedRowsAsWritten(transactions, categories, kind);
  }

  /** The day's transactions arrive in `occurred_at` order, so the lemma above applies to them. */
  lemma DayTransactionsInOrder(transactions: seq<Transaction>, owner: UserId, selected: Date)
    requires ValidDate(selected)
    ensures OccurredInOrder(DayTransactions(transactions, owner, selected))
  {
    DayTransactionsExactly(transactions, owner, selected);
  }

  /**
   * Two expenses of the same day at different times: the code reports only
   * the later one, the sum is what the totals card means.
   */
  lemma TotalsAsWrittenDropsEarlierRows()
    ensures TotalsAsWritten([Morning, Afternoon], [Food]) == map[Expense := 1250]
            && DailyTotals([Morning, Afternoon], [Food]) == map[Expense := 1750]
  {
    ExampleAsWritten();
    ExampleCorrected();
  }

  const Food := Category("food", 1, "Food", Expense)
  const Morning := Transaction(1, 1, "cash", "food", None, 500, "", DateTime(Date(2024, 3, 5), Time(9, 0, 0, 0)))
  const Afternoon := Transaction(2, 1, "cash", "food", None, 1250, "", DateTime(Date(2024, 3, 5), Time(14, 30, 0, 0)))

  lemma ExampleAsWritten()
    ensures TotalsAsWritten([Morning, Afternoon], [Food]) == map[Expense := 1250]
  {
    assert KindOf([Food], "food") == Some(Expense);
    TwoTimesAsWritten(Morning, Afternoon, [Food], Expense);
  }

  lemma ExampleCorrected()
    ensures DailyTotals([Morning, Afternoon], [Food]) == map[Expense := 1750]
  {
    assert KindOf([Food], "food") == Some(Expense);
    TwoRowsCorrected(Morning, Afternoon, [Food], Expense);
  }

  /** Two rows of one kind at different times: as written, only the later amount is kept. */
  lemma TwoTimesAsWritten(a: Transaction, b: Transaction, categories: seq<Category>, kind: CategoryKind)
    requires KindOf(categories, a.category) == Some(kind) && KindOf(categories, b.category) == Some(kind)
    requires a.occurredAt != b.occurredAt
    ensures TotalsAsWritten([a, b], categories) == map[kind := b.amount]
  {
    assert [a, b][..1] == [a] && [a][..0] == [];
    assert GroupedAsWritten([a], categories) == map[kind := (a.occurredAt, a.amount)];
    assert GroupedAsWritten([a, b], categories) == map[kind := (b.occurredAt, b.amount)];
  }

  /** Two rows of one kind: the corrected totals add both amounts. */
  lemma TwoRowsCorrected(a: Transaction, b: Transaction, categories: seq<Category>, kind: CategoryKind)
    requires KindOf(categories, a.category) == Some(kind) && KindOf(categories, b.category) == Some(kind)
    ensures DailyTotals([a, b], categories) == map[kind := a.amount + b.amount]
  {
    var s := [a, b];
    var totals := DailyTotals(s, categories);
    TwoRowsKindTotal(a, b, categories, kind);
    DailyTotalsKeys(s, categories, kind);
    assert s[0] == a;
    forall k | k != kind ensures k !in totals {
      DailyTotalsKeys(s, categories, k);
    }
    assert totals.Keys == {kind};
  }

  lemma TwoRowsKindTotal(a: Transaction, b: Transaction, categories: seq<Category>, kind: CategoryKind)
    requires KindOf(categories, a.category) == Some(kind) && KindOf(categories, b.category) == Some(kind)
    ensures KindTotal([a, b], categories, kind) == a.amount + b.amount
  {
    assert [a] + [b] == [a, b] && [] + [a] == [a];
    KindTotalSnoc([], a, categories, kind);
    KindTotalSnoc([a], b, categories, kind);
    assert Filter([], OfKind(categories, kind)) == [];
  }

  // ---------------------------------------------------------------------
  // A submission as the redirected page shows it

  /**
   * After a successful `loose_transaction` post, the page the redirect leads
   * to lists the new transaction among the day's loose transactions: a
   * posted "HH:MM" time never falls in the minute the day window leaves out.
   */
  lemma LoosePostListedOnDay(post: map<string, string>, selected: Date, successBase: string, owner: UserId,
                             toCents: string -> Option<int>, transactionId: nat, existing: seq<Transaction>)
    requires ValidDate(selected)
    ensures var effect := LooseTransactionEffect(post, selected, successBase, owner, toCents, transactionId);
            effect.outcome.Redirect? ==>
              |effect.newTransactions| == 1
              && effect.newTransactions[0]
                 in LooseTransactions(DayTransactions(existing + effect.newTransactions, owner, selected))
  {
    var effect := LooseTransactionEffect(post, selected, successBase, owner, toCents, transactionId);
    LooseTransactionOutcome(post, selected, successBase, owner, toCents, transactionId);
    if effect.outcome.Redirect? {
      var tx := effect.newTransactions[0];
      var all := existing + effect.newTransactions;
      WindowIsDayUntilLastMinute(selected, tx.occurredAt);
      assert IsDayTransaction(tx, owner, selected);
      assert tx in all;
      DayTransactionsExactly(all, owner, selected);
      LooseExactly(DayTransactions(all, owner, selected));
    }
  }

  /** Every task of the day is listed, and listed among the timed tasks. */
  lemma DayTaskListedTimed(tasks: seq<Task>, transactions: seq<Transaction>, owner: UserId, selected: Date,
                           nulls: NullPlacement, task: Task)
    requires task in tasks && IsDayTask(task, owner, selected)
    ensures task in DayTasks(tasks, owner, selected, nulls)
    ensures EntryOf(task, transactions) in Filter(Entries(DayTasks(tasks, owner, selected, nulls), transactions), IsTimed)
  {
    DayTasksExactly(tasks, owner, selected, nulls);
    var dayTasks := DayTasks(tasks, owner, selected, nulls);
    EntryListed(dayTasks, transactions, task);
    assert IsTimed(EntryOf(task, transactions));
    FilterMembers(Entries(dayTasks, transactions), IsTimed);
  }

  /**
   * After a successful `schedule_entry` post, the redirected page lists the
   * new task among the day's tasks and among the timed ones, and when an
   * amount was posted, the new transaction among that task's transactions.
   */
  lemma SchedulePostListedOnDay(post: map<string, string>, selected: Date, successBase: string, owner: UserId,
                                toCents: string -> Option<int>, taskId: nat, transactionId: nat,
                                existingTasks: seq<Task>, existingTransactions: seq<Transaction>,
                                nulls: NullPlacement)
    requires ValidDate(selected)
    ensures var effect := ScheduleEntryEffect(post, selected, successBase, owner, toCents, taskId, transactionId);
            effect.outcome.Redirect? ==>
              |effect.newTasks| == 1
              && PostedRowsShown(effect, existingTasks, existingTransactions, owner, selected, nulls, taskId)
  {
    var effect := ScheduleEntryEffect(post, selected, successBase, owner, toCents, taskId, transactionId);
    if effect.outcome.Redirect? {
      assert |effect.newTasks| == 1 && IsDayTask(effect.newTasks[0], owner, selected)
             && forall tx :: tx in effect.newTransactions ==> tx.task == Some(taskId)
      by {
        ScheduleEntrySuccess(post, selected, successBase, owner, toCents, taskId, transactionId);
      }
      PostedRowsListed(effect, existingTasks, existingTransactions, owner, selected, nulls, taskId);
    }
  }

  /**
   * What the page shows of one submission: its task among the day's tasks
   * and among the timed ones, and its transactions among the task's.
   */
  ghost predicate PostedRowsShown(effect: Effect, existingTasks: seq<Task>, existingTransactions: seq<Transaction>,
                                  owner: UserId, selected: Date, nulls: NullPlacement, taskId: nat)
    requires |effect.newTasks| == 1
  {
    var task := effect.newTasks[0];
    var tasks := existingTasks + effect.newTasks;
    var transactions := existingTransactions + effect.newTransactions;
    task in DayTasks(tasks, owner, selected, nulls)
    && EntryOf(task, transactions) in Filter(Entries(DayTasks(tasks, owner, selected, nulls), transactions), IsTimed)
    && (forall tx :: tx in effect.newTransactions ==> tx in LinkedTransactions(transactions, taskId))
  }

  /** A new task of the user on the day, and transactions linked to it, all show up on the day. */
  lemma PostedRowsListed(effect: Effect, existingTasks: seq<Task>, existingTransactions: seq<Transaction>,
                         owner: UserId, selected: Date, nulls: NullPlacement, taskId: nat)
    requires |effect.newTasks| == 1 && IsDayTask(effect.newTasks[0], owner, selected)
    requires forall tx :: tx in effect.newTransactions ==> tx.task == Some(taskId)
    ensures PostedRowsShown(effect, existingTasks, existingTransactions, owner, selected, nulls, taskId)
  {
    var task := effect.newTasks[0];
    var tasks := existingTasks + effect.newTasks;
    var transactions := existingTransactions + effect.newTransactions;
    assert task in tasks;
    DayTaskListedTimed(tasks, transactions, owner, selected, nulls, task);
    LinkedTransactionsExactly(transactions, taskId);
  }

  // ---------------------------------------------------------------------
  // The context

  datatype CalendarSection = NoCalendar | WithCalendar(data: CalendarData)

  datatype PlannerContext = PlannerContext(
    selectedDate: Date,
    tasks: seq<Task>,
    transactions: seq<Transaction>,
    timedTasks: seq<TaskEntry>,
    untimedTasks: seq<TaskEntry>,
    looseTransactions: seq<Transaction>,
    dailyTotals: map<CategoryKind, int>,
    accounts: seq<Account>,
    categories: seq<Category>,
    formErrors: seq<FormError>,
    calendar: CalendarSection)

  predicate OwnsAccount(a: Account, owner: UserId) {
    a.owner == owner
  }

  predicate IsExpenseCategory(c: Category, owner: UserId) {
    c.owner == owner && c.kind == Expense
  }

  /**
   * `_build_planner_context(request, selected_date, form_errors,
   * include_calendar)` over the tables; `today` comes from the clock and
   * `nulls` from the database.
   */
  method BuildPlannerContext(selected: Date, today: Date, owner: UserId, formErrors: seq<FormError>,
                             includeCalendar: bool, nulls: NullPlacement,
                             tasks: seq<Task>, transactions: seq<Transaction>,
                             accounts: seq<Account>, categories: seq<Category>)
    returns (ctx: PlannerContext)
    requires ValidDate(selected)
    ensures ctx.selectedDate == selected && ctx.formErrors == formErrors
    ensures ctx.tasks == DayTasks(tasks, owner, selected, nulls)
    ensures ctx.transactions == DayTransactions(transactions, owner, selected)
    ensures ctx.timedTasks == Entries(ctx.tasks, transactions) && ctx.untimedTasks == []
    ensures ctx.looseTransactions == LooseTransactions(ctx.transactions)
    ensures ctx.dailyTotals == DailyTotals(ctx.transactions, categories)
    ensures ctx.accounts == Filter(accounts, a => OwnsAccount(a, owner))
    ensures ctx.categories == Filter(categories, c => IsExpenseCategory(c, owner))
    ensures !includeCalendar ==> ctx.calendar == NoCalendar
    ensures includeCalendar ==>
              ctx.calendar.WithCalendar?
              && (ctx.calendar.data.CalendarOverflow? <==> !Navigable(selected.year, selected.month))
              && ctx.calendar.data == CalendarDataOf(selected, today, owner, tasks)
  {
    var dayTasks := DayTasks(tasks, owner, selected, nulls);
    var dayTransactions := DayTransactions(transactions, owner, selected);
    var timed, untimed := PartitionTasks(dayTasks, transactions);
    UntimedAlwaysEmpty(tasks, transactions, owner, selected, nulls);
    var loose := LooseTransactions(dayTransactions);
    var totals := DailyTotals(dayTransactions, categories);
    var ownAccounts := Filter(accounts, a => OwnsAccount(a, owner));
    var expenseCategories := Filter(categories, c => IsExpenseCategory(c, owner));
    var calendar := NoCalendar;
    if includeCalendar {
      var data := BuildCalendarData(selected, today, owner, tasks);
      calendar := WithCalendar(data);
    }
    ctx := PlannerContext(selected, dayTasks, dayTransactions, timed, untimed, loose, totals,
                          ownAccounts, expenseCategories, formErrors, calendar);
  }
}
