/**
 * `_process_planner_forms` (core/views.py): the two forms of the planner
 * page. A `schedule_entry` post creates a Task and, when an amount is
 * given, a Transaction linked to it; a `loose_transaction` post creates a
 * Transaction without a task. Validation problems are collected in order
 * and, when there are any, nothing is written and the page is shown again.
 */
module PlannerForms {
  import opened Wrappers
  import opened Dates
  import opened Strptime
  import opened Records
  import opened PlannerInput

  /** The messages the views append, in the order they can appear. */
  datatype FormError =
    | TitleRequired               // schedule_entry: blank title
    | StartTimeRequired           // schedule_entry: no start time
    | AccountAndCategoryRequired  // schedule_entry: an amount without account and category
    | OccurredTimeRequired        // loose_transaction: no time
    | TransactionFieldsRequired   // loose_transaction: account, category or amount missing

  /**
   * Exceptions that escape the view. `ValidationError` is what saving a
   * Transaction raises when the decimal `amount` column refuses the posted
   * text.
   */
  datatype Exception = ValueError | OverflowError | ValidationError

  /**
   * What the view does next: render the page again with these errors (an
   * empty list when there was nothing to process), redirect, or fail.
   */
  datatype Outcome =
    | Rerender(errors: seq<FormError>)
    | Redirect(location: string)
    | Raised(exception: Exception)

  const ScheduleEntry := "schedule_entry"
  const LooseTransaction := "loose_transaction"
  /** The fallback times the view passes for the three posted times. */
  const StartFallback := Time(9, 0, 0, 0)
  const EndFallback := Time(10, 0, 0, 0)
  const OccurredFallback := Time(12, 0, 0, 0)

  /** The tasks and transactions tables; `create` appends a row with the next id. */
  class Store {
    var tasks: seq<Task>
    var transactions: seq<Transaction>
    var nextTaskId: nat
    var nextTransactionId: nat

    ghost predicate Valid()
      reads this
    {
      (forall i :: 0 <= i < |tasks| ==> tasks[i].id < nextTaskId)
      && (forall i, j :: 0 <= i < j < |tasks| ==> tasks[i].id != tasks[j].id)
      && (forall i :: 0 <= i < |transactions| ==> transactions[i].id < nextTransactionId)
      && (forall i, j :: 0 <= i < j < |transactions| ==> transactions[i].id != transactions[j].id)
      // the `task` foreign key points at a task the table has handed out
      && (forall i :: 0 <= i < |transactions| && transactions[i].task.Some? ==> transactions[i].task.value < nextTaskId)
    }

    constructor ()
      ensures Valid() && tasks == [] && transactions == []
    {
      tasks, transactions := [], [];
      nextTaskId, nextTransactionId := 1, 1;
    }

    /** `Task.objects.create(...)` */
    method CreateTask(owner: UserId, title: string, description: string,
                      startAt: Option<Timestamp>, dueAt: Option<Timestamp>, isAllDay: bool)
      returns (task: Task)
      requires Valid()
      modifies this
      ensures Valid()
      ensures task == Task(old(nextTaskId), owner, title, description, startAt, dueAt, isAllDay)
      ensures tasks == old(tasks) + [task] && nextTaskId == old(nextTaskId) + 1
      ensures transactions == old(transactions) && nextTransactionId == old(nextTransactionId)
      ensures forall t :: t in old(tasks) ==> t.id != task.id
      ensures forall tx :: tx in old(transactions) ==> tx.task != Some(task.id)
    {
      task := Task(nextTaskId, owner, title, description, startAt, dueAt, isAllDay);
      tasks := tasks + [task];
      nextTaskId := nextTaskId + 1;
    }

    /** `Transaction.objects.create(...)` */
    method CreateTransaction(owner: UserId, account: string, category: string, task: Option<nat>,
                             amount: int, memo: string, occurredAt: Timestamp)
      returns (tx: Transaction)
      requires Valid()
      requires task.Some? ==> task.value < nextTaskId
      modifies this
      ensures Valid()
      ensures tx == Transaction(old(nextTransactionId), owner, account, category, task, amount, memo, occurredAt)
      ensures transactions == old(transactions) + [tx] && nextTransactionId == old(nextTransactionId) + 1
      ensures tasks == old(tasks) && nextTaskId == old(nextTaskId)
      ensures forall u :: u in old(transactions) ==> u.id != tx.id
    {
      tx := Transaction(nextTransactionId, owner, account, category, task, amount, memo, occurredAt);
      transactions := transactions + [tx];
      nextTransactionId := nextTransactionId + 1;
    }
  }

  /** The errors the title and start-time checks of `schedule_entry` record. */
  function ScheduleFieldErrors(post: map<string, string>): (errors: seq<FormError>)
    ensures |errors| <= 2
    ensures TitleRequired in errors <==> Strip(Field(post, "title")) == ""
    ensures StartTimeRequired in errors <==> Field(post, "start_time") == ""
    ensures forall e :: e in errors ==> e == TitleRequired || e == StartTimeRequired
    ensures |errors| == 2 ==> errors == [TitleRequired, StartTimeRequired]
  {
    (if Strip(Field(post, "title")) == "" then [TitleRequired] else [])
    + (if Field(post, "start_time") == "" then [StartTimeRequired] else [])
  }

  /** The errors the two checks of `loose_transaction` record. */
  function LooseFieldErrors(post: map<string, string>): (errors: seq<FormError>)
    ensures |errors| <= 2
    ensures OccurredTimeRequired in errors <==> Field(post, "occurred_time") == ""
    ensures TransactionFieldsRequired in errors <==>
              Field(post, "account") == "" || Field(post, "category") == "" || Field(post, "amount") == ""
    ensures forall e :: e in errors ==> e == OccurredTimeRequired || e == TransactionFieldsRequired
  {
    (if Field(post, "occurred_time") == "" then [OccurredTimeRequired] else [])
    + (if Field(post, "account") == "" || Field(post, "category") == "" || Field(post, "amount") == ""
       then [TransactionFieldsRequired] else [])
  }

  /** `f"{success_base_path}?date={selected_date.isoformat()}"` */
  function SuccessLocation(base: string, selected: Date): string
    requires ValidDate(selected)
  {
    base + "?date=" + IsoFormat(selected)
  }

  /** What one submission does: the outcome and the rows it creates. */
  datatype Effect = Effect(outcome: Outcome, newTasks: seq<Task>, newTransactions: seq<Transaction>)

  function NoWrite(outcome: Outcome): Effect {
    Effect(outcome, [], [])
  }

  /**
   * The `schedule_entry` branch, given the ids the store hands out next.
   * `toCents` stands for Django's conversion of the posted amount text to
   * the decimal column, counted in cents; `None` when the column refuses
   * the text. The task is saved before the transaction, so a refused amount
   * leaves the task written.
   */
  function ScheduleEntryEffect(post: map<string, string>, selected: Date, successBase: string, owner: UserId,
                               toCents: string -> Option<int>, taskId: nat, transactionId: nat): (r: Effect)
    requires ValidDate(selected)
    ensures |r.newTransactions| <= |r.newTasks| <= 1
    ensures forall t :: t in r.newTasks ==> t.id == taskId && t.owner == owner && StampOn(t.startAt, selected)
    ensures forall tx :: tx in r.newTransactions ==> tx.id == transactionId && tx.owner == owner && tx.task == Some(taskId)
    ensures r.newTasks != [] ==> r.outcome.Redirect? || r.outcome == Raised(ValidationError)
  {
    var fieldErrors := ScheduleFieldErrors(post);
    if fieldErrors != [] then NoWrite(Rerender(fieldErrors))
    else match CombineWithDate(selected, Field(post, "start_time"), StartFallback)
      case None => NoWrite(Raised(ValueError))
      case Some(start) =>
        var endText := Field(post, "end_time");
        var due := if endText != "" then CombineWithDate(selected, endText, EndFallback) else AddOneHour(start);
        if due.None? then NoWrite(Raised(if endText != "" then ValueError else OverflowError))
        else
          var amount := Field(post, "amount");
          var account := Field(post, "account");
          var category := Field(post, "category");
          if amount != "" && (account == "" || category == "") then NoWrite(Rerender([AccountAndCategoryRequired]))
          else
            var task := Task(taskId, owner, Strip(Field(post, "title")), Strip(Field(post, "description")),
                             Some(start), Some(due.value), false);
            if amount == "" then Effect(Redirect(SuccessLocation(successBase, selected)), [task], [])
            else match toCents(amount)
              case None => Effect(Raised(ValidationError), [task], [])
              case Some(cents) =>
                var tx := Transaction(transactionId, owner, account, category, Some(taskId),
                                      cents, Strip(Field(post, "memo")), start);
                Effect(Redirect(SuccessLocation(successBase, selected)), [task], [tx])
  }

  /** The `loose_transaction` branch. */
  function LooseTransactionEffect(post: map<string, string>, selected: Date, successBase: string, owner: UserId,
                                  toCents: string -> Option<int>, transactionId: nat): (r: Effect)
    requires ValidDate(selected)
    ensures r.newTasks == [] && |r.newTransactions| <= 1
    ensures forall tx :: tx in r.newTransactions ==>
              tx.id == transactionId && tx.owner == owner && tx.task.None? && tx.occurredAt.date == selected
    ensures r.newTransactions != [] <==> r.outcome.Redirect?
  {
    var fieldErrors := LooseFieldErrors(post);
    if fieldErrors != [] then NoWrite(Rerender(fieldErrors))
    else match CombineWithDate(selected, Field(post, "occurred_time"), OccurredFallback)
      case None => NoWrite(Raised(ValueError))
      case Some(at) =>
        match toCents(Field(post, "amount"))
        case None => NoWrite(Raised(ValidationError))
        case Some(cents) =>
          var tx := Transaction(transactionId, owner, Field(post, "account"), Field(post, "category"), None,
                                cents, Strip(Field(post, "memo")), at);
          Effect(Redirect(SuccessLocation(successBase, selected)), [], [tx])
  }

  /**
   * The whole decision procedure of `_process_planner_forms`: at most one
   * task and one transaction are written; a page shown again writes
   * nothing; every redirect leads back to the selected date.
   */
  function FormEffect(httpMethod: string, post: map<string, string>, selected: Date, successBase: string,
                      owner: UserId, toCents: string -> Option<int>, taskId: nat, transactionId: nat): (r: Effect)
    requires ValidDate(selected)
    ensures |r.newTasks| <= 1 && |r.newTransactions| <= 1
    ensures r.outcome.Rerender? ==> r.newTasks == [] && r.newTransactions == []
    ensures r.outcome.Redirect? ==> r.outcome.location == successBase + "?date=" + IsoFormat(selected)
    ensures httpMethod != "POST" ==> r == Effect(Rerender([]), [], [])
  {
    if httpMethod != "POST" then NoWrite(Rerender([]))
    else if Field(post, "form_type") == ScheduleEntry then
      ScheduleEntryEffect(post, selected, successBase, owner, toCents, taskId, transactionId)
    else if Field(post, "form_type") == LooseTransaction then
      LooseTransactionEffect(post, selected, successBase, owner, toCents, transactionId)
    else NoWrite(Rerender([]))
  }

  /** `_process_planner_forms` over the store. */
  method ProcessPlannerForms(store: Store, httpMethod: string, post: map<string, string>,
                             selected: Date, successBase: string, owner: UserId,
                             toCents: string -> Option<int>)
    returns (out: Outcome)
    requires ValidDate(selected) && store.Valid()
    modifies store
    ensures store.Valid()
    ensures var effect := FormEffect(httpMethod, post, selected, successBase, owner, toCents,
                                     old(store.nextTaskId), old(store.nextTransactionId));
            out == effect.outcome
            && store.tasks == old(store.tasks) + effect.newTasks
            && store.transactions == old(store.transactions) + effect.newTransactions
    ensures NewTaskOwnsItsLinks(store, old(store.tasks), old(store.transactions))
  {
    if httpMethod != "POST" {
      return Rerender([]);
    }
    var formType := Field(post, "form_type");
    if formType == ScheduleEntry {
      out := SubmitScheduleEntry(store, post, selected, successBase, owner, toCents);
    } else if formType == LooseTransaction {
      out := SubmitLooseTransaction(store, post, selected, successBase, owner, toCents);
    } else {
      out := Rerender([]);
    }
  }

  /**
   * When a submission adds a task, its id is fresh, no task that was there
   * before carries it, and no transaction that was there before points at
   * it: the transactions linked by `task=task` are this submission's only.
   */
  ghost predicate NewTaskOwnsItsLinks(store: Store, tasksBefore: seq<Task>, transactionsBefore: seq<Transaction>)
    reads store
  {
    |store.tasks| > |tasksBefore| ==>
      var task := store.tasks[|store.tasks| - 1];
      (forall t :: t in tasksBefore ==> t.id != task.id)
      && (forall tx :: tx in transactionsBefore ==> tx.task != Some(task.id))
  }

  /** The `schedule_entry` branch of `_process_planner_forms`. */
  method SubmitScheduleEntry(store: Store, post: map<string, string>, selected: Date, successBase: string,
                             owner: UserId, toCents: string -> Option<int>)
    returns (out: Outcome)
    requires ValidDate(selected) && store.Valid()
    modifies store
    ensures store.Valid()
    ensures var effect := ScheduleEntryEffect(post, selected, successBase, owner, toCents,
                                              old(store.nextTaskId), old(store.nextTransactionId));
            out == effect.outcome
            && store.tasks == old(store.tasks) + effect.newTasks
            && store.transactions == old(store.transactions) + effect.newTransactions
    ensures NewTaskOwnsItsLinks(store, old(store.tasks), old(store.transactions))
  {
    var errors: seq<FormError> := [];
    var title := Strip(Field(post, "title"));
    var description := Strip(Field(post, "description"));
    var startTime := Field(post, "start_time");
    var endTime := Field(post, "end_time");
    if title == "" {
      errors := errors + [TitleRequired];
    }
    if startTime == "" {
      errors := errors + [StartTimeRequired];
    }
    assert errors == ScheduleFieldErrors(post);
    if errors != [] {
      return Rerender(errors);
    }
    var startAt := CombineWithDate(selected, startTime, StartFallback);
    if startAt.None? {
      return Raised(ValueError);
    }
    var dueAt: Option<DateTime>;
    if endTime != "" {
      dueAt := CombineWithDate(selected, endTime, EndFallback);
      if dueAt.None? {
        return Raised(ValueError);
      }
    } else {
      dueAt := AddOneHour(startAt.value);
      if dueAt.None? {
        return Raised(OverflowError);
      }
    }
    var amount := Field(post, "amount");
    var account := Field(post, "account");
    var category := Field(post, "category");
    var memo := Strip(Field(post, "memo"));
    if amount != "" && (account == "" || category == "") {
      return Rerender([AccountAndCategoryRequired]);
    }
    ghost var tasksBefore, transactionsBefore := store.tasks, store.transactions;
    var task := store.CreateTask(owner, title, description, Some(startAt.value), Some(dueAt.value), false);
    assert store.tasks == tasksBefore + [task];
    if amount != "" {
      var cents := toCents(amount);
      if cents.None? {
        return Raised(ValidationError);
      }
      var tx := store.CreateTransaction(owner, account, category, Some(task.id), cents.value, memo, startAt.value);
      assert store.transactions == transactionsBefore + [tx];
    }
    out := Redirect(SuccessLocation(successBase, selected));
  }

  /** The `loose_transaction` branch of `_process_planner_forms`. */
  method SubmitLooseTransaction(store: Store, post: map<string, string>, selected: Date, successBase: string,
                                owner: UserId, toCents: string -> Option<int>)
    returns (out: Outcome)
    requires ValidDate(selected) && store.Valid()
    modifies store
    ensures store.Valid()
    ensures var effect := LooseTransactionEffect(post, selected, successBase, owner, toCents,
                                                 old(store.nextTransactionId));
            out == effect.outcome
            && store.tasks == old(store.tasks) + effect.newTasks
            && store.transactions == old(store.transactions) + effect.newTransactions
  {
    var errors: seq<FormError> := [];
    var account := Field(post, "account");
    var category := Field(post, "category");
    var amount := Field(post, "amount");
    var memo := Strip(Field(post, "memo"));
    var occurredTime := Field(post, "occurred_time");
    if occurredTime == "" {
      errors := errors + [OccurredTimeRequired];
    }
    if account == "" || category == "" || amount == "" {
      errors := errors + [TransactionFieldsRequired];
    }
    assert errors == LooseFieldErrors(post);
    if errors != [] {
      return Rerender(errors);
    }
    var occurredAt := CombineWithDate(selected, occurredTime, OccurredFallback);
    if occurredAt.None? {
      return Raised(ValueError);
    }
    var cents := toCents(amount);
    if cents.None? {
      return Raised(ValidationError);
    }
    ghost var before := store.transactions;
    var tx := store.CreateTransaction(owner, account, category, None, cents.value, memo, occurredAt.value);
    assert store.transactions == before + [tx];
    out := Redirect(SuccessLocation(successBase, selected));
  }

  /** What `FormEffect` yields for a request that carries nothing to process. */
  lemma NoAction(httpMethod: string, post: map<string, string>, selected: Date, successBase: string,
                 owner: UserId, toCents: string -> Option<int>, taskId: nat, transactionId: nat)
    requires ValidDate(selected)
    requires httpMethod != "POST"
             || (Field(post, "form_type") != ScheduleEntry && Field(post, "form_type") != LooseTransaction)
    ensures FormEffect(httpMethod, post, selected, successBase, owner, toCents, taskId, transactionId)
            == Effect(Rerender([]), [], [])
  {
  }

  /**
   * Nothing is written unless the view redirects, with one exception: a
   * `schedule_entry` whose amount the decimal column refuses has already
   * saved its task. Every redirect goes back to the planner page of the
   * selected date.
   */
  lemma WritesOnlyOnRedirect(httpMethod: string, post: map<string, string>, selected: Date, successBase: string,
                             owner: UserId, toCents: string -> Option<int>, taskId: nat, transactionId: nat)
    requires ValidDate(selected)
    ensures var effect := FormEffect(httpMethod, post, selected, successBase, owner, toCents, taskId, transactionId);
            (!effect.outcome.Redirect? && effect.outcome != Raised(ValidationError) ==>
               effect.newTasks == [] && effect.newTransactions == [])
            && (effect.outcome == Raised(ValidationError) ==>
                  effect.newTransactions == []
                  && (effect.newTasks != [] <==> Field(post, "form_type") == ScheduleEntry))
            && (effect.outcome.Redirect? ==>
                  effect.outcome.location == successBase + "?date=" + IsoFormat(selected)
                  && |effect.newTasks| + |effect.newTransactions| >= 1)
            && (effect.outcome.Rerender? ==> |effect.outcome.errors| <= 2)
  {
  }

  /** A blank title or a missing start time is reported, in that order, and nothing else happens. */
  lemma ScheduleEntryFieldErrors(post: map<string, string>, selected: Date, successBase: string,
                                 owner: UserId, toCents: string -> Option<int>, taskId: nat, transactionId: nat)
    requires ValidDate(selected)
    requires Strip(Field(post, "title")) == "" || Field(post, "start_time") == ""
    ensures ScheduleEntryEffect(post, selected, successBase, owner, toCents, taskId, transactionId)
            == Effect(Rerender((if Strip(Field(post, "title")) == "" then [TitleRequired] else [])
                               + (if Field(post, "start_time") == "" then [StartTimeRequired] else [])), [], [])
  {
  }

  /**
   * A time that `strptime` rejects escapes as ValueError; a blank end time
   * one hour before the end of 9999-12-31 escapes as OverflowError.
   */
  lemma ScheduleEntryRaises(post: map<string, string>, selected: Date, successBase: string,
                            owner: UserId, toCents: string -> Option<int>, taskId: nat, transactionId: nat)
    requires ValidDate(selected)
    requires Strip(Field(post, "title")) != "" && Field(post, "start_time") != ""
    ensures var effect := ScheduleEntryEffect(post, selected, successBase, owner, toCents, taskId, transactionId);
            var start := ParseHourMinute(Field(post, "start_time"));
            var endText := Field(post, "end_time");
            (start.None? ==> effect == NoWrite(Raised(ValueError)))
            && (start.Some? && endText != "" && ParseHourMinute(endText).None? ==> effect == NoWrite(Raised(ValueError)))
            && (start.Some? && endText == "" && selected == MaxDate && start.value.hour == 23 ==>
                  effect == NoWrite(Raised(OverflowError)))
  {
  }

  /**
   * Once title and times are good, an amount without both an account and a
   * category is the only error, and nothing is written.
   */
  lemma ScheduleEntryAmountNeedsAccount(post: map<string, string>, selected: Date, successBase: string,
                                        owner: UserId, toCents: string -> Option<int>, taskId: nat, transactionId: nat)
    requires ValidDate(selected)
    requires Strip(Field(post, "title")) != ""
    requires ParseHourMinute(Field(post, "start_time")).Some?
    requires Field(post, "end_time") != "" ==> ParseHourMinute(Field(post, "end_time")).Some?
    requires Field(post, "end_time") == "" ==> selected != MaxDate || ParseHourMinute(Field(post, "start_time")).value.hour < 23
    requires Field(post, "amount") != "" && (Field(post, "account") == "" || Field(post, "category") == "")
    ensures ScheduleEntryEffect(post, selected, successBase, owner, toCents, taskId, transactionId)
            == NoWrite(Rerender([AccountAndCategoryRequired]))
  {
  }

  /**
   * A successful `schedule_entry` creates one task on the selected day with
   * the posted times (or one hour after the start), and a transaction linked
   * to it at the start time exactly when an amount was posted.
   */
  lemma ScheduleEntrySuccess(post: map<string, string>, selected: Date, successBase: string,
                             owner: UserId, toCents: string -> Option<int>, taskId: nat, transactionId: nat)
    requires ValidDate(selected)
    ensures var effect := ScheduleEntryEffect(post, selected, successBase, owner, toCents, taskId, transactionId);
            effect.outcome.Redirect? ==>
              var start := ParseHourMinute(Field(post, "start_time"));
              var endText := Field(post, "end_time");
              var amount := Field(post, "amount");
              start.Some?
              && |effect.newTasks| == 1
              && var task := effect.newTasks[0];
              task.id == taskId && task.owner == owner && !task.isAllDay
              && task.title == Strip(Field(post, "title")) && task.title != ""
              && task.description == Strip(Field(post, "description"))
              && task.startAt == Some(DateTime(selected, start.value))
              && task.dueAt.Some?
              && (endText != "" ==> task.dueAt.value == DateTime(selected, ParseHourMinute(endText).value))
              && (endText == "" ==> Micros(task.dueAt.value) == Micros(task.startAt.value) + MicrosPerHour)
              && |effect.newTransactions| == (if amount == "" then 0 else 1)
              && (amount != "" ==>
                    var tx := effect.newTransactions[0];
                    toCents(amount).Some?
                    && tx.id == transactionId && tx.owner == owner && tx.task == Some(taskId)
                    && tx.account == Field(post, "account") != "" && tx.category == Field(post, "category") != ""
                    && tx.amount == toCents(amount).value && tx.memo == Strip(Field(post, "memo"))
                    && tx.occurredAt == task.startAt.value)
  {
  }

  /** The conditions under which a `schedule_entry` post succeeds, in both directions. */
  lemma ScheduleEntryRedirectsIff(post: map<string, string>, selected: Date, successBase: string,
                                  owner: UserId, toCents: string -> Option<int>, taskId: nat, transactionId: nat)
    requires ValidDate(selected)
    ensures var start := ParseHourMinute(Field(post, "start_time"));
            var endText := Field(post, "end_time");
            ScheduleEntryEffect(post, selected, successBase, owner, toCents, taskId, transactionId).outcome.Redirect?
            <==>
            Strip(Field(post, "title")) != "" && start.Some?
            && (endText != "" ==> ParseHourMinute(endText).Some?)
            && (endText == "" ==> selected != MaxDate || start.value.hour < 23)
            && (Field(post, "amount") != "" ==>
                  Field(post, "account") != "" && Field(post, "category") != "" && toCents(Field(post, "amount")).Some?)
  {
  }

  /**
   * Past every check, an amount the decimal column refuses raises from the
   * second `create`, after the task was saved: the task stays, without its
   * transaction and without a redirect.
   */
  lemma ScheduleEntryAmountRefused(post: map<string, string>, selected: Date, successBase: string,
                                   owner: UserId, toCents: string -> Option<int>, taskId: nat, transactionId: nat)
    requires ValidDate(selected)
    ensures var effect := ScheduleEntryEffect(post, selected, successBase, owner, toCents, taskId, transactionId);
            var start := ParseHourMinute(Field(post, "start_time"));
            var endText := Field(post, "end_time");
            var amount := Field(post, "amount");
            effect.outcome == Raised(ValidationError)
            <==>
            Strip(Field(post, "title")) != "" && start.Some?
            && (endText != "" ==> ParseHourMinute(endText).Some?)
            && (endText == "" ==> selected != MaxDate || start.value.hour < 23)
            && amount != "" && Field(post, "account") != "" && Field(post, "category") != ""
            && toCents(amount).None?
    ensures var effect := ScheduleEntryEffect(post, selected, successBase, owner, toCents, taskId, transactionId);
            effect.outcome == Raised(ValidationError) ==>
              |effect.newTasks| == 1 && effect.newTransactions == []
              && effect.newTasks[0].title == Strip(Field(post, "title"))
              && effect.newTasks[0].startAt == Some(DateTime(selected, ParseHourMinute(Field(post, "start_time")).value))
  {
  }

  /**
   * `loose_transaction`: missing fields are reported (at most two errors)
   * and nothing is written; a bad time escapes as ValueError and a refused
   * amount as ValidationError; otherwise one transaction without a task is
   * written at the posted time.
   */
  lemma LooseTransactionOutcome(post: map<string, string>, selected: Date, successBase: string,
                                owner: UserId, toCents: string -> Option<int>, transactionId: nat)
    requires ValidDate(selected)
    ensures var effect := LooseTransactionEffect(post, selected, successBase, owner, toCents, transactionId);
            var occurred := Field(post, "occurred_time");
            var complete := Field(post, "account") != "" && Field(post, "category") != "" && Field(post, "amount") != "";
            effect.newTasks == []
            && (occurred == "" || !complete ==>
                  effect == NoWrite(Rerender((if occurred == "" then [OccurredTimeRequired] else [])
                                             + (if complete then [] else [TransactionFieldsRequired]))))
            && (occurred != "" && complete && ParseHourMinute(occurred).None? ==> effect == NoWrite(Raised(ValueError)))
            && (occurred != "" && complete && ParseHourMinute(occurred).Some? && toCents(Field(post, "amount")).None? ==>
                  effect == NoWrite(Raised(ValidationError)))
            && (occurred != "" && complete && ParseHourMinute(occurred).Some? && toCents(Field(post, "amount")).Some? ==>
                  effect.outcome == Redirect(SuccessLocation(successBase, selected))
                  && effect.newTransactions
                     == [Transaction(transactionId, owner, Field(post, "account"), Field(post, "category"), None,
                                     toCents(Field(post, "amount")).value, Strip(Field(post, "memo")),
                                     DateTime(selected, ParseHourMinute(occurred).value))])
  {
  }
}
