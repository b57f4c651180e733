/**
 * The rows the planner reads and writes, with only the columns it uses
 * (finance/models.py and tasks/models.py). Amounts are integer cents: the
 * column is a decimal with two places. Account and category keys are the
 * text a form posts for them.
 */
module Records {
  import opened Wrappers
  import opened Dates

  type UserId = nat

  datatype CategoryKind = Expense | Income | Transfer

  datatype Account = Account(id: string, owner: UserId, name: string)

  datatype Category = Category(id: string, owner: UserId, name: string, kind: CategoryKind)

  datatype Task = Task(
    id: nat,
    owner: UserId,
    title: string,
    description: string,
    startAt: Option<Timestamp>,
    dueAt: Option<Timestamp>,
    isAllDay: bool)

  datatype Transaction = Transaction(
    id: nat,
    owner: UserId,
    account: string,
    category: string,
    task: Option<nat>,
    amount: int,
    memo: string,
    occurredAt: Timestamp)

  /** A nullable timestamp column holds a value on the calendar day `day`. */
  predicate StampOn(stamp: Option<Timestamp>, day: Date) {
    stamp.Some? && stamp.value.date == day
  }
}
