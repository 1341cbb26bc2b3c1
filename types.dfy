/** The records of the finance dashboard (src/types/index.ts), with each string
    union turned into an enumeration.  Amounts are reals, dates are day numbers
    (days since 1970-01-01), identifiers are strings. */
module Types {
  import opened Wrappers

  /** A calendar date as a day number: 0 is 1970-01-01. */
  type Day = int

  datatype TransactionKind = Income | Expense

  datatype Frequency = Weekly | Monthly | Yearly

  /** A transaction; `tags`, `recurring` and `recurringFrequency` are optional. */
  datatype Transaction = Transaction(
    id: string,
    kind: TransactionKind,
    amount: real,
    category: string,
    description: string,
    date: Day,
    tags: Option<seq<string>>,
    recurring: Option<bool>,
    recurringFrequency: Option<Frequency>)

  /** A transaction before it has an id (`Omit<Transaction, 'id'>`). */
  datatype TransactionDraft = TransactionDraft(
    kind: TransactionKind,
    amount: real,
    category: string,
    description: string,
    date: Day,
    tags: Option<seq<string>>,
    recurring: Option<bool>,
    recurringFrequency: Option<Frequency>)

  /** The transaction that carries every field of `d` and the id `id`. */
  function Stamp(d: TransactionDraft, id: string): (t: Transaction)
    ensures t.id == id && Unstamp(t) == d
  {
    Transaction(id, d.kind, d.amount, d.category, d.description, d.date,
                d.tags, d.recurring, d.recurringFrequency)
  }

  /** Every field of `t` except its id. */
  function Unstamp(t: Transaction): TransactionDraft
  {
    TransactionDraft(t.kind, t.amount, t.category, t.description, t.date,
                     t.tags, t.recurring, t.recurringFrequency)
  }

  datatype Period = PerMonth | PerWeek | PerYear

  /** A budget.  The record type declares `period` and `alertThreshold` as
      required, but the budget manager, the only place budgets are created,
      never sets them, so the model lets them be absent. */
  datatype Budget = Budget(
    id: string,
    category: string,
    limit: real,
    spent: real,
    period: Option<Period>,
    alertThreshold: Option<real>)

  datatype GoalCategory = Savings | Debt | Investment | Purchase

  datatype Priority = Low | Medium | High

  datatype Goal = Goal(
    id: string,
    title: string,
    targetAmount: real,
    currentAmount: real,
    targetDate: Day,
    category: GoalCategory,
    priority: Priority,
    description: Option<string>)

  datatype AccountKind = Checking | SavingsAccount | Credit | InvestmentAccount

  /** An account; its balance is signed (a credit account may be negative). */
  datatype Account = Account(
    id: string,
    name: string,
    kind: AccountKind,
    balance: real,
    currency: string)

  predicate IsIncome(t: Transaction) { t.kind == Income }

  predicate IsExpense(t: Transaction) { t.kind == Expense }
}
