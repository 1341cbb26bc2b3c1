/** The four summary cards of the dashboard: this month's income and
    expenses, the savings they leave, and the net worth of all accounts.
    "This month" is the month and year of the injected day `today`. */
module DashboardStats {
  import opened Types
  import opened Folds
  import opened Calendar

  /** Whether a transaction is dated in the month of `today`. */
  function InMonthOf(today: Day): Transaction -> bool
  {
    (t: Transaction) => SameMonth(t.date, today)
  }

  /** `thisMonthTransactions`. */
  function ThisMonth(ts: seq<Transaction>, today: Day): (r: seq<Transaction>)
    ensures forall t :: t in r <==> t in ts && SameMonth(t.date, today)
  {
    Filter(ts, InMonthOf(today))
  }

  /** `accounts.reduce((sum, account) => sum + account.balance, 0)`. */
  function NetWorth(accounts: seq<Account>): (w: real)
    ensures (forall a :: a in accounts ==> a.balance >= 0.0) ==> w >= 0.0
    ensures accounts == [] ==> w == 0.0
    decreases |accounts|
  {
    if accounts == [] then 0.0
    else NetWorth(accounts[..|accounts| - 1]) + accounts[|accounts| - 1].balance
  }

  lemma {:induction false} NetWorthAppend(a: seq<Account>, b: seq<Account>)
    ensures NetWorth(a + b) == NetWorth(a) + NetWorth(b)
    decreases |b|
  {
    if b == [] {
      assert a + b == a;
    } else {
      var n := |b| - 1;
      assert (a + b)[..|a + b| - 1] == a + b[..n];
      NetWorthAppend(a, b[..n]);
    }
  }

  datatype Stats = Stats(totalIncome: real, totalExpenses: real, netWorth: real, savings: real)

  /** The four figures: income and expense sums over this month's
      transactions, their difference as savings, and the balance sum. */
  function MonthStats(ts: seq<Transaction>, accounts: seq<Account>, today: Day): (s: Stats)
    ensures s.totalIncome == SumAmounts(Filter(ThisMonth(ts, today), IsIncome))
    ensures s.totalExpenses == SumAmounts(Filter(ThisMonth(ts, today), IsExpense))
    ensures s.totalIncome + s.totalExpenses == SumAmounts(ThisMonth(ts, today))
    ensures s.savings == s.totalIncome - s.totalExpenses
    ensures s.netWorth == NetWorth(accounts)
  {
    var month := ThisMonth(ts, today);
    IncomePlusExpenses(month);
    var income := SumAmounts(Filter(month, IsIncome));
    var expenses := SumAmounts(Filter(month, IsExpense));
    Stats(income, expenses, NetWorth(accounts), income - expenses)
  }

  /** One more transaction moves exactly one of the two monthly totals, by
      its amount, and only when it is dated in the current month; savings
      follow. */
  lemma MonthStatsSnoc(ts: seq<Transaction>, t: Transaction, accounts: seq<Account>, today: Day)
    ensures var before, after := MonthStats(ts, accounts, today), MonthStats(ts + [t], accounts, today);
      var counted := SameMonth(t.date, today);
      after.totalIncome == before.totalIncome + (if counted && t.kind == Income then t.amount else 0.0) &&
      after.totalExpenses == before.totalExpenses + (if counted && t.kind == Expense then t.amount else 0.0) &&
      after.savings == before.savings + (if !counted then 0.0 else if t.kind == Income then t.amount else -t.amount) &&
      after.netWorth == before.netWorth
  {
    var month := ThisMonth(ts, today);
    FilterSnoc(ts, t, InMonthOf(today));
    if SameMonth(t.date, today) {
      assert ThisMonth(ts + [t], today) == month + [t];
      FilterSnoc(month, t, IsIncome);
      FilterSnoc(month, t, IsExpense);
      SumAppend(Filter(month, IsIncome), [t]);
      SumAppend(Filter(month, IsExpense), [t]);
    }
  }

  /** Transactions of other months do not affect the cards at all. */
  lemma OtherMonthsIgnored(ts: seq<Transaction>, others: seq<Transaction>, accounts: seq<Account>, today: Day)
    requires forall t :: t in others ==> !SameMonth(t.date, today)
    ensures MonthStats(ts + others, accounts, today) == MonthStats(ts, accounts, today)
  {
    var p := InMonthOf(today);
    FilterAppend(ts, others, p);
    var rest := Filter(others, p);
    FilterNone(others, p);
    assert ThisMonth(ts + others, today) == ThisMonth(ts, today);
  }
}
