/** The "Spending Trends" series: one entry per day of the thirty days that
    end with the injected day `today`, each with that day's income, expenses
    and net.  Formatting of the date label and the chart drawing are not
    modelled; an entry keeps its day number. */
module SpendingChart {
  import opened Types
  import opened Folds

  /** The number of days shown. */
  const Window: nat := 30

  /** `last30Days`: the thirty days up to and including `today`. */
  function Last30Days(today: Day): (days: seq<Day>)
    ensures |days| == Window
    ensures days[Window - 1] == today
    ensures forall i :: 0 <= i < Window - 1 ==> days[i + 1] == days[i] + 1
  {
    seq(Window, i => today - (Window - 1 - i))
  }

  /** Whether a transaction is dated exactly on day `d`. */
  function OnDay(d: Day): Transaction -> bool
  {
    (t: Transaction) => t.date == d
  }

  datatype Entry = Entry(date: Day, income: real, expenses: real, net: real)

  /** The chart entry of day `d`: sums over the transactions of that day. */
  function EntryFor(ts: seq<Transaction>, d: Day): (e: Entry)
    ensures e.date == d
    ensures e.income + e.expenses == SumAmounts(Filter(ts, OnDay(d)))
    ensures e.net == e.income - e.expenses
  {
    var day := Filter(ts, OnDay(d));
    IncomePlusExpenses(day);
    var income := SumAmounts(Filter(day, IsIncome));
    var expenses := SumAmounts(Filter(day, IsExpense));
    Entry(d, income, expenses, income - expenses)
  }

  /** `chartData`: one entry per day of the window, in the window's order. */
  function ChartData(ts: seq<Transaction>, today: Day): (data: seq<Entry>)
    ensures |data| == Window
    ensures forall i :: 0 <= i < Window ==> data[i] == EntryFor(ts, Last30Days(today)[i])
  {
    var days := Last30Days(today);
    seq(Window, i requires 0 <= i < Window => EntryFor(ts, days[i]))
  }

  /** The window's entries cover exactly the days `today - 29 .. today`, in
      ascending order, the last one being today. */
  lemma ChartDays(ts: seq<Transaction>, today: Day)
    ensures forall i :: 0 <= i < Window ==> ChartData(ts, today)[i].date == today - 29 + i
    ensures ChartData(ts, today)[Window - 1].date == today
  {
    var days := Last30Days(today);
    forall i | 0 <= i < Window ensures days[i] == today - 29 + i {
      DayInWindow(days, today, i);
    }
  }

  /** By induction down from the last day: day `i` of the window is
      `today - 29 + i`. */
  lemma {:induction false} DayInWindow(days: seq<Day>, today: Day, i: nat)
    requires |days| == Window && days[Window - 1] == today
    requires forall k :: 0 <= k < Window - 1 ==> days[k + 1] == days[k] + 1
    requires i < Window
    ensures days[i] == today - 29 + i
    decreases Window - i
  {
    if i < Window - 1 {
      DayInWindow(days, today, i + 1);
    }
  }

  /** A day with no transactions gets an all-zero entry, and is still shown. */
  lemma QuietDay(ts: seq<Transaction>, d: Day)
    requires forall t :: t in ts ==> t.date != d
    ensures EntryFor(ts, d) == Entry(d, 0.0, 0.0, 0.0)
  {
    FilterNone(ts, OnDay(d));
  }

  /** One more transaction dated `d` adds its amount to exactly one of the
      income and expense sums of day `d`, and changes no other day. */
  lemma EntrySnoc(ts: seq<Transaction>, t: Transaction, d: Day)
    ensures var before, after := EntryFor(ts, d), EntryFor(ts + [t], d);
      after.income == before.income + (if t.date == d && t.kind == Income then t.amount else 0.0) &&
      after.expenses == before.expenses + (if t.date == d && t.kind == Expense then t.amount else 0.0)
  {
    var day := Filter(ts, OnDay(d));
    FilterSnoc(ts, t, OnDay(d));
    if t.date == d {
      FilterSnoc(day, t, IsIncome);
      FilterSnoc(day, t, IsExpense);
      SumAppend(Filter(day, IsIncome), [t]);
      SumAppend(Filter(day, IsExpense), [t]);
    }
  }

  /** Transactions dated on other days do not change the entry of day `d`. */
  lemma OtherDaysIgnored(ts: seq<Transaction>, others: seq<Transaction>, d: Day)
    requires forall t :: t in others ==> t.date != d
    ensures EntryFor(others + ts, d) == EntryFor(ts, d)
  {
    FilterAppend(others, ts, OnDay(d));
    FilterNone(others, OnDay(d));
    assert Filter(others + ts, OnDay(d)) == Filter(ts, OnDay(d));
  }

  /** Transactions dated outside the window contribute to no entry. */
  lemma OutsideWindowIgnored(ts: seq<Transaction>, others: seq<Transaction>, today: Day)
    requires forall t :: t in others ==> t.date < today - 29 || today < t.date
    ensures ChartData(others + ts, today) == ChartData(ts, today)
  {
    var days := Last30Days(today);
    forall i | 0 <= i < Window
      ensures EntryFor(others + ts, days[i]) == EntryFor(ts, days[i])
    {
      DayInWindow(days, today, i);
      OtherDaysIgnored(ts, others, days[i]);
    }
  }
}
