/** Worked examples that run through several parts of the application at
    once: a transaction followed by a budget, a budget followed by an
    overrun, and a goal whose date has passed.  The number parser is a
    parameter; each example says what it reads the typed amounts as. */
module Scenarios {
  import opened Wrappers
  import opened Types
  import opened Calendar
  import opened Percent
  import opened BudgetManager
  import opened BudgetOverview
  import opened GoalsView
  import opened App

  /** 2024-01-15 and 2020-01-01 as day numbers. */
  const Jan15Of2024: Day := 19737
  const Jan1Of2020: Day := 18262

  function ExpenseDraft(amount: real, category: string, description: string, date: Day): TransactionDraft
  {
    TransactionDraft(Expense, amount, category, description, date, None, None, None)
  }

  /** A 50 lunch in "Food & Dining", then a budget of 200 for that category:
      the budget starts with 50 spent, a quarter of its limit, and is in
      good standing, also against an 80 % alert threshold. */
  lemma LunchThenBudget(parse: string -> real)
    requires parse("200") == 200.0
    ensures var ts := Prepend([], ExpenseDraft(50.0, "Food & Dining", "Lunch", Jan15Of2024), "t1");
      var bs := AddBudget([], ts, "Food & Dining", "200", "b1", parse);
      && bs.Some? && |bs.value| == 1
      && bs.value[0].spent == 50.0
      && Percentage(bs.value[0].spent, bs.value[0].limit) == 25.0
      && BudgetStatus(bs.value[0].spent, bs.value[0].limit, bs.value[0].alertThreshold) == Good
      && BudgetStatus(bs.value[0].spent, bs.value[0].limit, Some(80.0)) == Good
      && ProgressColor(bs.value[0].spent, bs.value[0].limit) == Green
  {
    var d := ExpenseDraft(50.0, "Food & Dining", "Lunch", Jan15Of2024);
    PrependRaisesSpent([], d, "t1", "Food & Dining");
    SpentEmpty("Food & Dining");
  }

  /** A rent budget of 1000, then a 1200 rent payment: the budget manager
      shows 1200 spent, a full bar, red and "Over Budget" (the raw
      percentage is 120), while the dashboard overview still reads the 0
      stored when the budget was added and calls it good. */
  lemma RentOverrun(parse: string -> real)
    requires parse("1000") == 1000.0
    ensures var bs := AddBudget([], [], "Rent", "1000", "b1", parse);
      var ts := Prepend([], ExpenseDraft(1200.0, "Rent", "January rent", Jan15Of2024), "t1");
      && bs.Some?
      && var shown := Displayed(bs.value, ts)[0];
         && shown.spent == 1200.0
         && Percentage(shown.spent, shown.limit) == 120.0
         && BudgetManager.CardOf(shown).width == 100.0
         && BudgetManager.CardOf(shown).overBudget
         && BudgetManager.CardOf(shown).color == Red
         && BudgetStatus(bs.value[0].spent, bs.value[0].limit, bs.value[0].alertThreshold) == Good
  {
    var d := ExpenseDraft(1200.0, "Rent", "January rent", Jan15Of2024);
    SpentEmpty("Rent");
    PrependRaisesSpent([], d, "t1", "Rent");
  }

  /** A goal dated 2020-01-01, looked at on any later day, has a negative
      day count and is labelled "Overdue". */
  lemma EmergencyFundOverdue(parse: string -> real, nowMs: int)
    requires parse("10000") == 10000.0
    requires DayOf(nowMs) > Jan1Of2020
    ensures var f := GoalForm("Emergency Fund", "10000", Some(Jan1Of2020), Savings, High, "");
      var gs := AddGoal([], f, "g1", parse);
      && gs.Some?
      && DaysLeft(gs.value[0].targetDate, nowMs) < 0
      && GoalsView.CardOf(gs.value[0], nowMs).shown == Overdue
  {
    DaysLeftCountsDays(Jan1Of2020, nowMs);
  }
}
