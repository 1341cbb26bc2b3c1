/** The dashboard's budget card (src/components/dashboard/BudgetOverview.tsx):
    the first four stored budgets, each with a status and a bar colour taken
    from its STORED spent amount, limit and alert threshold. */
module BudgetOverview {
  import opened Wrappers
  import opened Types
  import opened Folds
  import opened Percent
  import opened BudgetManager

  datatype Status = Over | Warning | Good

  /** `getBudgetStatus`.  An absent threshold compares false, as
      `percentage >= undefined` does, so such a budget is never a warning. */
  function BudgetStatus(spent: real, limit: real, alertThreshold: Option<real>): (s: Status)
    requires limit > 0.0
    ensures s == Over <==> spent >= limit
    ensures s == Warning <==> spent < limit && alertThreshold.Some? && 100.0 * spent >= alertThreshold.value * limit
    ensures s == Good <==> spent < limit && (alertThreshold.None? || 100.0 * spent < alertThreshold.value * limit)
  {
    var p := Percentage(spent, limit);
    if p >= 100.0 then Over
    else if alertThreshold.Some? && p >= alertThreshold.value then Warning
    else Good
  }

  datatype BarColor = Rose | Amber | Emerald

  /** `getProgressColor` of the overview, written apart from the status. */
  function OverviewColor(spent: real, limit: real, alertThreshold: Option<real>): (c: BarColor)
    requires limit > 0.0
    ensures c == Rose <==> spent >= limit
    ensures c == Amber <==> spent < limit && alertThreshold.Some? && 100.0 * spent >= alertThreshold.value * limit
    ensures c == Emerald <==> spent < limit && (alertThreshold.None? || 100.0 * spent < alertThreshold.value * limit)
  {
    var p := Percentage(spent, limit);
    if p >= 100.0 then Rose
    else if alertThreshold.Some? && p >= alertThreshold.value then Amber
    else Emerald
  }

  /** The bar colour and the status use the same thresholds. */
  lemma ColorMatchesStatus(spent: real, limit: real, alertThreshold: Option<real>)
    requires limit > 0.0
    ensures OverviewColor(spent, limit, alertThreshold) ==
      match BudgetStatus(spent, limit, alertThreshold)
      case Over => Rose
      case Warning => Amber
      case Good => Emerald
  {
  }

  /** Over takes precedence: a threshold above 100 never hides it. */
  lemma OverBeatsHighThreshold(spent: real, limit: real, t: real)
    requires limit > 0.0 && t > 100.0
    ensures BudgetStatus(spent, limit, Some(t)) != Warning
  {
  }

  /** One row of the overview. */
  datatype Row = Row(budget: Budget, width: real, status: Status, remaining: real)

  function RowOf(b: Budget): (r: Row)
    requires b.limit > 0.0
    ensures r.budget == b && r.status == BudgetStatus(b.spent, b.limit, b.alertThreshold)
    ensures r.width == CappedPercentage(b.spent, b.limit)
    ensures r.width <= 100.0 && (r.width == 100.0 <==> r.status == Over)
    ensures r.remaining + b.spent == b.limit
    ensures r.remaining < 0.0 <==> b.spent > b.limit
  {
    Row(b, CappedPercentage(b.spent, b.limit), BudgetStatus(b.spent, b.limit, b.alertThreshold), b.limit - b.spent)
  }

  /** `budgets.slice(0, 4).map(...)`: the first four budgets, in order. */
  function Overview(budgets: seq<Budget>): (rows: seq<Row>)
    requires forall i :: 0 <= i < Min(4, |budgets|) ==> budgets[i].limit > 0.0
    ensures |rows| == Min(4, |budgets|)
    ensures forall i :: 0 <= i < |rows| ==> rows[i] == RowOf(budgets[i])
  {
    var shown := budgets[..Min(4, |budgets|)];
    seq(|shown|, i requires 0 <= i < |shown| => RowOf(shown[i]))
  }

  /** Only the first four budgets matter: budgets added after them leave the
      overview as it was. */
  lemma OverviewIgnoresLaterBudgets(budgets: seq<Budget>, more: seq<Budget>)
    requires |budgets| >= 4
    requires forall i :: 0 <= i < 4 ==> budgets[i].limit > 0.0
    ensures Overview(budgets + more) == Overview(budgets)
  {
    assert forall i :: 0 <= i < 4 ==> (budgets + more)[i] == budgets[i];
  }

  /** A budget added by the budget manager carries no alert threshold, so
      the overview shows it as over or good, never as a warning. */
  lemma AddedBudgetNeverWarns(budgets: seq<Budget>, ts: seq<Transaction>, category: string,
                              limitText: string, id: string, parse: string -> real)
    requires forall b :: b in budgets ==> b.id != id
    requires AddBudget(budgets, ts, category, limitText, id, parse).Some?
    requires parse(limitText) > 0.0
    ensures var nb := AddBudget(budgets, ts, category, limitText, id, parse).value[|budgets|];
            BudgetStatus(nb.spent, nb.limit, nb.alertThreshold) != Warning
  {
  }

  /** The overview reads the spent amount stored when the budget was added:
      a later expense in its category raises what the budget manager shows
      but not what the overview shows. */
  lemma StoredSpentGoesStale(budgets: seq<Budget>, ts: seq<Transaction>, category: string,
                             limitText: string, id: string, parse: string -> real, t: Transaction)
    requires forall b :: b in budgets ==> b.id != id
    requires AddBudget(budgets, ts, category, limitText, id, parse).Some?
    requires t.kind == Expense && t.category == category && t.amount > 0.0
    ensures var bs := AddBudget(budgets, ts, category, limitText, id, parse).value;
            && bs[|budgets|].spent == Spent(ts, category)
            && Displayed(bs, [t] + ts)[|budgets|].spent == Spent(ts, category) + t.amount
  {
    SpentCons(t, ts, category);
  }
}
