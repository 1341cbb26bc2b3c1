/** The budget manager (src/components/BudgetManager.tsx): the spent amount
    recomputed from transactions, the add / delete / update-limit edits of
    the stored budget list, and the colours and labels of a budget card. */
module BudgetManager {
  import opened Wrappers
  import opened Types
  import opened Folds
  import opened Percent

  /** `calculateSpentAmount(c)`: what the expense transactions of category
      `c` add up to. */
  function Spent(ts: seq<Transaction>, c: string): (r: real)
    ensures (forall t :: t in ts ==> t.amount >= 0.0) ==> r >= 0.0
    ensures (forall t :: t in ts ==> t.kind != Expense || t.category != c) ==> r == 0.0
  {
    var expenses := Filter(ts, IsExpense);
    if forall t :: t in ts ==> t.kind != Expense || t.category != c then
      FilterNone(expenses, InCategory(c));
      CategoryAmount(expenses, c)
    else
      CategoryAmount(expenses, c)
  }

  /** Nothing is spent before any transaction... */
  lemma SpentEmpty(c: string)
    ensures Spent([], c) == 0.0
  {
  }

  /** ...and each further transaction adds its amount exactly when it is an
      expense of that category. */
  lemma SpentSnoc(ts: seq<Transaction>, t: Transaction, c: string)
    ensures Spent(ts + [t], c) ==
            Spent(ts, c) + (if t.kind == Expense && t.category == c then t.amount else 0.0)
  {
    FilterSnoc(ts, t, IsExpense);
    if t.kind == Expense {
      CategoryAmountSnoc(Filter(ts, IsExpense), t, c);
    }
  }

  /** Spent amounts add up over a concatenation of transaction lists. */
  lemma SpentAppend(a: seq<Transaction>, b: seq<Transaction>, c: string)
    ensures Spent(a + b, c) == Spent(a, c) + Spent(b, c)
  {
    var ea, eb := Filter(a, IsExpense), Filter(b, IsExpense);
    FilterAppend(a, b, IsExpense);
    FilterAppend(ea, eb, InCategory(c));
    SumAppend(Filter(ea, InCategory(c)), Filter(eb, InCategory(c)));
  }

  /** A single transaction counts for its own category when it is an expense. */
  lemma SpentSingle(t: Transaction, c: string)
    ensures Spent([t], c) == if t.kind == Expense && t.category == c then t.amount else 0.0
  {
    FilterSingle(t, IsExpense);
    if t.kind == Expense {
      FilterSingle(t, InCategory(c));
      SumSingle(t);
    } else {
      assert Filter([t], IsExpense) == [];
    }
  }

  /** The same holds for a transaction put in front, as new ones are. */
  lemma SpentCons(t: Transaction, ts: seq<Transaction>, c: string)
    ensures Spent([t] + ts, c) ==
            (if t.kind == Expense && t.category == c then t.amount else 0.0) + Spent(ts, c)
  {
    SpentAppend([t], ts, c);
    SpentSingle(t, c);
  }

  /** `updatedBudgets`: the budgets as displayed, each with its spent amount
      recomputed and every other field as stored. */
  function Displayed(budgets: seq<Budget>, ts: seq<Transaction>): (r: seq<Budget>)
    ensures |r| == |budgets|
    ensures forall i :: 0 <= i < |r| ==>
      r[i].(spent := budgets[i].spent) == budgets[i] && r[i].spent == Spent(ts, budgets[i].category)
  {
    seq(|budgets|, i requires 0 <= i < |budgets| =>
      budgets[i].(spent := Spent(ts, budgets[i].category)))
  }

  /** The stored spent amounts play no part in what is displayed, so
      displaying twice is displaying once. */
  lemma DisplayedIgnoresStoredSpent(a: seq<Budget>, b: seq<Budget>, ts: seq<Transaction>)
    requires |a| == |b|
    requires forall i :: 0 <= i < |a| ==> a[i].(spent := b[i].spent) == b[i]
    ensures Displayed(a, ts) == Displayed(b, ts)
    ensures Displayed(Displayed(a, ts), ts) == Displayed(a, ts)
  {
    assert forall i :: 0 <= i < |a| ==> a[i].category == b[i].category;
  }

  function BudgetId(b: Budget): string
  {
    b.id
  }

  /** `handleAddBudget`: rejected (None) when the category or limit field is
      empty; otherwise one budget is appended, with the new id, the limit as
      `parse` reads it and the spent amount computed now. */
  function AddBudget(budgets: seq<Budget>, ts: seq<Transaction>, category: string,
                     limitText: string, id: string, parse: string -> real): (r: Option<seq<Budget>>)
    requires forall b :: b in budgets ==> b.id != id
    ensures r.None? <==> category == "" || limitText == ""
    ensures r.Some? ==>
      && |r.value| == |budgets| + 1 && r.value[..|budgets|] == budgets
      && r.value[|budgets|] == Budget(id, category, parse(limitText), Spent(ts, category), None, None)
    ensures r.Some? && UniqueBy(budgets, BudgetId) ==> UniqueBy(r.value, BudgetId)
  {
    if category == "" || limitText == "" then None
    else Some(budgets + [Budget(id, category, parse(limitText), Spent(ts, category), None, None)])
  }

  function IdIsNot(id: string): Budget -> bool
  {
    (b: Budget) => b.id != id
  }

  /** `handleDeleteBudget`: every budget with the id goes, the rest stay in
      order; an absent id changes nothing. */
  function DeleteBudget(budgets: seq<Budget>, id: string): (r: seq<Budget>)
    ensures forall b :: b in r <==> b in budgets && b.id != id
    ensures (forall b :: b in budgets ==> b.id != id) ==> r == budgets
    ensures UniqueBy(budgets, BudgetId) ==> UniqueBy(r, BudgetId)
  {
    if forall b :: b in budgets ==> b.id != id then FilterKeepsAll(budgets, IdIsNot(id)); budgets
    else if UniqueBy(budgets, BudgetId) then
      FilterUniqueBy(budgets, BudgetId, IdIsNot(id));
      Filter(budgets, IdIsNot(id))
    else Filter(budgets, IdIsNot(id))
  }

  /** Deleting is filtering out the id, whether or not it occurs. */
  lemma DeleteBudgetIsFilter(budgets: seq<Budget>, id: string)
    ensures DeleteBudget(budgets, id) == Filter(budgets, IdIsNot(id))
  {
    if forall x :: x in budgets ==> x.id != id {
      FilterKeepsAll(budgets, IdIsNot(id));
    }
  }

  /** Deleting keeps order: deleting from a concatenation deletes from each part. */
  lemma DeleteBudgetKeepsOrder(a: seq<Budget>, b: seq<Budget>, id: string)
    ensures DeleteBudget(a + b, id) == DeleteBudget(a, id) + DeleteBudget(b, id)
  {
    FilterAppend(a, b, IdIsNot(id));
    DeleteBudgetIsFilter(a, id);
    DeleteBudgetIsFilter(b, id);
    DeleteBudgetIsFilter(a + b, id);
  }

  /** `handleUpdateBudget`: the limit of each budget with the id becomes
      `newLimit`; nothing else changes. */
  function UpdateBudgetLimit(budgets: seq<Budget>, id: string, newLimit: real): (r: seq<Budget>)
    ensures |r| == |budgets|
    ensures forall i :: 0 <= i < |r| ==> r[i].(limit := budgets[i].limit) == budgets[i]
    ensures forall i :: 0 <= i < |r| ==> r[i].limit == if budgets[i].id == id then newLimit else budgets[i].limit
  {
    seq(|budgets|, i requires 0 <= i < |budgets| =>
      if budgets[i].id == id then budgets[i].(limit := newLimit) else budgets[i])
  }

  /** Updating keeps the ids, is a no-op for an absent id, is idempotent, and
      leaves the displayed spent amounts alone. */
  lemma UpdateBudgetLimitProperties(budgets: seq<Budget>, id: string, newLimit: real, ts: seq<Transaction>)
    ensures UniqueBy(budgets, BudgetId) ==> UniqueBy(UpdateBudgetLimit(budgets, id, newLimit), BudgetId)
    ensures (forall b :: b in budgets ==> b.id != id) ==> UpdateBudgetLimit(budgets, id, newLimit) == budgets
    ensures UpdateBudgetLimit(UpdateBudgetLimit(budgets, id, newLimit), id, newLimit)
            == UpdateBudgetLimit(budgets, id, newLimit)
    ensures forall i :: 0 <= i < |budgets| ==>
      Displayed(UpdateBudgetLimit(budgets, id, newLimit), ts)[i].spent == Displayed(budgets, ts)[i].spent
  {
    var r := UpdateBudgetLimit(budgets, id, newLimit);
    assert forall i :: 0 <= i < |r| ==> r[i].id == budgets[i].id && r[i].category == budgets[i].category;
    if forall b :: b in budgets ==> b.id != id {
      assert forall i :: 0 <= i < |r| ==> budgets[i] in budgets && r[i] == budgets[i];
    }
  }

  datatype Tone = Red | Yellow | Green

  /** `getProgressColor`: red from 100 %, yellow from 80 %, green below;
      both thresholds inclusive. */
  function ProgressColor(spent: real, limit: real): (t: Tone)
    requires limit > 0.0
    ensures t == Red <==> spent >= limit
    ensures t == Yellow <==> 4.0 * limit <= 5.0 * spent && spent < limit
    ensures t == Green <==> 5.0 * spent < 4.0 * limit
  {
    PercentageAtLeast(spent, limit, 100.0);
    PercentageAtLeast(spent, limit, 80.0);
    var p := Percentage(spent, limit);
    if p >= 100.0 then Red else if p >= 80.0 then Yellow else Green
  }

  datatype Shade = RedShade | YellowShade | GreenShade

  /** `getProgressBackground`, a second classification with its own thresholds. */
  function ProgressBackground(spent: real, limit: real): (s: Shade)
    requires limit > 0.0
    ensures s == RedShade <==> spent >= limit
    ensures s == YellowShade <==> 4.0 * limit <= 5.0 * spent && spent < limit
    ensures s == GreenShade <==> 5.0 * spent < 4.0 * limit
  {
    PercentageAtLeast(spent, limit, 100.0);
    PercentageAtLeast(spent, limit, 80.0);
    var p := Percentage(spent, limit);
    if p >= 100.0 then RedShade else if p >= 80.0 then YellowShade else GreenShade
  }

  /** The card background always agrees with the bar colour. */
  lemma BackgroundMatchesColor(spent: real, limit: real)
    requires limit > 0.0
    ensures ProgressBackground(spent, limit) ==
      match ProgressColor(spent, limit)
      case Red => RedShade
      case Yellow => YellowShade
      case Green => GreenShade
  {
  }

  /** What one budget card shows: the bar width, the bar colour, whether the
      "Over Budget" badge appears, and the remaining amount if it appears. */
  datatype Card = Card(width: real, color: Tone, overBudget: bool, remaining: Option<real>)

  function CardOf(b: Budget): (c: Card)
    requires b.limit > 0.0
    ensures c.width == CappedPercentage(b.spent, b.limit) && c.color == ProgressColor(b.spent, b.limit)
    ensures c.width <= 100.0 && (b.spent >= 0.0 ==> c.width >= 0.0)
    ensures c.width == 100.0 <==> b.spent >= b.limit
    ensures c.overBudget <==> b.spent > b.limit
    ensures c.remaining.Some? <==> b.limit > b.spent
    ensures c.remaining.Some? ==> c.remaining.value == b.limit - b.spent > 0.0
    ensures !(c.overBudget && c.remaining.Some?)
    ensures c.overBudget ==> c.color == Red
    ensures c.color == Red && !c.overBudget ==> b.spent == b.limit
  {
    Card(CappedPercentage(b.spent, b.limit), ProgressColor(b.spent, b.limit),
         b.spent > b.limit, if b.limit > b.spent then Some(b.limit - b.spent) else None)
  }
}
