# Finance Hub — a verified model of the dashboard's logic

Finance Hub is a single-page personal finance dashboard. It keeps four
collections: transactions, budgets, goals and accounts. It mirrors each of
them to the browser's key-value store, and derives every figure it shows
from them:

- per-category spending and budget use;
- this month's income, expenses and savings;
- net worth;
- a 30-day income/expense series;
- category shares;
- goal progress and the days left to each goal.

This project models that logic in Dafny and proves what the screens
promise about it.

The modules follow the program's files:

| module | file | models |
|---|---|---|
| `Types` | types.dfy | the records of `src/types/index.ts`; each string union is an enumeration |
| `Folds` | folds.dfy | `filter` and the summing `reduce`, with the algebra the views rely on |
| `Calendar` | calendar.dfy | day numbers, the year and month of a day, and the day-length ceiling |
| `Percent` | percent.dfy | `(part / whole) * 100` and its form capped at 100 |
| `TransactionForm` | transaction_form.dfy | the add-transaction form: validation, tags and category lists |
| `BudgetManager` | budget_manager.dfy | spent amounts, add/delete/update of budgets, and the budget cards |
| `BudgetOverview` | budget_overview.dfy | the dashboard budget card: status, colour, first four |
| `CategoryChart` | category_chart.dfy | per-category totals (a loop over a dictionary), shares, and the sort |
| `DashboardStats` | dashboard_stats.dfy | the current-month totals, savings, and net worth |
| `SpendingChart` | spending_chart.dfy | the 30-day series |
| `GoalsView` | goals_view.dfy | add/delete of goals, progress, days left, "Overdue", remaining |
| `GoalsProgress` | goals_progress.dfy | the dashboard goals card: first three and the priority badge |
| `App` | app.dfy | the application state as a class over a `Storage` class, with load and save per key |
| `Scenarios` | scenarios.dfy | worked examples across several modules |

Conventions:

- Amounts are `real`.
- A date is a day number, with 0 for 1970-01-01, in UTC.
- Ids are parameters that the caller must supply fresh.
- `parseFloat` is a parameter `parse: string -> real`.
- The clock is injected: `today` is a day number, and `nowMs` is milliseconds since the epoch.
- Division by a budget limit or a goal target is not guarded in the source, so the model requires `limit > 0` or `target > 0` where it divides.

Where the code is looser than its declared types, the model follows the code:

- The code does not guard those divisions.
- Loading does not recover from unparseable stored data.
- Budgets are created with only an id, category, limit and spent. So `period` and `alertThreshold` are `Option`, and a budget made in the budget manager is never shown as a warning on the dashboard (`BudgetOverview.AddedBudgetNeverWarns`).
- The stored `spent` is fixed when the budget is added. The dashboard reads it and does not recompute it (`BudgetOverview.StoredSpentGoesStale`, `Scenarios.RentOverrun`).

## Model

| member | source | states |
|---|---|---|
| Types.Stamp | src/App.tsx:80-83 | the new transaction carries the id and every supplied field unchanged (un-stamping gives back the draft) |
| Folds.Filter | src/components/CategoryChart.tsx:9 | the result holds exactly the elements satisfying the predicate and is no longer than the input |
| Folds.FilterAppend | src/components/CategoryChart.tsx:9 | filtering keeps order: it distributes over concatenation |
| Folds.FilterNone | src/components/dashboard/SpendingChart.tsx:18 | a filter that matches no element gives the empty list |
| Folds.SumAmounts | src/components/dashboard/DashboardStats.tsx:19-21 | the summing `reduce` starts from 0 and is non-negative when every amount is |
| Folds.SumAppend | src/components/dashboard/DashboardStats.tsx:19-21 | the sum of amounts is additive over concatenation |
| Folds.IncomePlusExpenses | src/components/dashboard/DashboardStats.tsx:19-25 | income sum plus expense sum is the sum of all amounts, because the type is binary |
| Folds.FilterNoDuplicates | src/components/TransactionForm.tsx:82 | filtering a duplicate-free list keeps it duplicate-free |
| Folds.FilterUniqueBy | src/components/BudgetManager.tsx:57 | filtering keeps ids unique |
| Folds.CategoryAmountSnoc | src/components/BudgetManager.tsx:29-31 | one more transaction adds its amount to its own category's sum only |
| Calendar.DayOf | src/components/GoalsView.tsx:208 | an instant lies within the day it is assigned to |
| Calendar.CeilDiv | src/components/GoalsView.tsx:208 | `Math.ceil(a / b)` is the least integer whose multiple of b reaches a |
| Calendar.YearMonth | src/components/dashboard/DashboardStats.tsx:10-16 | every day has a month between 1 and 12 |
| Calendar.YearMonthStep | src/components/dashboard/DashboardStats.tsx:10-16 | the day after any day is in the same month or the next one (December is followed by January of the next year) |
| Calendar.YearMonthMonotone | src/components/dashboard/DashboardStats.tsx:10-16 | a later day is never in an earlier (year, month) |
| Calendar.MonthIsContiguous | src/components/dashboard/DashboardStats.tsx:13-16 | the days that `SameMonth` groups together form one unbroken run: a day between two days of a month is in that month |
| Calendar.EpochMonth | src/components/dashboard/DashboardStats.tsx:11-16 | the month/year conversion puts day 0 in January 1970, which anchors the all-days lemmas below to the real calendar |
| Percent.Percentage | src/components/dashboard/BudgetOverview.tsx:18 | the percentage reaches 100 exactly when part reaches whole, and is non-negative exactly when part is |
| Percent.CappedPercentage | src/components/dashboard/BudgetOverview.tsx:40 | the capped percentage is at most 100, is 100 exactly when part reaches whole, and otherwise equals the raw percentage |
| Percent.PercentageAtLeast | src/components/BudgetManager.tsx:67-72 | for a positive whole, the percentage reaches a threshold k exactly when 100 × part reaches k × whole |
| TransactionForm.InitialForm | src/components/TransactionForm.tsx:46-54 | the form starts as an expense with monthly frequency, not recurring, and with no tags and empty fields |
| TransactionForm.OfferedCategories | src/components/TransactionForm.tsx:21-40 | the offered list is duplicate-free and contains "Other"; it holds income categories exactly for an income |
| TransactionForm.Submit | src/components/TransactionForm.tsx:56-69 | nothing is emitted exactly when amount, category or description is empty; otherwise every field is carried, and a frequency is present exactly when recurring |
| TransactionForm.AddTag | src/components/TransactionForm.tsx:74-79 | a non-empty new tag is appended and the field cleared; otherwise the form is exactly as it was; only tags and the field can change; duplicate-freedom is kept |
| TransactionForm.RemoveTag | src/components/TransactionForm.tsx:81-83 | the tags become those different from the removed one, in their order (the filter); every occurrence goes; an absent tag changes nothing; duplicate-freedom is kept |
| TransactionForm.RemoveTagSplices | src/components/TransactionForm.tsx:81-83 | removing a tag that occurs once leaves the tags before it followed by the tags after it |
| TransactionForm.EditsKeepTagsDistinct | src/components/TransactionForm.tsx:74-83 | any sequence of add/remove edits keeps a duplicate-free tag list duplicate-free |
| TransactionForm.FreshFormTagsDistinct | src/components/TransactionForm.tsx:51 | from the freshly opened form, tags are never duplicated |
| BudgetManager.Spent | src/components/BudgetManager.tsx:28-32 | the spent amount is non-negative when every amount is, and 0 when no transaction is an expense of the category |
| BudgetManager.SpentEmpty | src/components/BudgetManager.tsx:28-32 | with no transactions nothing is spent |
| BudgetManager.SpentSnoc | src/components/BudgetManager.tsx:28-32 | a later transaction adds its amount exactly when it is an expense in the category |
| BudgetManager.SpentCons | src/components/BudgetManager.tsx:28-32 | the same for a transaction put first (as new transactions are) |
| BudgetManager.SpentAppend | src/components/BudgetManager.tsx:28-32 | the spent amount of a concatenation is the sum of the parts' spent amounts |
| BudgetManager.Displayed | src/components/BudgetManager.tsx:34-37 | same count and order; each budget keeps every field except spent, which is recomputed from transactions |
| BudgetManager.DisplayedIgnoresStoredSpent | src/components/BudgetManager.tsx:34-37 | the displayed list does not depend on stored spent values, and recomputing twice changes nothing |
| BudgetManager.AddBudget | src/components/BudgetManager.tsx:39-50 | rejected exactly when category or limit is empty; otherwise exactly one budget is appended with the computed spent, and ids stay unique |
| BudgetManager.DeleteBudget | src/components/BudgetManager.tsx:56-58 | every budget with the id goes and the others stay; an absent id is a no-op; ids stay unique |
| BudgetManager.DeleteBudgetIsFilter | src/components/BudgetManager.tsx:57 | deleting is filtering out the id, whether or not it occurs |
| BudgetManager.DeleteBudgetKeepsOrder | src/components/BudgetManager.tsx:57 | deletion keeps the relative order of the remaining budgets |
| BudgetManager.UpdateBudgetLimit | src/components/BudgetManager.tsx:60-63 | only the limit of matching budgets changes; length, order and all other fields are kept |
| BudgetManager.UpdateBudgetLimitProperties | src/components/BudgetManager.tsx:60-63 | the update keeps ids unique, is a no-op for an absent id, is idempotent, and leaves the displayed spent alone |
| BudgetManager.ProgressColor | src/components/BudgetManager.tsx:67-72 | red exactly at 100 % or more, yellow exactly from 80 % up to below 100 %, green below 80 % |
| BudgetManager.ProgressBackground | src/components/BudgetManager.tsx:74-79 | red background exactly at 100 % or more, yellow exactly from 80 % up to below 100 %, green below 80 % |
| BudgetManager.BackgroundMatchesColor | src/components/BudgetManager.tsx:74-79 | the card background uses the same thresholds as the bar colour |
| BudgetManager.CardOf | src/components/BudgetManager.tsx:153-224 | the bar width is the capped percentage and the colour is the progress colour; the width is at most 100; "Over Budget" shows exactly when spent > limit, and "remaining" exactly when limit > spent, never both |
| BudgetOverview.BudgetStatus | src/components/dashboard/BudgetOverview.tsx:17-22 | over exactly at 100 % or more; warning exactly below that and at or above the threshold; good otherwise |
| BudgetOverview.OverviewColor | src/components/dashboard/BudgetOverview.tsx:9-15 | rose exactly at 100 % or more; amber exactly below that and at or above a present threshold; emerald otherwise |
| BudgetOverview.ColorMatchesStatus | src/components/dashboard/BudgetOverview.tsx:10-22 | the bar colour and the status use the same thresholds |
| BudgetOverview.OverBeatsHighThreshold | src/components/dashboard/BudgetOverview.tsx:19-20 | over wins even when the alert threshold is above 100 |
| BudgetOverview.RowOf | src/components/dashboard/BudgetOverview.tsx:40-63 | the width is the capped percentage, so at most 100 and full exactly when over; remaining is limit − spent and is negative exactly when overspent |
| BudgetOverview.Overview | src/components/dashboard/BudgetOverview.tsx:39 | at most the first four budgets, in order, one row each |
| BudgetOverview.OverviewIgnoresLaterBudgets | src/components/dashboard/BudgetOverview.tsx:39 | budgets after the fourth never affect the card |
| BudgetOverview.AddedBudgetNeverWarns | src/components/dashboard/BudgetOverview.tsx:20 | a budget added by the budget manager has no threshold and is never a warning |
| BudgetOverview.StoredSpentGoesStale | src/components/dashboard/BudgetOverview.tsx:41 | a later expense raises the manager's spent figure but not the stored one the overview reads |
| CategoryChart.CategoriesExact | src/components/CategoryChart.tsx:11-14 | the dictionary keys are distinct, are exactly the categories that occur, and are empty exactly for no transactions |
| CategoryChart.TallyKeys | src/components/CategoryChart.tsx:11-14 | the accumulated dictionary has a key for exactly the categories that occur |
| CategoryChart.TallyValues | src/components/CategoryChart.tsx:11-14 | each entry of the accumulated dictionary is the sum of its category's amounts |
| CategoryChart.CategoryTotals | src/components/CategoryChart.tsx:9-14 | the loop's dictionary has exactly the expense categories as keys, each mapped to the budget manager's spent amount |
| CategoryChart.CategoriesDistinct | src/components/CategoryChart.tsx:11-14 | no category is listed twice among the dictionary keys |
| CategoryChart.SumOverIsAmountOver | src/components/CategoryChart.tsx:16 | summing the dictionary's values is summing the per-category amounts |
| CategoryChart.CategoriesCoverAll | src/components/CategoryChart.tsx:16 | the per-category amounts add up to the sum of all amounts |
| CategoryChart.SharesOf | src/components/CategoryChart.tsx:18-23 | one entry per key, in key order, with the key's total and percentage |
| CategoryChart.PercentagesScale | src/components/CategoryChart.tsx:22 | the percentages add up to (sum of totals / total) × 100 |
| CategoryChart.Insert | src/components/CategoryChart.tsx:24 | inserting into a sorted list keeps it sorted, adds exactly the one element, and keeps the rest |
| CategoryChart.InsertSum | src/components/CategoryChart.tsx:24 | inserting adds the element's percentage to the sum of percentages |
| CategoryChart.SortByAmount | src/components/CategoryChart.tsx:24 | the result is sorted by amount, largest first, and is a permutation of the input |
| CategoryChart.SortKeepsSum | src/components/CategoryChart.tsx:24 | sorting keeps the sum of percentages |
| CategoryChart.SortKeepsUnique | src/components/CategoryChart.tsx:24 | sorting keeps categories distinct |
| CategoryChart.CategoryBreakdown | src/components/CategoryChart.tsx:9-24 | total = sum of expense amounts; one entry per expense category, each with its spent amount and `amount/total*100` (0 when total is 0); sorted; percentages sum to 100 when total > 0; empty exactly when there are no expenses |
| CategoryChart.BreakdownTotals | src/components/CategoryChart.tsx:16-23 | the total is the sum of all expense amounts, and with a positive total the percentages add up to 100 |
| CategoryChart.ShownAreSpent | src/components/CategoryChart.tsx:9-24 | every category shown has an expense |
| CategoryChart.SpentAreShown | src/components/CategoryChart.tsx:9-24 | every category with an expense is shown |
| CategoryChart.BreakdownCategories | src/components/CategoryChart.tsx:9-24 | the categories shown are exactly the expense categories |
| CategoryChart.BreakdownAmounts | src/components/CategoryChart.tsx:18-23 | each entry's amount is its category's spent amount and its percentage is amount / total × 100, or 0 for a zero total |
| CategoryChart.BreakdownShape | src/components/CategoryChart.tsx:9-24 | the entries have distinct categories and there are none exactly when there is no expense |
| DashboardStats.ThisMonth | src/components/dashboard/DashboardStats.tsx:14-17 | exactly the transactions dated in today's month and year |
| DashboardStats.NetWorth | src/components/dashboard/DashboardStats.tsx:27 | the balance sum starts from 0 and is non-negative when every balance is |
| DashboardStats.NetWorthAppend | src/components/dashboard/DashboardStats.tsx:27 | net worth is additive over account lists |
| DashboardStats.MonthStats | src/components/dashboard/DashboardStats.tsx:19-28 | income is the sum of this month's income amounts and expenses the sum of this month's expense amounts (together the sum of this month's amounts), savings = income − expenses, and net worth is the balance sum |
| DashboardStats.MonthStatsSnoc | src/components/dashboard/DashboardStats.tsx:14-25 | one more transaction moves only the total of its type, by its amount, and only when it is dated this month |
| DashboardStats.OtherMonthsIgnored | src/components/dashboard/DashboardStats.tsx:14-17 | transactions of other months leave every card unchanged |
| SpendingChart.Last30Days | src/components/dashboard/SpendingChart.tsx:11-15 | 30 consecutive ascending days, the last being today |
| SpendingChart.EntryFor | src/components/dashboard/SpendingChart.tsx:17-31 | income + expenses is the sum over that day's transactions, and net = income − expenses |
| SpendingChart.ChartData | src/components/dashboard/SpendingChart.tsx:17 | exactly 30 entries, the i-th for the i-th day of the window |
| SpendingChart.ChartDays | src/components/dashboard/SpendingChart.tsx:11-15 | entry i is for day today − 29 + i, and the last entry is today |
| SpendingChart.QuietDay | src/components/dashboard/SpendingChart.tsx:19-25 | a day without transactions has all-zero figures and is still present |
| SpendingChart.EntrySnoc | src/components/dashboard/SpendingChart.tsx:18-25 | a transaction adds its amount to its own day's income or expenses, according to its type, and to no other day |
| SpendingChart.OtherDaysIgnored | src/components/dashboard/SpendingChart.tsx:18 | transactions dated on other days leave a day's entry unchanged |
| SpendingChart.OutsideWindowIgnored | src/components/dashboard/SpendingChart.tsx:18 | transactions dated outside the window change no entry |
| GoalsView.InitialGoalForm | src/components/GoalsView.tsx:12-19 | the form starts empty, with category savings and priority medium |
| GoalsView.AddGoal | src/components/GoalsView.tsx:21-36 | rejected exactly when title, amount or date is empty; otherwise one goal is appended with current amount 0 and the form's fields; ids stay unique |
| GoalsView.DeleteGoal | src/components/GoalsView.tsx:48-50 | every goal with the id goes and the others stay; an absent id is a no-op; ids stay unique |
| GoalsView.DeleteGoalIsFilter | src/components/GoalsView.tsx:49 | deleting is filtering out the id, whether or not it occurs |
| GoalsView.DeleteGoalKeepsOrder | src/components/GoalsView.tsx:49 | deletion keeps the relative order of the remaining goals |
| GoalsView.DeleteUndoesAdd | src/components/GoalsView.tsx:21-50 | deleting a just-added goal restores the list |
| GoalsView.DaysLeft | src/components/GoalsView.tsx:208 | the ceiling bounds of (target − now) / day, and a positive count exactly before the target day starts |
| GoalsView.DaysLeftCountsDays | src/components/GoalsView.tsx:208 | days left = target day − current day, whatever the time of day |
| GoalsView.Label | src/components/GoalsView.tsx:260 | "Overdue" exactly when days left ≤ 0; otherwise the count |
| GoalsView.OverdueFromTargetDay | src/components/GoalsView.tsx:208-260 | "Overdue" exactly from the target day on |
| GoalsView.Remaining | src/components/GoalsView.tsx:253 | remaining is target − current, unclamped, and positive exactly while below target |
| GoalsView.CardOf | src/components/GoalsView.tsx:205-260 | the percentage is the capped percentage (at most 100, non-negative for non-negative savings, 100 exactly when nothing remains); remaining is target − current; the label counts the days from today to the target day while that is positive and is "Overdue" from the target day on |
| GoalsView.Cards | src/components/GoalsView.tsx:205 | one card per goal, in order |
| GoalsProgress.Panel | src/components/dashboard/GoalsProgress.tsx:49-52 | at most the first three goals, in order, each with the same percentage and days-left label as on the goals page |
| GoalsProgress.PanelIsPrefixOfPage | src/components/dashboard/GoalsProgress.tsx:49 | the dashboard panel is the first three cards of the goals page |
| GoalsProgress.PanelIgnoresLaterGoals | src/components/dashboard/GoalsProgress.tsx:49 | goals after the third never reach the panel |
| GoalsProgress.PriorityBadge | src/components/dashboard/GoalsProgress.tsx:10-21 | high, medium and low each map to their own colour, and anything else to grey |
| GoalsProgress.PrioritiesGetDistinctBadges | src/components/dashboard/GoalsProgress.tsx:10-21 | the three priorities get three different badges, none of them grey |
| App.Storage.GetItem | src/App.tsx:40-43 | a value is returned exactly when the key is present, and it is the stored one |
| App.Storage.SetItem | src/App.tsx:64 | the key's value is replaced whole and the other keys are kept |
| App.SeedAccounts | src/App.tsx:14-36 | three accounts with ids "1", "2", "3", all in USD with positive balances |
| App.SeedNetWorth | src/App.tsx:14-36 | the seed accounts' net worth is 43471.25 |
| App.Prepend | src/App.tsx:79-85 | one longer, the stamped transaction at index 0, and the earlier ones after it in order |
| App.PrependKeepsIdsUnique | src/App.tsx:79-85 | with a fresh id, transaction ids stay unique |
| App.PrependRaisesSpent | src/App.tsx:84 | a new expense raises its category's spent amount by its amount, and no other category's |
| App.FinanceApp.constructor | src/App.tsx:11-36 | transactions, budgets and goals start empty, and accounts are the seed accounts |
| App.FinanceApp.SaveAll | src/App.tsx:63-77 | each collection is written whole under its own key |
| App.FinanceApp.Load | src/App.tsx:39-60 | each collection whose key holds a stored list of its kind is replaced by it; the others keep their values |
| App.FinanceApp.Mount | src/App.tsx:39-77 | a collection is replaced only when its key holds one; every collection is then mirrored; other keys are untouched |
| App.FinanceApp.AddTransaction | src/App.tsx:79-85 | the transactions become the prepended list, the other collections are unchanged, and the store mirrors the state; only the transactions key of the store is written, and every other key is kept |
| App.FinanceApp.UpdateBudgets | src/App.tsx:87-89 | the budgets are replaced wholesale, the others are unchanged, and the store mirrors the state; only the budgets key of the store is written, and every other key is kept |
| App.FinanceApp.UpdateGoals | src/App.tsx:91-93 | the goals are replaced wholesale, the others are unchanged, and the store mirrors the state; only the goals key of the store is written, and every other key is kept |
| App.Reload | src/App.tsx:39-77 | a restart over the same store comes back with exactly the collections held before |
| Scenarios.LunchThenBudget | src/components/BudgetManager.tsx:39-50 | a 50 lunch, then a 200 budget: spent 50, 25 %, good, green |
| Scenarios.RentOverrun | src/components/BudgetManager.tsx:153-221 | a 1000 rent budget, then a 1200 payment: spent 1200, raw 120 %, full red bar, "Over Budget", while the overview still says good |
| Scenarios.EmergencyFundOverdue | src/components/GoalsView.tsx:208-260 | a goal dated 2020-01-01, seen later: days left < 0 and "Overdue" |

## Left out

- Rendering, styling, icons and the recharts drawing of the 30-day chart: presentation only. The goals page's own priority badge (src/components/GoalsView.tsx:52-63) differs from the dashboard's only in a border class and is not modelled separately.
- JSON encoding of the store: a stored value is the collection itself. A key that holds something that is not a list of the right records is skipped on load. The source would instead set the collection to whatever `JSON.parse` returns, or throw on text that does not parse.
- Id generation by `Date.now().toString()`: ids are parameters, and each add requires a fresh one.
- Time zones and date strings: dates are UTC day numbers. The local-time `getMonth`/`getFullYear`, `toISOString` and `toLocaleDateString` are not modelled, and a chart entry carries its day number instead of a label.
- SpendingChart.Last30Days: states the intended 30 consecutive days. The source builds the window with local `setDate` and then UTC `toISOString` (src/components/dashboard/SpendingChart.tsx:11-15). Across a daylight-saving change, when the current time is within an hour of UTC midnight, that window can skip or repeat a date; the model does not capture this.
- Floating point: amounts are exact reals. `parseFloat` yielding `NaN`, and `toFixed`/`toLocaleString` formatting, are not modelled.
- React effect scheduling: a save is modelled right after each change. On mount, the source briefly writes the initial values before the loaded ones; only the settled state is modelled.
- The order of JavaScript object keys (integer-like keys come first) in the category dictionary: the model keeps first-occurrence order. Since the entries are sorted afterwards, only the order of equal amounts could differ.
- CategoryChart.SortByAmount: the sort is proved sorted and a permutation, but its stability (the order of equal amounts) is not.
- Division by a zero limit or target: the source divides unguarded, and the model requires a positive divisor.
- The "change" figures and trends on the stat cards are constant strings, and are not modelled.
