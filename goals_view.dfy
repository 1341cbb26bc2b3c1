/** The goals page: adding a goal from the form, deleting one, and the
    progress, days-left and remaining figures of each goal card.  The clock
    is the injected instant `nowMs` (milliseconds since the epoch). */
module GoalsView {
  import opened Wrappers
  import opened Types
  import opened Folds
  import opened Calendar
  import opened Percent

  /** The add-goal form; an empty date input is `None`. */
  datatype GoalForm = GoalForm(
    title: string,
    targetAmount: string,
    targetDate: Option<Day>,
    category: GoalCategory,
    priority: Priority,
    description: string)

  /** The form as it starts and as it is reset after a successful add. */
  function InitialGoalForm(): (f: GoalForm)
    ensures f.title == "" && f.targetAmount == "" && f.targetDate.None? && f.description == ""
    ensures f.category == Savings && f.priority == Medium
  {
    GoalForm("", "", None, Savings, Medium, "")
  }

  function GoalId(g: Goal): string
  {
    g.id
  }

  /** `handleAddGoal`: rejected (None) when the title, amount or date is
      empty; otherwise one goal is appended with the new id, nothing saved
      towards it yet, and the form's other fields. */
  function AddGoal(goals: seq<Goal>, f: GoalForm, id: string, parse: string -> real): (r: Option<seq<Goal>>)
    requires forall g :: g in goals ==> g.id != id
    ensures r.None? <==> f.title == "" || f.targetAmount == "" || f.targetDate.None?
    ensures r.Some? ==>
      && |r.value| == |goals| + 1 && r.value[..|goals|] == goals
      && var g := r.value[|goals|];
         g.id == id && g.currentAmount == 0.0 && g.title == f.title
         && g.targetAmount == parse(f.targetAmount) && Some(g.targetDate) == f.targetDate
         && g.category == f.category && g.priority == f.priority && g.description == Some(f.description)
    ensures r.Some? && UniqueBy(goals, GoalId) ==> UniqueBy(r.value, GoalId)
  {
    if f.title == "" || f.targetAmount == "" || f.targetDate.None? then None
    else
      var g := Goal(id, f.title, parse(f.targetAmount), 0.0, f.targetDate.value,
                    f.category, f.priority, Some(f.description));
      Some(goals + [g])
  }

  function GoalIdIsNot(id: string): Goal -> bool
  {
    (g: Goal) => g.id != id
  }

  /** `handleDeleteGoal`: every goal with the id goes, the rest stay in
      order; an absent id changes nothing. */
  function DeleteGoal(goals: seq<Goal>, id: string): (r: seq<Goal>)
    ensures forall g :: g in r <==> g in goals && g.id != id
    ensures (forall g :: g in goals ==> g.id != id) ==> r == goals
    ensures UniqueBy(goals, GoalId) ==> UniqueBy(r, GoalId)
  {
    if forall g :: g in goals ==> g.id != id then FilterKeepsAll(goals, GoalIdIsNot(id)); goals
    else if UniqueBy(goals, GoalId) then
      FilterUniqueBy(goals, GoalId, GoalIdIsNot(id));
      Filter(goals, GoalIdIsNot(id))
    else Filter(goals, GoalIdIsNot(id))
  }

  /** Deleting is filtering out the id, whether or not it occurs. */
  lemma DeleteGoalIsFilter(goals: seq<Goal>, id: string)
    ensures DeleteGoal(goals, id) == Filter(goals, GoalIdIsNot(id))
  {
    if forall x :: x in goals ==> x.id != id {
      FilterKeepsAll(goals, GoalIdIsNot(id));
    }
  }

  /** Deleting keeps order: deleting from a concatenation deletes from each part. */
  lemma DeleteGoalKeepsOrder(a: seq<Goal>, b: seq<Goal>, id: string)
    ensures DeleteGoal(a + b, id) == DeleteGoal(a, id) + DeleteGoal(b, id)
  {
    FilterAppend(a, b, GoalIdIsNot(id));
    DeleteGoalIsFilter(a, id);
    DeleteGoalIsFilter(b, id);
    DeleteGoalIsFilter(a + b, id);
  }

  /** Deleting a goal that was just added restores the list. */
  lemma DeleteUndoesAdd(goals: seq<Goal>, f: GoalForm, id: string, parse: string -> real)
    requires forall g :: g in goals ==> g.id != id
    requires AddGoal(goals, f, id, parse).Some?
    ensures DeleteGoal(AddGoal(goals, f, id, parse).value, id) == goals
  {
    var added := AddGoal(goals, f, id, parse).value;
    var g := added[|goals|];
    assert added == goals + [g];
    DeleteGoalKeepsOrder(goals, [g], id);
    assert Filter([g], GoalIdIsNot(id)) == [] by {
      FilterNone([g], GoalIdIsNot(id));
    }
  }

  /** `daysLeft`: `Math.ceil((targetTime - nowTime) / dayLength)`. */
  function DaysLeft(targetDate: Day, nowMs: int): (d: int)
    ensures (d - 1) * MsPerDay < StartOf(targetDate) - nowMs <= d * MsPerDay
    ensures d > 0 <==> nowMs < StartOf(targetDate)
  {
    CeilDiv(StartOf(targetDate) - nowMs, MsPerDay)
  }

  /** The days left are the whole days from the current day to the target
      day: the time of day does not matter. */
  lemma DaysLeftCountsDays(targetDate: Day, nowMs: int)
    ensures DaysLeft(targetDate, nowMs) == targetDate - DayOf(nowMs)
  {
    var d := DaysLeft(targetDate, nowMs);
    var n := DayOf(nowMs);
    var k := targetDate - n;
    assert StartOf(targetDate) - nowMs <= k * MsPerDay;
    assert (k - 1) * MsPerDay < StartOf(targetDate) - nowMs;
    CeilUnique(d, k, StartOf(targetDate) - nowMs, MsPerDay);
  }

  /** Two integers that both satisfy the ceiling's bounds are equal. */
  lemma CeilUnique(d: int, k: int, a: int, b: int)
    requires b > 0
    requires (d - 1) * b < a <= d * b
    requires (k - 1) * b < a <= k * b
    ensures d == k
  {
    if d < k {
      assert false;
    } else if d > k {
      assert false;
    }
  }

  /** The label under a goal: a count of days, or "Overdue". */
  datatype DaysLabel = DaysToGo(days: int) | Overdue

  function Label(daysLeft: int): (l: DaysLabel)
    ensures l == Overdue <==> daysLeft <= 0
    ensures l.DaysToGo? ==> l.days == daysLeft
  {
    if daysLeft > 0 then DaysToGo(daysLeft) else Overdue
  }

  /** A goal is overdue from the start of its target day on, which is to
      say on the target day itself and afterwards. */
  lemma OverdueFromTargetDay(targetDate: Day, nowMs: int)
    ensures Label(DaysLeft(targetDate, nowMs)) == Overdue <==> targetDate <= DayOf(nowMs)
  {
    DaysLeftCountsDays(targetDate, nowMs);
  }

  /** Remaining is `target - current`, not clamped at zero. */
  function Remaining(g: Goal): (r: real)
    ensures r > 0.0 <==> g.currentAmount < g.targetAmount
    ensures r + g.currentAmount == g.targetAmount
  {
    g.targetAmount - g.currentAmount
  }

  /** What a goal card shows. */
  datatype GoalCard = GoalCard(goal: Goal, percentage: real, shown: DaysLabel, remaining: real)

  function CardOf(g: Goal, nowMs: int): (c: GoalCard)
    requires g.targetAmount > 0.0
    ensures c.goal == g
    ensures c.percentage == CappedPercentage(g.currentAmount, g.targetAmount)
    ensures c.remaining == Remaining(g)
    ensures c.shown == if g.targetDate > DayOf(nowMs) then DaysToGo(g.targetDate - DayOf(nowMs)) else Overdue
    ensures c.percentage <= 100.0
    ensures g.currentAmount >= 0.0 ==> c.percentage >= 0.0
    ensures c.percentage == 100.0 <==> c.remaining <= 0.0
    ensures c.shown == Overdue <==> g.targetDate <= DayOf(nowMs)
  {
    DaysLeftCountsDays(g.targetDate, nowMs);
    GoalCard(g, CappedPercentage(g.currentAmount, g.targetAmount),
             Label(DaysLeft(g.targetDate, nowMs)), Remaining(g))
  }

  /** The cards of the goals page, one per goal, in order. */
  function Cards(goals: seq<Goal>, nowMs: int): (cs: seq<GoalCard>)
    requires forall g :: g in goals ==> g.targetAmount > 0.0
    ensures |cs| == |goals|
    ensures forall i :: 0 <= i < |cs| ==> cs[i] == CardOf(goals[i], nowMs)
  {
    seq(|goals|, i requires 0 <= i < |goals| => CardOf(goals[i], nowMs))
  }
}
