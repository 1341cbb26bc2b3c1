/** The dashboard's goals card: the first three goals with their progress,
    their days-left label and a badge coloured by priority. */
module GoalsProgress {
  import opened Types
  import opened Folds
  import opened GoalsView

  /** `goals.slice(0, 3).map(...)`: the first three goals' cards, in order. */
  function Panel(goals: seq<Goal>, nowMs: int): (cs: seq<GoalCard>)
    requires forall i :: 0 <= i < Min(3, |goals|) ==> goals[i].targetAmount > 0.0
    ensures |cs| == Min(3, |goals|)
    ensures forall i :: 0 <= i < |cs| ==> cs[i] == CardOf(goals[i], nowMs)
  {
    var shown := goals[..Min(3, |goals|)];
    seq(|shown|, i requires 0 <= i < |shown| => CardOf(shown[i], nowMs))
  }

  /** The dashboard panel is the start of the goals page: the same cards,
      cut after the third. */
  lemma PanelIsPrefixOfPage(goals: seq<Goal>, nowMs: int)
    requires forall g :: g in goals ==> g.targetAmount > 0.0
    ensures Panel(goals, nowMs) == Cards(goals, nowMs)[..Min(3, |goals|)]
  {
  }

  /** Once three goals exist, goals added later do not reach the panel. */
  lemma PanelIgnoresLaterGoals(goals: seq<Goal>, more: seq<Goal>, nowMs: int)
    requires |goals| >= 3
    requires forall i :: 0 <= i < 3 ==> goals[i].targetAmount > 0.0
    ensures Panel(goals + more, nowMs) == Panel(goals, nowMs)
  {
    assert forall i :: 0 <= i < 3 ==> (goals + more)[i] == goals[i];
  }

  /** The colour family of a priority badge (`getPriorityColor`). */
  datatype Badge = RoseBadge | YellowBadge | EmeraldBadge | GrayBadge

  /** The badge for the priority as text: high, medium and low each have
      their own colour, anything else is grey. */
  function PriorityBadge(priority: string): (b: Badge)
    ensures b == RoseBadge <==> priority == "high"
    ensures b == YellowBadge <==> priority == "medium"
    ensures b == EmeraldBadge <==> priority == "low"
    ensures b == GrayBadge <==> priority != "high" && priority != "medium" && priority != "low"
  {
    match priority
    case "high" => RoseBadge
    case "medium" => YellowBadge
    case "low" => EmeraldBadge
    case _ => GrayBadge
  }

  /** The text a goal's priority is stored as. */
  function PriorityName(p: Priority): string
  {
    match p
    case High => "high"
    case Medium => "medium"
    case Low => "low"
  }

  /** Every priority a goal can have gets a badge of its own, never the
      grey default. */
  lemma PrioritiesGetDistinctBadges(p: Priority, q: Priority)
    ensures PriorityBadge(PriorityName(p)) != GrayBadge
    ensures PriorityBadge(PriorityName(p)) == PriorityBadge(PriorityName(q)) <==> p == q
  {
  }
}
