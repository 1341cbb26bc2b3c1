/** The add-transaction form (src/components/TransactionForm.tsx): its
    initial state, the category lists it offers, the tag editor and the
    validation that decides whether a submission produces a transaction. */
module TransactionForm {
  import opened Wrappers
  import opened Types
  import opened Folds

  const ExpenseCategories: seq<string> := [
    "Food & Dining", "Transportation", "Shopping", "Entertainment",
    "Bills & Utilities", "Healthcare", "Education", "Travel", "Other"]

  const IncomeCategories: seq<string> := [
    "Salary", "Freelance", "Business", "Investments", "Bonus", "Other"]

  /** The form's state.  `amount` is the text of the amount field; `newTag`
      is the text of the tag field. */
  datatype Form = Form(
    kind: TransactionKind,
    amount: string,
    category: string,
    description: string,
    date: Day,
    tags: seq<string>,
    newTag: string,
    recurring: bool,
    frequency: Frequency)

  /** The form as it opens on day `today`. */
  function InitialForm(today: Day): (f: Form)
    ensures f.kind == Expense && f.frequency == Monthly && !f.recurring
    ensures f.tags == [] && f.newTag == ""
    ensures f.amount == "" && f.category == "" && f.description == "" && f.date == today
  {
    Form(Expense, "", "", "", today, [], "", false, Monthly)
  }

  /** The categories the form offers for a transaction of kind `kind`. */
  function OfferedCategories(kind: TransactionKind): (cs: seq<string>)
    ensures NoDuplicates(cs) && "Other" in cs
    ensures "Salary" in cs <==> kind == Income
  {
    if kind == Income then IncomeCategories else ExpenseCategories
  }

  /** Submitting the form: nothing is emitted when the amount, category or
      description is empty; otherwise the emitted draft carries the form's
      fields, the amount as `parse` reads it, and a frequency only for a
      recurring transaction. */
  function Submit(f: Form, parse: string -> real): (r: Option<TransactionDraft>)
    ensures r.None? <==> f.amount == "" || f.category == "" || f.description == ""
    ensures r.Some? ==>
      && r.value.kind == f.kind && r.value.amount == parse(f.amount)
      && r.value.category == f.category && r.value.description == f.description
      && r.value.date == f.date && r.value.tags == Some(f.tags)
      && r.value.recurring == Some(f.recurring)
    ensures r.Some? ==> (r.value.recurringFrequency.Some? <==> f.recurring)
    ensures r.Some? && f.recurring ==> r.value.recurringFrequency == Some(f.frequency)
  {
    if f.amount == "" || f.category == "" || f.description == "" then None
    else
      Some(TransactionDraft(
        f.kind, parse(f.amount), f.category, f.description, f.date,
        Some(f.tags), Some(f.recurring),
        if f.recurring then Some(f.frequency) else None))
  }

  /** Adding the typed tag: it is appended, and the tag field cleared, only
      when it is non-empty and not yet present; otherwise nothing changes. */
  function AddTag(f: Form): (g: Form)
    ensures f.newTag != "" && f.newTag !in f.tags ==> g.tags == f.tags + [f.newTag] && g.newTag == ""
    ensures !(f.newTag != "" && f.newTag !in f.tags) ==> g == f
    ensures f.newTag != "" ==> f.newTag in g.tags
    ensures NoDuplicates(f.tags) ==> NoDuplicates(g.tags)
    ensures g.(tags := f.tags, newTag := f.newTag) == f
  {
    if f.newTag != "" && f.newTag !in f.tags then
      f.(tags := f.tags + [f.newTag], newTag := "")
    else f
  }

  function DifferentFrom(tag: string): string -> bool
  {
    (x: string) => x != tag
  }

  /** Removing a tag drops every occurrence of it and keeps the other tags
      in their order. */
  function RemoveTag(f: Form, tag: string): (g: Form)
    ensures g.tags == Filter(f.tags, DifferentFrom(tag))
    ensures tag !in g.tags
    ensures forall x :: x in g.tags <==> x in f.tags && x != tag
    ensures tag !in f.tags ==> g == f
    ensures NoDuplicates(f.tags) ==> NoDuplicates(g.tags)
    ensures g.(tags := f.tags) == f
  {
    if tag !in f.tags then
      FilterKeepsAll(f.tags, DifferentFrom(tag));
      f
    else if NoDuplicates(f.tags) then
      FilterNoDuplicates(f.tags, DifferentFrom(tag));
      f.(tags := Filter(f.tags, DifferentFrom(tag)))
    else
      f.(tags := Filter(f.tags, DifferentFrom(tag)))
  }

  /** Removing a tag splices it out: the tags before it and after it stay,
      in their order. */
  lemma RemoveTagSplices(f: Form, before: seq<string>, tag: string, after: seq<string>)
    requires f.tags == before + [tag] + after
    requires tag !in before && tag !in after
    ensures RemoveTag(f, tag).tags == before + after
  {
    var p := DifferentFrom(tag);
    FilterAppend(before + [tag], after, p);
    FilterAppend(before, [tag], p);
    FilterKeepsAll(before, p);
    FilterKeepsAll(after, p);
    FilterNone([tag], p);
  }

  /** One edit of the tag list: typing a tag and adding it, or removing one. */
  datatype TagEdit = Add(tag: string) | Remove(tag: string)

  function ApplyEdit(f: Form, e: TagEdit): Form
  {
    match e
    case Add(t) => AddTag(f.(newTag := t))
    case Remove(t) => RemoveTag(f, t)
  }

  function ApplyEdits(f: Form, es: seq<TagEdit>): Form
    decreases |es|
  {
    if es == [] then f else ApplyEdits(ApplyEdit(f, es[0]), es[1..])
  }

  /** Any sequence of tag edits keeps a duplicate-free tag list so. */
  lemma {:induction false} EditsKeepTagsDistinct(f: Form, es: seq<TagEdit>)
    requires NoDuplicates(f.tags)
    ensures NoDuplicates(ApplyEdits(f, es).tags)
    decreases |es|
  {
    if es != [] {
      EditsKeepTagsDistinct(ApplyEdit(f, es[0]), es[1..]);
    }
  }

  /** Starting from a freshly opened form, the tags never hold a duplicate. */
  lemma FreshFormTagsDistinct(today: Day, es: seq<TagEdit>)
    ensures NoDuplicates(ApplyEdits(InitialForm(today), es).tags)
  {
    EditsKeepTagsDistinct(InitialForm(today), es);
  }
}
