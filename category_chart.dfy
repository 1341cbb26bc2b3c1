/** Spending by category (src/components/CategoryChart.tsx): the expense
    transactions grouped by category into a dictionary that is updated in
    place, the grand total, each category's share, and the list sorted by
    amount, largest first. */
module CategoryChart {
  import opened Types
  import opened Folds
  import opened BudgetManager

  /** The categories of `ts`, each once, in the order of first appearance
      (the key order of a dictionary filled from `ts`). */
  function Categories(ts: seq<Transaction>): seq<string>
    decreases |ts|
  {
    if ts == [] then []
    else
      var p := Categories(ts[..|ts| - 1]);
      var c := ts[|ts| - 1].category;
      if c in p then p else p + [c]
  }

  /** No category is listed twice. */
  lemma {:induction false} CategoriesDistinct(ts: seq<Transaction>)
    ensures NoDuplicates(Categories(ts))
    decreases |ts|
  {
    if ts != [] {
      CategoriesDistinct(ts[..|ts| - 1]);
    }
  }

  lemma {:induction false} CategoriesExact(ts: seq<Transaction>)
    ensures NoDuplicates(Categories(ts))
    ensures forall c :: c in Categories(ts) <==> exists t :: t in ts && t.category == c
    ensures Categories(ts) == [] <==> ts == []
    decreases |ts|
  {
    CategoriesDistinct(ts);
    if ts != [] {
      var n := |ts| - 1;
      assert ts == ts[..n] + [ts[n]];
      CategoriesExact(ts[..n]);
      forall c | c in Categories(ts) ensures exists t :: t in ts && t.category == c {
        if c in Categories(ts[..n]) {
          var t :| t in ts[..n] && t.category == c;
          assert t in ts;
        } else {
          assert ts[n] in ts;
        }
      }
    }
  }

  /** A category that never appears adds up to nothing. */
  lemma AbsentCategoryAmount(ts: seq<Transaction>, c: string)
    requires c !in Categories(ts)
    ensures CategoryAmount(ts, c) == 0.0
  {
    CategoriesExact(ts);
    FilterNone(ts, InCategory(c));
  }

  /** The dictionary that adding up `es` by category produces. */
  function Tally(es: seq<Transaction>): map<string, real>
    decreases |es|
  {
    if es == [] then map[]
    else
      var m := Tally(es[..|es| - 1]);
      var t := es[|es| - 1];
      m[t.category := (if t.category in m then m[t.category] else 0.0) + t.amount]
  }

  /** The tally has an entry for exactly the categories that occur. */
  lemma {:induction false} TallyKeys(es: seq<Transaction>)
    ensures forall c :: c in Tally(es) <==> c in Categories(es)
    decreases |es|
  {
    if es != [] {
      var p, t := es[..|es| - 1], es[|es| - 1];
      assert es == p + [t];
      TallyKeys(p);
      TallySnoc(p, t);
      CategoriesSnoc(p, t);
    }
  }

  /** Each entry of the tally is its category's total. */
  lemma {:induction false} TallyValues(es: seq<Transaction>)
    ensures forall c :: c in Tally(es) ==> Tally(es)[c] == CategoryAmount(es, c)
    decreases |es|
  {
    if es != [] {
      var p, t := es[..|es| - 1], es[|es| - 1];
      assert es == p + [t];
      TallyValues(p);
      TallyKeys(p);
      TallySnoc(p, t);
      if t.category !in Tally(p) {
        AbsentCategoryAmount(p, t.category);
      }
      forall c | c in Tally(es) ensures Tally(es)[c] == CategoryAmount(es, c) {
        CategoryAmountSnoc(p, t, c);
      }
    }
  }

  /** One more transaction adds its category at the end unless present. */
  lemma CategoriesSnoc(es: seq<Transaction>, t: Transaction)
    ensures Categories(es + [t]) ==
            if t.category in Categories(es) then Categories(es) else Categories(es) + [t.category]
  {
    assert (es + [t])[..|es|] == es;
  }

  /** One more transaction adds its amount into its category's entry. */
  lemma TallySnoc(es: seq<Transaction>, t: Transaction)
    ensures Tally(es + [t]) ==
            Tally(es)[t.category := (if t.category in Tally(es) then Tally(es)[t.category] else 0.0) + t.amount]
  {
    assert (es + [t])[..|es|] == es;
  }

  /** `categoryTotals`: one pass over the expense transactions that adds each
      amount into its category's entry of a dictionary, `0` standing for a
      missing entry.  `order` is the dictionary's key order. */
  method CategoryTotals(ts: seq<Transaction>) returns (order: seq<string>, totals: map<string, real>)
    ensures order == Categories(Filter(ts, IsExpense))
    ensures forall c :: c in totals <==> c in order
    ensures forall c :: c in totals ==> totals[c] == Spent(ts, c)
  {
    var expenses := Filter(ts, IsExpense);
    order, totals := [], map[];
    var i := 0;
    while i < |expenses|
      invariant 0 <= i <= |expenses|
      invariant order == Categories(expenses[..i])
      invariant totals == Tally(expenses[..i])
    {
      var t := expenses[i];
      assert expenses[..i + 1] == expenses[..i] + [t];
      TallyKeys(expenses[..i]);
      CategoriesSnoc(expenses[..i], t);
      TallySnoc(expenses[..i], t);
      var prior := if t.category in totals then totals[t.category] else 0.0;
      if t.category !in totals {
        order := order + [t.category];
      }
      totals := totals[t.category := prior + t.amount];
      i := i + 1;
    }
    assert expenses[..i] == expenses;
    TallyKeys(expenses);
    TallyValues(expenses);
  }

  /** Sum of the totals of the categories `cs`, in that order
      (`Object.values(categoryTotals).reduce(...)`). */
  function SumOver(cs: seq<string>, totals: map<string, real>): real
    requires forall c :: c in cs ==> c in totals
    decreases |cs|
  {
    if cs == [] then 0.0 else SumOver(cs[..|cs| - 1], totals) + totals[cs[|cs| - 1]]
  }

  /** Sum of `CategoryAmount(ts, c)` over the categories `cs`. */
  function AmountOver(cs: seq<string>, ts: seq<Transaction>): real
    decreases |cs|
  {
    if cs == [] then 0.0 else AmountOver(cs[..|cs| - 1], ts) + CategoryAmount(ts, cs[|cs| - 1])
  }

  lemma {:induction false} SumOverIsAmountOver(cs: seq<string>, totals: map<string, real>, ts: seq<Transaction>)
    requires forall c :: c in cs ==> c in totals && totals[c] == CategoryAmount(ts, c)
    ensures SumOver(cs, totals) == AmountOver(cs, ts)
    decreases |cs|
  {
    if cs != [] {
      var n := |cs| - 1;
      var c, p := cs[n], cs[..n];
      assert c in cs && totals[c] == CategoryAmount(ts, c);
      assert forall x :: x in p ==> x in cs;
      SumOverIsAmountOver(p, totals, ts);
      assert SumOver(cs, totals) == SumOver(p, totals) + totals[c];
      assert AmountOver(cs, ts) == AmountOver(p, ts) + CategoryAmount(ts, c);
    }
  }

  /** One more transaction raises the sum over distinct categories by its
      amount exactly when its category is among them. */
  lemma {:induction false} AmountOverSnoc(cs: seq<string>, ts: seq<Transaction>, t: Transaction)
    requires NoDuplicates(cs)
    ensures AmountOver(cs, ts + [t]) == AmountOver(cs, ts) + (if t.category in cs then t.amount else 0.0)
    decreases |cs|
  {
    if cs != [] {
      var n := |cs| - 1;
      assert cs == cs[..n] + [cs[n]];
      assert NoDuplicates(cs[..n]);
      AmountOverSnoc(cs[..n], ts, t);
      CategoryAmountSnoc(ts, t, cs[n]);
      assert t.category in cs <==> t.category in cs[..n] || t.category == cs[n];
      assert t.category == cs[n] ==> t.category !in cs[..n];
    }
  }

  /** The category totals add up to the sum of all the amounts. */
  lemma {:induction false} CategoriesCoverAll(ts: seq<Transaction>)
    ensures AmountOver(Categories(ts), ts) == SumAmounts(ts)
    decreases |ts|
  {
    if ts != [] {
      var n := |ts| - 1;
      var p := ts[..n];
      var t := ts[n];
      assert ts == p + [t];
      var cs := Categories(p);
      CategoriesDistinct(p);
      CategoriesSnoc(p, t);
      CategoriesCoverAll(p);
      AmountOverSnoc(cs, p, t);
      if t.category !in cs {
        assert (cs + [t.category])[..|cs|] == cs;
        AbsentCategoryAmount(p, t.category);
        CategoryAmountSnoc(p, t, t.category);
      }
    }
  }

  /** One entry of the chart. */
  datatype Share = Share(category: string, amount: real, percentage: real)

  function ShareOf(c: string, totals: map<string, real>, total: real): Share
    requires c in totals
  {
    Share(c, totals[c], if total > 0.0 then (totals[c] / total) * 100.0 else 0.0)
  }

  /** `Object.entries(categoryTotals).map(...)`, before sorting. */
  function SharesOf(cs: seq<string>, totals: map<string, real>, total: real): (r: seq<Share>)
    requires forall c :: c in cs ==> c in totals
    ensures |r| == |cs|
    ensures forall i :: 0 <= i < |r| ==> r[i] == ShareOf(cs[i], totals, total)
    decreases |cs|
  {
    if cs == [] then []
    else
      var n := |cs| - 1;
      assert forall c :: c in cs[..n] ==> c in cs;
      SharesOf(cs[..n], totals, total) + [ShareOf(cs[n], totals, total)]
  }

  function SumPercentages(s: seq<Share>): real
    decreases |s|
  {
    if s == [] then 0.0 else s[0].percentage + SumPercentages(s[1..])
  }

  lemma {:induction false} SumPercentagesSnoc(s: seq<Share>, x: Share)
    ensures SumPercentages(s + [x]) == SumPercentages(s) + x.percentage
    decreases |s|
  {
    if s == [] {
      assert [] + [x] == [x];
    } else {
      assert (s + [x])[1..] == s[1..] + [x];
      SumPercentagesSnoc(s[1..], x);
    }
  }

  /** With a positive total, the shares' percentages are the totals scaled
      by `100 / total`. */
  lemma {:induction false} PercentagesScale(cs: seq<string>, totals: map<string, real>, total: real)
    requires forall c :: c in cs ==> c in totals
    requires total > 0.0
    ensures SumPercentages(SharesOf(cs, totals, total)) == (SumOver(cs, totals) / total) * 100.0
    decreases |cs|
  {
    if cs != [] {
      var n := |cs| - 1;
      assert forall c :: c in cs[..n] ==> c in cs;
      PercentagesScale(cs[..n], totals, total);
      SumPercentagesSnoc(SharesOf(cs[..n], totals, total), ShareOf(cs[n], totals, total));
      assert SharesOf(cs, totals, total) == SharesOf(cs[..n], totals, total) + [ShareOf(cs[n], totals, total)];
      ScaleAdd(SumOver(cs[..n], totals), totals[cs[n]], total);
    }
  }

  lemma ScaleAdd(a: real, b: real, total: real)
    requires total > 0.0
    ensures (a / total) * 100.0 + (b / total) * 100.0 == ((a + b) / total) * 100.0
  {
  }

  lemma WholeIsHundred(total: real)
    requires total > 0.0
    ensures (total / total) * 100.0 == 100.0
  {
  }

  predicate SortedByAmount(s: seq<Share>)
  {
    forall i, j :: 0 <= i < j < |s| ==> s[i].amount >= s[j].amount
  }

  function ShareCategory(s: Share): string
  {
    s.category
  }

  /** Puts `x` into a list sorted largest-first, before the first entry
      that is not larger. */
  function Insert(x: Share, s: seq<Share>): (r: seq<Share>)
    requires SortedByAmount(s)
    ensures SortedByAmount(r)
    ensures |r| == |s| + 1
    ensures forall y :: y in r <==> y == x || y in s
    ensures multiset(r) == multiset(s) + multiset{x}
    decreases |s|
  {
    if s == [] || s[0].amount <= x.amount then [x] + s
    else
      var rest := Insert(x, s[1..]);
      assert s == [s[0]] + s[1..];
      HeadDominates(s);
      ConsSorted(s[0], rest);
      [s[0]] + rest
  }

  /** In a sorted list the head is at least as large as everything after it. */
  lemma HeadDominates(s: seq<Share>)
    requires SortedByAmount(s) && s != []
    ensures forall y :: y in s[1..] ==> s[0].amount >= y.amount
  {
    forall y | y in s[1..] ensures s[0].amount >= y.amount {
      var k :| 0 <= k < |s[1..]| && s[1..][k] == y;
      assert y == s[k + 1];
    }
  }

  /** A head at least as large as a sorted tail makes a sorted list. */
  lemma ConsSorted(h: Share, rest: seq<Share>)
    requires SortedByAmount(rest)
    requires forall y :: y in rest ==> h.amount >= y.amount
    ensures SortedByAmount([h] + rest)
  {
    var r := [h] + rest;
    forall i, j | 0 <= i < j < |r| ensures r[i].amount >= r[j].amount {
      assert r[j] == rest[j - 1] && r[j] in rest;
      if i > 0 {
        assert r[i] == rest[i - 1];
      }
    }
  }

  /** `.sort((a, b) => b.amount - a.amount)`: a permutation sorted by
      amount, largest first. */
  function SortByAmount(s: seq<Share>): (r: seq<Share>)
    ensures SortedByAmount(r)
    ensures |r| == |s| && forall y :: y in r <==> y in s
    ensures multiset(r) == multiset(s)
    decreases |s|
  {
    if s == [] then []
    else
      assert s == [s[0]] + s[1..];
      Insert(s[0], SortByAmount(s[1..]))
  }

  lemma {:induction false} InsertSum(x: Share, s: seq<Share>)
    requires SortedByAmount(s)
    ensures SumPercentages(Insert(x, s)) == x.percentage + SumPercentages(s)
    decreases |s|
  {
    if !(s == [] || s[0].amount <= x.amount) {
      InsertSum(x, s[1..]);
      assert ([s[0]] + Insert(x, s[1..]))[1..] == Insert(x, s[1..]);
    } else {
      assert ([x] + s)[1..] == s;
    }
  }

  /** Sorting leaves the sum of the percentages as it was. */
  lemma {:induction false} SortKeepsSum(s: seq<Share>)
    ensures SumPercentages(SortByAmount(s)) == SumPercentages(s)
    decreases |s|
  {
    if s != [] {
      SortKeepsSum(s[1..]);
      InsertSum(s[0], SortByAmount(s[1..]));
    }
  }

  /** In a list with distinct categories, the head's category is not
      repeated after it. */
  lemma HeadUnique(s: seq<Share>)
    requires UniqueBy(s, ShareCategory) && s != []
    ensures forall y :: y in s[1..] ==> y.category != s[0].category
  {
    forall y | y in s[1..] ensures y.category != s[0].category {
      var k :| 0 <= k < |s[1..]| && s[1..][k] == y;
      assert y == s[k + 1];
    }
  }

  /** A head whose category is not in a distinct-category tail keeps the
      categories distinct. */
  lemma ConsUnique(h: Share, rest: seq<Share>)
    requires UniqueBy(rest, ShareCategory)
    requires forall y :: y in rest ==> y.category != h.category
    ensures UniqueBy([h] + rest, ShareCategory)
  {
    var r := [h] + rest;
    forall i, j | 0 <= i < j < |r| ensures r[i].category != r[j].category {
      assert r[j] == rest[j - 1] && r[j] in rest;
      if i > 0 {
        assert r[i] == rest[i - 1];
      }
    }
  }

  lemma {:induction false} InsertUniqueBy(x: Share, s: seq<Share>)
    requires SortedByAmount(s) && UniqueBy(s, ShareCategory)
    requires forall y :: y in s ==> y.category != x.category
    ensures UniqueBy(Insert(x, s), ShareCategory)
    decreases |s|
  {
    if s == [] || s[0].amount <= x.amount {
      ConsUnique(x, s);
    } else {
      assert s == [s[0]] + s[1..];
      InsertUniqueBy(x, s[1..]);
      HeadUnique(s);
      ConsUnique(s[0], Insert(x, s[1..]));
    }
  }

  /** Sorting keeps the categories distinct. */
  lemma {:induction false} SortKeepsUnique(s: seq<Share>)
    requires UniqueBy(s, ShareCategory)
    ensures UniqueBy(SortByAmount(s), ShareCategory)
    decreases |s|
  {
    if s != [] {
      assert s == [s[0]] + s[1..];
      var rest := SortByAmount(s[1..]);
      SortKeepsUnique(s[1..]);
      HeadUnique(s);
      InsertUniqueBy(s[0], rest);
    }
  }

  /** The chart's data (`categoryData`) and the expenses total: one entry
      per category that has an expense, with that category's spent amount
      and its share of all expenses, sorted by amount; the shares make 100 %
      whenever the total is positive, and there are no entries exactly when
      there are no expenses. */
  method CategoryBreakdown(ts: seq<Transaction>) returns (data: seq<Share>, total: real)
    ensures total == SumAmounts(Filter(ts, IsExpense))
    ensures SortedByAmount(data) && UniqueBy(data, ShareCategory)
    ensures ShownCategories(data) == ExpenseCategories(ts)
    ensures forall s :: s in data ==>
      s.amount == Spent(ts, s.category) &&
      s.percentage == if total > 0.0 then (s.amount / total) * 100.0 else 0.0
    ensures total > 0.0 ==> SumPercentages(data) == 100.0
    ensures data == [] <==> forall t :: t in ts ==> t.kind != Expense
  {
    var order, totals := CategoryTotals(ts);
    total := SumOver(order, totals);
    data := SortByAmount(SharesOf(order, totals, total));
    BreakdownTotals(ts, order, totals, total);
    BreakdownCategories(ts, order, totals, total);
    BreakdownAmounts(ts, order, totals, total);
    BreakdownShape(ts, order, totals, total);
  }

  /** The unsorted entries are one per key of `order`, from `totals`. */
  lemma SharesMembers(order: seq<string>, totals: map<string, real>, total: real)
    requires forall c :: c in order ==> c in totals
    ensures forall s :: s in SharesOf(order, totals, total) ==>
      s.category in order && s == ShareOf(s.category, totals, total)
    ensures forall c :: c in order ==> exists s :: s in SharesOf(order, totals, total) && s.category == c
    ensures NoDuplicates(order) ==> UniqueBy(SharesOf(order, totals, total), ShareCategory)
  {
    var r := SharesOf(order, totals, total);
    forall c | c in order ensures exists s :: s in r && s.category == c {
      var i :| 0 <= i < |order| && order[i] == c;
      assert r[i] in r;
    }
  }

  /** The total is that of all expenses, and with a positive total the
      percentages of the sorted entries make 100. */
  lemma BreakdownTotals(ts: seq<Transaction>, order: seq<string>, totals: map<string, real>, total: real)
    requires Totalled(ts, order, totals)
    requires total == SumOver(order, totals)
    ensures total == SumAmounts(Filter(ts, IsExpense))
    ensures total > 0.0 ==> SumPercentages(SortByAmount(SharesOf(order, totals, total))) == 100.0
  {
    var expenses := Filter(ts, IsExpense);
    SumOverIsAmountOver(order, totals, expenses);
    CategoriesCoverAll(expenses);
    SortKeepsSum(SharesOf(order, totals, total));
    if total > 0.0 {
      PercentagesScale(order, totals, total);
      WholeIsHundred(total);
    }
  }

  /** What `CategoryTotals` returns for `ts`. */
  ghost predicate Totalled(ts: seq<Transaction>, order: seq<string>, totals: map<string, real>)
  {
    && order == Categories(Filter(ts, IsExpense))
    && (forall c :: c in totals <==> c in order)
    && (forall c :: c in totals ==> totals[c] == Spent(ts, c))
  }

  lemma CategoryOfMember(ts: seq<Transaction>, t: Transaction)
    requires t in ts
    ensures t.category in Categories(ts)
  {
    CategoriesExact(ts);
  }

  lemma MemberOfCategory(ts: seq<Transaction>, c: string) returns (t: Transaction)
    requires c in Categories(ts)
    ensures t in ts && t.category == c
  {
    CategoriesExact(ts);
    t :| t in ts && t.category == c;
  }

  lemma ShareOfKey(order: seq<string>, totals: map<string, real>, total: real, c: string) returns (s: Share)
    requires forall c :: c in order ==> c in totals
    requires c in order
    ensures s in SharesOf(order, totals, total) && s.category == c
  {
    var i :| 0 <= i < |order| && order[i] == c;
    s := SharesOf(order, totals, total)[i];
  }

  /** Every entry's category has an expense. */
  lemma EntryHasExpense(ts: seq<Transaction>, order: seq<string>, totals: map<string, real>, total: real, s: Share)
    returns (t: Transaction)
    requires Totalled(ts, order, totals)
    requires s in SortByAmount(SharesOf(order, totals, total))
    ensures t in ts && t.kind == Expense && t.category == s.category
  {
    SharesMembers(order, totals, total);
    t := MemberOfCategory(Filter(ts, IsExpense), s.category);
  }

  /** Every expense's category has an entry. */
  lemma ExpenseHasEntry(ts: seq<Transaction>, order: seq<string>, totals: map<string, real>, total: real, t: Transaction)
    returns (s: Share)
    requires Totalled(ts, order, totals)
    requires t in ts && t.kind == Expense
    ensures s in SortByAmount(SharesOf(order, totals, total)) && s.category == t.category
  {
    CategoryOfMember(Filter(ts, IsExpense), t);
    s := ShareOfKey(order, totals, total, t.category);
  }

  /** The categories on the chart. */
  function ShownCategories(data: seq<Share>): set<string>
  {
    set s | s in data :: s.category
  }

  /** The categories that have an expense. */
  function ExpenseCategories(ts: seq<Transaction>): set<string>
  {
    set t | t in ts && t.kind == Expense :: t.category
  }

  lemma ShownAreSpent(ts: seq<Transaction>, order: seq<string>, totals: map<string, real>, total: real)
    requires Totalled(ts, order, totals)
    ensures ShownCategories(SortByAmount(SharesOf(order, totals, total))) <= ExpenseCategories(ts)
  {
    var data := SortByAmount(SharesOf(order, totals, total));
    forall c | c in ShownCategories(data) ensures c in ExpenseCategories(ts) {
      var s :| s in data && s.category == c;
      var t := EntryHasExpense(ts, order, totals, total, s);
    }
  }

  lemma SpentAreShown(ts: seq<Transaction>, order: seq<string>, totals: map<string, real>, total: real)
    requires Totalled(ts, order, totals)
    ensures ExpenseCategories(ts) <= ShownCategories(SortByAmount(SharesOf(order, totals, total)))
  {
    forall c | c in ExpenseCategories(ts)
      ensures c in ShownCategories(SortByAmount(SharesOf(order, totals, total)))
    {
      var t :| t in ts && t.kind == Expense && t.category == c;
      var s := ExpenseHasEntry(ts, order, totals, total, t);
    }
  }

  /** The chart shows exactly the categories that have an expense. */
  lemma BreakdownCategories(ts: seq<Transaction>, order: seq<string>, totals: map<string, real>, total: real)
    requires Totalled(ts, order, totals)
    ensures ShownCategories(SortByAmount(SharesOf(order, totals, total))) == ExpenseCategories(ts)
  {
    ShownAreSpent(ts, order, totals, total);
    SpentAreShown(ts, order, totals, total);
  }

  /** Each entry carries its category's spent amount and share. */
  lemma BreakdownAmounts(ts: seq<Transaction>, order: seq<string>, totals: map<string, real>, total: real)
    requires Totalled(ts, order, totals)
    ensures forall s :: s in SortByAmount(SharesOf(order, totals, total)) ==>
      s.amount == Spent(ts, s.category) &&
      s.percentage == if total > 0.0 then (s.amount / total) * 100.0 else 0.0
  {
    var shares := SharesOf(order, totals, total);
    SharesMembers(order, totals, total);
    forall s | s in SortByAmount(shares)
      ensures s.amount == Spent(ts, s.category)
      ensures s.percentage == if total > 0.0 then (s.amount / total) * 100.0 else 0.0
    {
      assert s in shares;
      assert s == ShareOf(s.category, totals, total);
    }
  }

  /** The entries have distinct categories, and there are none exactly when
      there is no expense. */
  lemma BreakdownShape(ts: seq<Transaction>, order: seq<string>, totals: map<string, real>, total: real)
    requires Totalled(ts, order, totals)
    ensures var data := SortByAmount(SharesOf(order, totals, total));
            UniqueBy(data, ShareCategory) && (data == [] <==> forall t :: t in ts ==> t.kind != Expense)
  {
    var expenses := Filter(ts, IsExpense);
    CategoriesExact(expenses);
    SharesMembers(order, totals, total);
    SortKeepsUnique(SharesOf(order, totals, total));
    if expenses != [] {
      assert expenses[0] in expenses;
    }
  }
}
