/** The list operations every view is built from: `filter` and the summing
    `reduce((sum, t) => sum + t.amount, 0)`.  Both are defined on the last
    element, as a left fold visits it. */
module Folds {
  import opened Types

  /** The elements of `s` that satisfy `p`, in their original order. */
  function Filter<T(!new)>(s: seq<T>, p: T -> bool): (r: seq<T>)
    ensures |r| <= |s|
    ensures forall x :: x in r <==> x in s && p(x)
    decreases |s|
  {
    if s == [] then []
    else
      var n := |s| - 1;
      if p(s[n]) then Filter(s[..n], p) + [s[n]] else Filter(s[..n], p)
  }

  /** Sum of the amounts of `ts`. */
  function SumAmounts(ts: seq<Transaction>): (r: real)
    ensures (forall t :: t in ts ==> t.amount >= 0.0) ==> r >= 0.0
    ensures ts == [] ==> r == 0.0
    decreases |ts|
  {
    if ts == [] then 0.0 else SumAmounts(ts[..|ts| - 1]) + ts[|ts| - 1].amount
  }

  lemma FilterSnoc<T(!new)>(s: seq<T>, x: T, p: T -> bool)
    ensures Filter(s + [x], p) == if p(x) then Filter(s, p) + [x] else Filter(s, p)
  {
    assert (s + [x])[..|s|] == s;
  }

  /** A one-element list keeps its element exactly when it passes. */
  lemma FilterSingle<T(!new)>(x: T, p: T -> bool)
    ensures Filter([x], p) == if p(x) then [x] else []
  {
    assert [x][..0] == [];
  }

  /** Filtering distributes over concatenation: order is kept. */
  lemma {:induction false} FilterAppend<T(!new)>(a: seq<T>, b: seq<T>, p: T -> bool)
    ensures Filter(a + b, p) == Filter(a, p) + Filter(b, p)
    decreases |b|
  {
    if b == [] {
      assert a + b == a;
    } else {
      var n := |b| - 1;
      assert a + b == (a + b[..n]) + [b[n]];
      assert b == b[..n] + [b[n]];
      FilterSnoc(a + b[..n], b[n], p);
      FilterSnoc(b[..n], b[n], p);
      FilterAppend(a, b[..n], p);
    }
  }

  /** Filtering with a predicate that holds of every element changes nothing. */
  lemma {:induction false} FilterKeepsAll<T(!new)>(s: seq<T>, p: T -> bool)
    requires forall x :: x in s ==> p(x)
    ensures Filter(s, p) == s
    decreases |s|
  {
    if s != [] {
      var n := |s| - 1;
      assert s == s[..n] + [s[n]];
      FilterKeepsAll(s[..n], p);
    }
  }

  /** Filtering with a predicate that holds of no element leaves nothing. */
  lemma {:induction false} FilterNone<T(!new)>(s: seq<T>, p: T -> bool)
    requires forall x :: x in s ==> !p(x)
    ensures Filter(s, p) == []
    decreases |s|
  {
    if s != [] {
      var n := |s| - 1;
      assert s[n] in s;
      assert forall x :: x in s[..n] ==> x in s;
      FilterNone(s[..n], p);
    }
  }

  lemma {:induction false} SumAppend(a: seq<Transaction>, b: seq<Transaction>)
    ensures SumAmounts(a + b) == SumAmounts(a) + SumAmounts(b)
    decreases |b|
  {
    if b == [] {
      assert a + b == a;
    } else {
      var n := |b| - 1;
      assert (a + b)[..|a + b| - 1] == a + b[..n];
      SumAppend(a, b[..n]);
    }
  }

  lemma SumSingle(t: Transaction)
    ensures SumAmounts([t]) == t.amount
  {
    assert [t][..0] == [];
  }

  /** Because a transaction is either income or expense, the income sum and
      the expense sum together make up the sum of all amounts. */
  lemma {:induction false} IncomePlusExpenses(ts: seq<Transaction>)
    ensures SumAmounts(Filter(ts, IsIncome)) + SumAmounts(Filter(ts, IsExpense)) == SumAmounts(ts)
    decreases |ts|
  {
    if ts != [] {
      var n := |ts| - 1;
      assert ts == ts[..n] + [ts[n]];
      FilterSnoc(ts[..n], ts[n], IsIncome);
      FilterSnoc(ts[..n], ts[n], IsExpense);
      SumAppend(Filter(ts[..n], IsIncome), [ts[n]]);
      SumAppend(Filter(ts[..n], IsExpense), [ts[n]]);
      IncomePlusExpenses(ts[..n]);
    }
  }

  /** The smaller of two integers: the length of `s.slice(0, n)`. */
  function Min(a: int, b: int): int
  {
    if a < b then a else b
  }

  /** No value occurs twice in `s`. */
  predicate NoDuplicates<T(==)>(s: seq<T>)
  {
    forall i, j :: 0 <= i < j < |s| ==> s[i] != s[j]
  }

  /** A filtered duplicate-free sequence is duplicate-free. */
  lemma {:induction false} FilterNoDuplicates<T(!new)>(s: seq<T>, p: T -> bool)
    requires NoDuplicates(s)
    ensures NoDuplicates(Filter(s, p))
    decreases |s|
  {
    if s != [] {
      var n := |s| - 1;
      assert s == s[..n] + [s[n]];
      assert NoDuplicates(s[..n]);
      FilterNoDuplicates(s[..n], p);
      assert s[n] !in s[..n];
    }
  }

  /** No two elements of `s` share a key (for records: no two share an id). */
  predicate UniqueBy<T, K(==)>(s: seq<T>, key: T -> K)
  {
    forall i, j :: 0 <= i < j < |s| ==> key(s[i]) != key(s[j])
  }

  lemma {:induction false} FilterUniqueBy<T(!new), K>(s: seq<T>, key: T -> K, p: T -> bool)
    requires UniqueBy(s, key)
    ensures UniqueBy(Filter(s, p), key)
    decreases |s|
  {
    if s != [] {
      var n := |s| - 1;
      var r := Filter(s[..n], p);
      assert UniqueBy(s[..n], key);
      FilterUniqueBy(s[..n], key, p);
      forall x | x in r ensures key(x) != key(s[n]) {
        var k :| 0 <= k < n && s[..n][k] == x;
      }
    }
  }

  function InCategory(c: string): Transaction -> bool
  {
    (t: Transaction) => t.category == c
  }

  /** Sum of the amounts of the transactions of `ts` in category `c`. */
  function CategoryAmount(ts: seq<Transaction>, c: string): real
  {
    SumAmounts(Filter(ts, InCategory(c)))
  }

  lemma CategoryAmountSnoc(ts: seq<Transaction>, t: Transaction, c: string)
    ensures CategoryAmount(ts + [t], c) ==
            CategoryAmount(ts, c) + (if t.category == c then t.amount else 0.0)
  {
    FilterSnoc(ts, t, InCategory(c));
    SumAppend(Filter(ts, InCategory(c)), [t]);
  }
}
