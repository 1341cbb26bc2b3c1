/** The application state (src/App.tsx): four collections, each mirrored
    under its own key in a key-value store.  The browser's `localStorage`
    becomes the `Storage` class; a stored value is kept as the collection
    itself rather than as JSON text. */
module App {
  import opened Wrappers
  import opened Types
  import opened Folds
  import opened BudgetManager
  import opened DashboardStats

  const TransactionsKey: string := "financeHub_transactions"
  const BudgetsKey: string := "financeHub_budgets"
  const GoalsKey: string := "financeHub_goals"
  const AccountsKey: string := "financeHub_accounts"

  /** What may be stored under a key. */
  datatype Stored =
    | StoredTransactions(savedTransactions: seq<Transaction>)
    | StoredBudgets(savedBudgets: seq<Budget>)
    | StoredGoals(savedGoals: seq<Goal>)
    | StoredAccounts(savedAccounts: seq<Account>)

  /** A key-value store that outlives the application. */
  class Storage {
    var entries: map<string, Stored>

    constructor(initial: map<string, Stored>)
      ensures entries == initial
    {
      entries := initial;
    }

    /** `getItem`: the value under `key`, if there is one. */
    function GetItem(key: string): (r: Option<Stored>)
      reads this
      ensures r.Some? <==> key in entries
      ensures r.Some? ==> r.value == entries[key]
    {
      if key in entries then Some(entries[key]) else None
    }

    /** `setItem`: `value` replaces whatever was under `key`. */
    method SetItem(key: string, value: Stored)
      modifies this
      ensures entries == old(entries)[key := value]
    {
      entries := entries[key := value];
    }
  }

  /** The three accounts the application starts with. */
  function SeedAccounts(): (accs: seq<Account>)
    ensures |accs| == 3
    ensures accs[0].id == "1" && accs[1].id == "2" && accs[2].id == "3"
    ensures forall a :: a in accs ==> a.currency == "USD" && a.balance > 0.0
  {
    [ Account("1", "Main Checking", Checking, 5420.50, "USD"),
      Account("2", "Savings Account", SavingsAccount, 12750.00, "USD"),
      Account("3", "Investment Portfolio", InvestmentAccount, 25300.75, "USD") ]
  }

  /** The seed accounts are worth 43471.25 together. */
  lemma SeedNetWorth()
    ensures NetWorth(SeedAccounts()) == 43471.25
  {
    var accs := SeedAccounts();
    assert accs[..2][..1][..0] == [];
    assert NetWorth(accs[..1]) == 5420.50;
    assert NetWorth(accs[..2]) == 5420.50 + 12750.00;
    assert accs[..3] == accs;
  }

  /** `[newTransaction, ...prev]`: the new transaction, stamped with its id,
      goes first and the earlier ones follow in their order. */
  function Prepend(ts: seq<Transaction>, draft: TransactionDraft, id: string): (r: seq<Transaction>)
    ensures |r| == |ts| + 1
    ensures r[0].id == id && Unstamp(r[0]) == draft
    ensures r[1..] == ts
  {
    [Stamp(draft, id)] + ts
  }

  function TransactionId(t: Transaction): string
  {
    t.id
  }

  /** With a fresh id, prepending keeps the transaction ids distinct. */
  lemma PrependKeepsIdsUnique(ts: seq<Transaction>, draft: TransactionDraft, id: string)
    requires UniqueBy(ts, TransactionId)
    requires forall t :: t in ts ==> t.id != id
    ensures UniqueBy(Prepend(ts, draft, id), TransactionId)
  {
    var r := Prepend(ts, draft, id);
    forall i, j | 0 <= i < j < |r| ensures r[i].id != r[j].id {
      if i > 0 {
        assert r[i] == ts[i - 1] && r[j] == ts[j - 1];
      } else {
        assert r[j] == ts[j - 1] && ts[j - 1] in ts;
      }
    }
  }

  /** A new expense raises the spent amount of its own category, as the
      budget manager computes it, by its amount, and no other category's. */
  lemma PrependRaisesSpent(ts: seq<Transaction>, draft: TransactionDraft, id: string, c: string)
    ensures Spent(Prepend(ts, draft, id), c) ==
            Spent(ts, c) + (if draft.kind == Expense && draft.category == c then draft.amount else 0.0)
  {
    SpentCons(Stamp(draft, id), ts, c);
  }

  /** The application: its four collections and the store they are
      mirrored to. */
  class FinanceApp {
    var transactions: seq<Transaction>
    var budgets: seq<Budget>
    var goals: seq<Goal>
    var accounts: seq<Account>
    const storage: Storage

    /** Every collection is stored, whole, under its own key. */
    ghost predicate Mirrored()
      reads this, storage
    {
      storage.entries == storage.entries[TransactionsKey := StoredTransactions(transactions)]
                                        [BudgetsKey := StoredBudgets(budgets)]
                                        [GoalsKey := StoredGoals(goals)]
                                        [AccountsKey := StoredAccounts(accounts)]
    }

    /** The state before anything is loaded. */
    constructor(store: Storage)
      ensures storage == store
      ensures transactions == [] && budgets == [] && goals == []
      ensures accounts == SeedAccounts()
    {
      storage := store;
      transactions := [];
      budgets := [];
      goals := [];
      accounts := SeedAccounts();
    }

    /** The save effects: each collection written under its key. */
    method SaveAll()
      modifies storage
      ensures storage.entries == old(storage.entries)[TransactionsKey := StoredTransactions(transactions)]
                                                     [BudgetsKey := StoredBudgets(budgets)]
                                                     [GoalsKey := StoredGoals(goals)]
                                                     [AccountsKey := StoredAccounts(accounts)]
      ensures Mirrored()
    {
      storage.SetItem(TransactionsKey, StoredTransactions(transactions));
      storage.SetItem(BudgetsKey, StoredBudgets(budgets));
      storage.SetItem(GoalsKey, StoredGoals(goals));
      storage.SetItem(AccountsKey, StoredAccounts(accounts));
    }

    /** The mount effects: a collection is replaced by what is stored under
      its key when there is something there, and otherwise keeps its value;
      then every collection is saved. */
    method Mount()
      modifies this, storage
      ensures var e := old(storage.entries);
        && transactions == (if TransactionsKey in e && e[TransactionsKey].StoredTransactions?
                            then e[TransactionsKey].savedTransactions else old(transactions))
        && budgets == (if BudgetsKey in e && e[BudgetsKey].StoredBudgets?
                       then e[BudgetsKey].savedBudgets else old(budgets))
        && goals == (if GoalsKey in e && e[GoalsKey].StoredGoals?
                     then e[GoalsKey].savedGoals else old(goals))
        && accounts == (if AccountsKey in e && e[AccountsKey].StoredAccounts?
                        then e[AccountsKey].savedAccounts else old(accounts))
      ensures Mirrored()
      ensures forall k :: k != TransactionsKey && k != BudgetsKey && k != GoalsKey && k != AccountsKey ==>
        (k in storage.entries <==> k in old(storage.entries)) &&
        (k in storage.entries ==> storage.entries[k] == old(storage.entries)[k])
    {
      Load();
      SaveAll();
    }

    /** The load effect: each collection whose key holds one is replaced. */
    method Load()
      modifies this
      ensures var e := storage.entries;
        && transactions == (if TransactionsKey in e && e[TransactionsKey].StoredTransactions?
                            then e[TransactionsKey].savedTransactions else old(transactions))
        && budgets == (if BudgetsKey in e && e[BudgetsKey].StoredBudgets?
                       then e[BudgetsKey].savedBudgets else old(budgets))
        && goals == (if GoalsKey in e && e[GoalsKey].StoredGoals?
                     then e[GoalsKey].savedGoals else old(goals))
        && accounts == (if AccountsKey in e && e[AccountsKey].StoredAccounts?
                        then e[AccountsKey].savedAccounts else old(accounts))
    {
      var saved := storage.GetItem(TransactionsKey);
      if saved.Some? && saved.value.StoredTransactions? {
        transactions := saved.value.savedTransactions;
      }
      saved := storage.GetItem(BudgetsKey);
      if saved.Some? && saved.value.StoredBudgets? {
        budgets := saved.value.savedBudgets;
      }
      saved := storage.GetItem(GoalsKey);
      if saved.Some? && saved.value.StoredGoals? {
        goals := saved.value.savedGoals;
      }
      saved := storage.GetItem(AccountsKey);
      if saved.Some? && saved.value.StoredAccounts? {
        accounts := saved.value.savedAccounts;
      }
    }

    /** `handleAddTransaction`: the new transaction goes first, the other
      collections stay, and the store follows. */
    method AddTransaction(draft: TransactionDraft, id: string)
      requires Mirrored()
      requires forall t :: t in transactions ==> t.id != id
      modifies this, storage
      ensures transactions == Prepend(old(transactions), draft, id)
      ensures budgets == old(budgets) && goals == old(goals) && accounts == old(accounts)
      ensures storage.entries == old(storage.entries)[TransactionsKey := StoredTransactions(transactions)]
      ensures Mirrored()
    {
      transactions := Prepend(transactions, draft, id);
      storage.SetItem(TransactionsKey, StoredTransactions(transactions));
    }

    /** `handleUpdateBudgets`: the budgets are replaced wholesale. */
    method UpdateBudgets(newBudgets: seq<Budget>)
      requires Mirrored()
      modifies this, storage
      ensures budgets == newBudgets
      ensures transactions == old(transactions) && goals == old(goals) && accounts == old(accounts)
      ensures storage.entries == old(storage.entries)[BudgetsKey := StoredBudgets(budgets)]
      ensures Mirrored()
    {
      budgets := newBudgets;
      storage.SetItem(BudgetsKey, StoredBudgets(budgets));
    }

    /** `handleUpdateGoals`: the goals are replaced wholesale. */
    method UpdateGoals(newGoals: seq<Goal>)
      requires Mirrored()
      modifies this, storage
      ensures goals == newGoals
      ensures transactions == old(transactions) && budgets == old(budgets) && accounts == old(accounts)
      ensures storage.entries == old(storage.entries)[GoalsKey := StoredGoals(goals)]
      ensures Mirrored()
    {
      goals := newGoals;
      storage.SetItem(GoalsKey, StoredGoals(goals));
    }
  }

  /** A second start over the same store (a page reload) comes back with
      exactly the collections the first one held. */
  method Reload(app: FinanceApp) returns (next: FinanceApp)
    requires app.Mirrored()
    modifies app.storage
    ensures next.storage == app.storage && next.Mirrored()
    ensures next.transactions == app.transactions && next.budgets == app.budgets
    ensures next.goals == app.goals && next.accounts == app.accounts
  {
    next := new FinanceApp(app.storage);
    next.Mount();
  }
}
