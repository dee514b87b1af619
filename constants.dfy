// The seed snapshot: the default categories and the sample accounts and
// transactions that a new session starts from.

module Constants {
  import opened Types

  const DefaultCategories: seq<Category> := [
    Category("1", "Food & Dining", Expense, "#F87171"),
    Category("2", "Transportation", Expense, "#60A5FA"),
    Category("3", "Housing", Expense, "#34D399"),
    Category("4", "Entertainment", Expense, "#A78BFA"),
    Category("5", "Salary", Income, "#10B981"),
    Category("6", "Investment", Income, "#FBBF24"),
    Category("7", "Shopping", Expense, "#EC4899"),
    Category("8", "Healthcare", Expense, "#F472B6")
  ]

  const MockAccounts: seq<BankAccount> := [
    BankAccount("acc1", "Main Savings", 50000, Savings, "TWD"),
    BankAccount("acc2", "Credit Card", -1200, CreditCard, "TWD")
  ]

  // Month 11 is December: the seed dates are 5-8 December 2023.
  const MockTransactions: seq<Transaction> := [
    Transaction("t1", "acc1", "5", 65000, Income, Date(2023, 11, 5), "Monthly Salary"),
    Transaction("t2", "acc1", "1", 150, Expense, Date(2023, 11, 6), "Lunch"),
    Transaction("t3", "acc2", "7", 2500, Expense, Date(2023, 11, 7), "New Shoes"),
    Transaction("t4", "acc1", "2", 50, Expense, Date(2023, 11, 8), "MRT Fare")
  ]

  /** The snapshot a session starts with, for whatever user (or none) it was restored with. */
  function InitialState(user: Option<User>): (s: AppState)
    ensures s.user == user
    ensures |s.accounts| == 2 && |s.transactions| == 4 && |s.categories| == 8
  {
    AppState(user, MockAccounts, MockTransactions, DefaultCategories)
  }

  lemma DefaultCategoryIdsDistinct()
    ensures forall i, j :: 0 <= i < j < |DefaultCategories| ==> DefaultCategories[i].id != DefaultCategories[j].id
  {
  }

  lemma MockTransactionsNameMockAccounts()
    ensures forall t :: t in MockTransactions ==> t.accountId in AccountIds(MockAccounts)
  {
    assert MockAccounts[0].id == "acc1" && MockAccounts[1].id == "acc2";
  }

  lemma MockTransactionsMatchCategoryType()
    ensures forall t :: t in MockTransactions ==>
      exists c :: c in DefaultCategories && c.id == t.categoryId && c.kind == t.kind
  {
    assert DefaultCategories[0].id == "1" && DefaultCategories[1].id == "2";
    assert DefaultCategories[4].id == "5" && DefaultCategories[6].id == "7";
  }

  lemma MockAmountsPositive()
    ensures forall t :: t in MockTransactions ==> t.amount > 0
  {
  }
}
