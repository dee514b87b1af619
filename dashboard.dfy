// The dashboard's figures (pages/Dashboard.tsx): net worth, this month's
// income and expense, the recent-activity list and the category label.

module Dashboard {
  import opened Types
  import opened Seqs
  import Ledger

  function Balance(a: BankAccount): int { a.balance }

  /** Net worth: the balances of all accounts added up, 0 when there are none. */
  function TotalBalance(accounts: seq<BankAccount>): (r: int)
    ensures accounts == [] ==> r == 0
    ensures |accounts| == 1 ==> r == accounts[0].balance
    ensures (forall a :: a in accounts ==> a.balance >= 0) ==> r >= 0
  {
    SumSign(accounts, Balance);
    Sum(accounts, Balance)
  }

  function InMonth(now: YearMonth): Transaction -> bool {
    (t: Transaction) => MonthOf(t.date) == now
  }

  function OfKind(kind: TransactionType): Transaction -> bool {
    (t: Transaction) => t.kind == kind
  }

  /** The transactions dated in the month and year of `now`, in list order. */
  function MonthlyTransactions(txs: seq<Transaction>, now: YearMonth): (r: seq<Transaction>)
    ensures forall t :: t in r <==> t in txs && MonthOf(t.date) == now
  {
    Filter(txs, InMonth(now))
  }

  /** This month's income: the amounts of the income transactions dated in the month of `now`. */
  /** The month's transactions keep their list order: those of two lists joined are those of each, in turn. */
  lemma MonthlyTransactionsConcat(a: seq<Transaction>, b: seq<Transaction>, now: YearMonth)
    ensures MonthlyTransactions(a + b, now) == MonthlyTransactions(a, now) + MonthlyTransactions(b, now)
  {
    FilterConcat(a, b, InMonth(now));
  }

  function MonthlyIncome(txs: seq<Transaction>, now: YearMonth): (r: int)
    ensures (forall t :: t in txs && MonthOf(t.date) == now ==> t.kind != Income) ==> r == 0
    ensures (forall t :: t in txs && MonthOf(t.date) == now && t.kind == Income ==> t.amount >= 0) ==> r >= 0
  {
    var kept := Filter(MonthlyTransactions(txs, now), OfKind(Income));
    SumSign(kept, Amount);
    assert kept != [] ==> kept[0] in kept;
    Sum(kept, Amount)
  }

  /** This month's expense: the amounts of the expense transactions dated in the month of `now`. */
  function MonthlyExpense(txs: seq<Transaction>, now: YearMonth): (r: int)
    ensures (forall t :: t in txs && MonthOf(t.date) == now ==> t.kind != Expense) ==> r == 0
    ensures (forall t :: t in txs && MonthOf(t.date) == now && t.kind == Expense ==> t.amount >= 0) ==> r >= 0
  {
    var kept := Filter(MonthlyTransactions(txs, now), OfKind(Expense));
    SumSign(kept, Amount);
    assert kept != [] ==> kept[0] in kept;
    Sum(kept, Amount)
  }

  /** Every transaction is income or expense, so the two monthly figures add up to the month's total. */
  lemma IncomePlusExpense(txs: seq<Transaction>, now: YearMonth)
    ensures MonthlyIncome(txs, now) + MonthlyExpense(txs, now) == Sum(MonthlyTransactions(txs, now), Amount)
  {
    SumSplit(MonthlyTransactions(txs, now), OfKind(Income), OfKind(Expense), Amount);
  }

  /** Recording a transaction raises this month's income or expense by its amount when it is dated this month. */
  lemma AddTransactionMovesMonthlyFigures(s: AppState, t: Transaction, now: YearMonth)
    ensures var r := Ledger.AddTransaction(s, t);
      && MonthlyIncome(r.transactions, now) ==
         MonthlyIncome(s.transactions, now) + (if MonthOf(t.date) == now && t.kind == Income then t.amount else 0)
      && MonthlyExpense(r.transactions, now) ==
         MonthlyExpense(s.transactions, now) + (if MonthOf(t.date) == now && t.kind == Expense then t.amount else 0)
  {
    var txs := [t] + s.transactions;
    assert txs[1..] == s.transactions;
    var monthly := MonthlyTransactions(txs, now);
    if MonthOf(t.date) == now {
      assert monthly == [t] + MonthlyTransactions(s.transactions, now);
      assert monthly[1..] == MonthlyTransactions(s.transactions, now);
    } else {
      assert monthly == MonthlyTransactions(s.transactions, now);
    }
  }

  /** Adding an account raises net worth by its balance. */
  lemma AddAccountMovesNetWorth(s: AppState, account: BankAccount)
    ensures TotalBalance(Ledger.AddAccount(s, account).accounts) == TotalBalance(s.accounts) + account.balance
  {
    SumConcat(s.accounts, [account], Balance);
    assert [account][1..] == [];
  }

  /** Moving one id's balance by `delta` moves net worth by `delta` when exactly that account exists. */
  lemma {:induction false} AdjustMovesNetWorth(accounts: seq<BankAccount>, id: string, delta: int)
    requires Distinct(accounts, Ledger.AccountId)
    ensures TotalBalance(Ledger.Adjust(accounts, id, delta)) ==
            TotalBalance(accounts) + (if id in AccountIds(accounts) then delta else 0)
  {
    if accounts != [] {
      var tail := accounts[1..];
      var r := Ledger.Adjust(accounts, id, delta);
      assert r[1..] == Ledger.Adjust(tail, id, delta);
      assert Distinct(tail, Ledger.AccountId) by {
        forall i, j | 0 <= i < j < |tail|
          ensures Ledger.AccountId(tail[i]) != Ledger.AccountId(tail[j])
        {
          assert tail[i] == accounts[i + 1] && tail[j] == accounts[j + 1];
        }
      }
      AdjustMovesNetWorth(tail, id, delta);
      assert AccountIds(accounts) == {accounts[0].id} + AccountIds(tail) by {
        assert accounts == [accounts[0]] + tail;
      }
      if accounts[0].id == id {
        forall a | a in tail
          ensures a.id != id
        {
          var j :| 0 <= j < |tail| && tail[j] == a;
          assert Ledger.AccountId(accounts[0]) != Ledger.AccountId(accounts[j + 1]);
        }
      }
    }
  }

  /** With unique account ids, recording `t` moves net worth by its signed amount, or not at all if its account is missing. */
  lemma AddTransactionMovesNetWorth(s: AppState, t: Transaction)
    requires Distinct(s.accounts, Ledger.AccountId)
    ensures TotalBalance(Ledger.AddTransaction(s, t).accounts) ==
            TotalBalance(s.accounts) + (if t.accountId in AccountIds(s.accounts) then Ledger.Change(t) else 0)
  {
    AdjustMovesNetWorth(s.accounts, t.accountId, Ledger.Change(t));
  }

  /** With unique account ids, deleting a recorded transaction moves net worth back by its signed amount. */
  lemma DeleteTransactionMovesNetWorth(s: AppState, id: string)
    requires Ledger.WellFormed(s)
    requires id in Ledger.TransactionIds(s.transactions)
    ensures TotalBalance(Ledger.DeleteTransaction(s, id).accounts) ==
            TotalBalance(s.accounts) - Ledger.Change(Ledger.FindTransaction(s.transactions, id).value)
  {
    var t := Ledger.FindTransaction(s.transactions, id).value;
    assert t in s.transactions;
    AdjustMovesNetWorth(s.accounts, t.accountId, Ledger.ReverseChange(t));
  }

  /** The recent-activity list: the first five transactions, or all of them when there are fewer. */
  function RecentTransactions(txs: seq<Transaction>): (r: seq<Transaction>)
    ensures |r| == if |txs| < 5 then |txs| else 5
    ensures r == txs[..|r|]
  {
    if |txs| < 5 then txs else txs[..5]
  }

  /** The label shown for a category id that names no category, or a category with an empty name. */
  const Uncategorised: string := "未分類"

  function HasCategoryId(id: string): Category -> bool {
    (c: Category) => c.id == id
  }

  /** The name of the first category with id `id`, falling back to Uncategorised. */
  function CategoryName(categories: seq<Category>, id: string): (r: string)
    ensures (forall c :: c in categories ==> c.id != id) ==> r == Uncategorised
    ensures r == Uncategorised || exists c :: c in categories && c.id == id && c.name == r
    ensures r != ""
    ensures forall k :: 0 <= k < |categories| && categories[k].id == id && (forall j :: 0 <= j < k ==> categories[j].id != id) ==>
      r == (if categories[k].name != "" then categories[k].name else Uncategorised)
  {
    match Find(categories, HasCategoryId(id))
    case None => Uncategorised
    case Some(c) => if c.name != "" then c.name else Uncategorised
  }
}
