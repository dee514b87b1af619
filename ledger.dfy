// The balance ledger: the five snapshot handlers of the session container
// (App.tsx, addAccount … deleteTransaction) as pure functions from the old
// snapshot to the new one, and what they preserve.

module Ledger {
  import opened Types
  import opened Seqs
  import Constants

  // ---------------------------------------------------------------------
  // Signed effects of a transaction on its account

  /** What recording `t` adds to its account's balance. */
  function Change(t: Transaction): (d: int)
    ensures t.kind == Income ==> d == t.amount
    ensures t.kind == Expense ==> d == -t.amount
    ensures t.amount > 0 ==> (d > 0 <==> t.kind == Income)
  {
    if t.kind == Income then t.amount else -t.amount
  }

  /** What deleting `t` adds to its account's balance: the opposite of recording it. */
  function ReverseChange(t: Transaction): (d: int)
    ensures d == -Change(t)
  {
    if t.kind == Income then -t.amount else t.amount
  }

  function AccountId(a: BankAccount): string { a.id }
  function TransactionId(t: Transaction): string { t.id }

  function HasAccountId(id: string): BankAccount -> bool { (a: BankAccount) => a.id == id }
  function HasTransactionId(id: string): Transaction -> bool { (t: Transaction) => t.id == id }
  function OnAccount(id: string): Transaction -> bool { (t: Transaction) => t.accountId == id }

  /** The ids of a list of transactions. */
  function TransactionIds(txs: seq<Transaction>): set<string> {
    set t | t in txs :: t.id
  }

  // ---------------------------------------------------------------------
  // Apply and Reverse: the balance update inside the two transaction handlers

  /** Moves the balance of every account whose id is `id` by `delta`; nothing else changes. */
  function Adjust(accounts: seq<BankAccount>, id: string, delta: int): (r: seq<BankAccount>)
    ensures |r| == |accounts|
    ensures forall i :: 0 <= i < |r| ==> r[i] == accounts[i].(balance := r[i].balance)
    ensures forall i :: 0 <= i < |r| ==>
      r[i].balance == accounts[i].balance + (if accounts[i].id == id then delta else 0)
  {
    seq(|accounts|, i requires 0 <= i < |accounts| =>
      if accounts[i].id == id then accounts[i].(balance := accounts[i].balance + delta) else accounts[i])
  }

  /** The accounts after recording `t`: its owner moves by Change(t), the others stay. */
  function Apply(accounts: seq<BankAccount>, t: Transaction): (r: seq<BankAccount>)
    ensures |r| == |accounts|
    ensures forall i :: 0 <= i < |r| && accounts[i].id != t.accountId ==> r[i] == accounts[i]
    ensures forall i :: 0 <= i < |r| && accounts[i].id == t.accountId ==>
      r[i] == accounts[i].(balance := accounts[i].balance + Change(t))
  {
    Adjust(accounts, t.accountId, Change(t))
  }

  /** The accounts after deleting `t`: its owner moves by ReverseChange(t), the others stay. */
  function Reverse(accounts: seq<BankAccount>, t: Transaction): (r: seq<BankAccount>)
    ensures |r| == |accounts|
    ensures forall i :: 0 <= i < |r| && accounts[i].id != t.accountId ==> r[i] == accounts[i]
    ensures forall i :: 0 <= i < |r| && accounts[i].id == t.accountId ==>
      r[i] == accounts[i].(balance := accounts[i].balance - Change(t))
  {
    Adjust(accounts, t.accountId, ReverseChange(t))
  }

  lemma ReverseUndoesApply(accounts: seq<BankAccount>, t: Transaction)
    ensures Reverse(Apply(accounts, t), t) == accounts
  {
    var r := Reverse(Apply(accounts, t), t);
    forall i | 0 <= i < |accounts|
      ensures r[i] == accounts[i]
    {
    }
  }

  lemma ApplyUndoesReverse(accounts: seq<BankAccount>, t: Transaction)
    ensures Apply(Reverse(accounts, t), t) == accounts
  {
    var r := Apply(Reverse(accounts, t), t);
    forall i | 0 <= i < |accounts|
      ensures r[i] == accounts[i]
    {
    }
  }

  /** A transaction whose account does not exist moves no balance. */
  lemma ApplyDangling(accounts: seq<BankAccount>, t: Transaction)
    requires t.accountId !in AccountIds(accounts)
    ensures Apply(accounts, t) == accounts
  {
    var r := Apply(accounts, t);
    forall i | 0 <= i < |accounts|
      ensures r[i] == accounts[i]
    {
      assert accounts[i].id in AccountIds(accounts);
    }
  }

  // ---------------------------------------------------------------------
  // The five handlers

  /** addAccount: appends the record; nothing else changes. */
  function AddAccount(s: AppState, account: BankAccount): (r: AppState)
    ensures |r.accounts| == |s.accounts| + 1
    ensures r.accounts[..|s.accounts|] == s.accounts && r.accounts[|s.accounts|] == account
    ensures r.transactions == s.transactions && r.categories == s.categories && r.user == s.user
  {
    s.(accounts := s.accounts + [account])
  }

  /** updateAccount: every account with the record's id becomes the record, balance included. */
  function UpdateAccount(s: AppState, account: BankAccount): (r: AppState)
    ensures |r.accounts| == |s.accounts|
    ensures forall i :: 0 <= i < |r.accounts| && s.accounts[i].id == account.id ==> r.accounts[i] == account
    ensures forall i :: 0 <= i < |r.accounts| && s.accounts[i].id != account.id ==> r.accounts[i] == s.accounts[i]
    ensures r.transactions == s.transactions && r.categories == s.categories && r.user == s.user
  {
    s.(accounts := seq(|s.accounts|, i requires 0 <= i < |s.accounts| =>
      if s.accounts[i].id == account.id then account else s.accounts[i]))
  }

  /** deleteAccount: drops the account and, in the same step, every transaction on it. */
  function DeleteAccount(s: AppState, id: string): (r: AppState)
    ensures forall a :: a in r.accounts <==> a in s.accounts && a.id != id
    ensures forall t :: t in r.transactions <==> t in s.transactions && t.accountId != id
    ensures r.categories == s.categories && r.user == s.user
  {
    s.(accounts := Filter(s.accounts, Not(HasAccountId(id))),
       transactions := Filter(s.transactions, Not(OnAccount(id))))
  }

  /**
   * The survivors keep their order and their repeats: deleting over two lists joined end to end
   * gives the survivors of the first list followed by those of the second.
   */
  lemma DeleteAccountConcat(s: AppState, id: string,
                            a: seq<BankAccount>, b: seq<BankAccount>, ta: seq<Transaction>, tb: seq<Transaction>)
    requires s.accounts == a + b && s.transactions == ta + tb
    ensures DeleteAccount(s, id).accounts ==
            DeleteAccount(s.(accounts := a), id).accounts + DeleteAccount(s.(accounts := b), id).accounts
    ensures DeleteAccount(s, id).transactions ==
            DeleteAccount(s.(transactions := ta), id).transactions + DeleteAccount(s.(transactions := tb), id).transactions
  {
    FilterConcat(a, b, Not(HasAccountId(id)));
    FilterConcat(ta, tb, Not(OnAccount(id)));
  }

  /** Deleting an id that no account has and no transaction names leaves the snapshot exactly as it was. */
  lemma DeleteAbsentAccount(s: AppState, id: string)
    requires id !in AccountIds(s.accounts)
    requires forall t :: t in s.transactions ==> t.accountId != id
    ensures DeleteAccount(s, id) == s
  {
    FilterAll(s.accounts, Not(HasAccountId(id)));
    FilterAll(s.transactions, Not(OnAccount(id)));
  }

  /** addTransaction: prepends `t` and moves its owner's balance by Change(t). */
  function AddTransaction(s: AppState, t: Transaction): (r: AppState)
    ensures r.transactions == [t] + s.transactions
    ensures r.accounts == Apply(s.accounts, t)
    ensures r.categories == s.categories && r.user == s.user
  {
    s.(accounts := Apply(s.accounts, t), transactions := [t] + s.transactions)
  }

  /** The first transaction with id `id`, if any. */
  function FindTransaction(txs: seq<Transaction>, id: string): (r: Option<Transaction>)
    ensures r.None? <==> id !in TransactionIds(txs)
    ensures r.Some? ==> r.value.id == id
    ensures r.Some? ==> exists k :: 0 <= k < |txs| && txs[k] == r.value &&
                                    (forall j :: 0 <= j < k ==> txs[j].id != id)
  {
    var r := Find(txs, HasTransactionId(id));
    assert r.Some? ==> r.value.id in TransactionIds(txs);
    assert id in TransactionIds(txs) ==> r.Some? by {
      if id in TransactionIds(txs) {
        var x :| x in txs && x.id == id;
        assert HasTransactionId(id)(x);
      }
    }
    r
  }

  /**
   * deleteTransaction: when no transaction has id `id` the snapshot is left as it is;
   * otherwise the first one found is reversed once and every transaction with that id is removed.
   */
  function DeleteTransaction(s: AppState, id: string): (r: AppState)
    ensures id !in TransactionIds(s.transactions) ==> r == s
    ensures |r.accounts| == |s.accounts|
    ensures id in TransactionIds(s.transactions) ==>
      r.accounts == Reverse(s.accounts, FindTransaction(s.transactions, id).value)
    ensures forall t :: t in r.transactions <==> t in s.transactions && t.id != id
    ensures r.categories == s.categories && r.user == s.user
  {
    match FindTransaction(s.transactions, id)
    case None => s
    case Some(t) =>
      s.(accounts := Reverse(s.accounts, t),
         transactions := Filter(s.transactions, Not(HasTransactionId(id))))
  }

  /**
   * The survivors keep their order and their repeats: deleting over two lists joined end to end
   * gives the survivors of the first list followed by those of the second.
   */
  lemma DeleteTransactionConcat(s: AppState, id: string, ta: seq<Transaction>, tb: seq<Transaction>)
    requires s.transactions == ta + tb
    ensures DeleteTransaction(s, id).transactions ==
            DeleteTransaction(s.(transactions := ta), id).transactions +
            DeleteTransaction(s.(transactions := tb), id).transactions
  {
    var keep := Not(HasTransactionId(id));
    FilterConcat(ta, tb, keep);
    if id !in TransactionIds(ta) {
      FilterAll(ta, keep);
    }
    if id !in TransactionIds(tb) {
      FilterAll(tb, keep);
    }
  }

  // ---------------------------------------------------------------------
  // Round trips

  /** Deleting a transaction right after adding it restores every balance, even if its id was taken. */
  lemma AddThenDeleteRestoresBalances(s: AppState, t: Transaction)
    ensures DeleteTransaction(AddTransaction(s, t), t.id).accounts == s.accounts
  {
    var added := AddTransaction(s, t);
    assert FindTransaction(added.transactions, t.id) == Some(t);
    ReverseUndoesApply(s.accounts, t);
  }

  /** With a fresh id, deleting a transaction right after adding it restores the whole snapshot. */
  lemma AddThenDeleteRestoresSnapshot(s: AppState, t: Transaction)
    requires t.id !in TransactionIds(s.transactions)
    ensures DeleteTransaction(AddTransaction(s, t), t.id) == s
  {
    AddThenDeleteRestoresBalances(s, t);
    var keep := Not(HasTransactionId(t.id));
    forall x | x in s.transactions
      ensures keep(x)
    {
      assert x.id in TransactionIds(s.transactions);
    }
    FilterAll(s.transactions, keep);
    assert ([t] + s.transactions)[1..] == s.transactions;
  }

  // ---------------------------------------------------------------------
  // Referential integrity

  /** Account ids and transaction ids are unique, and every transaction names an existing account. */
  predicate WellFormed(s: AppState) {
    && Distinct(s.accounts, AccountId)
    && Distinct(s.transactions, TransactionId)
    && forall t :: t in s.transactions ==> t.accountId in AccountIds(s.accounts)
  }

  /** Two account lists that agree on every id, position by position. */
  predicate SameIds(before: seq<BankAccount>, after: seq<BankAccount>) {
    |before| == |after| && forall i :: 0 <= i < |before| ==> before[i].id == after[i].id
  }

  lemma SameIdsKeepDistinctAndIds(before: seq<BankAccount>, after: seq<BankAccount>)
    requires SameIds(before, after)
    ensures Distinct(before, AccountId) ==> Distinct(after, AccountId)
    ensures AccountIds(after) == AccountIds(before)
  {
    forall x | x in AccountIds(after)
      ensures x in AccountIds(before)
    {
      var a :| a in after && a.id == x;
      var i :| 0 <= i < |after| && after[i] == a;
      assert before[i] in before;
    }
    forall x | x in AccountIds(before)
      ensures x in AccountIds(after)
    {
      var a :| a in before && a.id == x;
      var i :| 0 <= i < |before| && before[i] == a;
      assert after[i] in after;
    }
  }

  lemma AddAccountKeepsWellFormed(s: AppState, account: BankAccount)
    requires WellFormed(s)
    requires account.id !in AccountIds(s.accounts)
    ensures WellFormed(AddAccount(s, account))
  {
    var r := AddAccount(s, account);
    forall i, j | 0 <= i < j < |r.accounts|
      ensures AccountId(r.accounts[i]) != AccountId(r.accounts[j])
    {
      assert r.accounts[i] == s.accounts[i];
      if j == |s.accounts| {
        assert s.accounts[i].id in AccountIds(s.accounts);
      } else {
        assert r.accounts[j] == s.accounts[j];
      }
    }
    forall t | t in r.transactions
      ensures t.accountId in AccountIds(r.accounts)
    {
      var a :| a in s.accounts && a.id == t.accountId;
      var i :| 0 <= i < |s.accounts| && s.accounts[i] == a;
      assert r.accounts[i] == a;
    }
  }

  lemma UpdateAccountKeepsWellFormed(s: AppState, account: BankAccount)
    requires WellFormed(s)
    ensures WellFormed(UpdateAccount(s, account))
  {
    SameIdsKeepDistinctAndIds(s.accounts, UpdateAccount(s, account).accounts);
  }

  lemma DeleteAccountKeepsWellFormed(s: AppState, id: string)
    requires WellFormed(s)
    ensures WellFormed(DeleteAccount(s, id))
  {
    var r := DeleteAccount(s, id);
    FilterDistinct(s.accounts, Not(HasAccountId(id)), AccountId);
    FilterDistinct(s.transactions, Not(OnAccount(id)), TransactionId);
    forall t | t in r.transactions
      ensures t.accountId in AccountIds(r.accounts)
    {
      var a :| a in s.accounts && a.id == t.accountId;
      assert a in r.accounts;
    }
  }

  lemma AddTransactionKeepsWellFormed(s: AppState, t: Transaction)
    requires WellFormed(s)
    requires t.id !in TransactionIds(s.transactions)
    requires t.accountId in AccountIds(s.accounts)
    ensures WellFormed(AddTransaction(s, t))
  {
    var r := AddTransaction(s, t);
    SameIdsKeepDistinctAndIds(s.accounts, r.accounts);
    forall i, j | 0 <= i < j < |r.transactions|
      ensures TransactionId(r.transactions[i]) != TransactionId(r.transactions[j])
    {
      assert r.transactions[j] == s.transactions[j - 1];
      if i == 0 {
        assert s.transactions[j - 1].id in TransactionIds(s.transactions);
      } else {
        assert r.transactions[i] == s.transactions[i - 1];
      }
    }
  }

  lemma DeleteTransactionKeepsWellFormed(s: AppState, id: string)
    requires WellFormed(s)
    ensures WellFormed(DeleteTransaction(s, id))
  {
    var r := DeleteTransaction(s, id);
    if id in TransactionIds(s.transactions) {
      SameIdsKeepDistinctAndIds(s.accounts, r.accounts);
      FilterDistinct(s.transactions, Not(HasTransactionId(id)), TransactionId);
    }
  }

  // ---------------------------------------------------------------------
  // Opening balances: the part of a balance that recorded transactions do not explain

  /** The net signed effect of the listed transactions on account `id`. */
  function Net(id: string, txs: seq<Transaction>): int {
    if txs == [] then 0
    else (if txs[0].accountId == id then Change(txs[0]) else 0) + Net(id, txs[1..])
  }

  /** The balance an account must have started from, given the transactions now on record. */
  function Opening(a: BankAccount, txs: seq<Transaction>): int {
    a.balance - Net(a.id, txs)
  }

  lemma AddTransactionKeepsOpenings(s: AppState, t: Transaction)
    ensures var r := AddTransaction(s, t);
      forall i :: 0 <= i < |s.accounts| ==> Opening(r.accounts[i], r.transactions) == Opening(s.accounts[i], s.transactions)
  {
    assert ([t] + s.transactions)[1..] == s.transactions;
  }

  /** Removing the one transaction with `t`'s id takes exactly its effect out of the net. */
  lemma {:induction false} NetWithout(id: string, txs: seq<Transaction>, t: Transaction)
    requires Distinct(txs, TransactionId)
    requires t in txs
    ensures Net(id, Filter(txs, Not(HasTransactionId(t.id)))) ==
            Net(id, txs) - (if t.accountId == id then Change(t) else 0)
  {
    var keep := Not(HasTransactionId(t.id));
    var k :| 0 <= k < |txs| && txs[k] == t;
    if k == 0 {
      forall x | x in txs[1..]
        ensures keep(x)
      {
        var j :| 0 <= j < |txs[1..]| && txs[1..][j] == x;
        assert TransactionId(txs[0]) != TransactionId(txs[j + 1]);
      }
      FilterAll(txs[1..], keep);
    } else {
      assert TransactionId(txs[0]) != TransactionId(txs[k]);
      assert txs[1..][k - 1] == t;
      NetWithout(id, txs[1..], t);
    }
  }

  /** With unique transaction ids, deleting a transaction keeps every opening balance. */
  lemma DeleteTransactionKeepsOpenings(s: AppState, id: string)
    requires Distinct(s.transactions, TransactionId)
    ensures var r := DeleteTransaction(s, id);
      forall i :: 0 <= i < |s.accounts| ==> Opening(r.accounts[i], r.transactions) == Opening(s.accounts[i], s.transactions)
  {
    match FindTransaction(s.transactions, id)
    case None =>
    case Some(t) =>
      forall i | 0 <= i < |s.accounts| {
        NetWithout(s.accounts[i].id, s.transactions, t);
      }
  }

  /** The cascade removes only transactions of the deleted account, so other nets are intact. */
  lemma {:induction false} NetIgnoresOtherAccounts(aid: string, id: string, txs: seq<Transaction>)
    requires aid != id
    ensures Net(aid, Filter(txs, Not(OnAccount(id)))) == Net(aid, txs)
  {
    if txs != [] {
      NetIgnoresOtherAccounts(aid, id, txs[1..]);
    }
  }

  lemma DeleteAccountKeepsOpenings(s: AppState, id: string)
    ensures var r := DeleteAccount(s, id);
      forall a :: a in r.accounts ==> Opening(a, r.transactions) == Opening(a, s.transactions)
  {
    forall a | a in DeleteAccount(s, id).accounts
      ensures Net(a.id, DeleteAccount(s, id).transactions) == Net(a.id, s.transactions)
    {
      NetIgnoresOtherAccounts(a.id, id, s.transactions);
    }
  }

  /** updateAccount takes the balance as given: the opening balance absorbs the whole difference. */
  lemma UpdateAccountOverridesOpening(s: AppState, account: BankAccount)
    ensures var r := UpdateAccount(s, account);
      forall i :: 0 <= i < |s.accounts| && s.accounts[i].id == account.id ==>
        Opening(r.accounts[i], r.transactions) ==
        Opening(s.accounts[i], s.transactions) + (account.balance - s.accounts[i].balance)
  {
  }

  /** With a repeated transaction id, deletion removes both copies but reverses only the first. */
  lemma DuplicateIdDeleteShiftsOpening()
    ensures
      var a := BankAccount("a", "A", 0, Cash, "TWD");
      var first := Transaction("t", "a", "1", 10, Expense, Date(2024, 0, 1), "first");
      var second := Transaction("t", "a", "1", 30, Expense, Date(2024, 0, 2), "second");
      var s := AppState(None, [a], [first, second], []);
      var r := DeleteTransaction(s, "t");
      r.transactions == [] && r.accounts[0].balance == 10 &&
      Opening(r.accounts[0], r.transactions) != Opening(s.accounts[0], s.transactions)
  {
    var a := BankAccount("a", "A", 0, Cash, "TWD");
    var first := Transaction("t", "a", "1", 10, Expense, Date(2024, 0, 1), "first");
    var second := Transaction("t", "a", "1", 30, Expense, Date(2024, 0, 2), "second");
    var s := AppState(None, [a], [first, second], []);
    assert FindTransaction(s.transactions, "t") == Some(first);
    assert s.transactions[1..] == [second] && [second][1..] == [];
    assert Net("a", []) == 0;
    assert Net("a", [second]) == -30;
    assert Net("a", s.transactions) == -40;
  }

  // ---------------------------------------------------------------------
  // Worked scenarios

  /** Account at 1000; +500 income; -200 expense; deleting the income leaves 800. */
  lemma BalanceScenario()
    ensures
      var s0 := AppState(None, [BankAccount("A", "A", 1000, Savings, "TWD")], [], []);
      var s1 := AddTransaction(s0, Transaction("t1", "A", "5", 500, Income, Date(2024, 0, 1), "pay"));
      var s2 := AddTransaction(s1, Transaction("t2", "A", "1", 200, Expense, Date(2024, 0, 2), "food"));
      var s3 := DeleteTransaction(s2, "t1");
      s1.accounts[0].balance == 1500 && s2.accounts[0].balance == 1300 && s3.accounts[0].balance == 800
  {
    var s0 := AppState(None, [BankAccount("A", "A", 1000, Savings, "TWD")], [], []);
    var t1 := Transaction("t1", "A", "5", 500, Income, Date(2024, 0, 1), "pay");
    var t2 := Transaction("t2", "A", "1", 200, Expense, Date(2024, 0, 2), "food");
    var s2 := AddTransaction(AddTransaction(s0, t1), t2);
    assert s2.transactions == [t2, t1];
    assert FindTransaction(s2.transactions, "t1") == Some(t1);
  }

  /** Deleting account B keeps account A and A's transaction as they were. */
  lemma CascadeScenario()
    ensures
      var a := BankAccount("A", "A", 100, Savings, "TWD");
      var b := BankAccount("B", "B", 50, Cash, "TWD");
      var t := Transaction("t", "A", "1", 20, Expense, Date(2024, 0, 1), "x");
      var r := DeleteAccount(AppState(None, [a, b], [t], []), "B");
      r.accounts == [a] && r.transactions == [t]
  {
    var a := BankAccount("A", "A", 100, Savings, "TWD");
    var b := BankAccount("B", "B", 50, Cash, "TWD");
    assert [a, b][1..] == [b];
  }

  // ---------------------------------------------------------------------
  // The seed snapshot

  lemma SeedWellFormed(user: Option<User>)
    ensures WellFormed(Constants.InitialState(user))
  {
    Constants.MockTransactionsNameMockAccounts();
  }

  /** The seed balances are not the sums of the seed transactions: acc1 holds 50000, its transactions net 64800. */
  lemma SeedNotLedgerConsistent()
    ensures Net("acc1", Constants.MockTransactions) == 64800
    ensures Opening(Constants.MockAccounts[0], Constants.MockTransactions) == -14800
  {
  }
}
