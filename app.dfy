// The session container (App.tsx): one object holding the current snapshot,
// replaced wholesale by each of the five handlers.

module App {
  import opened Types
  import Ledger
  import Constants

  class Session {
    var state: AppState

    /** The initial snapshot: the seed lists and the user restored from local storage, if any. */
    constructor (restoredUser: Option<User>)
      ensures state == Constants.InitialState(restoredUser)
      ensures Ledger.WellFormed(state)
    {
      state := Constants.InitialState(restoredUser);
      Ledger.SeedWellFormed(restoredUser);
    }

    method AddAccount(account: BankAccount)
      modifies this
      ensures state == Ledger.AddAccount(old(state), account)
      ensures Ledger.WellFormed(old(state)) && account.id !in AccountIds(old(state).accounts) ==>
        Ledger.WellFormed(state)
    {
      if Ledger.WellFormed(state) && account.id !in AccountIds(state.accounts) {
        Ledger.AddAccountKeepsWellFormed(state, account);
      }
      state := Ledger.AddAccount(state, account);
    }

    method UpdateAccount(account: BankAccount)
      modifies this
      ensures state == Ledger.UpdateAccount(old(state), account)
      ensures Ledger.WellFormed(old(state)) ==> Ledger.WellFormed(state)
    {
      if Ledger.WellFormed(state) {
        Ledger.UpdateAccountKeepsWellFormed(state, account);
      }
      state := Ledger.UpdateAccount(state, account);
    }

    method DeleteAccount(id: string)
      modifies this
      ensures state == Ledger.DeleteAccount(old(state), id)
      ensures Ledger.WellFormed(old(state)) ==> Ledger.WellFormed(state)
      ensures forall a :: a in state.accounts ==>
        Ledger.Opening(a, state.transactions) == Ledger.Opening(a, old(state).transactions)
    {
      if Ledger.WellFormed(state) {
        Ledger.DeleteAccountKeepsWellFormed(state, id);
      }
      Ledger.DeleteAccountKeepsOpenings(state, id);
      state := Ledger.DeleteAccount(state, id);
    }

    method AddTransaction(t: Transaction)
      modifies this
      ensures state == Ledger.AddTransaction(old(state), t)
      ensures forall i :: 0 <= i < |old(state).accounts| ==>
        Ledger.Opening(state.accounts[i], state.transactions) ==
        Ledger.Opening(old(state).accounts[i], old(state).transactions)
    {
      Ledger.AddTransactionKeepsOpenings(state, t);
      state := Ledger.AddTransaction(state, t);
    }

    /** Looks the transaction up first and returns early, leaving the snapshot alone, when it is absent. */
    method DeleteTransaction(id: string)
      modifies this
      ensures state == Ledger.DeleteTransaction(old(state), id)
      ensures Ledger.WellFormed(old(state)) ==> Ledger.WellFormed(state)
      ensures Ledger.WellFormed(old(state)) ==>
        forall i :: 0 <= i < |old(state).accounts| ==>
          Ledger.Opening(state.accounts[i], state.transactions) ==
          Ledger.Opening(old(state).accounts[i], old(state).transactions)
    {
      if Ledger.WellFormed(state) {
        Ledger.DeleteTransactionKeepsWellFormed(state, id);
        Ledger.DeleteTransactionKeepsOpenings(state, id);
      }
      var found := Ledger.FindTransaction(state.transactions, id);
      if found.None? {
        return;
      }
      state := Ledger.DeleteTransaction(state, id);
    }
  }
}
