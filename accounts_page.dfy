// The accounts page (pages/Accounts.tsx): one form shared by "add" and
// "edit", and the submit that dispatches to the session's handlers.

module AccountsPage {
  import opened Types
  import opened Seqs
  import Ledger
  import App

  datatype AccountForm = AccountForm(name: string, kind: AccountKind, balance: int, currency: string)

  /** The empty form: no name, a savings account, balance 0, in TWD. */
  const BlankForm: AccountForm := AccountForm("", Savings, 0, "TWD")

  /** The form filled from a stored account, as "edit" does; turning it back into an account with the same id gives the account back. */
  function FormOf(acc: BankAccount): (f: AccountForm)
    ensures ToAccount(f, acc.id) == acc
  {
    AccountForm(acc.name, acc.kind, acc.balance, acc.currency)
  }

  /** The account a submit dispatches: the form's fields under the given id. */
  function ToAccount(f: AccountForm, id: string): (a: BankAccount)
    ensures a.id == id && a.name == f.name && a.kind == f.kind
    ensures a.balance == f.balance && a.currency == f.currency
  {
    BankAccount(id, f.name, f.balance, f.kind, f.currency)
  }

  /** The page is editing when it holds an account id; an empty id is falsy and counts as adding. */
  function IsEditing(editingId: Option<string>): (b: bool)
    ensures editingId == None ==> !b
    ensures editingId == Some("") ==> !b
    ensures editingId.Some? && |editingId.value| > 0 ==> b
  {
    editingId.Some? && editingId.value != ""
  }

  /** The snapshot a submit leads to, given the form, the id being edited and a fresh id for an addition. */
  function SubmitEffect(s: AppState, f: AccountForm, editingId: Option<string>, freshId: string): (r: AppState)
    ensures f.name == "" ==> r == s
    ensures f.name != "" && IsEditing(editingId) ==> r == Ledger.UpdateAccount(s, ToAccount(f, editingId.value))
    ensures f.name != "" && !IsEditing(editingId) ==> r == Ledger.AddAccount(s, ToAccount(f, freshId))
  {
    if f.name == "" then s
    else if IsEditing(editingId) then Ledger.UpdateAccount(s, ToAccount(f, editingId.value))
    else Ledger.AddAccount(s, ToAccount(f, freshId))
  }

  /** Editing an account and saving it untouched leaves the snapshot as it was. */
  lemma UnchangedEditIsNoOp(s: AppState, acc: BankAccount)
    requires Distinct(s.accounts, Ledger.AccountId)
    requires acc in s.accounts
    requires acc.name != "" && acc.id != ""
    ensures SubmitEffect(s, FormOf(acc), Some(acc.id), "") == s
  {
    var r := Ledger.UpdateAccount(s, acc);
    forall i | 0 <= i < |s.accounts|
      ensures r.accounts[i] == s.accounts[i]
    {
      if s.accounts[i].id == acc.id {
        KeyDeterminesElement(s.accounts, Ledger.AccountId, s.accounts[i], acc);
      }
    }
  }

  /** Saving the same edit twice has the effect of saving it once (an empty id would add twice instead). */
  lemma SubmitEditTwice(s: AppState, f: AccountForm, id: string)
    requires id != ""
    ensures var once := SubmitEffect(s, f, Some(id), "");
      SubmitEffect(once, f, Some(id), "") == once
  {
    if f.name != "" {
      var a := ToAccount(f, id);
      var once := Ledger.UpdateAccount(s, a);
      var twice := Ledger.UpdateAccount(once, a);
      forall i | 0 <= i < |once.accounts|
        ensures twice.accounts[i] == once.accounts[i]
      {
        if s.accounts[i].id == id {
          assert once.accounts[i] == a;
        }
      }
      assert twice.accounts == once.accounts;
      assert twice == once;
    }
  }

  /** Adding with a fresh id keeps the snapshot well formed; with an empty name nothing happens. */
  lemma SubmitKeepsWellFormed(s: AppState, f: AccountForm, editingId: Option<string>, freshId: string)
    requires Ledger.WellFormed(s)
    requires freshId !in AccountIds(s.accounts)
    ensures Ledger.WellFormed(SubmitEffect(s, f, editingId, freshId))
  {
    if f.name != "" {
      if IsEditing(editingId) {
        Ledger.UpdateAccountKeepsWellFormed(s, ToAccount(f, editingId.value));
      } else {
        Ledger.AddAccountKeepsWellFormed(s, ToAccount(f, freshId));
      }
    }
  }

  class Page {
    var showForm: bool
    var editingId: Option<string>
    var form: AccountForm

    constructor ()
      ensures !showForm && editingId == None && form == BlankForm
    {
      showForm := false;
      editingId := None;
      form := BlankForm;
    }

    /** The "add account" button: opens the form for adding, keeping whatever the form last held. */
    method OpenForAdd()
      modifies this
      ensures showForm && editingId == None && form == old(form)
    {
      showForm := true;
      editingId := None;
    }

    /** The close button: hides the form and keeps everything else. */
    method Close()
      modifies this
      ensures !showForm && editingId == old(editingId) && form == old(form)
    {
      showForm := false;
    }

    /** The edit button on a card: loads that account into the form. */
    method StartEdit(acc: BankAccount)
      modifies this
      ensures showForm && editingId == Some(acc.id) && form == FormOf(acc)
    {
      form := FormOf(acc);
      editingId := Some(acc.id);
      showForm := true;
    }

    /** The name, type and balance inputs. */
    method EditForm(name: string, kind: AccountKind, balance: int)
      modifies this
      ensures form == old(form).(name := name, kind := kind, balance := balance)
      ensures showForm == old(showForm) && editingId == old(editingId)
    {
      form := form.(name := name, kind := kind, balance := balance);
    }

    /**
     * Submit: with an empty name nothing happens; otherwise the account is updated (when
     * editing) or added under `freshId`, and the form is reset, closed and out of edit mode.
     */
    method Submit(app: App.Session, freshId: string)
      modifies this, app
      ensures app.state == SubmitEffect(old(app.state), old(form), old(editingId), freshId)
      ensures old(form).name == "" ==> unchanged(this)
      ensures old(form).name != "" ==> form == BlankForm && editingId == None && !showForm
    {
      if form.name == "" {
        return;
      }
      if editingId.Some? && editingId.value != "" {
        app.UpdateAccount(ToAccount(form, editingId.value));
      } else {
        app.AddAccount(ToAccount(form, freshId));
      }
      form := BlankForm;
      editingId := None;
      showForm := false;
    }

    /** The delete button on a card: forwards to the session. */
    method Delete(app: App.Session, id: string)
      modifies app
      ensures app.state == Ledger.DeleteAccount(old(app.state), id)
    {
      app.DeleteAccount(id);
    }
  }
}
