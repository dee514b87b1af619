// The transactions page (pages/Transactions.tsx): the search/type filter over
// the transaction list, and the add form with its validation and reset.

module TransactionsPage {
  import opened Types
  import opened Seqs
  import Ledger
  import App
  import Constants
  import Dashboard

  // ---------------------------------------------------------------------
  // The list filter

  /** The type filter buttons: everything, or one type only. */
  datatype TypeFilter = All | Only(kind: TransactionType)

  /** Lower-casing, for ASCII letters only. */
  function LowerChar(c: char): char {
    if 'A' <= c <= 'Z' then (c as int + 32) as char else c
  }

  function Lower(s: string): (r: string)
    ensures |r| == |s|
    ensures forall i :: 0 <= i < |s| ==> r[i] == LowerChar(s[i])
  {
    seq(|s|, i requires 0 <= i < |s| => LowerChar(s[i]))
  }

  lemma LowerIdempotent(s: string)
    ensures Lower(Lower(s)) == Lower(s)
  {
    forall i | 0 <= i < |s|
      ensures Lower(Lower(s))[i] == Lower(s)[i]
    {
      assert LowerChar(LowerChar(s[i])) == LowerChar(s[i]);
    }
  }

  /** `needle` occurs in `hay` starting at index `i`. */
  predicate OccursAt(hay: string, needle: string, i: int) {
    0 <= i <= |hay| - |needle| && hay[i..i + |needle|] == needle
  }

  /** Whether `needle` occurs in `hay` as a contiguous piece; the empty string occurs everywhere. */
  function Includes(hay: string, needle: string): (r: bool)
    ensures r <==> exists i :: OccursAt(hay, needle, i)
    decreases |hay|
  {
    if |needle| > |hay| then false
    else if hay[..|needle|] == needle then assert OccursAt(hay, needle, 0); true
    else
      var r := Includes(hay[1..], needle);
      assert r ==> exists i :: OccursAt(hay, needle, i) by {
        if r {
          var i :| OccursAt(hay[1..], needle, i);
          assert hay[i + 1..i + 1 + |needle|] == hay[1..][i..i + |needle|];
          assert OccursAt(hay, needle, i + 1);
        }
      }
      assert (exists i :: OccursAt(hay, needle, i)) ==> r by {
        if exists i :: OccursAt(hay, needle, i) {
          var i :| OccursAt(hay, needle, i);
          assert i != 0;
          assert hay[1..][i - 1..i - 1 + |needle|] == hay[i..i + |needle|];
          assert OccursAt(hay[1..], needle, i - 1);
        }
      }
      r
  }

  /** A row is shown when its description contains the search text, ignoring case, and its type passes the filter. */
  function Matches(search: string, filter: TypeFilter): (r: Transaction -> bool)
    ensures forall t: Transaction :: r(t) <==>
      (exists i :: OccursAt(Lower(t.description), Lower(search), i)) && (filter.All? || t.kind == filter.kind)
    ensures forall t: Transaction :: filter.Only? && t.kind != filter.kind ==> !r(t)
    ensures forall t: Transaction :: search == "" && filter.All? ==> r(t)
  {
    assert forall d: string :: OccursAt(Lower(d), Lower(""), 0);
    (t: Transaction) => Includes(Lower(t.description), Lower(search)) && (filter.All? || t.kind == filter.kind)
  }

  /** The rows the list shows, in list order. */
  function Visible(txs: seq<Transaction>, search: string, filter: TypeFilter): (r: seq<Transaction>)
    ensures forall t :: t in r ==> t in txs && Includes(Lower(t.description), Lower(search))
    ensures filter.Only? ==> forall t :: t in r ==> t.kind == filter.kind
    ensures forall t :: t in txs && Matches(search, filter)(t) ==> t in r
  {
    Filter(txs, Matches(search, filter))
  }

  /** With no search text and the "all" filter, every row is shown. */
  lemma VisibleShowsAll(txs: seq<Transaction>)
    ensures Visible(txs, "", All) == txs
  {
    FilterAll(txs, Matches("", All));
  }

  /** Filtering the list is order-preserving: the rows of two lists are the rows of each, in turn. */
  lemma VisibleConcat(a: seq<Transaction>, b: seq<Transaction>, search: string, filter: TypeFilter)
    ensures Visible(a + b, search, filter) == Visible(a, search, filter) + Visible(b, search, filter)
  {
    FilterConcat(a, b, Matches(search, filter));
  }

  // ---------------------------------------------------------------------
  // The add form

  datatype TransactionForm = TransactionForm(
    accountId: string,
    categoryId: string,
    amount: int,
    kind: TransactionType,
    date: Date,
    description: string)

  /** The form as the page opens: the first account and category, no amount, an expense dated today. */
  function InitialForm(accounts: seq<BankAccount>, categories: seq<Category>, today: Date): (f: TransactionForm)
    ensures f.accountId == (if |accounts| > 0 then accounts[0].id else "")
    ensures f.categoryId == (if |categories| > 0 then categories[0].id else "")
    ensures f.amount == 0 && f.kind == Expense && f.date == today && f.description == ""
  {
    TransactionForm(
      if |accounts| > 0 then accounts[0].id else "",
      if |categories| > 0 then categories[0].id else "",
      0, Expense, today, "")
  }

  /** The submit guard: a positive amount and a non-empty description. */
  function CanSubmit(f: TransactionForm): (ok: bool)
    ensures ok <==> f.amount > 0 && |f.description| > 0
  {
    !(f.amount <= 0 || f.description == "")
  }

  /** The transaction a submit dispatches: the form's fields and a fresh id. */
  function ToTransaction(f: TransactionForm, id: string): (t: Transaction)
    ensures t.id == id && t.accountId == f.accountId && t.categoryId == f.categoryId
    ensures t.amount == f.amount && t.kind == f.kind && t.date == f.date && t.description == f.description
  {
    Transaction(id, f.accountId, f.categoryId, f.amount, f.kind, f.date, f.description)
  }

  function OfCategoryKind(kind: TransactionType): Category -> bool {
    (c: Category) => c.kind == kind
  }

  /** The category dropdown: exactly the categories of the form's type, in list order. */
  function CategoryOptions(categories: seq<Category>, kind: TransactionType): (r: seq<Category>)
    ensures forall c :: c in r ==> c in categories && c.kind == kind
    ensures forall c :: c in categories && c.kind == kind ==> c in r
  {
    Filter(categories, OfCategoryKind(kind))
  }

  /** The type buttons as written: only the type changes, the chosen category id is kept. */
  function WithType(f: TransactionForm, kind: TransactionType): (r: TransactionForm)
    ensures r.kind == kind && r.categoryId == f.categoryId
    ensures r.(kind := f.kind) == f
  {
    f.(kind := kind)
  }

  /** The type buttons as evidently intended: the category moves to the first option of the new type. */
  function WithTypeCorrected(f: TransactionForm, kind: TransactionType, categories: seq<Category>): (r: TransactionForm)
    ensures r.kind == kind
    ensures r.(kind := f.kind, categoryId := f.categoryId) == f
    ensures CategoryOptions(categories, kind) != [] ==>
      exists c :: c in CategoryOptions(categories, kind) && c.id == r.categoryId
    ensures CategoryOptions(categories, kind) == [] ==> r.categoryId == ""
  {
    var options := CategoryOptions(categories, kind);
    f.(kind := kind, categoryId := if |options| > 0 then options[0].id else "")
  }

  /** The category a transaction names, looked up in the list. */
  function CategoryKind(categories: seq<Category>, id: string): Option<TransactionType> {
    match Find(categories, Dashboard.HasCategoryId(id))
    case None => None
    case Some(c) => Some(c.kind)
  }

  /**
   * As written: open the page on the seed data, press "income", enter a salary and submit.
   * The dispatched income is filed under category "1", an expense category that the
   * dropdown did not even offer.
   */
  lemma StaleCategoryAfterTypeSwitch(today: Date)
    ensures
      var f := WithType(InitialForm(Constants.MockAccounts, Constants.DefaultCategories, today), Income)
                 .(amount := 65000, description := "Salary");
      var t := ToTransaction(f, "x");
      && CanSubmit(f)
      && t.kind == Income
      && CategoryKind(Constants.DefaultCategories, t.categoryId) == Some(Expense)
      && (forall c :: c in CategoryOptions(Constants.DefaultCategories, Income) ==> c.id != t.categoryId)
  {
    var cats := Constants.DefaultCategories;
    assert Find(cats, Dashboard.HasCategoryId("1")) == Some(cats[0]);
    forall c | c in cats && c.kind == Income
      ensures c.id != "1"
    {
    }
  }

  /** Corrected: after any type switch the dispatched transaction's category has the transaction's type. */
  lemma CorrectedSwitchKeepsCategoryType(f: TransactionForm, kind: TransactionType, categories: seq<Category>, id: string)
    requires CategoryOptions(categories, kind) != []
    requires Seqs.Distinct(categories, CategoryId)
    ensures CategoryKind(categories, ToTransaction(WithTypeCorrected(f, kind, categories), id).categoryId) == Some(kind)
  {
    var r := WithTypeCorrected(f, kind, categories);
    var c :| c in CategoryOptions(categories, kind) && c.id == r.categoryId;
    var found := Find(categories, Dashboard.HasCategoryId(r.categoryId));
    assert found.Some?;
    KeyDeterminesElement(categories, CategoryId, c, found.value);
  }

  function CategoryId(c: Category): string { c.id }

  // ---------------------------------------------------------------------
  // The page's state

  class Page {
    var showForm: bool
    var search: string
    var filter: TypeFilter
    var form: TransactionForm

    constructor (accounts: seq<BankAccount>, categories: seq<Category>, today: Date)
      ensures !showForm && search == "" && filter == All
      ensures form == InitialForm(accounts, categories, today)
    {
      showForm := false;
      search := "";
      filter := All;
      form := InitialForm(accounts, categories, today);
    }

    /** The "all / income / expense" buttons. */
    method SetFilter(f: TypeFilter)
      modifies this
      ensures filter == f
      ensures showForm == old(showForm) && search == old(search) && form == old(form)
    {
      filter := f;
    }

    method SetSearch(text: string)
      modifies this
      ensures search == text
      ensures showForm == old(showForm) && filter == old(filter) && form == old(form)
    {
      search := text;
    }

    /** The "new record" button. */
    method OpenForm()
      modifies this
      ensures showForm && search == old(search) && filter == old(filter) && form == old(form)
    {
      showForm := true;
    }

    /** The close button: hides the form and keeps what it held. */
    method CloseForm()
      modifies this
      ensures !showForm && search == old(search) && filter == old(filter) && form == old(form)
    {
      showForm := false;
    }

    /** The date, amount, description, account and category inputs. */
    method EditForm(date: Date, amount: int, description: string, accountId: string, categoryId: string)
      modifies this
      ensures form == old(form).(date := date, amount := amount, description := description,
                                 accountId := accountId, categoryId := categoryId)
      ensures showForm == old(showForm) && search == old(search) && filter == old(filter)
    {
      form := form.(date := date, amount := amount, description := description,
                    accountId := accountId, categoryId := categoryId);
    }

    /** The form's type buttons as written: the type changes and the category id is kept. */
    method SelectType(kind: TransactionType)
      modifies this
      ensures form == WithType(old(form), kind)
      ensures showForm == old(showForm) && search == old(search) && filter == old(filter)
    {
      form := WithType(form, kind);
    }

    /** The type buttons as evidently intended: the category is reset to an option of the new type. */
    method SelectTypeCorrected(kind: TransactionType, categories: seq<Category>)
      modifies this
      ensures form == WithTypeCorrected(old(form), kind, categories)
      ensures showForm == old(showForm) && search == old(search) && filter == old(filter)
    {
      form := WithTypeCorrected(form, kind, categories);
    }

    /**
     * Submit: an invalid form dispatches nothing and changes nothing; a valid one dispatches
     * one transaction to the session, closes the form and clears only amount and description.
     */
    method Submit(app: App.Session, freshId: string)
      modifies this, app
      ensures !CanSubmit(old(form)) ==> unchanged(this) && unchanged(app)
      ensures CanSubmit(old(form)) ==>
        && app.state == Ledger.AddTransaction(old(app.state), ToTransaction(old(form), freshId))
        && !showForm
        && form == old(form).(amount := 0, description := "")
        && search == old(search) && filter == old(filter)
    {
      if form.amount <= 0 || form.description == "" {
        return;
      }
      app.AddTransaction(ToTransaction(form, freshId));
      showForm := false;
      form := form.(amount := 0, description := "");
    }

    /** The delete button on a row: forwards to the session. */
    method Delete(app: App.Session, id: string)
      modifies app
      ensures app.state == Ledger.DeleteTransaction(old(app.state), id)
    {
      app.DeleteTransaction(id);
    }
  }

  /** After a valid submit, the new transaction heads the unfiltered list. */
  lemma SubmittedTransactionShownFirst(s: AppState, f: TransactionForm, id: string)
    requires CanSubmit(f)
    ensures Visible(Ledger.AddTransaction(s, ToTransaction(f, id)).transactions, "", All)[0] == ToTransaction(f, id)
  {
    VisibleShowsAll(Ledger.AddTransaction(s, ToTransaction(f, id)).transactions);
  }
}
