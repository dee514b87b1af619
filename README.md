# FinSmart2 balance ledger, in Dafny

FinSmart2 is a personal-finance web client. Its state is one session snapshot:
the signed-in user (if any), the bank accounts, the transactions and the
categories. Five handlers replace that snapshot:

- add, update and delete an account;
- add and delete a transaction.

Recording a transaction moves its account's balance by +amount for income or
−amount for expense. Deleting it applies the opposite change. Deleting an
account also deletes every transaction filed under it. The pages read the
snapshot:

- the dashboard shows net worth, this month's income and expense, the five
  latest transactions and category labels;
- the reports page shows a six-month income/expense chart and an expense pie
  by category;
- the transactions page has a search/type filter and an add form;
- the accounts page has an add/edit form.

This project models that core:

- `types.dfy` holds the entities as datatypes.
- `constants.dfy` holds the seed snapshot.
- `ledger.dfy` holds the five handlers as pure functions from the old snapshot
  to the new one. It also proves what they keep:
  - round trips;
  - "nothing else changes";
  - referential integrity;
  - every account's opening balance, meaning its balance minus the net effect
    of its recorded transactions.
- `app.dfy` is the session object. It is a class whose `state` field each
  handler method replaces, proved equal to the ledger function.
- `dashboard.dfy` holds the dashboard figures.
- `reports.dfy` holds the report figures. The monthly chart is a method that
  fills a six-slot array in one pass over the transactions. It is proved equal
  to a recursive specification, and lemmas say what each bucket holds.
- `transactions_page.dfy` and `accounts_page.dfy` model the two form pages.
  Each is a class with the page's state fields. Its submit methods dispatch to
  the session object.
- `seqs.dfy` holds generic filter, search and sum functions with their lemmas.

Other modelling choices:

- Amounts and balances are unbounded integers in minor units.
- Dates are (year, month 0–11, day 1–31) triples.
- The current date and freshly generated ids are parameters.

Deleting a transaction (`App.tsx:141-159`) removes **every** transaction with
that id. It moves **every** account with the first match's account id, once,
by that match's reversing change: none if the id is dangling, several if
account ids repeat. `Ledger.DeleteTransaction` states this, and
`Ledger.DuplicateIdDeleteShiftsOpening` shows what it does when two
transactions share an id.

## Model

| member | source | states |
|---|---|---|
| Constants.InitialState | App.tsx:21-30 | The initial snapshot carries the restored user (or none) and the seed lists: 2 accounts, 4 transactions and 8 categories. |
| Constants.DefaultCategoryIdsDistinct | constants.tsx:4-13 | The eight default category ids are pairwise distinct. |
| Constants.MockTransactionsNameMockAccounts | constants.tsx:20-25 | Every seed transaction's account id names a seed account. |
| Constants.MockTransactionsMatchCategoryType | constants.tsx:20-25 | Every seed transaction names a default category of its own type. |
| Constants.MockAmountsPositive | constants.tsx:20-25 | Every seed transaction amount is strictly positive. |
| Ledger.SeedWellFormed | constants.tsx:15-25 | The initial snapshot has unique account ids and unique transaction ids, and no dangling account reference. |
| Ledger.SeedNotLedgerConsistent | constants.tsx:15-25 | The seed is not balance-consistent: acc1's transactions net 64800 while its balance is 50000, so its opening balance is −14800. |
| Ledger.Change | App.tsx:128 | Recording an income moves its account by +amount, an expense by −amount. For a positive amount the change is positive exactly for income. |
| Ledger.ReverseChange | App.tsx:148 | Deleting a transaction moves its account by exactly the negation of the recording change. |
| Ledger.Apply | App.tsx:126-132 | Same length. Accounts with another id are unchanged. Accounts with the transaction's account id get balance + Change and keep every other field. |
| Ledger.Reverse | App.tsx:146-152 | The same as Apply, with the reversing change. |
| Ledger.ReverseUndoesApply | App.tsx:124-159 | Reversing a transaction right after applying it gives back the same account list. |
| Ledger.ApplyUndoesReverse | App.tsx:124-159 | Applying after reversing also gives back the same account list. |
| Ledger.ApplyDangling | App.tsx:126-132 | A transaction whose account id names no account leaves every balance unchanged. |
| Ledger.AddAccount | App.tsx:105-107 | The account is appended at the end: earlier accounts keep their positions. Transactions, categories and user are unchanged. |
| Ledger.UpdateAccount | App.tsx:109-114 | Every account with the given id is replaced verbatim, balance included. The others, and transactions, categories and user, are unchanged. |
| Ledger.DeleteAccount | App.tsx:116-122 | Exactly the accounts with another id remain, and exactly the transactions on another account. Categories and user are unchanged. |
| Ledger.DeleteAccountConcat | App.tsx:116-122 | The survivors keep their order and their repeats: over two lists joined, the survivors of the first come before those of the second, for accounts and for transactions. |
| Ledger.DeleteAbsentAccount | App.tsx:116-122 | Deleting an id no account has and no transaction names leaves the snapshot exactly as it was. |
| Ledger.AddTransaction | App.tsx:124-139 | The transaction is put first, and the accounts are Apply of the old ones. Categories and user are unchanged. |
| Ledger.FindTransaction | App.tsx:142 | The lookup fails exactly when no transaction has the id. Otherwise it returns the first transaction with that id. |
| Ledger.DeleteTransaction | App.tsx:141-159 | An absent id leaves the snapshot identical. Otherwise the accounts are Reverse of the first match, and exactly the transactions with another id remain. |
| Ledger.DeleteTransactionConcat | App.tsx:141-159 | The surviving transactions keep their order and their repeats: over two lists joined, the survivors of the first come before those of the second. |
| Ledger.AddThenDeleteRestoresBalances | App.tsx:124-159 | Adding a transaction and then deleting its id restores every balance, even if the id was already taken. |
| Ledger.AddThenDeleteRestoresSnapshot | App.tsx:124-159 | With a fresh id, adding then deleting restores the whole snapshot. |
| Ledger.AddAccountKeepsWellFormed | App.tsx:105-107 | Appending an account with a fresh id keeps ids unique and references valid. |
| Ledger.UpdateAccountKeepsWellFormed | App.tsx:109-114 | Replacing an account by id keeps ids unique and references valid. |
| Ledger.DeleteAccountKeepsWellFormed | App.tsx:116-122 | The cascade leaves no transaction pointing at the deleted account. |
| Ledger.AddTransactionKeepsWellFormed | App.tsx:124-139 | A transaction with a fresh id on an existing account keeps the snapshot well formed. |
| Ledger.DeleteTransactionKeepsWellFormed | App.tsx:141-159 | Deleting a transaction keeps the snapshot well formed. |
| Ledger.AddTransactionKeepsOpenings | App.tsx:124-139 | Recording a transaction keeps every account's opening balance. |
| Ledger.DeleteTransactionKeepsOpenings | App.tsx:141-159 | With unique transaction ids, deleting a transaction keeps every account's opening balance. |
| Ledger.DeleteAccountKeepsOpenings | App.tsx:116-122 | The cascade keeps the opening balance of every surviving account. |
| Ledger.UpdateAccountOverridesOpening | App.tsx:109-114 | An edited account's balance is taken as given, not recomputed: its opening balance shifts by the whole difference. |
| Ledger.DuplicateIdDeleteShiftsOpening | App.tsx:141-159 | With two transactions sharing an id, deletion removes both but reverses only the first, so the opening balance moves. |
| Ledger.BalanceScenario | App.tsx:124-159 | An account at 1000 goes to 1500 after +500 income and 1300 after a −200 expense. Deleting the income leaves 800. |
| Ledger.CascadeScenario | App.tsx:116-122 | Deleting account B keeps account A and A's transaction untouched. |
| App.Session.constructor | App.tsx:21-30 | The session starts from the seed snapshot with the restored user, and that snapshot is well formed. |
| App.Session.AddAccount | App.tsx:105-107 | The new state is Ledger.AddAccount of the old one. With a fresh id, well-formedness is kept. |
| App.Session.UpdateAccount | App.tsx:109-114 | The new state is Ledger.UpdateAccount of the old one, and well-formedness is kept. |
| App.Session.DeleteAccount | App.tsx:116-122 | The new state is Ledger.DeleteAccount of the old one. Well-formedness and the survivors' opening balances are kept. |
| App.Session.AddTransaction | App.tsx:124-139 | The new state is Ledger.AddTransaction of the old one, and every opening balance is kept. |
| App.Session.DeleteTransaction | App.tsx:141-159 | It returns early on an absent id. The new state is Ledger.DeleteTransaction of the old one. Well-formedness and opening balances are kept. |
| Dashboard.TotalBalance | pages/Dashboard.tsx:20 | Net worth is 0 with no accounts, the single balance with one account, and never negative when no balance is. |
| Dashboard.MonthlyIncome | pages/Dashboard.tsx:28-30 | This month's income is 0 when no income is dated this month, and never negative when those incomes are not. |
| Dashboard.MonthlyExpense | pages/Dashboard.tsx:32-34 | This month's expense is 0 when no expense is dated this month, and never negative when those expenses are not. |
| Dashboard.IncomePlusExpense | pages/Dashboard.tsx:28-34 | The month's income plus the month's expense is the sum of all the month's amounts. |
| Dashboard.MonthlyTransactions | pages/Dashboard.tsx:22-26 | A transaction is kept exactly when it is dated in the given month and year. |
| Dashboard.MonthlyTransactionsConcat | pages/Dashboard.tsx:22-26 | The month's transactions keep their list order: those of two lists joined are those of the first, then those of the second. |
| Dashboard.AddTransactionMovesMonthlyFigures | pages/Dashboard.tsx:22-34 | Recording a transaction dated this month raises this month's income or expense, by type, by its amount. Otherwise neither changes. |
| Dashboard.AddAccountMovesNetWorth | pages/Dashboard.tsx:20 | Adding an account raises net worth by its balance. |
| Dashboard.AdjustMovesNetWorth | pages/Dashboard.tsx:20 | With unique account ids, moving one account by delta moves net worth by delta, or by 0 if no account has that id. |
| Dashboard.AddTransactionMovesNetWorth | pages/Dashboard.tsx:20 | Recording a transaction moves net worth by its signed change, or not at all when its account is missing. |
| Dashboard.DeleteTransactionMovesNetWorth | pages/Dashboard.tsx:20 | Deleting a recorded transaction moves net worth back by its signed change. |
| Dashboard.RecentTransactions | pages/Dashboard.tsx:118 | The recent list is the prefix of length min(5, n). |
| Dashboard.CategoryName | pages/Dashboard.tsx:47 | The label is the name of the first category with the id, or 未分類 when that name is empty or no category has the id. It is never empty. |
| Reports.EmptyBuckets | pages/Reports.tsx:23-33 | Six empty buckets for six consecutive months, oldest first, the current month last. |
| Reports.EmptyBucketsDistinct | pages/Reports.tsx:23-33 | No two of the six buckets share a month. |
| Reports.Credit | pages/Reports.tsx:39-40 | An income raises only the bucket's income by its amount, an expense only its expense. The month is kept. |
| Reports.Record | pages/Reports.tsx:36-41 | Recording a transaction keeps the number of buckets and the month of each. |
| Reports.MonthlyTotals | pages/Reports.tsx:35-42 | The in-place pass over the transactions yields exactly Fill of the six empty buckets. |
| Reports.Fill | pages/Reports.tsx:35-42 | Filling keeps the number of buckets and their months in place. |
| Reports.FillBucket | pages/Reports.tsx:35-42 | With distinct months, a bucket gains exactly the income and the expense dated in its month. |
| Reports.MonthlyTotalsMeaning | pages/Reports.tsx:23-42 | Bucket k of the chart is month now−5+k, and holds exactly that month's income and expense totals. |
| Reports.RecordOutsideWindow | pages/Reports.tsx:37-38 | A transaction dated outside the buckets' months changes no bucket. |
| Reports.FillGrandTotal | pages/Reports.tsx:35-42 | Filling adds to the buckets' grand total exactly the amounts of the transactions inside their months. |
| Reports.MonthlyTotalsGrandTotal | pages/Reports.tsx:35-42 | The chart's grand total is the sum of the in-window transaction amounts. |
| Reports.CategoryTotal | pages/Reports.tsx:48-50 | A category's total is 0 when nothing is filed under it. With no negative amounts under it, it is never negative, and positive once one of them is. |
| Reports.CategoryTotalCons | pages/Reports.tsx:48-50 | A category's total is the sum of every amount filed under it: one more transaction adds its amount exactly when it names the category, whatever its type. |
| Reports.Slices | pages/Reports.tsx:47-52 | One slice per category, in order: name, total and colour. |
| Reports.ExpenseSlices | pages/Reports.tsx:46-51 | The slices built from the expense categories are exactly the slices of the list's expense categories. |
| Reports.ExpenseByCategory | pages/Reports.tsx:45-53 | Every slice is positive and comes from an expense category. Every expense category with a positive total has its slice. |
| Reports.ExpenseByCategoryConcat | pages/Reports.tsx:45-53 | The pie follows category-list order. |
| Reports.IncomeCountsTowardExpenseSlice | pages/Reports.tsx:48-50 | A category's total does not filter on transaction type: an income filed under an expense category counts in its slice. |
| Reports.SetMonthBack | pages/Reports.tsx:24-25 | Moving today's month back by n lands n months back, or one month later when the day of the month does not exist there. |
| Reports.EmptyBucketsAsWritten | pages/Reports.tsx:23-33 | Six buckets. Up to the 28th of the month they are exactly the consecutive window. |
| Reports.AsWrittenMonths | pages/Reports.tsx:23-33 | The page's window, oldest first, is today moved back by 5, 4, …, 0 months. |
| Reports.MarchEndSteps | pages/Reports.tsx:24-25 | From 31 March 2024 the six steps back land in Mar, Mar, Jan, Dec, Dec and Oct, because February (29 days) and November (30 days) spill forward. |
| Reports.MonthEndSkipsMonths | pages/Reports.tsx:23-33 | On 31 March 2024 the window as written is Oct, Dec, Dec, Jan, Mar, Mar: months repeat and February is missing. |
| Reports.MonthEndDropsFebruary | pages/Reports.tsx:35-42 | On that day, as written, a February expense changes no bucket. |
| Reports.ConsecutiveWindowCountsFebruary | pages/Reports.tsx:35-42 | The consecutive window for March 2024 counts the same February expense. |
| TransactionsPage.Lower | pages/Transactions.tsx:29 | Lower-casing keeps the length and maps each character. |
| TransactionsPage.LowerIdempotent | pages/Transactions.tsx:29 | Lower-casing twice is lower-casing once. |
| TransactionsPage.Includes | pages/Transactions.tsx:29 | The search succeeds exactly when the needle occurs at some position of the haystack. |
| TransactionsPage.Matches | pages/Transactions.tsx:28-31 | A row matches exactly when its lower-cased description contains the lower-cased search text and its type passes the filter. Under a type filter a row of the other type never matches. With no search text and "all", every row matches. |
| TransactionsPage.Visible | pages/Transactions.tsx:28-32 | Each shown row is a list row whose lower-cased description contains the lower-cased search text. Under a type filter it has that type. Every matching row is shown. |
| TransactionsPage.VisibleShowsAll | pages/Transactions.tsx:28-32 | With an empty search and the "all" filter, the list is shown whole. |
| TransactionsPage.VisibleConcat | pages/Transactions.tsx:28-32 | Filtering preserves order. |
| TransactionsPage.InitialForm | pages/Transactions.tsx:19-26 | The form opens on the first account and category (or ""), amount 0, expense, today, no description. |
| TransactionsPage.CanSubmit | pages/Transactions.tsx:36 | A form is accepted exactly when its amount is positive and its description is non-empty. |
| TransactionsPage.ToTransaction | pages/Transactions.tsx:38-42 | The dispatched transaction carries every form field and the fresh id. |
| TransactionsPage.CategoryOptions | pages/Transactions.tsx:241 | The dropdown offers exactly the categories of the form's type. |
| TransactionsPage.WithType | pages/Transactions.tsx:171 | As written, the type buttons change only the type and keep the chosen category. |
| TransactionsPage.StaleCategoryAfterTypeSwitch | pages/Transactions.tsx:179 | On the seed data, switching to income and submitting files an income under category "1", an expense category not among the offered options. |
| TransactionsPage.WithTypeCorrected | pages/Transactions.tsx:171 | The corrected type switch moves the category to an offered option of the new type (or "" when there is none) and changes nothing else. |
| TransactionsPage.CorrectedSwitchKeepsCategoryType | pages/Transactions.tsx:241 | With unique category ids, after the corrected switch the dispatched transaction's category has the transaction's type. |
| TransactionsPage.Page.constructor | pages/Transactions.tsx:15-26 | Closed form, empty search, "all" filter, initial form. |
| TransactionsPage.Page.SetFilter | pages/Transactions.tsx:87 | Only the filter changes. |
| TransactionsPage.Page.SetSearch | pages/Transactions.tsx:80 | Only the search text changes. |
| TransactionsPage.Page.OpenForm | pages/Transactions.tsx:63 | Only the form becomes visible. |
| TransactionsPage.Page.CloseForm | pages/Transactions.tsx:161 | The form is hidden and keeps what it held. |
| TransactionsPage.Page.EditForm | pages/Transactions.tsx:193-239 | The date, amount, description, account and category inputs set their fields only. |
| TransactionsPage.Page.SelectType | pages/Transactions.tsx:171-179 | As written, the type buttons set the form to WithType of the old one: the type changes and the category id is kept. Nothing else on the page changes. |
| TransactionsPage.Page.SelectTypeCorrected | pages/Transactions.tsx:171-179 | The corrected type buttons set the form to WithTypeCorrected of the old one. Nothing else on the page changes. |
| TransactionsPage.Page.Submit | pages/Transactions.tsx:34-50 | An invalid form changes nothing. A valid one dispatches Ledger.AddTransaction of its transaction and closes the form. Only amount and description are cleared. |
| TransactionsPage.Page.Delete | pages/Transactions.tsx:139 | The session's state becomes Ledger.DeleteTransaction of the old one. |
| TransactionsPage.SubmittedTransactionShownFirst | pages/Transactions.tsx:28-50 | After a valid submit, the new transaction heads the unfiltered list. |
| AccountsPage.FormOf | pages/Accounts.tsx:39-40 | Loading an account into the form and turning it back into an account with the same id gives the account back. |
| AccountsPage.ToAccount | pages/Accounts.tsx:28-32 | The dispatched account carries the form's fields under the given id. |
| AccountsPage.IsEditing | pages/Accounts.tsx:28 | No edited id, or an empty one, means adding. A non-empty edited id means editing. |
| AccountsPage.SubmitEffect | pages/Accounts.tsx:24-37 | An empty name changes nothing. Otherwise it is an update under the edited id when that id is non-empty, and an add under the fresh id if not. |
| AccountsPage.UnchangedEditIsNoOp | pages/Accounts.tsx:24-43 | With unique account ids, editing an account and saving it untouched leaves the snapshot unchanged. |
| AccountsPage.SubmitEditTwice | pages/Accounts.tsx:28-29 | Saving the same edit twice has the effect of saving it once. |
| AccountsPage.SubmitKeepsWellFormed | pages/Accounts.tsx:24-37 | With a fresh id for additions, a submit keeps the snapshot well formed. |
| AccountsPage.Page.constructor | pages/Accounts.tsx:15-22 | Closed form, not editing, blank form (no name, savings, 0, TWD). |
| AccountsPage.Page.OpenForAdd | pages/Accounts.tsx:62 | The form opens out of edit mode and keeps its contents. |
| AccountsPage.Page.Close | pages/Accounts.tsx:104 | The form is hidden, and the edit id and contents stay. |
| AccountsPage.Page.StartEdit | pages/Accounts.tsx:39-43 | The account is loaded into the form, its id becomes the edited id, and the form opens. |
| AccountsPage.Page.EditForm | pages/Accounts.tsx:116-139 | The name, type and balance inputs set their fields only. |
| AccountsPage.Page.Submit | pages/Accounts.tsx:24-37 | The session's state becomes SubmitEffect of the old one. An empty name changes nothing on the page. Otherwise the form is reset, edit mode is left and the form is closed. |
| AccountsPage.Page.Delete | pages/Accounts.tsx:83 | The session's state becomes Ledger.DeleteAccount of the old one. |

## Left out

- Firebase authentication, Firestore loading, seeding and syncing, and sign-out (App.tsx:35-93): network I/O through a foreign SDK. firebase.ts is not part of this model.
- The demo login and the storage of the demo user in the browser (App.tsx:95-103). The restored user is a constructor parameter.
- The login and register pages: thin wrappers over the authentication SDK.
- The AI advice service and the dashboard effect that calls it: a call to a remote generative model.
- Rendering, routing, icons, chart drawing and locale formatting, including the month labels of the chart buckets.
- Timestamps. A transaction's date is a (year, month, day) triple, and the current month is a parameter. Parsing the form's date string, converting it to an ISO string and reading it back in the local time zone are not modelled, so neither is a date that lands in a neighbouring month in time zones west of UTC.
- Number parsing of the amount and balance inputs (`Number(...)`, NaN) and double-precision arithmetic. Amounts are unbounded integers.
- TransactionsPage.Lower: lower-cases ASCII letters only, not the full Unicode case mapping.
- App.Session.DeleteTransaction: the lookup reads the rendered snapshot while the update uses the pending one. In a sequential model the two are the same snapshot, so the difference under batched updates is not captured.
- Reports.MonthlyTotals: builds the six consecutive months ending with the current one (EmptyBuckets), the evidently intended window. The page's window, built by moving today's month back while keeping the day, is modelled separately by Reports.EmptyBucketsAsWritten and the lemmas beside it.
- Generated ids (`Date.now()`) are parameters. Freshness is stated as a precondition where a lemma needs it, not guaranteed.

## Findings

| source | as written | input that shows it | evidently intended | confidence | as-written member | corrected member |
|---|---|---|---|---|---|---|
| pages/Transactions.tsx:171-179 | The type buttons change the form's type and keep its category id. The dropdown (line 241) then offers only categories of the new type, but the stored id is still the old one. | Seed data: open the form (category "1", Food & Dining, an expense), press income, enter 65000 and "Salary", submit. The income is recorded under category "1" and counted in the Food & Dining expense slice (pages/Reports.tsx:48-50). | Switching the type selects a category of the new type, so a submitted transaction's category matches its type. | not executed; high | TransactionsPage.StaleCategoryAfterTypeSwitch | TransactionsPage.CorrectedSwitchKeepsCategoryType |
| pages/Reports.tsx:23-33 | Each of the six months is computed from today's date with its month moved back by i, keeping the day of the month. A day the target month lacks spills into the next month. | Today is 31 March 2024: the buckets are Oct, Dec, Dec, Jan, Mar, Mar. November and February are missing, and a February expense is counted nowhere. | Six consecutive months ending with the current one. | not executed; high | Reports.MonthEndSkipsMonths | Reports.MonthlyTotalsMeaning |
