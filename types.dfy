// Entity model of the finance tracker: the records that the session snapshot
// holds and that every page reads.

module Types {

  datatype Option<+T> = None | Some(value: T)

  /** The two directions of money movement; a category and a transaction each carry one. */
  datatype TransactionType = Income | Expense

  /** The four kinds of bank account the client offers. */
  datatype AccountKind = Savings | Checking | CreditCard | Cash

  /** A month as the platform's date API numbers it: 0 is January, 11 is December. */
  type MonthIndex = m: int | 0 <= m < 12

  /** A day of the month as the platform's date API gives it: 1 to 31. */
  type DayOfMonth = d: int | 1 <= d <= 31 witness 1

  /** The calendar date of a transaction (its textual timestamp is not modelled). */
  datatype Date = Date(year: int, month: MonthIndex, day: DayOfMonth)

  /** A (year, month) pair, used for "the current month" and for report buckets. */
  datatype YearMonth = YearMonth(year: int, month: MonthIndex)

  datatype Category = Category(id: string, name: string, kind: TransactionType, color: string)

  /** An account; its balance is signed (a credit card may be in debt). */
  datatype BankAccount = BankAccount(id: string, name: string, balance: int, kind: AccountKind, currency: string)

  /** A transaction names its account and its category only by id; amounts are in minor units. */
  datatype Transaction = Transaction(
    id: string,
    accountId: string,
    categoryId: string,
    amount: int,
    kind: TransactionType,
    date: Date,
    description: string)

  datatype User = User(id: string, email: string, name: string)

  /** The session snapshot: the user may be absent, the three lists are always present. */
  datatype AppState = AppState(
    user: Option<User>,
    accounts: seq<BankAccount>,
    transactions: seq<Transaction>,
    categories: seq<Category>)

  function MonthOf(d: Date): YearMonth {
    YearMonth(d.year, d.month)
  }

  /** The ids of a list of accounts. */
  function AccountIds(accounts: seq<BankAccount>): set<string> {
    set a | a in accounts :: a.id
  }

  /** The amount of a transaction, as a function value for sums. */
  function Amount(t: Transaction): int {
    t.amount
  }
}
