// The reports page (pages/Reports.tsx): six monthly income/expense buckets,
// filled in place by one pass over the transactions, and the expense pie.

module Reports {
  import opened Types
  import opened Seqs

  /** One bar of the monthly chart (its localised label is not modelled). */
  datatype Bucket = Bucket(year: int, month: MonthIndex, income: int, expense: int)

  function MonthNumber(ym: YearMonth): int {
    ym.year * 12 + ym.month
  }

  /** The month `n` months before `now`, wrapping into earlier years. */
  function MonthsBefore(now: YearMonth, n: int): (r: YearMonth)
    ensures MonthNumber(r) == MonthNumber(now) - n
  {
    var k := MonthNumber(now) - n;
    YearMonth(k / 12, k % 12)
  }

  function BucketMonth(b: Bucket): YearMonth {
    YearMonth(b.year, b.month)
  }

  /** The six empty buckets: five months ago first, the current month last. */
  function EmptyBuckets(now: YearMonth): (r: seq<Bucket>)
    ensures |r| == 6
    ensures forall k :: 0 <= k < 6 ==> MonthNumber(BucketMonth(r[k])) == MonthNumber(now) - 5 + k
    ensures forall k :: 0 <= k < 6 ==> r[k].income == 0 && r[k].expense == 0
  {
    var months := seq(6, i requires 0 <= i < 6 => MonthsBefore(now, i));
    seq(6, k requires 0 <= k < 6 => Bucket(months[5 - k].year, months[5 - k].month, 0, 0))
  }

  function MonthIs(ym: YearMonth): Bucket -> bool {
    (b: Bucket) => BucketMonth(b) == ym
  }

  /** Adds the amount of `t` to the bucket's income if `t` is income, and to its expense otherwise. */
  function Credit(b: Bucket, t: Transaction): (r: Bucket)
    ensures BucketMonth(r) == BucketMonth(b)
    ensures r.income + r.expense == b.income + b.expense + t.amount
    ensures t.kind == Income ==> r == b.(income := b.income + t.amount)
    ensures t.kind == Expense ==> r == b.(expense := b.expense + t.amount)
  {
    if t.kind == Income then b.(income := b.income + t.amount) else b.(expense := b.expense + t.amount)
  }

  /** Credits `t` to the first bucket of its month, if there is one. */
  function Record(buckets: seq<Bucket>, t: Transaction): (r: seq<Bucket>)
    ensures |r| == |buckets|
    ensures forall k :: 0 <= k < |r| ==> BucketMonth(r[k]) == BucketMonth(buckets[k])
  {
    match FindIndex(buckets, MonthIs(MonthOf(t.date)))
    case None => buckets
    case Some(k) => buckets[k := Credit(buckets[k], t)]
  }

  /** Records the transactions one after another, in list order. */
  function Fill(buckets: seq<Bucket>, txs: seq<Transaction>): (r: seq<Bucket>)
    ensures |r| == |buckets|
    ensures Months(r) == Months(buckets)
    decreases |txs|
  {
    if txs == [] then buckets
    else
      var next := Record(buckets, txs[0]);
      assert Months(next) == Months(buckets);
      Fill(next, txs[1..])
  }

  /** The monthly chart: six buckets built empty, then filled by one pass over the transactions. */
  method MonthlyTotals(txs: seq<Transaction>, now: YearMonth) returns (report: seq<Bucket>)
    ensures report == Fill(EmptyBuckets(now), txs)
  {
    var empty := EmptyBuckets(now);
    var buckets := new Bucket[6](k requires 0 <= k < |empty| => empty[k]);
    assert buckets[..] == empty;
    for j := 0 to |txs|
      invariant Fill(buckets[..], txs[j..]) == Fill(empty, txs)
    {
      var t := txs[j];
      ghost var before := buckets[..];
      assert Fill(before, txs[j..]) == Fill(Record(before, t), txs[j + 1..]) by {
        assert txs[j..][0] == t && txs[j..][1..] == txs[j + 1..];
      }
      var found := FindIndex(buckets[..], MonthIs(MonthOf(t.date)));
      if found.Some? {
        var k := found.value;
        buckets[k] := Credit(buckets[k], t);
      }
      assert buckets[..] == Record(before, t);
    }
    assert txs[|txs|..] == [];
    report := buckets[..];
  }

  // ---------------------------------------------------------------------
  // What the filled chart says

  function Months(buckets: seq<Bucket>): seq<YearMonth> {
    seq(|buckets|, k requires 0 <= k < |buckets| => BucketMonth(buckets[k]))
  }

  /** No two buckets are for the same month. */
  predicate DistinctMonths(buckets: seq<Bucket>) {
    forall i, j :: 0 <= i < j < |buckets| ==> BucketMonth(buckets[i]) != BucketMonth(buckets[j])
  }

  function InWindow(months: seq<YearMonth>): Transaction -> bool {
    (t: Transaction) => MonthOf(t.date) in months
  }

  function IncomeIn(ym: YearMonth): Transaction -> bool {
    (t: Transaction) => MonthOf(t.date) == ym && t.kind == Income
  }

  function ExpenseIn(ym: YearMonth): Transaction -> bool {
    (t: Transaction) => MonthOf(t.date) == ym && t.kind == Expense
  }

  /** The sum of every bucket's income and expense. */
  function GrandTotal(buckets: seq<Bucket>): int {
    if buckets == [] then 0 else buckets[0].income + buckets[0].expense + GrandTotal(buckets[1..])
  }

  lemma EmptyBucketsDistinct(now: YearMonth)
    ensures DistinctMonths(EmptyBuckets(now))
  {
    var r := EmptyBuckets(now);
    forall i, j | 0 <= i < j < 6
      ensures BucketMonth(r[i]) != BucketMonth(r[j])
    {
      assert MonthNumber(BucketMonth(r[i])) < MonthNumber(BucketMonth(r[j]));
    }
  }

  /** Bucket `k` collects exactly the income and the expense dated in its month. */
  lemma {:induction false} FillBucket(buckets: seq<Bucket>, txs: seq<Transaction>, k: nat)
    requires DistinctMonths(buckets)
    requires k < |buckets|
    ensures |Fill(buckets, txs)| == |buckets|
    ensures Fill(buckets, txs)[k].income ==
            buckets[k].income + Sum(Filter(txs, IncomeIn(BucketMonth(buckets[k]))), Amount)
    ensures Fill(buckets, txs)[k].expense ==
            buckets[k].expense + Sum(Filter(txs, ExpenseIn(BucketMonth(buckets[k]))), Amount)
    decreases |txs|
  {
    if txs != [] {
      var t := txs[0];
      var next := Record(buckets, t);
      assert DistinctMonths(next);
      assert BucketMonth(next[k]) == BucketMonth(buckets[k]);
      FillBucket(next, txs[1..], k);
      var found := FindIndex(buckets, MonthIs(MonthOf(t.date)));
      if found.Some? && found.value != k {
        assert MonthIs(MonthOf(t.date))(buckets[found.value]);
        assert BucketMonth(buckets[found.value]) != BucketMonth(buckets[k]);
      }
      if found.None? {
        assert !MonthIs(MonthOf(t.date))(buckets[k]);
      }
    }
  }

  /** The chart's six buckets hold exactly the per-month income and expense totals. */
  lemma MonthlyTotalsMeaning(txs: seq<Transaction>, now: YearMonth, k: nat)
    requires k < 6
    ensures var report := Fill(EmptyBuckets(now), txs);
      && |report| == 6
      && MonthNumber(BucketMonth(report[k])) == MonthNumber(now) - 5 + k
      && report[k].income == Sum(Filter(txs, IncomeIn(BucketMonth(report[k]))), Amount)
      && report[k].expense == Sum(Filter(txs, ExpenseIn(BucketMonth(report[k]))), Amount)
  {
    var empty := EmptyBuckets(now);
    EmptyBucketsDistinct(now);
    assert Months(Fill(empty, txs))[k] == Months(empty)[k];
    FillBucket(empty, txs, k);
  }

  lemma {:induction false} GrandTotalUpdate(buckets: seq<Bucket>, k: nat, b: Bucket)
    requires k < |buckets|
    ensures GrandTotal(buckets[k := b]) ==
            GrandTotal(buckets) - buckets[k].income - buckets[k].expense + b.income + b.expense
  {
    if k > 0 {
      assert buckets[k := b][1..] == buckets[1..][k - 1 := b];
      GrandTotalUpdate(buckets[1..], k - 1, b);
    } else {
      assert buckets[k := b][1..] == buckets[1..];
    }
  }

  /** A transaction outside the buckets' months changes none of them. */
  lemma RecordOutsideWindow(buckets: seq<Bucket>, t: Transaction)
    requires !InWindow(Months(buckets))(t)
    ensures Record(buckets, t) == buckets
  {
    forall k | 0 <= k < |buckets|
      ensures !MonthIs(MonthOf(t.date))(buckets[k])
    {
      assert Months(buckets)[k] == BucketMonth(buckets[k]);
    }
  }

  /** Filling adds to the buckets exactly the amounts of the transactions dated in their months. */
  lemma {:induction false} FillGrandTotal(buckets: seq<Bucket>, txs: seq<Transaction>)
    ensures GrandTotal(Fill(buckets, txs)) == GrandTotal(buckets) + Sum(Filter(txs, InWindow(Months(buckets))), Amount)
    decreases |txs|
  {
    if txs != [] {
      var t := txs[0];
      var next := Record(buckets, t);
      assert Months(next) == Months(buckets);
      FillGrandTotal(next, txs[1..]);
      var found := FindIndex(buckets, MonthIs(MonthOf(t.date)));
      match found
      case None =>
        forall k | 0 <= k < |buckets|
          ensures Months(buckets)[k] != MonthOf(t.date)
        {
          assert buckets[k] in buckets;
        }
      case Some(k) =>
        assert Months(buckets)[k] == MonthOf(t.date);
        GrandTotalUpdate(buckets, k, next[k]);
    }
  }

  lemma {:induction false} GrandTotalOfEmpty(buckets: seq<Bucket>)
    requires forall k :: 0 <= k < |buckets| ==> buckets[k].income == 0 && buckets[k].expense == 0
    ensures GrandTotal(buckets) == 0
  {
    if buckets != [] {
      GrandTotalOfEmpty(buckets[1..]);
    }
  }

  /** The whole chart adds up to the amounts of the transactions in its six-month window. */
  lemma MonthlyTotalsGrandTotal(txs: seq<Transaction>, now: YearMonth)
    ensures GrandTotal(Fill(EmptyBuckets(now), txs)) ==
            Sum(Filter(txs, InWindow(Months(EmptyBuckets(now)))), Amount)
  {
    var empty := EmptyBuckets(now);
    GrandTotalOfEmpty(empty);
    FillGrandTotal(empty, txs);
  }

  // ---------------------------------------------------------------------
  // The six months as the page computes them: the day of the month is kept

  predicate IsLeapYear(y: int) {
    y % 4 == 0 && (y % 100 != 0 || y % 400 == 0)
  }

  /** The number of days in a month of the Gregorian calendar. */
  function DaysIn(ym: YearMonth): (r: int)
    ensures 28 <= r <= 31
    ensures r == 31 <==> ym.month in {0, 2, 4, 6, 7, 9, 11}
    ensures r < 30 <==> ym.month == 1
  {
    if ym.month == 1 then (if IsLeapYear(ym.year) then 29 else 28)
    else if ym.month in {3, 5, 8, 10} then 30
    else 31
  }

  /**
   * The month a fresh date for `today` lands in after moving its month back by `n`: the day
   * of the month is kept, so a day the target month does not have spills into the month after.
   */
  function SetMonthBack(today: Date, n: int): (r: YearMonth)
    ensures today.day <= DaysIn(MonthsBefore(MonthOf(today), n)) ==> r == MonthsBefore(MonthOf(today), n)
    ensures today.day > DaysIn(MonthsBefore(MonthOf(today), n)) ==>
      MonthNumber(r) == MonthNumber(MonthOf(today)) - n + 1
  {
    var target := MonthsBefore(MonthOf(today), n);
    if today.day > DaysIn(target) then MonthsBefore(target, -1) else target
  }

  /** The six empty buckets as the page builds them from `today`. */
  function EmptyBucketsAsWritten(today: Date): (r: seq<Bucket>)
    ensures |r| == 6
    ensures today.day <= 28 ==> r == EmptyBuckets(MonthOf(today))
  {
    var months := seq(6, i requires 0 <= i < 6 => SetMonthBack(today, i));
    var r := seq(6, k requires 0 <= k < 6 => Bucket(months[5 - k].year, months[5 - k].month, 0, 0));
    assert today.day <= 28 ==> r == EmptyBuckets(MonthOf(today)) by {
      if today.day <= 28 {
        var e := EmptyBuckets(MonthOf(today));
        forall k | 0 <= k < 6
          ensures r[k] == e[k]
        {
          assert months[5 - k] == MonthsBefore(MonthOf(today), 5 - k);
          assert MonthNumber(BucketMonth(e[k])) == MonthNumber(BucketMonth(r[k]));
        }
      }
    }
    r
  }

  /** The six months of the page's window, oldest first, are today moved back by 5, 4, ..., 0 months. */
  lemma AsWrittenMonths(today: Date)
    ensures Months(EmptyBucketsAsWritten(today)) ==
      [SetMonthBack(today, 5), SetMonthBack(today, 4), SetMonthBack(today, 3),
       SetMonthBack(today, 2), SetMonthBack(today, 1), SetMonthBack(today, 0)]
  {
  }

  /** Each step back from 31 March 2024, worked out with February's 29 days and November's 30. */
  lemma MarchEndSteps()
    ensures SetMonthBack(Date(2024, 2, 31), 0) == YearMonth(2024, 2)
    ensures SetMonthBack(Date(2024, 2, 31), 1) == YearMonth(2024, 2)
    ensures SetMonthBack(Date(2024, 2, 31), 2) == YearMonth(2024, 0)
    ensures SetMonthBack(Date(2024, 2, 31), 3) == YearMonth(2023, 11)
    ensures SetMonthBack(Date(2024, 2, 31), 4) == YearMonth(2023, 11)
    ensures SetMonthBack(Date(2024, 2, 31), 5) == YearMonth(2023, 9)
  {
    var today := Date(2024, 2, 31);
    assert MonthsBefore(MonthOf(today), 1) == YearMonth(2024, 1);
    assert MonthsBefore(MonthOf(today), 4) == YearMonth(2023, 10);
  }

  /**
   * As written, on 31 March 2024: February has 29 days and November 30, so those two steps
   * spill forward; the window repeats December and March and has no February at all.
   */
  lemma MonthEndSkipsMonths()
    ensures Months(EmptyBucketsAsWritten(Date(2024, 2, 31))) ==
      [YearMonth(2023, 9), YearMonth(2023, 11), YearMonth(2023, 11),
       YearMonth(2024, 0), YearMonth(2024, 2), YearMonth(2024, 2)]
    ensures !DistinctMonths(EmptyBucketsAsWritten(Date(2024, 2, 31)))
    ensures YearMonth(2024, 1) !in Months(EmptyBucketsAsWritten(Date(2024, 2, 31)))
  {
    var r := EmptyBucketsAsWritten(Date(2024, 2, 31));
    AsWrittenMonths(Date(2024, 2, 31));
    MarchEndSteps();
    assert BucketMonth(r[1]) == Months(r)[1] == Months(r)[2] == BucketMonth(r[2]);
  }

  function FebruaryGroceries(): Transaction {
    Transaction("f", "acc1", "1", 100, Expense, Date(2024, 1, 15), "Groceries")
  }

  /** As written, on 31 March 2024 a February expense leaves the chart untouched. */
  lemma MonthEndDropsFebruary()
    ensures var asWritten := EmptyBucketsAsWritten(Date(2024, 2, 31));
      Fill(asWritten, [FebruaryGroceries()]) == asWritten
  {
    var feb := FebruaryGroceries();
    var asWritten := EmptyBucketsAsWritten(Date(2024, 2, 31));
    MonthEndSkipsMonths();
    RecordOutsideWindow(asWritten, feb);
    assert [feb][1..] == [];
  }

  /** The consecutive window for March 2024 counts the same February expense. */
  lemma ConsecutiveWindowCountsFebruary()
    ensures GrandTotal(Fill(EmptyBuckets(YearMonth(2024, 2)), [FebruaryGroceries()])) == 100
  {
    var feb := FebruaryGroceries();
    var empty := EmptyBuckets(YearMonth(2024, 2));
    MonthlyTotalsGrandTotal([feb], YearMonth(2024, 2));
    assert Months(empty)[4] == YearMonth(2024, 1);
    assert Filter([feb], InWindow(Months(empty))) == [feb];
    assert [feb][1..] == [];
  }

  // ---------------------------------------------------------------------
  // The expense pie

  /** One slice of the expense pie. */
  datatype Slice = Slice(name: string, value: int, color: string)

  function IsExpenseCategory(c: Category): bool { c.kind == Expense }

  function IsPositive(e: Slice): bool { e.value > 0 }

  function InCategory(id: string): Transaction -> bool {
    (t: Transaction) => t.categoryId == id
  }

  /** Everything recorded under category `id`, whatever the transactions' own type. */
  function CategoryTotal(txs: seq<Transaction>, id: string): (r: int)
    ensures (forall t :: t in txs ==> t.categoryId != id) ==> r == 0
    ensures (forall t :: t in txs && t.categoryId == id ==> t.amount >= 0) ==> r >= 0
    ensures (forall t :: t in txs && t.categoryId == id ==> t.amount >= 0) ==>
            (exists t :: t in txs && t.categoryId == id && t.amount > 0) ==> r > 0
  {
    var kept := Filter(txs, InCategory(id));
    SumSign(kept, Amount);
    assert kept != [] ==> kept[0] in kept;
    Sum(kept, Amount)
  }

  /** A category's total gains each amount filed under it, whatever the transaction's type. */
  lemma CategoryTotalCons(t: Transaction, txs: seq<Transaction>, id: string)
    ensures CategoryTotal([t] + txs, id) == CategoryTotal(txs, id) + (if t.categoryId == id then t.amount else 0)
  {
    FilterConcat([t], txs, InCategory(id));
    SumConcat(Filter([t], InCategory(id)), Filter(txs, InCategory(id)), Amount);
    assert [t][1..] == [];
  }

  function SliceOf(c: Category, txs: seq<Transaction>): Slice {
    Slice(c.name, CategoryTotal(txs, c.id), c.color)
  }

  function Slices(categories: seq<Category>, txs: seq<Transaction>): (r: seq<Slice>)
    ensures |r| == |categories|
    ensures forall i :: 0 <= i < |r| ==> r[i] == SliceOf(categories[i], txs)
  {
    seq(|categories|, i requires 0 <= i < |categories| => SliceOf(categories[i], txs))
  }

  /**
   * The pie: the expense categories in list order, each with its total, keeping only
   * the slices whose total is positive.
   */
  function ExpenseByCategory(categories: seq<Category>, txs: seq<Transaction>): (r: seq<Slice>)
    ensures forall e :: e in r ==> e.value > 0
    ensures forall e :: e in r ==> exists c :: c in categories && c.kind == Expense && e == SliceOf(c, txs)
    ensures forall c :: c in categories && c.kind == Expense && CategoryTotal(txs, c.id) > 0 ==>
      SliceOf(c, txs) in r
  {
    var slices := Slices(Filter(categories, IsExpenseCategory), txs);
    ExpenseSlices(categories, txs);
    Filter(slices, IsPositive)
  }

  /** The slices of the expense categories are exactly the expense categories' slices. */
  lemma ExpenseSlices(categories: seq<Category>, txs: seq<Transaction>)
    ensures var slices := Slices(Filter(categories, IsExpenseCategory), txs);
      && (forall e :: e in slices ==> exists c :: c in categories && c.kind == Expense && e == SliceOf(c, txs))
      && (forall c :: c in categories && c.kind == Expense ==> SliceOf(c, txs) in slices)
  {
    var expense := Filter(categories, IsExpenseCategory);
    var slices := Slices(expense, txs);
    forall e | e in slices
      ensures exists c :: c in categories && c.kind == Expense && e == SliceOf(c, txs)
    {
      var i :| 0 <= i < |slices| && slices[i] == e;
      assert expense[i] in expense;
    }
    forall c | c in categories && c.kind == Expense
      ensures SliceOf(c, txs) in slices
    {
      assert IsExpenseCategory(c);
      var i :| 0 <= i < |expense| && expense[i] == c;
      assert slices[i] == SliceOf(c, txs);
    }
  }

  /** The pie keeps category order: the slices of two category lists are the slices of each, in turn. */
  lemma ExpenseByCategoryConcat(a: seq<Category>, b: seq<Category>, txs: seq<Transaction>)
    ensures ExpenseByCategory(a + b, txs) == ExpenseByCategory(a, txs) + ExpenseByCategory(b, txs)
  {
    FilterConcat(a, b, IsExpenseCategory);
    var ea := Filter(a, IsExpenseCategory);
    var eb := Filter(b, IsExpenseCategory);
    SlicesConcat(ea, eb, txs);
    FilterConcat(Slices(ea, txs), Slices(eb, txs), IsPositive);
  }

  lemma SlicesConcat(a: seq<Category>, b: seq<Category>, txs: seq<Transaction>)
    ensures Slices(a + b, txs) == Slices(a, txs) + Slices(b, txs)
  {
    var l := Slices(a + b, txs);
    var r := Slices(a, txs) + Slices(b, txs);
    forall i | 0 <= i < |l|
      ensures l[i] == r[i]
    {
      if i < |a| {
        assert (a + b)[i] == a[i];
      } else {
        assert (a + b)[i] == b[i - |a|];
      }
    }
  }

  /** An income transaction filed under an expense category is counted in that category's slice. */
  lemma IncomeCountsTowardExpenseSlice()
    ensures
      var food := Category("1", "Food & Dining", Expense, "#F87171");
      var salary := Transaction("t", "acc1", "1", 65000, Income, Date(2024, 0, 5), "Salary");
      ExpenseByCategory([food], [salary]) == [Slice("Food & Dining", 65000, "#F87171")]
  {
    var food := Category("1", "Food & Dining", Expense, "#F87171");
    var salary := Transaction("t", "acc1", "1", 65000, Income, Date(2024, 0, 5), "Salary");
    assert Filter([salary], InCategory("1")) == [salary];
    assert [salary][1..] == [];
    assert Sum([salary], Amount) == 65000;
    assert CategoryTotal([salary], "1") == 65000;
    assert Filter([food], IsExpenseCategory) == [food];
    assert Slices([food], [salary]) == [SliceOf(food, [salary])];
  }
}
