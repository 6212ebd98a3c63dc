/** The monthly view of the expenses: the expenses of one `yyyy-MM` month
    in local time, their total, and a per-category breakdown sorted by total,
    largest first. */
module Statistics {
  import opened Wrappers
  import opened Calendar
  import opened StoreModel
  import opened StableSort
  import opened KeyedTotals

  /** `format(expense.date, 'yyyy-MM')`: the local month of an expense. */
  function ExpenseMonth(e: Expense): string {
    FormatMonth(e.date)
  }

  function ExpenseCategory(e: Expense): string { e.categoryId }
  function ExpenseAmount(e: Expense): int { e.amount }

  /** `getMonthlyExpenses(month)`: the expenses whose local month prints as
      `month`, in store order. */
  function MonthlyExpenses(expenses: seq<Expense>, month: string): (r: seq<Expense>)
    ensures forall i :: 0 <= i < |r| ==> r[i] in expenses && ExpenseMonth(r[i]) == month
    ensures forall i :: 0 <= i < |expenses| && ExpenseMonth(expenses[i]) == month ==> expenses[i] in r
  {
    FilterBy(expenses, ExpenseMonth, month)
  }

  /** For years 1..9999 an expense belongs to the month exactly when the
      month text parses to the expense's year and month. */
  lemma InMonthIff(e: Expense, month: string)
    requires 1 <= e.date.year <= 9999
    ensures ExpenseMonth(e) == month <==> ParseMonth(month) == Some(MonthOf(e.date))
  {
    ParseMonthText(MonthOf(e.date));
    if ParseMonth(month) == Some(MonthOf(e.date)) {
      MonthTextOfParse(month);
    }
  }

  /** `reduce((total, e) => total + e.amount, 0)`. */
  function Sum(es: seq<Expense>): int {
    SumAll(es, ExpenseAmount)
  }

  /** What was spent in one category. */
  function SumIn(es: seq<Expense>, categoryId: string): int {
    SumWhere(es, ExpenseCategory, ExpenseAmount, categoryId)
  }

  /** `categoryTotals`: the amount per category id, in first-seen order. */
  function CategoryTotals(es: seq<Expense>): (t: Totals)
    ensures DistinctKeys(t)
  {
    Tally(es, ExpenseCategory, ExpenseAmount)
  }

  // ------------------------------------------------------------ breakdown

  datatype Entry = Entry(id: string, name: string, total: int, color: string)

  function EntryTotal(e: Entry): int { e.total }
  function EntryId(e: Entry): string { e.id }

  /** The chart colour of a category type. */
  function ColorOf(kind: string): (c: string)
    ensures kind == "food" ==> c == "green-500"
    ensures kind == "home" ==> c == "blue-500"
    ensures kind == "car" ==> c == "red-500"
    ensures kind == "groceries" ==> c == "yellow-500"
    ensures kind !in {"food", "home", "car", "groceries"} ==> c == "purple-500"
  {
    if kind == "food" then "green-500"
    else if kind == "home" then "blue-500"
    else if kind == "car" then "red-500"
    else if kind == "groceries" then "yellow-500"
    else "purple-500"
  }

  /** One breakdown entry: named after the first category with the id, or
      'Unknown' (type misc) when there is none. */
  function Describe(categories: seq<Category>, total: (string, int)): (e: Entry)
    ensures e.id == total.0 && e.total == total.1
    ensures Find(categories, total.0, CategoryId).None? ==> e.name == "Unknown" && e.color == "purple-500"
    ensures Find(categories, total.0, CategoryId).Some? ==>
      var c := Find(categories, total.0, CategoryId).value;
      e.name == c.name && e.color == ColorOf(c.kind)
  {
    match Find(categories, total.0, CategoryId)
    case None => Entry(total.0, "Unknown", total.1, ColorOf("misc"))
    case Some(c) => Entry(total.0, c.name, total.1, ColorOf(c.kind))
  }

  function DescribeAll(categories: seq<Category>, t: Totals): (es: seq<Entry>)
    ensures |es| == |t| && forall i :: 0 <= i < |t| ==> es[i] == Describe(categories, t[i])
  {
    if t == [] then [] else DescribeAll(categories, t[..|t| - 1]) + [Describe(categories, t[|t| - 1])]
  }

  datatype Stats = Stats(totalAmount: int, categoryBreakdown: seq<Entry>)

  /** The statistics of a month's expenses. */
  function StatisticsOf(monthly: seq<Expense>, categories: seq<Category>): Stats {
    Stats(Sum(monthly), SortDesc(DescribeAll(categories, CategoryTotals(monthly)), EntryTotal))
  }

  /** `getMonthlyStatistics(month)`. */
  function MonthlyStatistics(st: State, month: string): Stats {
    StatisticsOf(MonthlyExpenses(st.expenses, month), st.categories)
  }

  /** The total is the sum of the breakdown, and the breakdown runs from
      the largest total down. */
  lemma StatisticsSorted(monthly: seq<Expense>, categories: seq<Category>)
    ensures var s := StatisticsOf(monthly, categories);
      s.totalAmount == SumKeys(s.categoryBreakdown, EntryTotal)
      && NonIncreasing(s.categoryBreakdown, EntryTotal)
  {
    var t := CategoryTotals(monthly);
    var d := DescribeAll(categories, t);
    TallySum(monthly, ExpenseCategory, ExpenseAmount);
    SortDescCorrect(d, EntryTotal);
    SortKeepsSum(d, EntryTotal);
    DescribeSum(categories, t);
  }

  lemma {:induction false} DescribeSum(categories: seq<Category>, t: Totals)
    ensures SumKeys(DescribeAll(categories, t), EntryTotal) == SumTotals(t)
  {
    if t != [] {
      DescribeSum(categories, t[..|t| - 1]);
      var d := DescribeAll(categories, t);
      assert d[..|d| - 1] == DescribeAll(categories, t[..|t| - 1]);
    }
  }

  /** Every category with spending this month appears exactly once, with
      what was spent in it; no other id appears. */
  lemma StatisticsPerCategory(monthly: seq<Expense>, categories: seq<Category>, k: string)
    ensures var ids := Project(StatisticsOf(monthly, categories).categoryBreakdown, EntryId);
      multiset(ids)[k] == (if HasKey(monthly, ExpenseCategory, k) then 1 else 0)
  {
    var t := CategoryTotals(monthly);
    var d := DescribeAll(categories, t);
    SortProjects(d, EntryTotal, EntryId);
    assert Project(d, EntryId) == Keys(t);
    TallyKeys(monthly, ExpenseCategory, ExpenseAmount, k);
    DistinctCount(t, k);
  }

  /** Each entry of the breakdown carries what was spent in its category. */
  lemma StatisticsTotals(monthly: seq<Expense>, categories: seq<Category>, e: Entry)
    requires e in StatisticsOf(monthly, categories).categoryBreakdown
    ensures e.total == SumIn(monthly, e.id)
  {
    var t := CategoryTotals(monthly);
    var d := DescribeAll(categories, t);
    SortDescCorrect(d, EntryTotal);
    assert e in multiset(d);
    var i :| 0 <= i < |d| && d[i] == e;
    IndexOfDistinct(t, i);
    TallyLookup(monthly, ExpenseCategory, ExpenseAmount, e.id);
  }
}
