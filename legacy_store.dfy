/** The older, single-file store (`src/lib/store.ts`). Its state is the
    categories, subcategories and expenses lists and the `initialized` flag;
    the model keeps it in the same `State` record as the newer store and
    never touches the other fields. Its category and subcategory create,
    update and fetch code is the same as the newer store's and is modelled
    once, in `CategoryActions`; what differs is below: deletes that do not
    cascade and swallow errors, expenses without a recurrence, a month
    filter on the UTC date, and a persisted part that is only the flag. */
module LegacyStore {
  import opened Wrappers
  import opened Calendar
  import opened StoreModel
  import opened StoreRecords
  import opened ExpenseActions
  import Statistics
  import StableSort
  import CategoryActions

  // ------------------------------------------------------------- deletes

  /** `deleteCategory`: on success every category with the id leaves the
      list and nothing else changes; an error is only reported. */
  function DeleteCategory(st: State, id: string, error: Option<string>): (s: Step<string, ()>)
    ensures s.request == Some(id) && s.outcome == Returned(None)
    ensures error.Some? ==> s.state == st
    ensures error.None? ==> s.state == st.(categories := Remove(st.categories, id, CategoryId))
  {
    match error
    case Some(_) => Step(Some(id), st, Returned(None))
    case None => Step(Some(id), st.(categories := Remove(st.categories, id, CategoryId)), Returned(None))
  }

  /** The delete does not cascade: a subcategory of the deleted category
      stays in the store, where the newer store's cascade removes it, and so
      does every expense filed under the category. */
  lemma DeleteCategoryLeavesChildren(st: State, id: string, sub: Subcategory, e: Expense)
    requires sub in st.subcategories && sub.categoryId == id
    requires e in st.expenses && e.categoryId == id
    ensures var after := DeleteCategory(st, id, None).state;
      sub in after.subcategories && e in after.expenses
      && (forall i :: 0 <= i < |after.categories| ==> after.categories[i].id != id)
    ensures sub !in CategoryActions.CategoryCascade(st, id).subcategories
    ensures e !in CategoryActions.CategoryCascade(st, id).expenses
  {
    CategoryActions.CategoryCascadeClears(st, id);
  }

  /** `deleteSubCategory`: every subcategory with the id leaves the list;
      expenses filed under it stay; an error is only reported. */
  function DeleteSubCategory(st: State, id: string, error: Option<string>): (s: Step<string, ()>)
    ensures s.request == Some(id) && s.outcome == Returned(None)
    ensures error.Some? ==> s.state == st
    ensures error.None? ==> s.state == st.(subcategories := Remove(st.subcategories, id, SubcategoryId))
  {
    match error
    case Some(_) => Step(Some(id), st, Returned(None))
    case None => Step(Some(id), st.(subcategories := Remove(st.subcategories, id, SubcategoryId)), Returned(None))
  }

  /** `deleteExpense`: every expense with the id leaves the list; unlike
      the newer store, an error is only reported, not re-thrown. */
  function DeleteExpense(st: State, id: string, error: Option<string>): (s: Step<string, ()>)
    ensures s.request == Some(id) && s.outcome == Returned(None)
    ensures error.Some? ==> s.state == st
    ensures error.None? ==> s.state == ExpenseActions.DeleteExpense(st, id, None).state
  {
    match error
    case Some(_) => Step(Some(id), st, Returned(None))
    case None => Step(Some(id), st.(expenses := Remove(st.expenses, id, ExpenseId)), Returned(None))
  }

  // ------------------------------------------------------------ expenses

  /** This store's `convertToExpense`: it reads no recurrence. */
  function ToLegacyExpense(row: ExpenseRow): (e: Expense)
    ensures e.recurring.None?
    ensures e == ToExpense(row).(recurring := None)
  {
    Expense(row.id, row.amount, row.description, row.date, row.category_id, row.subcategory_id, None)
  }

  /** `fetchExpenses`: the newer store's query, order and error handling,
      each row read without a recurrence. */
  function FetchExpenses(st: State, reply: Result<Option<seq<ExpenseRow>>, string>): (r: (State, seq<Expense>))
    ensures |r.1| == |ExpenseActions.FetchExpenses(st, reply).1|
    ensures forall i :: 0 <= i < |r.1| ==>
      r.1[i] == ExpenseActions.FetchExpenses(st, reply).1[i].(recurring := None)
    ensures r.0 == if reply.Ok? && reply.value.Some? then st.(expenses := r.1) else st
  {
    match reply
    case Ok(Some(rows)) =>
      var expenses := StableSort.Project(rows, ToLegacyExpense);
      (st.(expenses := expenses), expenses)
    case _ => (st, [])
  }

  /** Fetching back the rows of expenses without a recurrence gives the
      same expenses in the same order. */
  lemma FetchRoundTrip(st: State, es: seq<Expense>)
    requires NoRecurrences(es)
    ensures FetchExpenses(st, Ok(Some(StableSort.Project(es, ExpenseRowOf)))).1 == es
  {
    var rows := StableSort.Project(es, ExpenseRowOf);
    forall i | 0 <= i < |es|
      ensures ToLegacyExpense(rows[i]) == es[i]
    {
      ExpenseRoundTrip(es[i]);
      NoRecurrenceAt(es, i);
    }
  }

  predicate NoRecurrences(es: seq<Expense>) {
    forall i :: 0 <= i < |es| ==> es[i].recurring.None?
  }

  lemma NoRecurrenceAt(es: seq<Expense>, i: nat)
    requires NoRecurrences(es) && i < |es|
    ensures es[i].recurring.None?
  {
  }

  /** The insert of `addExpense`: no recurrence column. */
  function LegacyInsertOf(d: Draft, userId: string): (row: ExpenseInsert)
    ensures row.recurring_data.None?
    ensures row == InsertOf(d.(recurring := None), userId)
  {
    ExpenseInsert(d.amount, d.description, d.date, d.categoryId, d.subcategoryId, None, userId)
  }

  /** An expense added here reads back as its draft without a recurrence:
      a recurrence given to this store is lost. */
  lemma AddDropsRecurrence(d: Draft, userId: string, id: string)
    ensures var plain := d.(recurring := None);
      ToLegacyExpense(StoredRow(plain, LegacyInsertOf(d, userId), id)) == WithId(d, id).(recurring := None)
  {
  }

  /** `addExpense`: without a user it throws; an insert error is re-thrown;
      a returned row is converted and put first. */
  function AddExpense(st: State, d: Draft, reply: Reply): (s: Step<ExpenseInsert, Expense>)
    ensures reply.user.None? ==> s == Step(None, st, Threw(NotLoggedIn))
    ensures reply.user.Some? ==> s.request == Some(LegacyInsertOf(d, reply.user.value))
    ensures s.outcome.Threw? <==> Fails(reply)
    ensures reply.user.Some? && reply.result.Err? ==> s.state == st && s.outcome == Threw(reply.result.error)
    ensures !Fails(reply) && reply.result.value.None? ==> s.state == st && s.outcome == Returned(None)
    ensures !Fails(reply) && reply.result.value.Some? ==>
      var e := ToLegacyExpense(reply.result.value.value);
      s.outcome == Returned(Some(e)) && s.state == st.(expenses := [e] + st.expenses)
  {
    match reply.user
    case None => Step(None, st, Threw(NotLoggedIn))
    case Some(u) =>
      var request := Some(LegacyInsertOf(d, u));
      match reply.result
      case Err(m) => Step(request, st, Threw(m))
      case Ok(None) => Step(request, st, Returned(None))
      case Ok(Some(row)) =>
        var e := ToLegacyExpense(row);
        Step(request, st.(expenses := [e] + st.expenses), Returned(Some(e)))
  }

  /** Deleting an expense just added here, under a fresh id, gives back the
      store as it was. */
  lemma AddThenDelete(st: State, d: Draft, reply: Reply)
    requires !Fails(reply) && reply.result.value.Some?
    requires forall i :: 0 <= i < |st.expenses| ==> st.expenses[i].id != reply.result.value.value.id
    ensures var added := AddExpense(st, d, reply).state;
      DeleteExpense(added, reply.result.value.value.id, None).state == st
  {
    var e := ToLegacyExpense(reply.result.value.value);
    RemoveAppend([e], st.expenses, e.id, ExpenseId);
    RemoveAbsent(st.expenses, e.id, ExpenseId);
    assert Remove([e], e.id, ExpenseId) == [] by {
      assert Remove([e], e.id, ExpenseId) == Remove([e][..0], e.id, ExpenseId);
    }
  }

  /** `dbUpdates` of `updateExpense`, one column at a time, for every field
      that is not `undefined` (an empty description or a zero amount is
      sent); there is no recurrence column. */
  method UpdateDbUpdates(p: ExpensePatch) returns (u: ExpenseChanges)
    ensures u.amount == p.amount && u.description == p.description && u.date == p.date
    ensures u.category_id == p.categoryId && u.subcategory_id == p.subcategoryId
    ensures u.recurring_data.None?
    ensures u == DbUpdates(p.(recurring := None))
  {
    u := ExpenseChanges(None, None, None, None, None, None);
    if p.amount.Some? {
      u := u.(amount := p.amount);
    }
    if p.description.Some? {
      u := u.(description := p.description);
    }
    if p.date.Some? {
      u := u.(date := p.date);
    }
    if p.categoryId.Some? {
      u := u.(category_id := p.categoryId);
    }
    if p.subcategoryId.Some? {
      u := u.(subcategory_id := p.subcategoryId);
    }
  }

  /** An update read back here changes exactly the patched fields other
      than the recurrence, which is never kept. */
  lemma UpdateReadBack(e: Expense, p: ExpensePatch)
    ensures ToLegacyExpense(ApplyChanges(ExpenseRowOf(e), DbUpdates(p.(recurring := None))))
      == Patched(e, p).(recurring := None)
  {
  }

  /** `updateExpense`: the returned row replaces every expense with the id;
      an error is re-thrown. */
  method UpdateExpense(st: State, id: string, p: ExpensePatch, reply: Result<Option<ExpenseRow>, string>)
    returns (s: Step<ExpenseChanges, Expense>)
    ensures s.request == Some(DbUpdates(p.(recurring := None)))
    ensures reply.Err? ==> s.state == st && s.outcome == Threw(reply.error)
    ensures reply == Ok(None) ==> s.state == st && s.outcome == Returned(None)
    ensures reply.Ok? && reply.value.Some? ==>
      var e := ToLegacyExpense(reply.value.value);
      s.outcome == Returned(Some(e)) && s.state == st.(expenses := Replace(st.expenses, id, ExpenseId, e))
  {
    var u := UpdateDbUpdates(p);
    match reply
    case Err(m) =>
      s := Step(Some(u), st, Threw(m));
    case Ok(None) =>
      s := Step(Some(u), st, Returned(None));
    case Ok(Some(row)) =>
      var e := ToLegacyExpense(row);
      s := Step(Some(u), st.(expenses := Replace(st.expenses, id, ExpenseId, e)), Returned(Some(e)));
  }

  // --------------------------------------------------------- month filter

  /** `expense.date.toISOString().substring(0, 7)` in a zone `offset` ms
      ahead of UTC. */
  function UtcMonth(e: Expense, offset: Offset): string {
    IsoMonthPrefix(ToUtc(e.date, offset))
  }

  /** `getMonthlyExpenses(month)`: the expenses whose UTC month prints as
      `month`, in store order. */
  function MonthlyExpenses(expenses: seq<Expense>, month: string, offset: Offset): (r: seq<Expense>)
    ensures forall i :: 0 <= i < |r| ==> r[i] in expenses && UtcMonth(r[i], offset) == month
    ensures forall i :: 0 <= i < |expenses| && UtcMonth(expenses[i], offset) == month ==> expenses[i] in r
  {
    FilterBy(expenses, e => UtcMonth(e, offset), month)
  }

  /** For UTC years 1..9999 an expense is kept exactly when the month text
      names the expense's UTC month. */
  lemma InUtcMonthIff(e: Expense, month: string, offset: Offset)
    requires 1 <= ToUtc(e.date, offset).year <= 9999
    ensures UtcMonth(e, offset) == month <==> ParseMonth(month) == Some(MonthOf(ToUtc(e.date, offset)))
  {
    var u := ToUtc(e.date, offset);
    assert ValidMonth(MonthOf(u)) by {
      if offset != 0 {
        assert 1 <= u.month <= 12;
      }
    }
    IsoPrefixIsFormat(u);
    ParseMonthText(MonthOf(u));
    if ParseMonth(month) == Some(MonthOf(u)) {
      MonthTextOfParse(month);
    }
  }

  /** Two keys that agree on every element filter alike. */
  lemma {:induction false} FilterBySameKeys<T>(xs: seq<T>, k1: T -> string, k2: T -> string, v: string)
    requires forall i :: 0 <= i < |xs| ==> k1(xs[i]) == k2(xs[i])
    ensures FilterBy(xs, k1, v) == FilterBy(xs, k2, v)
  {
    if xs != [] {
      FilterBySameKeys(xs[..|xs| - 1], k1, k2, v);
    }
  }

  /** In a zone at UTC the filter is the local-month filter of the newer
      store, for years 1..9999. */
  lemma AtUtcSameAsLocal(expenses: seq<Expense>, month: string)
    requires forall i :: 0 <= i < |expenses| ==> 1 <= expenses[i].date.year <= 9999
    ensures MonthlyExpenses(expenses, month, 0) == Statistics.MonthlyExpenses(expenses, month)
  {
    forall i | 0 <= i < |expenses|
      ensures UtcMonth(expenses[i], 0) == Statistics.ExpenseMonth(expenses[i])
    {
      IsoPrefixIsFormat(expenses[i].date);
    }
    FilterBySameKeys(expenses, e => UtcMonth(e, 0), Statistics.ExpenseMonth, month);
  }

  /** One hour ahead of UTC. */
  const OneHourAhead: Offset := 60 * 60 * 1000

  /** Half past midnight on 1 March 2024, local time. */
  const EarlyMarch: LocalTime := DateTime(2024, 3, 1, 30 * 60 * 1000)

  /** An expense entered just after local midnight on the first of a month,
      in a zone ahead of UTC, is left out of that month by this filter and
      counted in the previous one, while the month picker (and the newer
      store) file it under the local month. */
  lemma NearMidnightInPreviousMonth()
    ensures var e := Expense("e", 100, "", EarlyMarch, "c", "", None);
      MonthlyExpenses([e], MonthText(YearMonth(2024, 3)), OneHourAhead) == []
      && MonthlyExpenses([e], MonthText(YearMonth(2024, 2)), OneHourAhead) == [e]
      && Statistics.MonthlyExpenses([e], MonthText(YearMonth(2024, 3))) == [e]
  {
    var e := Expense("e", 100, "", EarlyMarch, "c", "", None);
    EarlyMarchIsFebruaryInUtc(e);
    FebruaryIsNotMarch();
    OneExpense(e, MonthText(YearMonth(2024, 3)), OneHourAhead);
    OneExpense(e, MonthText(YearMonth(2024, 2)), OneHourAhead);
    assert Statistics.ExpenseMonth(e) == MonthText(YearMonth(2024, 3));
  }

  /** Both filters on a single expense. */
  lemma OneExpense(e: Expense, month: string, offset: Offset)
    ensures MonthlyExpenses([e], month, offset) == if UtcMonth(e, offset) == month then [e] else []
    ensures Statistics.MonthlyExpenses([e], month) == if Statistics.ExpenseMonth(e) == month then [e] else []
  {
    assert [e][..0] == [];
  }

  /** Half past midnight on 1 March, one hour ahead, is still February in
      UTC. */
  lemma EarlyMarchIsFebruaryInUtc(e: Expense)
    requires e.date == EarlyMarch
    ensures UtcMonth(e, OneHourAhead) == MonthText(YearMonth(2024, 2))
  {
    NeighbourMonths(YearMonth(2024, 3));
    assert DaysIn(YearMonth(2024, 2)) == 29;
    assert PrevDay(EarlyMarch) == DateTime(2024, 2, 29, EarlyMarch.msOfDay);
    var u := ToUtc(EarlyMarch, OneHourAhead);
    assert u == DateTime(2024, 2, 29, DayMs - 30 * 60 * 1000);
    IsoPrefixIsFormat(u);
  }

  lemma FebruaryIsNotMarch()
    ensures MonthText(YearMonth(2024, 2)) != MonthText(YearMonth(2024, 3))
  {
    ParseMonthText(YearMonth(2024, 2));
    ParseMonthText(YearMonth(2024, 3));
  }

  // ----------------------------------------------------------- statistics

  /** `getMonthlyStatistics(month)`: the newer store's statistics over this
      store's month filter. */
  function MonthlyStatistics(st: State, month: string, offset: Offset): Statistics.Stats {
    Statistics.StatisticsOf(MonthlyExpenses(st.expenses, month, offset), st.categories)
  }

  /** The total is the sum of the breakdown, and the breakdown runs from
      the largest total down. */
  lemma MonthlyStatisticsSorted(st: State, month: string, offset: Offset)
    ensures var s := MonthlyStatistics(st, month, offset);
      s.totalAmount == StableSort.SumKeys(s.categoryBreakdown, Statistics.EntryTotal)
      && StableSort.NonIncreasing(s.categoryBreakdown, Statistics.EntryTotal)
  {
    Statistics.StatisticsSorted(MonthlyExpenses(st.expenses, month, offset), st.categories);
  }

  /** Each entry of the breakdown holds what was spent in its category that
      UTC month. */
  lemma MonthlyStatisticsTotals(st: State, month: string, offset: Offset, entry: Statistics.Entry)
    requires entry in MonthlyStatistics(st, month, offset).categoryBreakdown
    ensures entry.total == Statistics.SumIn(MonthlyExpenses(st.expenses, month, offset), entry.id)
  {
    Statistics.StatisticsTotals(MonthlyExpenses(st.expenses, month, offset), st.categories, entry);
  }

  /** At UTC, for years 1..9999, the statistics are the newer store's. */
  lemma MonthlyStatisticsAtUtc(st: State, month: string)
    requires forall i :: 0 <= i < |st.expenses| ==> 1 <= st.expenses[i].date.year <= 9999
    ensures MonthlyStatistics(st, month, 0) == Statistics.MonthlyStatistics(st, month)
  {
    AtUtcSameAsLocal(st.expenses, month);
  }

  // ------------------------------------------------------------- persist

  /** `partialize`: only the initialized flag is written to local storage. */
  function Persist(st: State): (saved: bool)
    ensures saved <==> st.initialized
  {
    st.initialized
  }

  /** A fresh store with the saved flag. */
  function Restore(saved: bool): State {
    Initial.(initialized := saved)
  }

  /** A reload keeps the flag and nothing else: every list is fetched
      again. */
  lemma ReloadKeepsOnlyFlag(st: State)
    ensures Persist(Restore(Persist(st))) == Persist(st)
    ensures var back := Restore(Persist(st));
      back.categories == [] && back.subcategories == [] && back.expenses == []
  {
  }
}
