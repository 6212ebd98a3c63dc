/** The budget actions of the store (`budgetActions.ts`): adding, updating
    and deleting a budget, the budgets of one month keyed by category, and
    each category's progress against its budget in that month. The signed-in
    user and the database's replies are arguments. */
module BudgetActions {
  import opened Wrappers
  import opened StoreModel
  import opened StoreRecords
  import opened KeyedTotals
  import opened Statistics

  const NotLoggedIn := "You must be logged in to add budgets"

  /** A budget as the form hands it over, before it has an id. */
  datatype BudgetDraft = BudgetDraft(amount: int, month: string, categoryId: string)

  /** The row `addBudget` inserts. */
  datatype BudgetInsert = BudgetInsert(amount: int, month: string, category_id: string, user_id: string)

  function BudgetInsertOf(b: BudgetDraft, user: string): (ins: BudgetInsert)
    ensures ins.amount == b.amount && ins.month == b.month
    ensures ins.category_id == b.categoryId && ins.user_id == user
  {
    BudgetInsert(b.amount, b.month, b.categoryId, user)
  }

  /** The row the database stores for an insert, under the id it chose. */
  function InsertedRow(ins: BudgetInsert, id: string): BudgetRow {
    BudgetRow(id, ins.amount, ins.month, ins.category_id)
  }

  /** Inserting a draft and reading the row back gives the draft's fields
      under the new id. */
  lemma BudgetInsertReadBack(b: BudgetDraft, user: string, id: string)
    ensures ToBudget(InsertedRow(BudgetInsertOf(b, user), id)) == Budget(id, b.amount, b.month, b.categoryId)
  {
  }

  // -------------------------------------------------------------------- add

  /** `addBudget`: without a user nothing is sent; a returned row is
      converted and appended to the list. Every error, the missing user's
      included, is reported and turned into `null`, so the call never
      throws. */
  function AddBudget(st: State, b: BudgetDraft, user: Option<string>, reply: Result<Option<BudgetRow>, string>)
    : (s: Step<BudgetInsert, Budget>)
    ensures s.outcome.Returned?
    ensures user.None? ==> s == Step(None, st, Returned(None))
    ensures user.Some? ==> s.request == Some(BudgetInsertOf(b, user.value))
    ensures s.state != st ==> user.Some? && reply.Ok? && reply.value.Some?
    ensures user.Some? && reply.Ok? && reply.value.Some? ==>
      var nb := ToBudget(reply.value.value);
      s.outcome == Returned(Some(nb)) && s.state == st.(budgets := st.budgets + [nb])
  {
    match user
    case None => Step(None, st, Returned(None))
    case Some(u) =>
      var request := Some(BudgetInsertOf(b, u));
      match reply
      case Err(_) => Step(request, st, Returned(None))
      case Ok(None) => Step(request, st, Returned(None))
      case Ok(Some(row)) =>
        var nb := ToBudget(row);
        Step(request, st.(budgets := st.budgets + [nb]), Returned(Some(nb)))
  }

  // ----------------------------------------------------------------- update

  /** The fields an `updateBudget` call sets; `None` is a field left
      `undefined`. */
  datatype BudgetPatch = BudgetPatch(amount: Option<int>, month: Option<string>, categoryId: Option<string>)

  /** The columns an update sends. */
  datatype BudgetChanges = BudgetChanges(amount: Option<int>, month: Option<string>, category_id: Option<string>)

  /** `dbUpdates`: a column for every field that is not `undefined`. */
  function BudgetDbUpdates(p: BudgetPatch): (u: BudgetChanges)
    ensures u.amount == p.amount && u.month == p.month && u.category_id == p.categoryId
  {
    BudgetChanges(p.amount, p.month, p.categoryId)
  }

  /** The row after the database applies an update to it. */
  function ApplyBudgetChanges(row: BudgetRow, u: BudgetChanges): BudgetRow {
    BudgetRow(row.id, u.amount.GetOr(row.amount), u.month.GetOr(row.month), u.category_id.GetOr(row.category_id))
  }

  /** The row a budget was read from. */
  function BudgetRowOf(b: Budget): BudgetRow {
    BudgetRow(b.id, b.amount, b.month, b.categoryId)
  }

  /** A budget with the fields of a patch that are set. */
  function PatchedBudget(b: Budget, p: BudgetPatch): Budget {
    b.(amount := p.amount.GetOr(b.amount), month := p.month.GetOr(b.month),
       categoryId := p.categoryId.GetOr(b.categoryId))
  }

  /** Updating a budget's row and reading it back gives the budget with
      exactly the patched fields changed. */
  lemma BudgetUpdateReadBack(b: Budget, p: BudgetPatch)
    ensures ToBudget(ApplyBudgetChanges(BudgetRowOf(b), BudgetDbUpdates(p))) == PatchedBudget(b, p)
    ensures ToBudget(BudgetRowOf(b)) == b
  {
  }

  /** `updateBudget`: the returned row replaces every budget with the id;
      an error is reported and turned into `null`. */
  function UpdateBudget(st: State, id: string, p: BudgetPatch, reply: Result<Option<BudgetRow>, string>)
    : (s: Step<BudgetChanges, Budget>)
    ensures s.request == Some(BudgetDbUpdates(p)) && s.outcome.Returned?
    ensures !(reply.Ok? && reply.value.Some?) ==> s.state == st && s.outcome == Returned(None)
    ensures reply.Ok? && reply.value.Some? ==>
      var nb := ToBudget(reply.value.value);
      s.outcome == Returned(Some(nb)) && s.state == st.(budgets := Replace(st.budgets, id, BudgetId, nb))
  {
    var request := Some(BudgetDbUpdates(p));
    match reply
    case Err(_) => Step(request, st, Returned(None))
    case Ok(None) => Step(request, st, Returned(None))
    case Ok(Some(row)) =>
      var nb := ToBudget(row);
      Step(request, st.(budgets := Replace(st.budgets, id, BudgetId, nb)), Returned(Some(nb)))
  }

  /** An update keeps the number of budgets, and, when the row has the id
      it was asked for, every other budget is left where it was. */
  lemma UpdateBudgetKeepsOthers(st: State, id: string, p: BudgetPatch, row: BudgetRow)
    requires row.id == id
    ensures var after := UpdateBudget(st, id, p, Ok(Some(row))).state;
      |after.budgets| == |st.budgets| && after.expenses == st.expenses
      && Remove(after.budgets, id, BudgetId) == Remove(st.budgets, id, BudgetId)
  {
    ReplaceThenRemove(st.budgets, id, BudgetId, ToBudget(row));
  }

  // ----------------------------------------------------------------- delete

  /** `deleteBudget`: the row is deleted, then every budget with the id
      leaves the list; a database error is reported and re-thrown, and
      changes nothing. */
  function DeleteBudget(st: State, id: string, error: Option<string>): (s: Step<string, ()>)
    ensures s.request == Some(id)
    ensures error.Some? ==> s.state == st && s.outcome == Threw(error.value)
    ensures error.None? ==>
      s.outcome == Returned(None) && s.state == st.(budgets := Remove(st.budgets, id, BudgetId))
  {
    match error
    case Some(m) => Step(Some(id), st, Threw(m))
    case None => Step(Some(id), st.(budgets := Remove(st.budgets, id, BudgetId)), Returned(None))
  }

  /** Deleting a budget just added, under an id no other budget has, gives
      back the store as it was. */
  lemma AddThenDeleteBudget(st: State, b: BudgetDraft, user: string, row: BudgetRow)
    requires forall i :: 0 <= i < |st.budgets| ==> st.budgets[i].id != row.id
    ensures var added := AddBudget(st, b, Some(user), Ok(Some(row)));
      added.outcome == Returned(Some(ToBudget(row)))
      && DeleteBudget(added.state, row.id, None).state == st
  {
    var nb := ToBudget(row);
    RemoveAppend(st.budgets, [nb], row.id, BudgetId);
    RemoveAbsent(st.budgets, row.id, BudgetId);
    assert Remove([nb], row.id, BudgetId) == [] by {
      assert [nb][..0] == [];
    }
  }

  // ---------------------------------------------------------- by month

  function BudgetMonth(b: Budget): string { b.month }
  function BudgetCategory(b: Budget): string { b.categoryId }

  /** The record the loop of `getBudgetByMonth` builds: each budget is
      stored under its category, so a later budget for the same category
      overwrites an earlier one in place. */
  function BudgetIndex(bs: seq<Budget>): (r: seq<(string, Budget)>)
    ensures DistinctKeys(r)
  {
    if bs == [] then []
    else Assign(BudgetIndex(bs[..|bs| - 1]), bs[|bs| - 1].categoryId, bs[|bs| - 1])
  }

  /** The budgets of a month, keyed by category. */
  function BudgetsOfMonth(budgets: seq<Budget>, month: string): seq<(string, Budget)> {
    BudgetIndex(FilterBy(budgets, BudgetMonth, month))
  }

  /** The last budget of the list for a category, if any: the reference
      for what the record holds. */
  function LastFor(bs: seq<Budget>, categoryId: string): Option<Budget> {
    if bs == [] then None
    else if bs[|bs| - 1].categoryId == categoryId then Some(bs[|bs| - 1])
    else LastFor(bs[..|bs| - 1], categoryId)
  }

  /** There is a last budget for a category exactly when the list has a
      budget for it. */
  lemma {:induction false} LastForFound(bs: seq<Budget>, categoryId: string)
    ensures LastFor(bs, categoryId).None? <==> !HasKey(bs, BudgetCategory, categoryId)
  {
    if bs != [] {
      HasKeySplit(bs, BudgetCategory, categoryId);
      if bs[|bs| - 1].categoryId != categoryId {
        LastForFound(bs[..|bs| - 1], categoryId);
      }
    }
  }

  /** The last budget for a category is one of the list's budgets for it
      that no later budget for it follows. */
  lemma {:induction false} LastForIsLast(bs: seq<Budget>, categoryId: string)
    ensures var r := LastFor(bs, categoryId);
      r.Some? ==> exists j :: (0 <= j < |bs| && bs[j] == r.value && bs[j].categoryId == categoryId
        && forall l :: j < l < |bs| ==> bs[l].categoryId != categoryId)
  {
    if bs != [] && bs[|bs| - 1].categoryId != categoryId {
      var init := bs[..|bs| - 1];
      LastForIsLast(init, categoryId);
      var r := LastFor(init, categoryId);
      if r.Some? {
        var j :| 0 <= j < |init| && init[j] == r.value && init[j].categoryId == categoryId
          && forall l :: j < l < |init| ==> init[l].categoryId != categoryId;
        assert bs[j] == init[j];
      }
    }
  }

  /** The record holds, under each category, the last budget for it, and
      nothing under a category without one. */
  lemma {:induction false} BudgetIndexGet(bs: seq<Budget>, k: string)
    ensures Get(BudgetIndex(bs), k) == LastFor(bs, k)
  {
    if bs != [] {
      var init := bs[..|bs| - 1];
      BudgetIndexGet(init, k);
      AssignGet(BudgetIndex(init), bs[|bs| - 1].categoryId, bs[|bs| - 1], k);
    }
  }

  /** `getBudgetByMonth`: the budgets of the month, each stored under its
      category id in turn. */
  method GetBudgetByMonth(budgets: seq<Budget>, month: string) returns (result: seq<(string, Budget)>)
    ensures result == BudgetsOfMonth(budgets, month)
  {
    var bs := FilterBy(budgets, BudgetMonth, month);
    result := [];
    var i := 0;
    while i < |bs|
      invariant 0 <= i <= |bs|
      invariant result == BudgetIndex(bs[..i])
    {
      assert bs[..i + 1][..i] == bs[..i];
      result := Assign(result, bs[i].categoryId, bs[i]);
      i := i + 1;
    }
    assert bs[..i] == bs;
  }

  /** Under a category the month's record holds the month's last budget
      for it; a category has an entry exactly when the month has a budget
      for it. */
  lemma BudgetsOfMonthLatest(budgets: seq<Budget>, month: string, k: string)
    ensures var r := Get(BudgetsOfMonth(budgets, month), k);
      (r.Some? <==> exists i :: 0 <= i < |budgets| && budgets[i].month == month && budgets[i].categoryId == k)
      && (r.Some? ==> r.value in budgets && r.value.month == month && r.value.categoryId == k)
  {
    var bs := FilterBy(budgets, BudgetMonth, month);
    BudgetIndexGet(bs, k);
    LastForFound(bs, k);
    LastForIsLast(bs, k);
    var r := LastFor(bs, k);
    if exists i :: 0 <= i < |budgets| && budgets[i].month == month && budgets[i].categoryId == k {
      var i :| 0 <= i < |budgets| && budgets[i].month == month && budgets[i].categoryId == k;
      assert BudgetMonth(budgets[i]) == month;
      assert budgets[i] in bs;
      var j :| 0 <= j < |bs| && bs[j] == budgets[i];
      assert BudgetCategory(bs[j]) == k;
    }
    if r.Some? {
      assert r.value in bs;
    }
  }

  // ---------------------------------------------------------- progress

  /** One row of `getBudgetProgress`. */
  datatype Progress = Progress(categoryId: string, budgetAmount: int, spentAmount: int, percentage: real)

  /** `Math.min(budget.amount > 0 ? spent / budget.amount * 100 : 0, 100)`. */
  function Percentage(spent: int, amount: int): (p: real)
    ensures p <= 100.0
  {
    if amount > 0 then
      var q := spent as real / amount as real * 100.0;
      if q < 100.0 then q else 100.0
    else 0.0
  }

  /** The percentage is capped at 100, is 0 without a positive budget,
      reaches 100 once the budget is spent, and below that is the share of
      the budget spent. */
  lemma PercentageMeaning(spent: int, amount: int)
    ensures amount <= 0 ==> Percentage(spent, amount) == 0.0
    ensures amount > 0 && spent >= amount ==> Percentage(spent, amount) == 100.0
    ensures amount > 0 && 0 <= spent ==> 0.0 <= Percentage(spent, amount)
    ensures amount > 0 && spent <= amount ==> Percentage(spent, amount) * amount as real == spent as real * 100.0
  {
    if amount > 0 {
      var q := spent as real / amount as real;
      assert q * amount as real == spent as real;
      if spent >= amount {
        assert q >= 1.0;
      }
    }
  }

  /** The rows for the categories with a budget, in the record's order. */
  function Budgeted(index: seq<(string, Budget)>, spent: Totals): (r: seq<Progress>)
    ensures |r| == |index|
    ensures forall i :: 0 <= i < |index| ==>
      r[i].categoryId == index[i].0 && r[i].budgetAmount == index[i].1.amount
      && r[i].spentAmount == Lookup(spent, index[i].0)
      && r[i].percentage == Percentage(Lookup(spent, index[i].0), index[i].1.amount)
  {
    seq(|index|, i requires 0 <= i < |index| =>
      Progress(index[i].0, index[i].1.amount, Lookup(spent, index[i].0),
               Percentage(Lookup(spent, index[i].0), index[i].1.amount)))
  }

  /** The rows for the categories with spending but no budget, in the
      totals' order: nothing budgeted, 100% used. */
  function Unbudgeted(index: seq<(string, Budget)>, spent: Totals): seq<Progress> {
    if spent == [] then []
    else
      var last := spent[|spent| - 1];
      Unbudgeted(index, spent[..|spent| - 1])
        + (if IndexOf(index, last.0) < 0 then [Progress(last.0, 0, last.1, 100.0)] else [])
  }

  /** The rows for a record of budgets and the totals spent: the budgeted
      rows, then the unbudgeted ones. */
  function ProgressRows(index: seq<(string, Budget)>, spent: Totals): seq<Progress> {
    Budgeted(index, spent) + Unbudgeted(index, spent)
  }

  /** The month's totals per category. */
  function SpentInMonth(st: State, month: string): (t: Totals)
    ensures DistinctKeys(t)
  {
    Tally(MonthlyExpenses(st.expenses, month), ExpenseCategory, ExpenseAmount)
  }

  /** What `getBudgetProgress` returns for a month. */
  function BudgetProgress(st: State, month: string): seq<Progress> {
    ProgressRows(BudgetsOfMonth(st.budgets, month), SpentInMonth(st, month))
  }

  /** The first loop of `getBudgetProgress`: each expense's amount is added
      to its category's total, a new category starting at 0. */
  method SumByCategory(expenses: seq<Expense>) returns (spent: Totals)
    ensures spent == Tally(expenses, ExpenseCategory, ExpenseAmount)
  {
    spent := [];
    var i := 0;
    while i < |expenses|
      invariant 0 <= i <= |expenses|
      invariant spent == Tally(expenses[..i], ExpenseCategory, ExpenseAmount)
    {
      assert expenses[..i + 1][..i] == expenses[..i];
      spent := AddTo(spent, expenses[i].categoryId, expenses[i].amount);
      i := i + 1;
    }
    assert expenses[..i] == expenses;
  }

  /** The second and third loops of `getBudgetProgress`: a row per entry of
      the record, then a row per total whose category has no entry. */
  method PushRows(index: seq<(string, Budget)>, spent: Totals) returns (result: seq<Progress>)
    ensures result == ProgressRows(index, spent)
  {
    result := [];
    var j := 0;
    while j < |index|
      invariant 0 <= j <= |index|
      invariant result == Budgeted(index, spent)[..j]
    {
      var amount := index[j].1.amount;
      var s := Lookup(spent, index[j].0);
      result := result + [Progress(index[j].0, amount, s, Percentage(s, amount))];
      j := j + 1;
    }
    var k := 0;
    while k < |spent|
      invariant 0 <= k <= |spent|
      invariant result == Budgeted(index, spent) + Unbudgeted(index, spent[..k])
    {
      assert spent[..k + 1][..k] == spent[..k];
      if IndexOf(index, spent[k].0) < 0 {
        result := result + [Progress(spent[k].0, 0, spent[k].1, 100.0)];
      }
      k := k + 1;
    }
    assert spent[..k] == spent;
  }

  /** `getBudgetProgress`: the month's record, the month's expenses summed
      per category, then the rows. */
  method GetBudgetProgress(st: State, month: string) returns (result: seq<Progress>)
    ensures result == BudgetProgress(st, month)
  {
    var index := GetBudgetByMonth(st.budgets, month);
    var expenses := MonthlyExpenses(st.expenses, month);
    var spent := SumByCategory(expenses);
    result := PushRows(index, spent);
  }

  /** The categories of some rows. */
  function Categories(rows: seq<Progress>): (ks: seq<string>)
    ensures |ks| == |rows| && forall i :: 0 <= i < |rows| ==> ks[i] == rows[i].categoryId
  {
    seq(|rows|, i requires 0 <= i < |rows| => rows[i].categoryId)
  }

  /** Every row without a budget is for a category of the totals that has
      no entry in the record, shows that category's total, and reads 100%
      used. */
  lemma {:induction false} UnbudgetedFacts(index: seq<(string, Budget)>, spent: Totals)
    requires DistinctKeys(spent)
    ensures forall i :: 0 <= i < |Unbudgeted(index, spent)| ==>
      var row := Unbudgeted(index, spent)[i];
      row.categoryId in Keys(spent) && IndexOf(index, row.categoryId) < 0
      && row.budgetAmount == 0 && row.percentage == 100.0
      && row.spentAmount == Lookup(spent, row.categoryId)
  {
    if spent != [] {
      var init := spent[..|spent| - 1];
      var last := spent[|spent| - 1];
      UnbudgetedFacts(index, init);
      var a := Unbudgeted(index, init);
      var u := Unbudgeted(index, spent);
      assert Keys(spent) == Keys(init) + [last.0];
      forall i | 0 <= i < |a|
        ensures u[i] == a[i] && a[i].categoryId != last.0
        ensures Lookup(spent, a[i].categoryId) == Lookup(init, a[i].categoryId)
      {
        assert a[i].categoryId in Keys(init);
        var x :| 0 <= x < |init| && Keys(init)[x] == a[i].categoryId;
        assert spent[x].0 == init[x].0;
      }
    }
  }

  /** Under distinct totals keys no category has two rows without a
      budget. */
  lemma {:induction false} UnbudgetedDistinct(index: seq<(string, Budget)>, spent: Totals)
    requires DistinctKeys(spent)
    ensures forall i, j :: 0 <= i < j < |Unbudgeted(index, spent)| ==>
      Unbudgeted(index, spent)[i].categoryId != Unbudgeted(index, spent)[j].categoryId
  {
    if spent != [] {
      var init := spent[..|spent| - 1];
      var last := spent[|spent| - 1];
      UnbudgetedDistinct(index, init);
      UnbudgetedFacts(index, init);
      var a := Unbudgeted(index, init);
      var u := Unbudgeted(index, spent);
      assert u == a || u == a + [Progress(last.0, 0, last.1, 100.0)];
      forall i | 0 <= i < |a|
        ensures u[i] == a[i] && a[i].categoryId != last.0
      {
        assert a[i].categoryId in Keys(init);
        var x :| 0 <= x < |init| && Keys(init)[x] == a[i].categoryId;
        assert spent[x].0 == init[x].0;
      }
    }
  }

  /** A category has a row without a budget exactly when it has a total
      and no entry in the record. */
  lemma {:induction false} UnbudgetedCategories(index: seq<(string, Budget)>, spent: Totals, k: string)
    ensures k in Categories(Unbudgeted(index, spent)) <==> k in Keys(spent) && IndexOf(index, k) < 0
  {
    if spent != [] {
      var init := spent[..|spent| - 1];
      var last := spent[|spent| - 1];
      UnbudgetedCategories(index, init, k);
      var a := Unbudgeted(index, init);
      var u := Unbudgeted(index, spent);
      assert Keys(spent) == Keys(init) + [last.0];
      if IndexOf(index, last.0) < 0 {
        assert Categories(u) == Categories(a) + [last.0];
      } else {
        assert u == a;
      }
    }
  }

  /** Each row shows its category's total and no percentage exceeds 100. */
  lemma RowsSpent(index: seq<(string, Budget)>, spent: Totals)
    requires DistinctKeys(spent)
    ensures var rows := ProgressRows(index, spent);
      forall i :: 0 <= i < |rows| ==>
        rows[i].spentAmount == Lookup(spent, rows[i].categoryId) && rows[i].percentage <= 100.0
  {
    var b := Budgeted(index, spent);
    var u := Unbudgeted(index, spent);
    var rows := ProgressRows(index, spent);
    UnbudgetedFacts(index, spent);
    forall i | 0 <= i < |rows|
      ensures rows[i].spentAmount == Lookup(spent, rows[i].categoryId) && rows[i].percentage <= 100.0
    {
      if i < |b| {
        assert rows[i] == b[i];
      } else {
        assert rows[i] == u[i - |b|];
      }
    }
  }

  lemma RowsBudgeted(index: seq<(string, Budget)>, spent: Totals)
    requires DistinctKeys(index)
    ensures var rows := ProgressRows(index, spent);
      |index| <= |rows|
      && forall i :: 0 <= i < |index| ==>
        Get(index, rows[i].categoryId) == Some(index[i].1) && rows[i].budgetAmount == index[i].1.amount
  {
    var b := Budgeted(index, spent);
    var rows := ProgressRows(index, spent);
    forall i | 0 <= i < |index|
      ensures Get(index, rows[i].categoryId) == Some(index[i].1) && rows[i].budgetAmount == index[i].1.amount
    {
      assert rows[i] == b[i];
      IndexOfDistinct(index, i);
    }
  }

  lemma RowsUnbudgeted(index: seq<(string, Budget)>, spent: Totals)
    requires DistinctKeys(spent)
    ensures var rows := ProgressRows(index, spent);
      forall i :: |index| <= i < |rows| ==>
        Get(index, rows[i].categoryId).None? && rows[i].budgetAmount == 0 && rows[i].percentage == 100.0
  {
    var u := Unbudgeted(index, spent);
    var rows := ProgressRows(index, spent);
    UnbudgetedFacts(index, spent);
    forall i | |index| <= i < |rows|
      ensures Get(index, rows[i].categoryId).None? && rows[i].budgetAmount == 0 && rows[i].percentage == 100.0
    {
      assert rows[i] == u[i - |index|];
    }
  }

  /** The record's rows come first, each with the record's budget, and the
      rows after them have no entry in the record and read 100% used. */
  lemma RowsShape(index: seq<(string, Budget)>, spent: Totals)
    requires DistinctKeys(index) && DistinctKeys(spent)
    ensures var rows := ProgressRows(index, spent);
      |index| <= |rows|
      && (forall i :: 0 <= i < |index| ==>
        Get(index, rows[i].categoryId) == Some(index[i].1) && rows[i].budgetAmount == index[i].1.amount)
      && (forall i :: |index| <= i < |rows| ==>
        Get(index, rows[i].categoryId).None? && rows[i].budgetAmount == 0 && rows[i].percentage == 100.0)
  {
    RowsBudgeted(index, spent);
    RowsUnbudgeted(index, spent);
  }

  /** No category has two rows. */
  lemma RowsDistinct(index: seq<(string, Budget)>, spent: Totals)
    requires DistinctKeys(index) && DistinctKeys(spent)
    ensures var rows := ProgressRows(index, spent);
      forall i, j :: 0 <= i < j < |rows| ==> rows[i].categoryId != rows[j].categoryId
  {
    var u := Unbudgeted(index, spent);
    var rows := ProgressRows(index, spent);
    UnbudgetedFacts(index, spent);
    UnbudgetedDistinct(index, spent);
    forall i, j | 0 <= i < j < |rows|
      ensures rows[i].categoryId != rows[j].categoryId
    {
      if j >= |index| && i < |index| {
        assert rows[j] == u[j - |index|];
        IndexOfDistinct(index, i);
      } else if i >= |index| {
        assert rows[i] == u[i - |index|] && rows[j] == u[j - |index|];
      }
    }
  }

  lemma CategoriesAppend(a: seq<Progress>, b: seq<Progress>)
    ensures Categories(a + b) == Categories(a) + Categories(b)
  {
  }

  lemma BudgetedCategories(index: seq<(string, Budget)>, spent: Totals)
    ensures Categories(Budgeted(index, spent)) == Keys(index)
  {
  }

  /** A category has a row exactly when it has an entry in the record or
      a total. */
  lemma RowsCover(index: seq<(string, Budget)>, spent: Totals, k: string)
    ensures k in Categories(ProgressRows(index, spent)) <==> k in Keys(index) || k in Keys(spent)
  {
    var b := Budgeted(index, spent);
    var u := Unbudgeted(index, spent);
    UnbudgetedCategories(index, spent, k);
    CategoriesAppend(b, u);
    BudgetedCategories(index, spent);
    var i := IndexOf(index, k);
    if i >= 0 {
      assert Keys(index)[i] == k;
    }
  }

  /** In a month, each row shows what was spent in its category, no
      percentage exceeds 100, no category comes twice, the budgeted rows
      come first with the category's budget for the month, and the rows
      after them are for categories without a budget that month and read
      100% used. */
  lemma BudgetProgressRows(st: State, month: string)
    ensures var rows := BudgetProgress(st, month);
      var index := BudgetsOfMonth(st.budgets, month);
      |index| <= |rows|
      && (forall i :: 0 <= i < |rows| ==>
        rows[i].spentAmount == SumIn(MonthlyExpenses(st.expenses, month), rows[i].categoryId)
        && rows[i].percentage <= 100.0)
      && (forall i, j :: 0 <= i < j < |rows| ==> rows[i].categoryId != rows[j].categoryId)
      && (forall i :: 0 <= i < |index| ==>
        Get(index, rows[i].categoryId) == Some(index[i].1) && rows[i].budgetAmount == index[i].1.amount)
      && (forall i :: |index| <= i < |rows| ==>
        Get(index, rows[i].categoryId).None? && rows[i].budgetAmount == 0 && rows[i].percentage == 100.0)
  {
    var rows := BudgetProgress(st, month);
    RowsSpent(BudgetsOfMonth(st.budgets, month), SpentInMonth(st, month));
    RowsShape(BudgetsOfMonth(st.budgets, month), SpentInMonth(st, month));
    RowsDistinct(BudgetsOfMonth(st.budgets, month), SpentInMonth(st, month));
    forall i | 0 <= i < |rows|
      ensures rows[i].spentAmount == SumIn(MonthlyExpenses(st.expenses, month), rows[i].categoryId)
    {
      TallyLookup(MonthlyExpenses(st.expenses, month), ExpenseCategory, ExpenseAmount, rows[i].categoryId);
    }
  }

  /** A category has a row exactly when the month has a budget for it or
      an expense in it. */
  lemma BudgetProgressCovers(st: State, month: string, k: string)
    ensures k in Categories(BudgetProgress(st, month))
      <==> ((exists i :: 0 <= i < |st.budgets| && st.budgets[i].month == month && st.budgets[i].categoryId == k)
        || HasKey(MonthlyExpenses(st.expenses, month), ExpenseCategory, k))
  {
    RowsCover(BudgetsOfMonth(st.budgets, month), SpentInMonth(st, month), k);
    BudgetsOfMonthLatest(st.budgets, month, k);
    TallyKeys(MonthlyExpenses(st.expenses, month), ExpenseCategory, ExpenseAmount, k);
  }
}
