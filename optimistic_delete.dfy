/** The optimistic deletes of `updateDeleteExpense.ts`: the expenses leave
    the list at once, a toast offers an undo, and a timer commits the
    delete to the database unless the undo was clicked; a failed commit
    puts the expenses back. The toast click and the timer are events the
    caller applies in the order they happen; the store's state at each
    event and the database's reply are arguments. */
module OptimisticDelete {
  import opened Wrappers
  import opened Calendar
  import opened StoreModel
  import opened StableSort

  /** The delete the timer sends: `.eq('id', id)` or `.in('id', ids)`. */
  datatype DeleteRequest = ById(id: string) | ByIds(ids: seq<string>)

  /** The comparator of the undo's sort: the expense's `getTime()`, later
      first. */
  function DateKey(e: Expense): int {
    TimeKey(e.date)
  }

  /** The ids of a bulk call, as a set. */
  function IdSet(ids: seq<string>): (s: set<string>)
    ensures forall x :: x in s <==> x in ids
  {
    set x | x in ids
  }

  /** One delete in flight: the expenses it took out of the list, the
      request its timer will send, and the `undone` flag its toast's undo
      sets and its timer reads. */
  class PendingDelete {
    const snapshots: seq<Expense>
    const request: DeleteRequest
    var undone: bool

    constructor(snapshots: seq<Expense>, request: DeleteRequest)
      ensures this.snapshots == snapshots && this.request == request && !undone
    {
      this.snapshots := snapshots;
      this.request := request;
      undone := false;
    }

    /** The toast's undo: the flag is set and the snapshots go back into
        the list, which is sorted by date, latest first. */
    method Undo(st: State) returns (st': State)
      modifies this
      ensures undone
      ensures st' == st.(expenses := SortDesc(st.expenses + snapshots, DateKey))
    {
      undone := true;
      st' := st.(expenses := SortDesc(st.expenses + snapshots, DateKey));
    }

    /** The timer: after an undo it does nothing; otherwise it sends the
        delete, and when the database reports an error the snapshots are
        appended to the list again, unsorted. */
    method Fire(st: State, error: Option<string>) returns (sent: Option<DeleteRequest>, st': State)
      ensures undone ==> sent.None? && st' == st
      ensures !undone ==> sent == Some(request)
      ensures !undone && error.None? ==> st' == st
      ensures !undone && error.Some? ==> st' == st.(expenses := st.expenses + snapshots)
    {
      if undone {
        return None, st;
      }
      sent := Some(request);
      if error.Some? {
        st' := st.(expenses := st.expenses + snapshots);
      } else {
        st' := st;
      }
    }
  }

  /** `deleteExpense`: the first expense with the id is kept as the
      snapshot and every expense with the id leaves the list; an unknown id
      changes nothing and starts nothing. */
  method DeleteExpense(st: State, id: string) returns (st': State, pending: PendingDelete?)
    ensures Find(st.expenses, id, ExpenseId).None? ==> st' == st && pending == null
    ensures Find(st.expenses, id, ExpenseId).Some? ==>
      pending != null && fresh(pending) && !pending.undone
      && pending.snapshots == [Find(st.expenses, id, ExpenseId).value] && pending.request == ById(id)
      && st' == st.(expenses := Remove(st.expenses, id, ExpenseId))
  {
    var snapshot := Find(st.expenses, id, ExpenseId);
    if snapshot.None? {
      return st, null;
    }
    st' := st.(expenses := Remove(st.expenses, id, ExpenseId));
    pending := new PendingDelete([snapshot.value], ById(id));
  }

  /** `bulkDeleteExpenses`: every expense whose id is listed is kept as a
      snapshot and leaves the list; when none is listed nothing changes and
      nothing starts. */
  method BulkDeleteExpenses(st: State, ids: seq<string>) returns (st': State, pending: PendingDelete?)
    ensures TakeIds(st.expenses, IdSet(ids), ExpenseId) == [] ==> st' == st && pending == null
    ensures TakeIds(st.expenses, IdSet(ids), ExpenseId) != [] ==>
      pending != null && fresh(pending) && !pending.undone
      && pending.snapshots == TakeIds(st.expenses, IdSet(ids), ExpenseId) && pending.request == ByIds(ids)
      && st' == st.(expenses := RemoveIds(st.expenses, IdSet(ids), ExpenseId))
  {
    var snapshots := TakeIds(st.expenses, IdSet(ids), ExpenseId);
    if |snapshots| == 0 {
      return st, null;
    }
    st' := st.(expenses := RemoveIds(st.expenses, IdSet(ids), ExpenseId));
    pending := new PendingDelete(snapshots, ByIds(ids));
  }

  /** A bulk delete undone straight away gives back exactly the expenses
      the list had, sorted by date, latest first. */
  lemma BulkUndoRestores(xs: seq<Expense>, ids: set<string>)
    ensures var back := SortDesc(RemoveIds(xs, ids, ExpenseId) + TakeIds(xs, ids, ExpenseId), DateKey);
      multiset(back) == multiset(xs) && NonIncreasing(back, DateKey)
  {
    var rest := RemoveIds(xs, ids, ExpenseId);
    var taken := TakeIds(xs, ids, ExpenseId);
    TakeRemoveSplit(xs, ids, ExpenseId);
    SortDescCorrect(rest + taken, DateKey);
  }

  /** A bulk delete whose commit fails gives back exactly the expenses the
      list had: those left, then those taken. */
  lemma BulkFailureRestores(xs: seq<Expense>, ids: set<string>)
    ensures multiset(RemoveIds(xs, ids, ExpenseId) + TakeIds(xs, ids, ExpenseId)) == multiset(xs)
  {
    TakeRemoveSplit(xs, ids, ExpenseId);
  }

  /** When exactly one expense has the id, the snapshot of a single delete
      is that expense. */
  lemma SnapshotIsTaken(xs: seq<Expense>, id: string)
    requires |TakeIds(xs, {id}, ExpenseId)| == 1
    ensures Find(xs, id, ExpenseId).Some? && TakeIds(xs, {id}, ExpenseId) == [Find(xs, id, ExpenseId).value]
  {
    var taken := TakeIds(xs, {id}, ExpenseId);
    assert taken[0] in xs;
    var k :| 0 <= k < |xs| && xs[k] == taken[0];
    assert ExpenseId(xs[k]) == id;
    var snap := Find(xs, id, ExpenseId).value;
    var i :| 0 <= i < |xs| && xs[i] == snap;
    assert snap in taken;
  }

  /** When exactly one expense has the id, undoing a single delete straight
      away gives back exactly the expenses the list had, sorted by date,
      latest first. */
  lemma UndoRestores(xs: seq<Expense>, id: string)
    requires |TakeIds(xs, {id}, ExpenseId)| == 1
    ensures Find(xs, id, ExpenseId).Some?
    ensures var back := SortDesc(Remove(xs, id, ExpenseId) + [Find(xs, id, ExpenseId).value], DateKey);
      multiset(back) == multiset(xs) && NonIncreasing(back, DateKey)
  {
    SnapshotIsTaken(xs, id);
    var snap := Find(xs, id, ExpenseId).value;
    TakeRemoveSplit(xs, {id}, ExpenseId);
    RemoveIsRemoveIds(xs, id, ExpenseId);
    SortDescCorrect(Remove(xs, id, ExpenseId) + [snap], DateKey);
  }

  /** With two expenses under one id, a single delete takes both out of
      the list but its undo puts back only the first. */
  lemma UndoLosesDuplicates(a: Expense, b: Expense)
    requires a.id == b.id && a != b
    ensures var xs := [a, b];
      Find(xs, a.id, ExpenseId) == Some(a)
      && multiset(Remove(xs, a.id, ExpenseId) + [a]) != multiset(xs)
  {
    var xs := [a, b];
    assert Remove(xs, a.id, ExpenseId) == [] by {
      assert xs[..1] == [a];
      assert Remove([a], a.id, ExpenseId) == Remove([], a.id, ExpenseId);
    }
    assert multiset(xs)[b] == 1;
    assert multiset([a])[b] == 0;
  }

  // ------------------------------------------------------- re-categorising

  /** The list after `bulkUpdateCategory`: every listed expense gets the
      new category and subcategory. */
  function Recategorized(xs: seq<Expense>, ids: seq<string>, categoryId: string, subcategoryId: string)
    : (r: seq<Expense>)
    ensures |r| == |xs|
    ensures forall i :: 0 <= i < |xs| && xs[i].id !in ids ==> r[i] == xs[i]
    ensures forall i :: 0 <= i < |xs| && xs[i].id in ids ==>
      r[i] == xs[i].(categoryId := categoryId, subcategoryId := subcategoryId)
  {
    seq(|xs|, i requires 0 <= i < |xs| =>
      if xs[i].id in ids then xs[i].(categoryId := categoryId, subcategoryId := subcategoryId) else xs[i])
  }

  /** `bulkUpdateCategory`: the rows are updated first; a database error is
      re-thrown and changes nothing. */
  function BulkUpdateCategory(st: State, ids: seq<string>, categoryId: string, subcategoryId: string,
                              error: Option<string>): (r: (State, Outcome<()>))
    ensures error.Some? ==> r == (st, Threw(error.value))
    ensures error.None? ==>
      r.1 == Returned(None) && r.0 == st.(expenses := Recategorized(st.expenses, ids, categoryId, subcategoryId))
  {
    match error
    case Some(m) => (st, Threw(m))
    case None => (st.(expenses := Recategorized(st.expenses, ids, categoryId, subcategoryId)), Returned(None))
  }

  /** Re-categorising leaves the expenses that are not listed exactly as
      they were, and the listed ones keep everything but their category
      and subcategory. */
  lemma {:induction false} RecategorizedKeepsOthers(xs: seq<Expense>, ids: seq<string>, c: string, s: string)
    ensures RemoveIds(Recategorized(xs, ids, c, s), IdSet(ids), ExpenseId) == RemoveIds(xs, IdSet(ids), ExpenseId)
    ensures Project(Recategorized(xs, ids, c, s), ExpenseId) == Project(xs, ExpenseId)
  {
    if xs != [] {
      var init := xs[..|xs| - 1];
      RecategorizedKeepsOthers(init, ids, c, s);
      var r := Recategorized(xs, ids, c, s);
      assert r[..|r| - 1] == Recategorized(init, ids, c, s);
    }
  }

  /** Re-categorising twice with the same ids is re-categorising once with
      the second category. */
  lemma RecategorizedTwice(xs: seq<Expense>, ids: seq<string>, c1: string, s1: string, c2: string, s2: string)
    ensures Recategorized(Recategorized(xs, ids, c1, s1), ids, c2, s2) == Recategorized(xs, ids, c2, s2)
  {
  }
}
