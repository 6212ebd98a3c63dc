/** The category actions of the store (`categoryActions.ts`): creating and
    updating categories and subcategories, the cascading deletes, and the
    fetches that seed an empty account with default categories and
    subcategories. The signed-in user and the database's replies are
    arguments; a delete's reply is a function of the request. */
module CategoryActions {
  import opened Wrappers
  import opened StoreModel
  import opened StoreRecords
  import opened StableSort
  import opened KeyedTotals
  import opened Statistics
  import ExpenseActions

  // ------------------------------------------------------------------ create

  /** A category as the form hands it over; `kind` is its type. */
  datatype CategoryDraft = CategoryDraft(name: string, kind: string, icon: string)

  /** The row `createCategory` inserts. */
  datatype CategoryInsert = CategoryInsert(name: string, kind: string, icon: string, user_id: string)

  datatype SubcategoryDraft = SubcategoryDraft(name: string, categoryId: string)

  /** The row `createSubCategory` inserts. */
  datatype SubcategoryInsert = SubcategoryInsert(name: string, category_id: string, user_id: string)

  function CategoryInsertOf(c: CategoryDraft, user: string): CategoryInsert {
    CategoryInsert(c.name, c.kind, c.icon, user)
  }

  function SubcategoryInsertOf(s: SubcategoryDraft, user: string): SubcategoryInsert {
    SubcategoryInsert(s.name, s.categoryId, user)
  }

  /** Inserting a draft and reading the row back under the id the database
      chose gives the draft's fields; a subcategory keeps its parent. */
  lemma CreateReadBack(c: CategoryDraft, s: SubcategoryDraft, user: string, id: string)
    ensures var ins := CategoryInsertOf(c, user);
      ToCategory(CategoryRow(id, ins.name, ins.kind, ins.icon)) == Category(id, c.name, c.kind, c.icon)
    ensures var ins := SubcategoryInsertOf(s, user);
      ToSubcategory(SubcategoryRow(id, ins.name, ins.category_id)) == Subcategory(id, s.name, s.categoryId)
  {
  }

  /** `createCategory`: without a user nothing is sent; a returned row is
      converted and appended. Every error is reported and turned into
      `null`. */
  function CreateCategory(st: State, c: CategoryDraft, user: Option<string>, reply: Result<Option<CategoryRow>, string>)
    : (s: Step<CategoryInsert, Category>)
    ensures s.outcome.Returned?
    ensures user.None? ==> s == Step(None, st, Returned(None))
    ensures user.Some? ==> s.request == Some(CategoryInsertOf(c, user.value))
    ensures s.state != st ==> user.Some? && reply.Ok? && reply.value.Some?
    ensures user.Some? && reply.Ok? && reply.value.Some? ==>
      var nc := ToCategory(reply.value.value);
      s.outcome == Returned(Some(nc)) && s.state == st.(categories := st.categories + [nc])
  {
    match user
    case None => Step(None, st, Returned(None))
    case Some(u) =>
      var request := Some(CategoryInsertOf(c, u));
      match reply
      case Err(_) => Step(request, st, Returned(None))
      case Ok(None) => Step(request, st, Returned(None))
      case Ok(Some(row)) =>
        var nc := ToCategory(row);
        Step(request, st.(categories := st.categories + [nc]), Returned(Some(nc)))
  }

  /** `createSubCategory`: as `createCategory`, on the subcategories. */
  function CreateSubCategory(st: State, d: SubcategoryDraft, user: Option<string>,
                             reply: Result<Option<SubcategoryRow>, string>): (s: Step<SubcategoryInsert, Subcategory>)
    ensures s.outcome.Returned?
    ensures user.None? ==> s == Step(None, st, Returned(None))
    ensures user.Some? ==> s.request == Some(SubcategoryInsertOf(d, user.value))
    ensures s.state != st ==> user.Some? && reply.Ok? && reply.value.Some?
    ensures user.Some? && reply.Ok? && reply.value.Some? ==>
      var ns := ToSubcategory(reply.value.value);
      s.outcome == Returned(Some(ns)) && s.state == st.(subcategories := st.subcategories + [ns])
  {
    match user
    case None => Step(None, st, Returned(None))
    case Some(u) =>
      var request := Some(SubcategoryInsertOf(d, u));
      match reply
      case Err(_) => Step(request, st, Returned(None))
      case Ok(None) => Step(request, st, Returned(None))
      case Ok(Some(row)) =>
        var ns := ToSubcategory(row);
        Step(request, st.(subcategories := st.subcategories + [ns]), Returned(Some(ns)))
  }

  // ------------------------------------------------------------------ update

  /** A field of an update, forwarded only when it is truthy: `undefined`
      and the empty string are both dropped. */
  function Truthy(field: Option<string>): (r: Option<string>)
    ensures r.Some? <==> field.Some? && field.value != ""
    ensures r.Some? ==> r == field
  {
    if field.Some? && field.value != "" then field else None
  }

  datatype CategoryPatch = CategoryPatch(name: Option<string>, kind: Option<string>, icon: Option<string>)

  /** The columns an update sends. */
  datatype CategoryChanges = CategoryChanges(name: Option<string>, kind: Option<string>, icon: Option<string>)

  /** `dbUpdates` of `updateCategory`: the truthy fields of the patch. */
  function CategoryDbUpdates(p: CategoryPatch): (u: CategoryChanges)
    ensures u.name == Truthy(p.name) && u.kind == Truthy(p.kind) && u.icon == Truthy(p.icon)
  {
    CategoryChanges(Truthy(p.name), Truthy(p.kind), Truthy(p.icon))
  }

  /** The row after the database applies an update to it. */
  function ApplyCategoryChanges(row: CategoryRow, u: CategoryChanges): CategoryRow {
    CategoryRow(row.id, u.name.GetOr(row.name), u.kind.GetOr(row.kind), u.icon.GetOr(row.icon))
  }

  function CategoryRowOf(c: Category): CategoryRow {
    CategoryRow(c.id, c.name, c.kind, c.icon)
  }

  /** A field after an update: a non-empty new value replaces it, an empty
      or missing one leaves it. */
  function Updated(old_: string, field: Option<string>): string {
    if field.Some? && field.value != "" then field.value else old_
  }

  /** Updating a category's row and reading it back changes exactly the
      fields given a non-empty value; an empty name, type or icon is never
      written. */
  lemma CategoryUpdateReadBack(c: Category, p: CategoryPatch)
    ensures var back := ToCategory(ApplyCategoryChanges(CategoryRowOf(c), CategoryDbUpdates(p)));
      back.id == c.id && back.name == Updated(c.name, p.name) && back.kind == Updated(c.kind, p.kind)
      && back.icon == Updated(c.icon, p.icon)
    ensures p.name == Some("") ==> CategoryDbUpdates(p).name.None?
  {
  }

  /** `updateCategory`: the returned row replaces every category with the
      id; an error is reported and turned into `null`. */
  function UpdateCategory(st: State, id: string, p: CategoryPatch, reply: Result<Option<CategoryRow>, string>)
    : (s: Step<CategoryChanges, Category>)
    ensures s.request == Some(CategoryDbUpdates(p)) && s.outcome.Returned?
    ensures !(reply.Ok? && reply.value.Some?) ==> s.state == st && s.outcome == Returned(None)
    ensures reply.Ok? && reply.value.Some? ==>
      var nc := ToCategory(reply.value.value);
      s.outcome == Returned(Some(nc)) && s.state == st.(categories := Replace(st.categories, id, CategoryId, nc))
  {
    var request := Some(CategoryDbUpdates(p));
    match reply
    case Err(_) => Step(request, st, Returned(None))
    case Ok(None) => Step(request, st, Returned(None))
    case Ok(Some(row)) =>
      var nc := ToCategory(row);
      Step(request, st.(categories := Replace(st.categories, id, CategoryId, nc)), Returned(Some(nc)))
  }

  /** An update keeps the number of categories, and, when the row has the
      id it was asked for, every other category is left where it was. */
  lemma UpdateCategoryKeepsOthers(st: State, id: string, p: CategoryPatch, row: CategoryRow)
    requires row.id == id
    ensures var after := UpdateCategory(st, id, p, Ok(Some(row))).state;
      |after.categories| == |st.categories|
      && Remove(after.categories, id, CategoryId) == Remove(st.categories, id, CategoryId)
  {
    ReplaceThenRemove(st.categories, id, CategoryId, ToCategory(row));
  }

  /** A subcategory update: a new name and a new parent. */
  datatype SubcategoryPatch = SubcategoryPatch(name: Option<string>, categoryId: Option<string>)

  /** The columns an update sends; the parent goes to `category_id`. */
  datatype SubcategoryChanges = SubcategoryChanges(name: Option<string>, category_id: Option<string>)

  /** `dbUpdates` of `updateSubCategory`: the truthy fields of the patch. */
  function SubcategoryDbUpdates(p: SubcategoryPatch): (u: SubcategoryChanges)
    ensures u.name == Truthy(p.name) && u.category_id == Truthy(p.categoryId)
  {
    SubcategoryChanges(Truthy(p.name), Truthy(p.categoryId))
  }

  function ApplySubcategoryChanges(row: SubcategoryRow, u: SubcategoryChanges): SubcategoryRow {
    SubcategoryRow(row.id, u.name.GetOr(row.name), u.category_id.GetOr(row.category_id))
  }

  function SubcategoryRowOf(s: Subcategory): SubcategoryRow {
    SubcategoryRow(s.id, s.name, s.categoryId)
  }

  /** Updating a subcategory's row and reading it back changes exactly the
      fields given a non-empty value: a new parent moves it. */
  lemma SubcategoryUpdateReadBack(s: Subcategory, p: SubcategoryPatch)
    ensures var back := ToSubcategory(ApplySubcategoryChanges(SubcategoryRowOf(s), SubcategoryDbUpdates(p)));
      back.id == s.id && back.name == Updated(s.name, p.name) && back.categoryId == Updated(s.categoryId, p.categoryId)
  {
  }

  /** `updateSubCategory`: the returned row replaces every subcategory with
      the id; an error is reported and turned into `null`. */
  function UpdateSubCategory(st: State, id: string, p: SubcategoryPatch, reply: Result<Option<SubcategoryRow>, string>)
    : (s: Step<SubcategoryChanges, Subcategory>)
    ensures s.request == Some(SubcategoryDbUpdates(p)) && s.outcome.Returned?
    ensures !(reply.Ok? && reply.value.Some?) ==> s.state == st && s.outcome == Returned(None)
    ensures reply.Ok? && reply.value.Some? ==>
      var ns := ToSubcategory(reply.value.value);
      s.outcome == Returned(Some(ns))
      && s.state == st.(subcategories := Replace(st.subcategories, id, SubcategoryId, ns))
  {
    var request := Some(SubcategoryDbUpdates(p));
    match reply
    case Err(_) => Step(request, st, Returned(None))
    case Ok(None) => Step(request, st, Returned(None))
    case Ok(Some(row)) =>
      var ns := ToSubcategory(row);
      Step(request, st.(subcategories := Replace(st.subcategories, id, SubcategoryId, ns)), Returned(Some(ns)))
  }

  // ------------------------------------------------------------------ delete

  /** One delete a cascade sends: `.from(table).delete().eq('id', id)`. */
  datatype Deletion = OfExpense(id: string) | OfSubcategory(id: string) | OfCategory(id: string)

  function ExpenseDeletion(e: Expense): Deletion { OfExpense(e.id) }
  function ExpenseSubcategory(e: Expense): string { e.subcategoryId }
  function SubcategoryParent(s: Subcategory): string { s.categoryId }

  /** The rows with a request's id taken out of the request's table. */
  function Without(st: State, r: Deletion): State {
    match r
    case OfExpense(x) => st.(expenses := Remove(st.expenses, x, ExpenseId))
    case OfSubcategory(x) => st.(subcategories := Remove(st.subcategories, x, SubcategoryId))
    case OfCategory(x) => st.(categories := Remove(st.categories, x, CategoryId))
  }

  /** One request's effect on the store, for the database's answer
      `dbError` to it (`None` for success): a rejected request changes
      nothing. */
  function ApplyOne(st: State, r: Deletion, dbError: Deletion -> Option<string>): State {
    if dbError(r).Some? then st else Without(st, r)
  }

  /** The store after the requests `sent`, in order, whatever happened. */
  function Applied(st: State, sent: seq<Deletion>, dbError: Deletion -> Option<string>): State
    decreases |sent|
  {
    if sent == [] then st
    else ApplyOne(Applied(st, sent[..|sent| - 1], dbError), sent[|sent| - 1], dbError)
  }

  /** Applying two runs of requests one after the other is applying them
      together. */
  lemma {:induction false} AppliedAppend(st: State, a: seq<Deletion>, b: seq<Deletion>, dbError: Deletion -> Option<string>)
    ensures Applied(Applied(st, a, dbError), b, dbError) == Applied(st, a + b, dbError)
    decreases |b|
  {
    if b == [] {
      assert a + b == a;
    } else {
      AppliedAppend(st, a, b[..|b| - 1], dbError);
      assert (a + b)[..|a + b| - 1] == a + b[..|b| - 1];
    }
  }

  /** Every request was accepted. */
  predicate AllAccepted(sent: seq<Deletion>, dbError: Deletion -> Option<string>) {
    forall k :: 0 <= k < |sent| ==> dbError(sent[k]).None?
  }

  /** The requests stopped at the first one the database rejected: every
      earlier one was accepted, and the call re-threw the last one's error
      or returned when it was accepted too. */
  predicate StopsAtFirstError(sent: seq<Deletion>, dbError: Deletion -> Option<string>, outcome: Outcome<()>) {
    |sent| > 0 && AllAccepted(sent[..|sent| - 1], dbError)
    && outcome == match dbError(sent[|sent| - 1]) case Some(m) => Threw(m) case None => Returned(None)
  }

  lemma StopsAppend(a: seq<Deletion>, b: seq<Deletion>, dbError: Deletion -> Option<string>, outcome: Outcome<()>)
    requires AllAccepted(a, dbError) && StopsAtFirstError(b, dbError, outcome)
    ensures StopsAtFirstError(a + b, dbError, outcome)
  {
    var ab := a + b;
    assert ab[|ab| - 1] == b[|b| - 1];
    forall k | 0 <= k < |ab| - 1
      ensures dbError(ab[k]).None?
    {
      if k >= |a| {
        assert ab[k] == b[..|b| - 1][k - |a|];
      }
    }
  }

  lemma AcceptedSnoc(a: seq<Deletion>, r: Deletion, dbError: Deletion -> Option<string>)
    requires AllAccepted(a, dbError) && dbError(r).None?
    ensures AllAccepted(a + [r], dbError)
  {
    var ar := a + [r];
    forall k | 0 <= k < |ar|
      ensures dbError(ar[k]).None?
    {
      if k < |a| {
        assert ar[k] == a[k];
      }
    }
  }

  /** Requests that ended in a return were all accepted. */
  lemma AcceptedAppend(a: seq<Deletion>, b: seq<Deletion>, dbError: Deletion -> Option<string>)
    requires AllAccepted(a, dbError) && StopsAtFirstError(b, dbError, Returned(None))
    ensures AllAccepted(a + b, dbError)
  {
    StopsAppend(a, b, dbError, Returned(None));
    var ab := a + b;
    forall k | 0 <= k < |ab|
      ensures dbError(ab[k]).None?
    {
      if k < |ab| - 1 {
        assert ab[k] == ab[..|ab| - 1][k];
      }
    }
  }

  /** Taking one more id out after some others. */
  lemma RemoveOneMore<T>(xs: seq<T>, ids: set<string>, id: string, idOf: T -> string)
    ensures Remove(RemoveIds(xs, ids, idOf), id, idOf) == RemoveIds(xs, ids + {id}, idOf)
  {
    RemoveIsRemoveIds(RemoveIds(xs, ids, idOf), id, idOf);
    RemoveIdsTwice(xs, ids, {id}, idOf);
  }

  /** One more request acts on the store the earlier ones left. */
  lemma AppliedSnoc(st: State, sent: seq<Deletion>, r: Deletion, dbError: Deletion -> Option<string>)
    ensures Applied(st, sent + [r], dbError) == ApplyOne(Applied(st, sent, dbError), r, dbError)
  {
    assert (sent + [r])[..|sent|] == sent;
  }

  /** Deleting the expenses one at a time takes out the ids deleted so
      far. */
  lemma RemoveNextExpense(st: State, toDelete: seq<Expense>, i: nat)
    requires i < |toDelete|
    ensures Remove(RemoveIds(st.expenses, IdsOf(toDelete[..i], ExpenseId), ExpenseId), toDelete[i].id, ExpenseId)
      == RemoveIds(st.expenses, IdsOf(toDelete[..i + 1], ExpenseId), ExpenseId)
  {
    RemoveOneMore(st.expenses, IdsOf(toDelete[..i], ExpenseId), toDelete[i].id, ExpenseId);
    IdsOfSnoc(toDelete[..i], toDelete[i], ExpenseId);
    assert toDelete[..i] + [toDelete[i]] == toDelete[..i + 1];
  }

  /** Expense requests that were all accepted take exactly their ids out
      of the expenses. */
  lemma {:induction false} AppliedExpenses(st: State, done: seq<Expense>, dbError: Deletion -> Option<string>)
    requires AllAccepted(Project(done, ExpenseDeletion), dbError)
    ensures Applied(st, Project(done, ExpenseDeletion), dbError)
      == st.(expenses := RemoveIds(st.expenses, IdsOf(done, ExpenseId), ExpenseId))
    decreases |done|
  {
    if done == [] {
      assert IdsOf(done, ExpenseId) == {};
      RemoveNoIds(st.expenses, ExpenseId);
    } else {
      var n := |done| - 1;
      var r := OfExpense(done[n].id);
      NextRequest(done, n);
      assert done[..n + 1] == done;
      AcceptedInit(Project(done[..n], ExpenseDeletion), r, dbError);
      AppliedExpenses(st, done[..n], dbError);
      AppliedSnoc(st, Project(done[..n], ExpenseDeletion), r, dbError);
      RemoveNextExpense(st, done, n);
    }
  }

  /** Requests all accepted stay so without their last one, which was
      accepted. */
  lemma AcceptedInit(a: seq<Deletion>, r: Deletion, dbError: Deletion -> Option<string>)
    requires AllAccepted(a + [r], dbError)
    ensures AllAccepted(a, dbError) && dbError(r).None?
  {
    var ar := a + [r];
    assert ar[|a|] == r;
    forall k | 0 <= k < |a|
      ensures dbError(a[k]).None?
    {
      assert ar[k] == a[k];
    }
  }

  /** The requests for the first `i + 1` expenses are those for the first
      `i` and then the `i`-th expense's. */
  lemma NextRequest(toDelete: seq<Expense>, i: nat)
    requires i < |toDelete|
    ensures Project(toDelete[..i + 1], ExpenseDeletion)
      == Project(toDelete[..i], ExpenseDeletion) + [OfExpense(toDelete[i].id)]
  {
    assert toDelete[..i + 1][..i] == toDelete[..i];
  }

  /** The requests for a prefix of the expenses are a prefix of the
      requests for all of them. */
  lemma ProjectPrefix<T, U>(xs: seq<T>, k: nat, f: T -> U)
    requires k <= |xs|
    ensures Project(xs[..k], f) <= Project(xs, f)
  {
    var p, q := Project(xs[..k], f), Project(xs, f);
    forall j | 0 <= j < k
      ensures p[j] == q[j]
    {
      assert xs[..k][j] == xs[j];
    }
  }

  /** One more delete request, after accepted ones: the store after it is
      the store before with that request applied, and a rejection stops
      the run with its error. */
  lemma DeleteStep(st: State, sent: seq<Deletion>, r: Deletion, dbError: Deletion -> Option<string>)
    requires AllAccepted(sent, dbError)
    ensures Applied(st, sent + [r], dbError) == ApplyOne(Applied(st, sent, dbError), r, dbError)
    ensures dbError(r).Some? ==> StopsAtFirstError(sent + [r], dbError, Threw(dbError(r).value))
    ensures dbError(r).None? ==> AllAccepted(sent + [r], dbError)
  {
    AppliedSnoc(st, sent, r, dbError);
    assert (sent + [r])[..|sent|] == sent;
    if dbError(r).None? {
      AcceptedSnoc(sent, r, dbError);
    }
  }

  /** The loop `for (const expense of expensesToDelete) await
      deleteExpense(expense.id)`: one request per expense, in order, until
      one is rejected, whose error is re-thrown. */
  method DeleteEach(st: State, toDelete: seq<Expense>, dbError: Deletion -> Option<string>)
    returns (st': State, sent: seq<Deletion>, outcome: Outcome<()>)
    ensures st' == Applied(st, sent, dbError)
    ensures sent <= Project(toDelete, ExpenseDeletion)
    ensures outcome.Returned? ==>
      outcome == Returned(None) && sent == Project(toDelete, ExpenseDeletion) && AllAccepted(sent, dbError)
      && st' == st.(expenses := RemoveIds(st.expenses, IdsOf(toDelete, ExpenseId), ExpenseId))
    ensures outcome.Threw? ==> StopsAtFirstError(sent, dbError, outcome)
  {
    st' := st;
    sent := [];
    var i := 0;
    while i < |toDelete|
      invariant 0 <= i <= |toDelete|
      invariant sent == Project(toDelete[..i], ExpenseDeletion)
      invariant AllAccepted(sent, dbError)
      invariant st' == Applied(st, sent, dbError)
    {
      var r := OfExpense(toDelete[i].id);
      var step := ExpenseActions.DeleteExpense(st', toDelete[i].id, dbError(r));
      DeleteEachStep(st, st', toDelete, i, sent, r, dbError);
      sent := sent + [r];
      if step.outcome.Threw? {
        outcome := Threw(step.outcome.message);
        return;
      }
      st' := step.state;
      i := i + 1;
    }
    DeleteEachDone(st, st', toDelete, sent, dbError);
    outcome := Returned(None);
  }

  /** One turn of the loop of `DeleteEach`: the next request is the next
      expense's, and the store and the outcome follow `Applied`. */
  lemma DeleteEachStep(st: State, st': State, toDelete: seq<Expense>, i: nat, sent: seq<Deletion>,
                       r: Deletion, dbError: Deletion -> Option<string>)
    requires i < |toDelete| && sent == Project(toDelete[..i], ExpenseDeletion)
    requires AllAccepted(sent, dbError) && st' == Applied(st, sent, dbError)
    requires r == OfExpense(toDelete[i].id)
    ensures sent + [r] == Project(toDelete[..i + 1], ExpenseDeletion)
    ensures sent + [r] <= Project(toDelete, ExpenseDeletion)
    ensures dbError(r).Some? ==>
      st' == Applied(st, sent + [r], dbError) && StopsAtFirstError(sent + [r], dbError, Threw(dbError(r).value))
    ensures dbError(r).None? ==>
      AllAccepted(sent + [r], dbError)
      && ExpenseActions.DeleteExpense(st', toDelete[i].id, None).state == Applied(st, sent + [r], dbError)
  {
    NextRequest(toDelete, i);
    ProjectPrefix(toDelete, i + 1, ExpenseDeletion);
    DeleteStep(st, sent, r, dbError);
  }

  /** After the last turn of the loop of `DeleteEach`: every request was
      sent and accepted, and exactly the listed expenses are gone. */
  lemma DeleteEachDone(st: State, st': State, toDelete: seq<Expense>, sent: seq<Deletion>,
                       dbError: Deletion -> Option<string>)
    requires sent == Project(toDelete[..|toDelete|], ExpenseDeletion)
    requires AllAccepted(sent, dbError) && st' == Applied(st, sent, dbError)
    ensures sent == Project(toDelete, ExpenseDeletion)
    ensures st' == st.(expenses := RemoveIds(st.expenses, IdsOf(toDelete, ExpenseId), ExpenseId))
  {
    assert toDelete[..|toDelete|] == toDelete;
    AppliedExpenses(st, toDelete, dbError);
  }

  /** What deleting an owner (a subcategory or a category) sends when
      nothing fails: a delete per expense whose `key` is the owner's id,
      then the owner's. */
  function OwnerPlan(st: State, key: Expense -> string, owner: Deletion): seq<Deletion> {
    Project(FilterBy(st.expenses, key, owner.id), ExpenseDeletion) + [owner]
  }

  /** The tail shared by `deleteSubCategory` and `deleteCategory`: the
      owner's expenses one by one, then the owner; the first error is
      re-thrown. */
  method DeleteOwner(st: State, key: Expense -> string, owner: Deletion, dbError: Deletion -> Option<string>)
    returns (st': State, sent: seq<Deletion>, outcome: Outcome<()>)
    ensures st' == Applied(st, sent, dbError)
    ensures StopsAtFirstError(sent, dbError, outcome)
    ensures sent <= OwnerPlan(st, key, owner)
    ensures outcome.Returned? ==>
      sent == OwnerPlan(st, key, owner)
      && st' == Without(st.(expenses := RemoveIds(st.expenses, IdsWhere(st.expenses, key, owner.id, ExpenseId), ExpenseId)), owner)
  {
    var mine := FilterBy(st.expenses, key, owner.id);
    st', sent, outcome := DeleteEach(st, mine, dbError);
    if outcome.Threw? {
      PrefixAfter([], sent, Project(mine, ExpenseDeletion), [owner]);
      return;
    }
    OwnerLast(st, st', key, owner, sent, dbError);
    sent := sent + [owner];
    match dbError(owner)
    case Some(m) =>
      outcome := Threw(m);
    case None =>
      st' := Without(st', owner);
  }

  /** After the owner's expenses were all deleted, the owner's request
      completes the plan, is the first rejected one if rejected, and takes
      the owner out otherwise. */
  lemma OwnerLast(st: State, st': State, key: Expense -> string, owner: Deletion, sent: seq<Deletion>,
                  dbError: Deletion -> Option<string>)
    requires sent == Project(FilterBy(st.expenses, key, owner.id), ExpenseDeletion) && AllAccepted(sent, dbError)
    requires st' == Applied(st, sent, dbError)
    requires st' == st.(expenses := RemoveIds(st.expenses, IdsOf(FilterBy(st.expenses, key, owner.id), ExpenseId), ExpenseId))
    ensures sent + [owner] == OwnerPlan(st, key, owner)
    ensures (sent + [owner])[..|sent|] == sent
    ensures Applied(st, sent + [owner], dbError) == if dbError(owner).Some? then st' else Without(st', owner)
    ensures st' == st.(expenses := RemoveIds(st.expenses, IdsWhere(st.expenses, key, owner.id, ExpenseId), ExpenseId))
  {
    AppliedSnoc(st, sent, owner, dbError);
    assert (sent + [owner])[..|sent|] == sent;
    FilterByIds(st.expenses, key, owner.id, ExpenseId);
  }

  /** What `deleteSubCategory(id)` sends when nothing fails: a delete per
      expense of the subcategory, then the subcategory's. */
  function SubcategoryPlan(st: State, id: string): seq<Deletion> {
    OwnerPlan(st, ExpenseSubcategory, OfSubcategory(id))
  }

  /** The store after a `deleteSubCategory(id)` that succeeds: every
      expense sharing an id with an expense of the subcategory, and every
      subcategory with the id, are gone. */
  function SubcategoryCascade(st: State, id: string): State {
    st.(expenses := RemoveIds(st.expenses, IdsWhere(st.expenses, ExpenseSubcategory, id, ExpenseId), ExpenseId),
        subcategories := Remove(st.subcategories, id, SubcategoryId))
  }

  /** `deleteSubCategory`: the subcategory's expenses one by one, then the
      subcategory; the first error is re-thrown. */
  method DeleteSubCategory(st: State, id: string, dbError: Deletion -> Option<string>)
    returns (st': State, sent: seq<Deletion>, outcome: Outcome<()>)
    ensures st' == Applied(st, sent, dbError)
    ensures StopsAtFirstError(sent, dbError, outcome)
    ensures sent <= SubcategoryPlan(st, id)
    ensures outcome.Returned? ==> sent == SubcategoryPlan(st, id) && st' == SubcategoryCascade(st, id)
  {
    st', sent, outcome := DeleteOwner(st, ExpenseSubcategory, OfSubcategory(id), dbError);
  }

  /** After a `deleteSubCategory(id)` that succeeds no expense is in the
      subcategory and no subcategory has the id; every other expense and
      subcategory, except one sharing an id with them, is still there. */
  lemma SubcategoryCascadeClears(st: State, id: string)
    ensures var after := SubcategoryCascade(st, id);
      (forall i :: 0 <= i < |after.expenses| ==> after.expenses[i].subcategoryId != id)
      && (forall i :: 0 <= i < |after.subcategories| ==> after.subcategories[i].id != id)
      && (forall e :: e in st.expenses && e.id !in IdsWhere(st.expenses, ExpenseSubcategory, id, ExpenseId) ==>
            e in after.expenses)
      && after.categories == st.categories && after.budgets == st.budgets
  {
    var after := SubcategoryCascade(st, id);
    forall i | 0 <= i < |after.expenses|
      ensures after.expenses[i].subcategoryId != id
    {
    }
    forall e | e in st.expenses && e.id !in IdsWhere(st.expenses, ExpenseSubcategory, id, ExpenseId)
      ensures e in after.expenses
    {
      var j :| 0 <= j < |st.expenses| && st.expenses[j] == e;
    }
  }

  /** The ids of the expenses in one of the subcategories `subIds`. */
  function IdsUnder(xs: seq<Expense>, subIds: set<string>): (s: set<string>)
    ensures forall x :: x in s <==> exists i :: 0 <= i < |xs| && xs[i].subcategoryId in subIds && xs[i].id == x
  {
    set i | 0 <= i < |xs| && xs[i].subcategoryId in subIds :: xs[i].id
  }

  /** The store after the subcategories `subs` were deleted one after the
      other, each with its expenses. */
  function AfterSubcategories(st: State, subs: seq<Subcategory>): State {
    var subIds := IdsOf(subs, SubcategoryId);
    st.(expenses := RemoveIds(st.expenses, IdsUnder(st.expenses, subIds), ExpenseId),
        subcategories := RemoveIds(st.subcategories, subIds, SubcategoryId))
  }

  /** Deleting one more subcategory after the others. */
  lemma AfterSubcategoriesStep(st: State, subs: seq<Subcategory>, s: Subcategory)
    ensures SubcategoryCascade(AfterSubcategories(st, subs), s.id) == AfterSubcategories(st, subs + [s])
  {
    var subIds := IdsOf(subs, SubcategoryId);
    IdsOfSnoc(subs, s, SubcategoryId);
    ExpensesUnderOneMore(st.expenses, subIds, s.id);
    RemoveOneMore(st.subcategories, subIds, s.id, SubcategoryId);
  }

  /** Taking out the expenses of one more subcategory. */
  lemma ExpensesUnderOneMore(xs: seq<Expense>, subIds: set<string>, sub: string)
    ensures var rest := RemoveIds(xs, IdsUnder(xs, subIds), ExpenseId);
      RemoveIds(rest, IdsWhere(rest, ExpenseSubcategory, sub, ExpenseId), ExpenseId)
      == RemoveIds(xs, IdsUnder(xs, subIds + {sub}), ExpenseId)
  {
    RemoveWhere(xs, IdsUnder(xs, subIds), ExpenseSubcategory, sub, ExpenseId);
    IdsUnderOneMore(xs, subIds, sub);
  }

  /** The expenses under one more subcategory are those under the others
      and those of that subcategory. */
  lemma IdsUnderOneMore(xs: seq<Expense>, subIds: set<string>, sub: string)
    ensures IdsUnder(xs, subIds + {sub}) == IdsUnder(xs, subIds) + IdsWhere(xs, ExpenseSubcategory, sub, ExpenseId)
  {
    var more, where := IdsUnder(xs, subIds + {sub}), IdsWhere(xs, ExpenseSubcategory, sub, ExpenseId);
    forall x | x in more
      ensures x in IdsUnder(xs, subIds) + where
    {
      var i :| 0 <= i < |xs| && xs[i].subcategoryId in subIds + {sub} && xs[i].id == x;
      if xs[i].subcategoryId == sub {
        assert ExpenseSubcategory(xs[i]) == sub && ExpenseId(xs[i]) == x;
      }
    }
    forall x | x in IdsUnder(xs, subIds) + where
      ensures x in more
    {
      if x in where {
        var i :| 0 <= i < |xs| && ExpenseSubcategory(xs[i]) == sub && ExpenseId(xs[i]) == x;
        assert xs[i].subcategoryId in subIds + {sub};
      } else {
        var i :| 0 <= i < |xs| && xs[i].subcategoryId in subIds && xs[i].id == x;
        assert xs[i].subcategoryId in subIds + {sub};
      }
    }
  }


  /** The requests of the subcategory phase when nothing fails: each
      subcategory's plan, in the store each earlier one left. */
  function SubcategoryPhase(st: State, subs: seq<Subcategory>): seq<Deletion> {
    if subs == [] then []
    else
      var init := subs[..|subs| - 1];
      SubcategoryPhase(st, init) + SubcategoryPlan(AfterSubcategories(st, init), subs[|subs| - 1].id)
  }

  lemma PrefixExtends(p: seq<Deletion>, q: seq<Deletion>, r: seq<Deletion>)
    requires p <= q
    ensures p <= q + r
  {
    assert (q + r)[..|p|] == q[..|p|];
  }

  lemma {:induction false} SubcategoryPhasePrefix(st: State, subs: seq<Subcategory>, n: nat)
    requires n <= |subs|
    ensures SubcategoryPhase(st, subs[..n]) <= SubcategoryPhase(st, subs)
  {
    if n < |subs| {
      var init := subs[..|subs| - 1];
      SubcategoryPhasePrefix(st, init, n);
      assert init[..n] == subs[..n];
      PrefixExtends(SubcategoryPhase(st, subs[..n]), SubcategoryPhase(st, init),
                    SubcategoryPlan(AfterSubcategories(st, init), subs[|subs| - 1].id));
    } else {
      assert subs[..n] == subs;
    }
  }

  /** The category's subcategories. */
  function SubcategoriesOf(st: State, id: string): seq<Subcategory> {
    FilterBy(st.subcategories, SubcategoryParent, id)
  }

  /** What `deleteCategory(id)` sends when nothing fails: the subcategory
      phase, a delete per expense of the category that is still there, then
      the category's. */
  function CategoryPlan(st: State, id: string): seq<Deletion> {
    var subs := SubcategoriesOf(st, id);
    var mid := AfterSubcategories(st, subs);
    SubcategoryPhase(st, subs) + OwnerPlan(mid, ExpenseCategory, OfCategory(id))
  }

  /** The ids of the expenses a `deleteCategory(id)` takes: those of the
      expenses in one of its subcategories or in the category itself. */
  function CascadeExpenseIds(st: State, id: string): set<string> {
    IdsUnder(st.expenses, IdsOf(SubcategoriesOf(st, id), SubcategoryId))
      + IdsWhere(st.expenses, ExpenseCategory, id, ExpenseId)
  }

  /** The store after a `deleteCategory(id)` that succeeds. */
  function CategoryCascade(st: State, id: string): State {
    st.(expenses := RemoveIds(st.expenses, CascadeExpenseIds(st, id), ExpenseId),
        subcategories := RemoveIds(st.subcategories, IdsOf(SubcategoriesOf(st, id), SubcategoryId), SubcategoryId),
        categories := Remove(st.categories, id, CategoryId))
  }

  /** The last two phases of a successful `deleteCategory` bring the store
      from after the subcategories to the cascade's end. */
  lemma CategoryPhaseClose(st: State, id: string)
    ensures var mid := AfterSubcategories(st, SubcategoriesOf(st, id));
      Without(mid.(expenses := RemoveIds(mid.expenses, IdsWhere(mid.expenses, ExpenseCategory, id, ExpenseId), ExpenseId)),
              OfCategory(id)) == CategoryCascade(st, id)
  {
    RemoveWhere(st.expenses, IdsUnder(st.expenses, IdsOf(SubcategoriesOf(st, id), SubcategoryId)),
                ExpenseCategory, id, ExpenseId);
  }

  lemma PrefixAfter(a: seq<Deletion>, b: seq<Deletion>, c: seq<Deletion>, d: seq<Deletion>)
    requires b <= c
    ensures a + b <= a + c + d
  {
    assert (a + c + d)[..|a + b|] == a + c[..|b|];
  }

  /** A subcategory that was deleted in full moves the subcategory phase
      one step on: the store and the requests. */
  lemma AfterSubcategoriesNext(st: State, subs: seq<Subcategory>, i: nat)
    requires i < |subs|
    ensures SubcategoryCascade(AfterSubcategories(st, subs[..i]), subs[i].id) == AfterSubcategories(st, subs[..i + 1])
  {
    AfterSubcategoriesStep(st, subs[..i], subs[i]);
    assert subs[..i] + [subs[i]] == subs[..i + 1];
  }

  lemma SubcategoryPhaseNext(st: State, subs: seq<Subcategory>, i: nat)
    requires i < |subs|
    ensures SubcategoryPhase(st, subs[..i]) + SubcategoryPlan(AfterSubcategories(st, subs[..i]), subs[i].id)
      == SubcategoryPhase(st, subs[..i + 1])
  {
    assert subs[..i + 1][..i] == subs[..i];
  }

  /** Requests that stop inside a subcategory's plan stay a prefix of the
      whole phase. */
  lemma SubcategoryPhaseStop(st: State, subs: seq<Subcategory>, i: nat, more: seq<Deletion>)
    requires i < |subs|
    requires more <= SubcategoryPlan(AfterSubcategories(st, subs[..i]), subs[i].id)
    ensures SubcategoryPhase(st, subs[..i]) + more <= SubcategoryPhase(st, subs)
  {
    SubcategoryPhaseNext(st, subs, i);
    SubcategoryPhasePrefix(st, subs, i + 1);
    PrefixAfter(SubcategoryPhase(st, subs[..i]), more,
                SubcategoryPlan(AfterSubcategories(st, subs[..i]), subs[i].id), []);
  }

  /** The loop `for (const sub of subsToDelete) await
      deleteSubCategory(sub.id)`: each subcategory with its expenses, in
      order, until a request is rejected, whose error is re-thrown. */
  method DeleteSubcategories(st: State, subs: seq<Subcategory>, dbError: Deletion -> Option<string>)
    returns (st': State, sent: seq<Deletion>, outcome: Outcome<()>)
    ensures st' == Applied(st, sent, dbError)
    ensures sent <= SubcategoryPhase(st, subs)
    ensures outcome.Returned? ==>
      outcome == Returned(None) && sent == SubcategoryPhase(st, subs) && AllAccepted(sent, dbError)
      && st' == AfterSubcategories(st, subs)
    ensures outcome.Threw? ==> StopsAtFirstError(sent, dbError, outcome)
  {
    st' := st;
    sent := [];
    assert subs[..0] == [];
    assert AfterSubcategories(st, []) == st by {
      assert IdsOf([], SubcategoryId) == {};
      assert IdsUnder(st.expenses, {}) == {};
      RemoveNoIds(st.expenses, ExpenseId);
      RemoveNoIds(st.subcategories, SubcategoryId);
    }
    var i := 0;
    while i < |subs|
      invariant 0 <= i <= |subs|
      invariant st' == Applied(st, sent, dbError) && st' == AfterSubcategories(st, subs[..i])
      invariant sent == SubcategoryPhase(st, subs[..i])
      invariant AllAccepted(sent, dbError)
    {
      var next, more, o := DeleteSubCategory(st', subs[i].id, dbError);
      AppliedAppend(st, sent, more, dbError);
      if o.Threw? {
        StopsAppend(sent, more, dbError, o);
        SubcategoryPhaseStop(st, subs, i, more);
        sent := sent + more;
        st' := next;
        outcome := o;
        return;
      }
      AcceptedAppend(sent, more, dbError);
      AfterSubcategoriesNext(st, subs, i);
      SubcategoryPhaseNext(st, subs, i);
      sent := sent + more;
      st' := next;
      i := i + 1;
    }
    assert subs[..i] == subs;
    outcome := Returned(None);
  }

  /** `deleteCategory`: each of its subcategories with their expenses,
      then its own expenses, then the category; the first error is
      re-thrown. */
  method DeleteCategory(st: State, id: string, dbError: Deletion -> Option<string>)
    returns (st': State, sent: seq<Deletion>, outcome: Outcome<()>)
    ensures st' == Applied(st, sent, dbError)
    ensures StopsAtFirstError(sent, dbError, outcome)
    ensures sent <= CategoryPlan(st, id)
    ensures outcome.Returned? ==> sent == CategoryPlan(st, id) && st' == CategoryCascade(st, id)
  {
    var subs := SubcategoriesOf(st, id);
    st', sent, outcome := DeleteSubcategories(st, subs, dbError);
    if outcome.Threw? {
      PrefixAfter([], sent, SubcategoryPhase(st, subs), OwnerPlan(AfterSubcategories(st, subs), ExpenseCategory, OfCategory(id)));
      return;
    }
    var next, more, o := DeleteOwner(st', ExpenseCategory, OfCategory(id), dbError);
    AppliedAppend(st, sent, more, dbError);
    StopsAppend(sent, more, dbError, o);
    PrefixAfter(sent, more, OwnerPlan(st', ExpenseCategory, OfCategory(id)), []);
    if o.Returned? {
      CategoryPhaseClose(st, id);
    }
    sent := sent + more;
    st' := next;
    outcome := o;
  }

  /** After a `deleteCategory(id)` that succeeds no subcategory belongs to
      the category, no expense is in the category or in one of its former
      subcategories, and no category has the id; budgets and savings goals
      are untouched. */
  lemma CategoryCascadeClears(st: State, id: string)
    ensures var after := CategoryCascade(st, id);
      var subIds := IdsOf(SubcategoriesOf(st, id), SubcategoryId);
      (forall i :: 0 <= i < |after.subcategories| ==> after.subcategories[i].categoryId != id)
      && (forall i :: 0 <= i < |after.expenses| ==>
            after.expenses[i].categoryId != id && after.expenses[i].subcategoryId !in subIds)
      && (forall i :: 0 <= i < |after.categories| ==> after.categories[i].id != id)
      && after.budgets == st.budgets && after.savingsGoals == st.savingsGoals
  {
    var after := CategoryCascade(st, id);
    var subs := SubcategoriesOf(st, id);
    var subIds := IdsOf(subs, SubcategoryId);
    forall i | 0 <= i < |after.subcategories|
      ensures after.subcategories[i].categoryId != id
    {
    }
    forall i | 0 <= i < |after.expenses|
      ensures after.expenses[i].categoryId != id && after.expenses[i].subcategoryId !in subIds
    {
      var e := after.expenses[i];
      var j :| 0 <= j < |st.expenses| && st.expenses[j] == e;
    }
  }

  /** A cascade takes nothing outside it: an expense whose id is not one
      of the cascade's, and a subcategory of another category under an id
      no subcategory of this one has, are still there. */
  lemma CategoryCascadeKeeps(st: State, id: string)
    ensures var after := CategoryCascade(st, id);
      (forall e :: e in st.expenses && e.id !in CascadeExpenseIds(st, id) ==> e in after.expenses)
      && (forall s :: s in st.subcategories && s.id !in IdsOf(SubcategoriesOf(st, id), SubcategoryId) ==>
            s in after.subcategories)
      && (forall c :: c in st.categories && c.id != id ==> c in after.categories)
  {
    var after := CategoryCascade(st, id);
    forall e | e in st.expenses && e.id !in CascadeExpenseIds(st, id)
      ensures e in after.expenses
    {
      var j :| 0 <= j < |st.expenses| && st.expenses[j] == e;
    }
    forall s | s in st.subcategories && s.id !in IdsOf(SubcategoriesOf(st, id), SubcategoryId)
      ensures s in after.subcategories
    {
      var j :| 0 <= j < |st.subcategories| && st.subcategories[j] == s;
    }
    forall c | c in st.categories && c.id != id
      ensures c in after.categories
    {
      var j :| 0 <= j < |st.categories| && st.categories[j] == c;
    }
  }

  /** The plan ends with the category's delete, after every subcategory's
      and every expense's. */
  lemma CategoryPlanEndsWithCategory(st: State, id: string)
    ensures var plan := CategoryPlan(st, id);
      |plan| > 0 && plan[|plan| - 1] == OfCategory(id)
  {
  }

  // ---------------------------------------------------------------- seeding

  /** What a fetch did: the inserts it sent to create defaults, the store
      after it, and the list it resolved to. */
  datatype Fetched<Req, T> = Fetched(inserts: seq<Req>, state: State, value: seq<T>)

  /** The k-th reply of a batch; a missing one counts as a failure. */
  function ReplyAt<R>(replies: seq<Result<Option<R>, string>>, k: nat): Result<Option<R>, string> {
    if k < |replies| then replies[k] else Err("no reply")
  }

  /** The rows the first `n` replies of a batch returned, converted, in
      order. */
  function Accepted<R, T>(replies: seq<Result<Option<R>, string>>, n: nat, convert: R -> T): (r: seq<T>)
    ensures |r| <= n
    decreases n
  {
    if n == 0 then []
    else
      Accepted(replies, n - 1, convert)
      + match ReplyAt(replies, n - 1) case Ok(Some(row)) => [convert(row)] case _ => []
  }

  /** The five categories an empty account is given. */
  const DefaultCategories: seq<CategoryDraft> := [
    CategoryDraft("Food", "food", "Utensils"),
    CategoryDraft("Home", "home", "Home"),
    CategoryDraft("Transportation", "car", "Car"),
    CategoryDraft("Shopping", "misc", "ShoppingCart"),
    CategoryDraft("Entertainment", "misc", "Smile")
  ]

  /** `createCategory` for each draft, with the k-th reply; every call
      finds the user signed in. */
  function CreateCategories(st: State, drafts: seq<CategoryDraft>, user: string,
                            replies: seq<Result<Option<CategoryRow>, string>>): (r: (State, seq<CategoryInsert>))
    ensures |r.1| == |drafts| && forall i :: 0 <= i < |drafts| ==> r.1[i] == CategoryInsertOf(drafts[i], user)
    ensures r.0 == st.(categories := st.categories + Accepted(replies, |drafts|, ToCategory))
    decreases |drafts|
  {
    if drafts == [] then (st, [])
    else
      var n := |drafts| - 1;
      var prev := CreateCategories(st, drafts[..n], user, replies);
      var step := CreateCategory(prev.0, drafts[n], Some(user), ReplyAt(replies, n));
      (step.state, prev.1 + [CategoryInsertOf(drafts[n], user)])
  }

  /** `fetchCategories`: the fetched rows become the store's categories;
      when there are none and a user is signed in, the five defaults are
      created and the list fetched again (`refetch`, `None` when that
      fetch returned no data). A failed fetch is reported and resolves to
      an empty list. */
  function FetchCategories(st: State, reply: Result<Option<seq<CategoryRow>>, string>, user: Option<string>,
                           created: seq<Result<Option<CategoryRow>, string>>, refetch: Option<seq<CategoryRow>>)
    : (r: Fetched<CategoryInsert, Category>)
    ensures !(reply.Ok? && reply.value.Some?) ==> r == Fetched([], st, [])
    ensures reply.Ok? && reply.value.Some? ==>
      var fetched := Project(reply.value.value, ToCategory);
      var seeds := fetched == [] && user.Some?;
      r.state == st.(categories := r.state.categories)
      && (!seeds ==> r.inserts == [] && r.state.categories == fetched && r.value == fetched)
      && (seeds ==> |r.inserts| == |DefaultCategories|
                    && forall i :: 0 <= i < |DefaultCategories| ==> r.inserts[i] == CategoryInsertOf(DefaultCategories[i], user.value))
      && (seeds && refetch.Some? ==> r.value == Project(refetch.value, ToCategory) && r.state.categories == r.value)
      && (seeds && refetch.None? ==> r.value == [] && r.state.categories == Accepted(created, |DefaultCategories|, ToCategory))
  {
    match reply
    case Err(_) => Fetched([], st, [])
    case Ok(None) => Fetched([], st, [])
    case Ok(Some(rows)) =>
      var categories := Project(rows, ToCategory);
      var cur := st.(categories := categories);
      if |categories| == 0 && user.Some? then
        var made := CreateCategories(cur, DefaultCategories, user.value, created);
        match refetch
        case Some(again) =>
          var fetchedAgain := Project(again, ToCategory);
          Fetched(made.1, made.0.(categories := fetchedAgain), fetchedAgain)
        case None => Fetched(made.1, made.0, categories)
      else Fetched([], cur, categories)
  }

  /** When every default is created and the database echoes its insert,
      an empty account ends up with exactly the five defaults, in order,
      even if the second fetch returns no data. */
  lemma SeedingCreatesDefaults(st: State, user: string, ids: seq<string>)
    requires |ids| == |DefaultCategories|
    ensures var created := seq(|ids|, i requires 0 <= i < |ids| =>
                               var d := DefaultCategories[i];
                               Ok(Some(CategoryRow(ids[i], d.name, d.kind, d.icon))));
      var after := FetchCategories(st, Ok(Some([])), Some(user), created, None).state;
      |after.categories| == |DefaultCategories|
      && forall i :: 0 <= i < |DefaultCategories| ==>
           after.categories[i] == Category(ids[i], DefaultCategories[i].name, DefaultCategories[i].kind, DefaultCategories[i].icon)
  {
    var created := seq(|ids|, i requires 0 <= i < |ids| =>
                       var d := DefaultCategories[i];
                       Ok(Some(CategoryRow(ids[i], d.name, d.kind, d.icon))));
    AcceptedEchoPrefix(created, ids, |ids|);
  }

  lemma {:induction false} AcceptedEchoPrefix(created: seq<Result<Option<CategoryRow>, string>>, ids: seq<string>, n: nat)
    requires |ids| == |DefaultCategories| && |created| == |ids| && n <= |ids|
    requires forall i :: 0 <= i < |ids| ==>
      created[i] == Ok(Some(CategoryRow(ids[i], DefaultCategories[i].name, DefaultCategories[i].kind, DefaultCategories[i].icon)))
    ensures var acc := Accepted(created, n, ToCategory);
      |acc| == n
      && forall i :: 0 <= i < n ==>
           acc[i] == Category(ids[i], DefaultCategories[i].name, DefaultCategories[i].kind, DefaultCategories[i].icon)
  {
    if n > 0 {
      AcceptedEchoPrefix(created, ids, n - 1);
    }
  }

  /** The names of the subcategories a category of the given type is
      seeded with. */
  function SubcategoryNames(kind: string): (names: seq<string>)
    ensures |names| == if kind == "food" || kind == "home" || kind == "car" then 3 else 1
  {
    if kind == "food" then ["Restaurant", "Takeout", "Groceries"]
    else if kind == "home" then ["Rent", "Utilities", "Furniture"]
    else if kind == "car" then ["Gas", "Maintenance", "Parking"]
    else ["General"]
  }

  /** The default subcategories of one category. */
  function DefaultsFor(c: Category): seq<SubcategoryDraft> {
    var names := SubcategoryNames(c.kind);
    seq(|names|, i requires 0 <= i < |names| => SubcategoryDraft(names[i], c.id))
  }

  /** The default subcategories of every category, category by category. */
  function SeedPlan(categories: seq<Category>): seq<SubcategoryDraft>
    decreases |categories|
  {
    if categories == [] then []
    else SeedPlan(categories[..|categories| - 1]) + DefaultsFor(categories[|categories| - 1])
  }

  /** The defaults of one category, written out type by type. */
  lemma DefaultsSpelled(c: Category)
    ensures c.kind == "food" ==> DefaultsFor(c) == [SubcategoryDraft("Restaurant", c.id),
      SubcategoryDraft("Takeout", c.id), SubcategoryDraft("Groceries", c.id)]
    ensures c.kind == "home" ==> DefaultsFor(c) == [SubcategoryDraft("Rent", c.id),
      SubcategoryDraft("Utilities", c.id), SubcategoryDraft("Furniture", c.id)]
    ensures c.kind == "car" ==> DefaultsFor(c) == [SubcategoryDraft("Gas", c.id),
      SubcategoryDraft("Maintenance", c.id), SubcategoryDraft("Parking", c.id)]
    ensures c.kind != "food" && c.kind != "home" && c.kind != "car" ==>
      DefaultsFor(c) == [SubcategoryDraft("General", c.id)]
  {
  }

  /** The plan for one more category adds that category's defaults. */
  lemma PlanStep(categories: seq<Category>, i: nat)
    requires i < |categories|
    ensures SeedPlan(categories[..i + 1]) == SeedPlan(categories[..i]) + DefaultsFor(categories[i])
  {
    assert categories[..i + 1][..i] == categories[..i];
  }

  /** The loop of `fetchSubCategories` that collects the creates, one
      category at a time. */
  method SeedSubcategoryDrafts(categories: seq<Category>) returns (drafts: seq<SubcategoryDraft>)
    ensures drafts == SeedPlan(categories)
  {
    drafts := [];
    var i := 0;
    while i < |categories|
      invariant 0 <= i <= |categories|
      invariant drafts == SeedPlan(categories[..i])
    {
      var c := categories[i];
      DefaultsSpelled(c);
      PlanStep(categories, i);
      if c.kind == "food" {
        drafts := drafts + [SubcategoryDraft("Restaurant", c.id), SubcategoryDraft("Takeout", c.id),
                            SubcategoryDraft("Groceries", c.id)];
      } else if c.kind == "home" {
        drafts := drafts + [SubcategoryDraft("Rent", c.id), SubcategoryDraft("Utilities", c.id),
                            SubcategoryDraft("Furniture", c.id)];
      } else if c.kind == "car" {
        drafts := drafts + [SubcategoryDraft("Gas", c.id), SubcategoryDraft("Maintenance", c.id),
                            SubcategoryDraft("Parking", c.id)];
      } else {
        drafts := drafts + [SubcategoryDraft("General", c.id)];
      }
      i := i + 1;
    }
    assert categories[..i] == categories;
  }

  /** A draft is in the plan exactly when it names one of the defaults of
      one of the categories, under that category. */
  lemma {:induction false} SeedPlanMembers(categories: seq<Category>, d: SubcategoryDraft)
    ensures d in SeedPlan(categories) <==>
      exists i :: 0 <= i < |categories| && DefaultOf(categories[i], d)
    decreases |categories|
  {
    if categories != [] {
      var n := |categories| - 1;
      var init := categories[..n];
      SeedPlanMembers(init, d);
      DefaultsForMembers(categories[n], d);
      SomeCategorySplit(categories, d);
    }
  }

  lemma SomeCategorySplit(categories: seq<Category>, d: SubcategoryDraft)
    requires categories != []
    ensures var n := |categories| - 1;
      (exists i :: 0 <= i < |categories| && DefaultOf(categories[i], d))
      <==> (exists i :: 0 <= i < n && DefaultOf(categories[..n][i], d)) || DefaultOf(categories[n], d)
  {
    SomeSplit(categories, c => DefaultOf(c, d));
  }

  lemma SomeSplit<T>(xs: seq<T>, p: T -> bool)
    requires xs != []
    ensures var n := |xs| - 1;
      (exists i :: 0 <= i < |xs| && p(xs[i])) <==> (exists i :: 0 <= i < n && p(xs[..n][i])) || p(xs[n])
  {
    var n := |xs| - 1;
    var init := xs[..n];
    if exists i :: 0 <= i < |xs| && p(xs[i]) {
      var i :| 0 <= i < |xs| && p(xs[i]);
      if i < n {
        assert init[i] == xs[i];
      }
    }
    if exists i :: 0 <= i < n && p(init[i]) {
      var i :| 0 <= i < n && p(init[i]);
      assert xs[i] == init[i];
    }
  }

  /** `d` is one of the defaults of `c`. */
  predicate DefaultOf(c: Category, d: SubcategoryDraft) {
    d.categoryId == c.id && d.name in SubcategoryNames(c.kind)
  }

  lemma DefaultsForMembers(c: Category, d: SubcategoryDraft)
    ensures d in DefaultsFor(c) <==> DefaultOf(c, d)
  {
    var names := SubcategoryNames(c.kind);
    if DefaultOf(c, d) {
      var j :| 0 <= j < |names| && names[j] == d.name;
      assert DefaultsFor(c)[j] == d;
    }
  }

  /** Every category gets three defaults when it is food, home or car, and
      one otherwise. */
  lemma {:induction false} SeedPlanSize(categories: seq<Category>)
    ensures |categories| <= |SeedPlan(categories)| <= 3 * |categories|
    decreases |categories|
  {
    if categories != [] {
      SeedPlanSize(categories[..|categories| - 1]);
    }
  }

  /** `createSubCategory` for each draft, with the k-th reply; every call
      finds the user signed in. */
  function CreateSubcategories(st: State, drafts: seq<SubcategoryDraft>, user: string,
                               replies: seq<Result<Option<SubcategoryRow>, string>>): (r: (State, seq<SubcategoryInsert>))
    ensures |r.1| == |drafts| && forall i :: 0 <= i < |drafts| ==> r.1[i] == SubcategoryInsertOf(drafts[i], user)
    ensures r.0 == st.(subcategories := st.subcategories + Accepted(replies, |drafts|, ToSubcategory))
    decreases |drafts|
  {
    if drafts == [] then (st, [])
    else
      var n := |drafts| - 1;
      var prev := CreateSubcategories(st, drafts[..n], user, replies);
      var step := CreateSubCategory(prev.0, drafts[n], Some(user), ReplyAt(replies, n));
      (step.state, prev.1 + [SubcategoryInsertOf(drafts[n], user)])
  }

  /** `fetchSubCategories`: the fetched rows become the store's
      subcategories; when there are none, the store has categories and a
      user is signed in, the defaults of every category are created and
      the list fetched again. A failed fetch is reported and resolves to
      an empty list. */
  method FetchSubCategories(st: State, reply: Result<Option<seq<SubcategoryRow>>, string>, user: Option<string>,
                            created: seq<Result<Option<SubcategoryRow>, string>>, refetch: Option<seq<SubcategoryRow>>)
    returns (r: Fetched<SubcategoryInsert, Subcategory>)
    ensures !(reply.Ok? && reply.value.Some?) ==> r == Fetched([], st, [])
    ensures reply.Ok? && reply.value.Some? ==>
      var fetched := Project(reply.value.value, ToSubcategory);
      var seeds := fetched == [] && |st.categories| > 0 && user.Some?;
      var plan := SeedPlan(st.categories);
      r.state == st.(subcategories := r.state.subcategories)
      && (!seeds ==> r.inserts == [] && r.state.subcategories == fetched && r.value == fetched)
      && (seeds ==> |r.inserts| == |plan|
                    && forall i :: 0 <= i < |plan| ==> r.inserts[i] == SubcategoryInsertOf(plan[i], user.value))
      && (seeds && refetch.Some? ==> r.value == Project(refetch.value, ToSubcategory) && r.state.subcategories == r.value)
      && (seeds && refetch.None? ==> r.value == [] && r.state.subcategories == Accepted(created, |plan|, ToSubcategory))
  {
    match reply
    case Err(_) =>
      return Fetched([], st, []);
    case Ok(None) =>
      return Fetched([], st, []);
    case Ok(Some(rows)) =>
      var subcategories := Project(rows, ToSubcategory);
      var cur := st.(subcategories := subcategories);
      if |subcategories| == 0 && |cur.categories| > 0 && user.Some? {
        var drafts := SeedSubcategoryDrafts(cur.categories);
        var made := CreateSubcategories(cur, drafts, user.value, created);
        match refetch
        case Some(again) =>
          var fetchedAgain := Project(again, ToSubcategory);
          r := Fetched(made.1, made.0.(subcategories := fetchedAgain), fetchedAgain);
        case None =>
          r := Fetched(made.1, made.0, subcategories);
      } else {
        r := Fetched([], cur, subcategories);
      }
  }
}
