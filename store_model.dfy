/** The app's client-side store: its entities, its state, and the list
    updates every action is made of (append, replace by id, remove by id).
    Money is in integer cents; an expense date is a local date-time. */
module StoreModel {
  import opened Wrappers
  import opened Calendar

  /** A JavaScript `Date` that holds a real instant, read in the browser's
      zone. */
  type LocalTime = dt: DateTime | ValidDateTime(dt) witness DateTime(2000, 1, 1, 0)

  /** A category; `kind` is the type column ('car', 'groceries', 'home',
      'food' or 'misc', not checked when read back). */
  datatype Category = Category(id: string, name: string, kind: string, icon: string)

  datatype Subcategory = Subcategory(id: string, name: string, categoryId: string)

  /** The recurrence the add-expense form attaches to an expense. */
  datatype Recurring = Recurring(isRecurring: bool, months: int, startMonth: string)

  datatype Expense = Expense(
    id: string,
    amount: int,
    description: string,
    date: LocalTime,
    categoryId: string,
    subcategoryId: string,
    recurring: Option<Recurring>)

  datatype Budget = Budget(id: string, amount: int, month: string, categoryId: string)

  datatype SavingsGoal = SavingsGoal(
    id: string,
    name: string,
    targetAmount: int,
    currentAmount: int,
    dueDate: Option<LocalTime>,
    icon: string,
    color: string)

  datatype Theme = Light | Dark

  datatype State = State(
    categories: seq<Category>,
    subcategories: seq<Subcategory>,
    expenses: seq<Expense>,
    budgets: seq<Budget>,
    savingsGoals: seq<SavingsGoal>,
    initialized: bool,
    theme: Theme)

  /** The state a new store starts from. */
  const Initial := State([], [], [], [], [], false, Light)

  /** What the store writes to local storage. */
  datatype Saved = Saved(initialized: bool, theme: Theme, savingsGoals: seq<SavingsGoal>)

  /** `partialize`: the initialized flag, the theme and the savings goals
      survive a reload; categories, subcategories, expenses and budgets are
      fetched again. */
  function Persist(st: State): (saved: Saved)
    ensures saved.initialized == st.initialized && saved.theme == st.theme
    ensures saved.savingsGoals == st.savingsGoals
  {
    Saved(st.initialized, st.theme, st.savingsGoals)
  }

  /** Restoring what was saved over a fresh store. */
  function Restore(saved: Saved): State {
    Initial.(initialized := saved.initialized, theme := saved.theme, savingsGoals := saved.savingsGoals)
  }

  /** A reload keeps exactly the persisted fields. */
  lemma PersistRestore(st: State)
    ensures Persist(Restore(Persist(st))) == Persist(st)
    ensures Restore(Persist(st)).expenses == [] && Restore(Persist(st)).budgets == []
  {
  }

  /** What one action did: the request it sent (if it got that far), the
      store afterwards, and its return value or the error it re-threw. */
  datatype Step<Req, T> = Step(request: Option<Req>, state: State, outcome: Outcome<T>)

  function CategoryId(c: Category): string { c.id }
  function SubcategoryId(s: Subcategory): string { s.id }
  function ExpenseId(e: Expense): string { e.id }
  function BudgetId(b: Budget): string { b.id }
  function GoalId(g: SavingsGoal): string { g.id }

  // ------------------------------------------------------------ list updates

  /** `xs.filter(x => x.id !== id)`. */
  function Remove<T>(xs: seq<T>, id: string, idOf: T -> string): (r: seq<T>)
    ensures forall i :: 0 <= i < |r| ==> r[i] in xs && idOf(r[i]) != id
    ensures forall i :: 0 <= i < |xs| && idOf(xs[i]) != id ==> xs[i] in r
    ensures |r| <= |xs|
  {
    if xs == [] then []
    else Remove(xs[..|xs| - 1], id, idOf) + (if idOf(xs[|xs| - 1]) == id then [] else [xs[|xs| - 1]])
  }

  /** Removing keeps every other element as often as it occurred. */
  lemma {:induction false} RemoveKeepsOthers<T>(xs: seq<T>, id: string, idOf: T -> string, x: T)
    requires idOf(x) != id
    ensures multiset(Remove(xs, id, idOf))[x] == multiset(xs)[x]
  {
    if xs != [] {
      var init, last := xs[..|xs| - 1], xs[|xs| - 1];
      RemoveKeepsOthers(init, id, idOf, x);
      MultisetSnoc(xs);
      var r := Remove(init, id, idOf);
      if idOf(last) != id {
        assert Remove(xs, id, idOf) == r + [last];
        assert multiset(r + [last]) == multiset(r) + multiset{last};
      }
    }
  }

  lemma MultisetSnoc<T>(xs: seq<T>)
    requires xs != []
    ensures multiset(xs) == multiset(xs[..|xs| - 1]) + multiset{xs[|xs| - 1]}
  {
    assert xs == xs[..|xs| - 1] + [xs[|xs| - 1]];
  }

  /** Removing works piecewise, so the survivors keep their order. */
  lemma {:induction false} RemoveAppend<T>(a: seq<T>, b: seq<T>, id: string, idOf: T -> string)
    ensures Remove(a + b, id, idOf) == Remove(a, id, idOf) + Remove(b, id, idOf)
  {
    if b == [] {
      assert a + b == a;
    } else {
      RemoveAppend(a, b[..|b| - 1], id, idOf);
      assert (a + b)[..|a + b| - 1] == a + b[..|b| - 1];
    }
  }

  /** Removing an id nobody has changes nothing. */
  lemma {:induction false} RemoveAbsent<T>(xs: seq<T>, id: string, idOf: T -> string)
    requires forall i :: 0 <= i < |xs| ==> idOf(xs[i]) != id
    ensures Remove(xs, id, idOf) == xs
  {
    if xs != [] {
      RemoveAbsent(xs[..|xs| - 1], id, idOf);
      assert xs == xs[..|xs| - 1] + [xs[|xs| - 1]];
    }
  }

  /** `xs.filter(x => !ids.includes(x.id))`. */
  function RemoveIds<T>(xs: seq<T>, ids: set<string>, idOf: T -> string): (r: seq<T>)
    ensures forall i :: 0 <= i < |r| ==> r[i] in xs && idOf(r[i]) !in ids
    ensures forall i :: 0 <= i < |xs| && idOf(xs[i]) !in ids ==> xs[i] in r
    ensures |r| <= |xs|
  {
    if xs == [] then []
    else RemoveIds(xs[..|xs| - 1], ids, idOf) + (if idOf(xs[|xs| - 1]) in ids then [] else [xs[|xs| - 1]])
  }

  /** Removing works piecewise. */
  lemma {:induction false} RemoveIdsAppend<T>(a: seq<T>, b: seq<T>, ids: set<string>, idOf: T -> string)
    ensures RemoveIds(a + b, ids, idOf) == RemoveIds(a, ids, idOf) + RemoveIds(b, ids, idOf)
  {
    if b == [] {
      assert a + b == a;
    } else {
      RemoveIdsAppend(a, b[..|b| - 1], ids, idOf);
      assert (a + b)[..|a + b| - 1] == a + b[..|b| - 1];
    }
  }

  /** Removing no id changes nothing. */
  lemma {:induction false} RemoveNoIds<T>(xs: seq<T>, idOf: T -> string)
    ensures RemoveIds(xs, {}, idOf) == xs
  {
    if xs != [] {
      RemoveNoIds(xs[..|xs| - 1], idOf);
      assert xs == xs[..|xs| - 1] + [xs[|xs| - 1]];
    }
  }

  /** Two removals are one removal of both sets. */
  lemma {:induction false} RemoveIdsTwice<T>(xs: seq<T>, a: set<string>, b: set<string>, idOf: T -> string)
    ensures RemoveIds(RemoveIds(xs, a, idOf), b, idOf) == RemoveIds(xs, a + b, idOf)
  {
    if xs != [] {
      var init := xs[..|xs| - 1];
      var last := xs[|xs| - 1];
      RemoveIdsTwice(init, a, b, idOf);
      RemoveIdsAppend(RemoveIds(init, a, idOf), if idOf(last) in a then [] else [last], b, idOf);
      assert RemoveIds([last], b, idOf) == (if idOf(last) in b then [] else [last]) by {
        assert [last][..0] == [];
      }
    }
  }

  /** The ids of a list. */
  function IdsOf<T>(xs: seq<T>, idOf: T -> string): (s: set<string>)
    ensures forall x :: x in s <==> exists i :: 0 <= i < |xs| && idOf(xs[i]) == x
  {
    set i | 0 <= i < |xs| :: idOf(xs[i])
  }

  /** One more element adds its id. */
  lemma IdsOfSnoc<T>(xs: seq<T>, x: T, idOf: T -> string)
    ensures IdsOf(xs + [x], idOf) == IdsOf(xs, idOf) + {idOf(x)}
  {
    var ys := xs + [x];
    assert ys[|xs|] == x;
    forall y | y in IdsOf(xs, idOf)
      ensures y in IdsOf(ys, idOf)
    {
      var i :| 0 <= i < |xs| && idOf(xs[i]) == y;
      assert ys[i] == xs[i];
    }
  }

  /** The ids of the elements whose key is `v`. */
  function IdsWhere<T>(xs: seq<T>, key: T -> string, v: string, idOf: T -> string): (s: set<string>)
    ensures forall x :: x in s <==> exists i :: 0 <= i < |xs| && key(xs[i]) == v && idOf(xs[i]) == x
  {
    set i | 0 <= i < |xs| && key(xs[i]) == v :: idOf(xs[i])
  }

  /** Taking out the ids of the elements a filter keeps: the ids of every
      element whose key is `v`. */
  lemma FilterByIds<T>(xs: seq<T>, key: T -> string, v: string, idOf: T -> string)
    ensures IdsOf(FilterBy(xs, key, v), idOf) == IdsWhere(xs, key, v, idOf)
  {
    var f := FilterBy(xs, key, v);
    forall x | x in IdsOf(f, idOf)
      ensures x in IdsWhere(xs, key, v, idOf)
    {
      var j :| 0 <= j < |f| && idOf(f[j]) == x;
      var i :| 0 <= i < |xs| && xs[i] == f[j];
    }
    forall x | x in IdsWhere(xs, key, v, idOf)
      ensures x in IdsOf(f, idOf)
    {
      var i :| 0 <= i < |xs| && key(xs[i]) == v && idOf(xs[i]) == x;
      var j :| 0 <= j < |f| && f[j] == xs[i];
    }
  }

  /** Removing, from what an earlier removal left, the ids of its elements
      whose key is `v` is removing from the whole list the ids of all its
      elements whose key is `v`: an element the first removal already took
      makes no difference. */
  lemma RemoveWhere<T>(xs: seq<T>, a: set<string>, key: T -> string, v: string, idOf: T -> string)
    ensures var rest := RemoveIds(xs, a, idOf);
      RemoveIds(rest, IdsWhere(rest, key, v, idOf), idOf) == RemoveIds(xs, a + IdsWhere(xs, key, v, idOf), idOf)
  {
    var rest := RemoveIds(xs, a, idOf);
    RemoveIdsTwice(xs, a, IdsWhere(rest, key, v, idOf), idOf);
    forall x | x in IdsWhere(xs, key, v, idOf) && x !in a
      ensures x in IdsWhere(rest, key, v, idOf)
    {
      var i :| 0 <= i < |xs| && key(xs[i]) == v && idOf(xs[i]) == x;
      var j :| 0 <= j < |rest| && rest[j] == xs[i];
    }
    forall x | x in IdsWhere(rest, key, v, idOf)
      ensures x in IdsWhere(xs, key, v, idOf)
    {
      var j :| 0 <= j < |rest| && key(rest[j]) == v && idOf(rest[j]) == x;
      var i :| 0 <= i < |xs| && xs[i] == rest[j];
    }
    assert a + IdsWhere(rest, key, v, idOf) == a + IdsWhere(xs, key, v, idOf);
  }

  /** `xs.filter(x => ids.includes(x.id))`: the elements a bulk action
      takes. */
  function TakeIds<T>(xs: seq<T>, ids: set<string>, idOf: T -> string): (r: seq<T>)
    ensures forall i :: 0 <= i < |r| ==> r[i] in xs && idOf(r[i]) in ids
    ensures forall i :: 0 <= i < |xs| && idOf(xs[i]) in ids ==> xs[i] in r
    ensures |r| <= |xs|
  {
    if xs == [] then []
    else TakeIds(xs[..|xs| - 1], ids, idOf) + (if idOf(xs[|xs| - 1]) in ids then [xs[|xs| - 1]] else [])
  }

  /** What a bulk removal takes and what it leaves are together the whole
      list. */
  lemma {:induction false} TakeRemoveSplit<T>(xs: seq<T>, ids: set<string>, idOf: T -> string)
    ensures multiset(TakeIds(xs, ids, idOf)) + multiset(RemoveIds(xs, ids, idOf)) == multiset(xs)
  {
    if xs != [] {
      var init, x := xs[..|xs| - 1], xs[|xs| - 1];
      TakeRemoveSplit(init, ids, idOf);
      MultisetSnoc(xs);
      var t, r := TakeIds(init, ids, idOf), RemoveIds(init, ids, idOf);
      if idOf(x) in ids {
        assert TakeIds(xs, ids, idOf) == t + [x];
        assert multiset(t + [x]) == multiset(t) + multiset{x};
        assert RemoveIds(xs, ids, idOf) == r;
      } else {
        assert TakeIds(xs, ids, idOf) == t;
        assert RemoveIds(xs, ids, idOf) == r + [x];
        assert multiset(r + [x]) == multiset(r) + multiset{x};
      }
    }
  }

  /** Removing one id is removing the set holding it. */
  lemma {:induction false} RemoveIsRemoveIds<T>(xs: seq<T>, id: string, idOf: T -> string)
    ensures Remove(xs, id, idOf) == RemoveIds(xs, {id}, idOf)
  {
    if xs != [] {
      RemoveIsRemoveIds(xs[..|xs| - 1], id, idOf);
    }
  }

  /** `xs.filter(x => key(x) === v)`. */
  function FilterBy<T>(xs: seq<T>, key: T -> string, v: string): (r: seq<T>)
    ensures forall i :: 0 <= i < |r| ==> r[i] in xs && key(r[i]) == v
    ensures forall i :: 0 <= i < |xs| && key(xs[i]) == v ==> xs[i] in r
    ensures |r| <= |xs|
  {
    if xs == [] then []
    else FilterBy(xs[..|xs| - 1], key, v) + (if key(xs[|xs| - 1]) == v then [xs[|xs| - 1]] else [])
  }

  /** The filter works piecewise, so what it keeps stays in order. */
  lemma {:induction false} FilterByAppend<T>(a: seq<T>, b: seq<T>, key: T -> string, v: string)
    ensures FilterBy(a + b, key, v) == FilterBy(a, key, v) + FilterBy(b, key, v)
  {
    if b == [] {
      assert a + b == a;
    } else {
      FilterByAppend(a, b[..|b| - 1], key, v);
      assert (a + b)[..|a + b| - 1] == a + b[..|b| - 1];
    }
  }

  /** Filtering twice on the same key is filtering once, and filters on
      different values keep nothing in common. */
  lemma {:induction false} FilterByTwice<T>(xs: seq<T>, key: T -> string, v: string, w: string)
    ensures FilterBy(FilterBy(xs, key, v), key, w) == if v == w then FilterBy(xs, key, v) else []
  {
    if xs != [] {
      FilterByTwice(xs[..|xs| - 1], key, v, w);
      var last := xs[|xs| - 1];
      FilterByAppend(FilterBy(xs[..|xs| - 1], key, v), if key(last) == v then [last] else [], key, w);
      assert FilterBy([last], key, w) == (if key(last) == w then [last] else []) by {
        assert [last][..0] == [];
      }
    }
  }

  /** `xs.map(x => x.id === id ? v : x)`. */
  function Replace<T>(xs: seq<T>, id: string, idOf: T -> string, v: T): (r: seq<T>)
    ensures |r| == |xs|
    ensures forall i :: 0 <= i < |xs| && idOf(xs[i]) != id ==> r[i] == xs[i]
    ensures forall i :: 0 <= i < |xs| && idOf(xs[i]) == id ==> r[i] == v
  {
    if xs == [] then []
    else Replace(xs[..|xs| - 1], id, idOf, v) + [if idOf(xs[|xs| - 1]) == id then v else xs[|xs| - 1]]
  }

  /** Replacing with a value of the same id leaves the other elements
      exactly as removal leaves them. */
  lemma {:induction false} ReplaceThenRemove<T>(xs: seq<T>, id: string, idOf: T -> string, v: T)
    requires idOf(v) == id
    ensures Remove(Replace(xs, id, idOf, v), id, idOf) == Remove(xs, id, idOf)
  {
    if xs != [] {
      ReplaceThenRemove(xs[..|xs| - 1], id, idOf, v);
      var r := Replace(xs, id, idOf, v);
      assert r[..|r| - 1] == Replace(xs[..|xs| - 1], id, idOf, v);
    }
  }

  /** Replacing an id nobody has changes nothing. */
  lemma {:induction false} ReplaceAbsent<T>(xs: seq<T>, id: string, idOf: T -> string, v: T)
    requires forall i :: 0 <= i < |xs| ==> idOf(xs[i]) != id
    ensures Replace(xs, id, idOf, v) == xs
  {
    if xs != [] {
      ReplaceAbsent(xs[..|xs| - 1], id, idOf, v);
      assert xs == xs[..|xs| - 1] + [xs[|xs| - 1]];
    }
  }

  /** `xs.find(x => x.id === id)`: the first element with that id. */
  function Find<T>(xs: seq<T>, id: string, idOf: T -> string): (r: Option<T>)
    ensures r.Some? <==> exists i :: 0 <= i < |xs| && idOf(xs[i]) == id
    ensures r.Some? ==> r.value in xs && idOf(r.value) == id
  {
    if xs == [] then None
    else if idOf(xs[0]) == id then Some(xs[0])
    else
      var r := Find(xs[1..], id, idOf);
      assert forall i :: 1 <= i < |xs| ==> xs[i] == xs[1..][i - 1];
      r
  }

  /** What the first-match lookup returns is the first element with the id. */
  lemma {:induction false} FindIsFirst<T>(xs: seq<T>, id: string, idOf: T -> string)
    requires Find(xs, id, idOf).Some?
    ensures exists i :: (0 <= i < |xs| && xs[i] == Find(xs, id, idOf).value
                         && forall j :: 0 <= j < i ==> idOf(xs[j]) != id)
  {
    if idOf(xs[0]) != id {
      FindIsFirst(xs[1..], id, idOf);
      var i :| 0 <= i < |xs[1..]| && xs[1..][i] == Find(xs, id, idOf).value
        && forall j :: 0 <= j < i ==> idOf(xs[1..][j]) != id;
      assert xs[i + 1] == Find(xs, id, idOf).value;
    } else {
      assert xs[0] == Find(xs, id, idOf).value;
    }
  }
}
