/** The store's expense actions: fetch the list, add one expense, add a
    monthly series, update and delete. Every database call is an argument:
    the signed-in user and the database's reply are given, and an action's
    result is the request it sent, the store's new state and what it returned
    or threw. */
module ExpenseActions {
  import opened Wrappers
  import opened Calendar
  import opened JsText
  import opened StoreModel
  import opened StoreRecords
  import opened StableSort

  // ------------------------------------------------------------------ fetch

  /** `fetchExpenses`: the rows as the database orders them (newest first),
      each converted; a failed query is reported and leaves the store as it
      was, and a query without data returns nothing. */
  function FetchExpenses(st: State, reply: Result<Option<seq<ExpenseRow>>, string>): (r: (State, seq<Expense>))
    ensures reply.Ok? && reply.value.Some? ==>
      r.1 == Project(reply.value.value, ToExpense) && r.0 == st.(expenses := r.1)
    ensures !(reply.Ok? && reply.value.Some?) ==> r.0 == st && r.1 == []
  {
    match reply
    case Err(_) => (st, [])
    case Ok(None) => (st, [])
    case Ok(Some(rows)) =>
      var expenses := Project(rows, ToExpense);
      (st.(expenses := expenses), expenses)
  }

  /** Fetching back the rows the store's expenses were read from gives the
      same expenses, in the same order. */
  lemma FetchRoundTrip(st: State, es: seq<Expense>)
    ensures FetchExpenses(st, Ok(Some(Project(es, ExpenseRowOf)))).1 == es
  {
    var got := FetchExpenses(st, Ok(Some(Project(es, ExpenseRowOf)))).1;
    forall i | 0 <= i < |es|
      ensures got[i] == es[i]
    {
      ExpenseRoundTrip(es[i]);
    }
  }

  // -------------------------------------------------------------------- add

  /** An expense as the form hands it over, before the database gives it an
      id. */
  datatype Draft = Draft(
    amount: int,
    description: string,
    date: LocalTime,
    categoryId: string,
    subcategoryId: string,
    recurring: Option<Recurring>)

  /** The row `addExpense` inserts; `recurring_data` holds the JSON text of
      the recurrence, or `null`. */
  datatype ExpenseInsert = ExpenseInsert(
    amount: int,
    description: string,
    date: LocalTime,
    category_id: string,
    subcategory_id: string,
    recurring_data: Option<string>,
    user_id: string)

  /** `JSON.stringify(recurring)`. */
  function RecurringJson(r: Recurring): (json: string)
    ensures |json| > 0 && json[0] == '{'
  {
    "{\"isRecurring\":" + (if r.isRecurring then "true" else "false")
    + ",\"months\":" + IntToString(r.months)
    + ",\"startMonth\":\"" + r.startMonth + "\"}"
  }

  /** The insert payload of a draft for a user. */
  function InsertOf(d: Draft, userId: string): (row: ExpenseInsert)
    ensures row.user_id == userId
    ensures row.recurring_data.None? <==> d.recurring.None?
  {
    ExpenseInsert(d.amount, d.description, d.date, d.categoryId, d.subcategoryId,
                  match d.recurring case None => None case Some(r) => Some(RecurringJson(r)),
                  userId)
  }

  /** The row the database keeps for an insert and gives back, with the id
      it chose; its JSON text parses back to the recurrence it was made
      from. */
  function StoredRow(d: Draft, ins: ExpenseInsert, id: string): ExpenseRow {
    ExpenseRow(id, ins.amount, ins.description, ins.date, ins.category_id, ins.subcategory_id,
               match d.recurring case None => NoData case Some(r) => Text(RecurringJson(r), Some(r)))
  }

  /** The expense a draft becomes once it has an id. */
  function WithId(d: Draft, id: string): Expense {
    Expense(id, d.amount, d.description, d.date, d.categoryId, d.subcategoryId, d.recurring)
  }

  /** What is inserted reads back as the draft itself, recurrence included. */
  lemma InsertReadBack(d: Draft, userId: string, id: string)
    ensures ToExpense(StoredRow(d, InsertOf(d, userId), id)) == WithId(d, id)
  {
  }

  const NotLoggedIn := "You must be logged in to add expenses"

  /** The environment of one `addExpense` call: the signed-in user, if any,
      and the database's reply to the insert. */
  datatype Reply = Reply(user: Option<string>, result: Result<Option<ExpenseRow>, string>)

  function At(replies: seq<Reply>, i: nat): Reply {
    if i < |replies| then replies[i] else Reply(None, Err("no reply"))
  }

  /** The call throws: nobody is signed in or the insert failed. */
  predicate Fails(reply: Reply) {
    reply.user.None? || reply.result.Err?
  }

  /** `addExpense`: without a user it throws before inserting; an error from
      the insert is re-thrown; a returned row is converted and put first in
      the list. */
  function AddExpense(st: State, d: Draft, reply: Reply): (s: Step<ExpenseInsert, Expense>)
    ensures reply.user.None? ==> s == Step(None, st, Threw(NotLoggedIn))
    ensures reply.user.Some? ==> s.request == Some(InsertOf(d, reply.user.value))
    ensures s.outcome.Threw? <==> Fails(reply)
    ensures reply.user.Some? && reply.result.Err? ==> s.state == st && s.outcome == Threw(reply.result.error)
    ensures !Fails(reply) && reply.result.value.None? ==> s.state == st && s.outcome == Returned(None)
    ensures !Fails(reply) && reply.result.value.Some? ==>
      var e := ToExpense(reply.result.value.value);
      s.outcome == Returned(Some(e)) && s.state == st.(expenses := [e] + st.expenses)
  {
    match reply.user
    case None => Step(None, st, Threw(NotLoggedIn))
    case Some(u) =>
      var request := Some(InsertOf(d, u));
      match reply.result
      case Err(m) => Step(request, st, Threw(m))
      case Ok(None) => Step(request, st, Returned(None))
      case Ok(Some(row)) =>
        var e := ToExpense(row);
        Step(request, st.(expenses := [e] + st.expenses), Returned(Some(e)))
  }

  // -------------------------------------------------------- monthly series

  /** The guard of `addRecurringExpense`: a recurrence that is on, with a
      positive number of months. */
  predicate RepeatsMonthly(d: Draft) {
    d.recurring.Some? && d.recurring.value.isRecurring && d.recurring.value.months > 0
  }

  /** The `i`-th copy of a series: `i` months later (the day clamped to the
      month), and the first copy's start month is its own month. */
  function Copy(d: Draft, i: nat): (c: Draft)
    requires d.recurring.Some?
  {
    var date := AddMonths(d.date, i);
    var rec := d.recurring.value;
    d.(date := date, recurring := Some(rec.(startMonth := if i == 0 then FormatMonth(date) else rec.startMonth)))
  }

  /** The copy differs from the draft only in its date and start month. */
  lemma CopyShape(d: Draft, i: nat)
    requires d.recurring.Some?
    ensures var c := Copy(d, i);
      MonthIndex(MonthOf(c.date)) == MonthIndex(MonthOf(d.date)) + i
      && c.date.msOfDay == d.date.msOfDay
      && c.recurring.Some?
      && c.recurring.value.isRecurring == d.recurring.value.isRecurring
      && c.recurring.value.months == d.recurring.value.months
      && c.recurring.value.startMonth == (if i == 0 then FormatMonth(d.date) else d.recurring.value.startMonth)
      && c.(date := d.date, recurring := d.recurring) == d
      && (i == 0 ==> c.date == d.date)
  {
    FromIndexOfIndex(MonthOf(d.date));
  }

  /** Two copies of a series never fall in the same month. */
  lemma CopiesInDistinctMonths(d: Draft, i: nat, j: nat)
    requires d.recurring.Some? && i != j
    ensures MonthOf(Copy(d, i).date) != MonthOf(Copy(d, j).date)
  {
    CopyShape(d, i);
    CopyShape(d, j);
  }

  /** A list reversed: putting each element first in turn leaves them
      newest first. */
  function Reversed<T>(xs: seq<T>): (r: seq<T>)
    ensures |r| == |xs|
  {
    seq(|xs|, i requires 0 <= i < |xs| => xs[|xs| - 1 - i])
  }

  lemma ReversedAppend<T>(xs: seq<T>, ys: seq<T>)
    requires |ys| <= 1
    ensures Reversed(xs + ys) == ys + Reversed(xs)
  {
    if ys != [] {
      assert (xs + ys)[..|xs|] == xs;
    }
  }

  /** The copies a series adds, one per month. */
  function Copies(d: Draft): (cs: seq<Draft>)
    requires RepeatsMonthly(d)
    ensures |cs| == d.recurring.value.months
  {
    seq(d.recurring.value.months, i requires 0 <= i < d.recurring.value.months => Copy(d, i))
  }

  /** The `i`-th of them is the `i`-th copy. */
  lemma CopiesAt(d: Draft, i: nat)
    requires RepeatsMonthly(d) && i < d.recurring.value.months
    ensures Copies(d)[i] == Copy(d, i)
  {
  }

  /** Where a series stands after some of its calls: the inserts sent, the
      store, the expenses collected, and the error if a call threw. */
  datatype Run = Run(requests: seq<ExpenseInsert>, state: State, results: seq<Expense>, error: Option<string>)

  /** One call of a series, adding copy `c` with `reply`, after a run that
      has not thrown, read off the reply directly. */
  function Call(p: Run, c: Draft, reply: Reply): Run {
    match reply.user
    case None => p.(error := Some(NotLoggedIn))
    case Some(u) =>
      var requests := p.requests + [InsertOf(c, u)];
      match reply.result
      case Err(m) => p.(requests := requests, error := Some(m))
      case Ok(None) => p.(requests := requests)
      case Ok(Some(row)) =>
        var e := ToExpense(row);
        Run(requests, p.state.(expenses := [e] + p.state.expenses), p.results + [e], None)
  }

  /** A call of the series is one `addExpense`: its request is sent, its
      store is kept, its expense collected and its error recorded. */
  lemma CallIsAddExpense(p: Run, c: Draft, reply: Reply)
    requires p.error.None?
    ensures var s := AddExpense(p.state, c, reply);
      Call(p, c, reply)
      == Run(p.requests + (if s.request.Some? then [s.request.value] else []), s.state,
             if s.outcome.Threw? then p.results else p.results + (if s.outcome.value.Some? then [s.outcome.value.value] else []),
             if s.outcome.Threw? then Some(s.outcome.message) else None)
  {
  }

  /** The first `n` calls of a series over the copies `cs`, the `i`-th with
      the `i`-th reply; once a call has thrown no further call is made. */
  function SeriesRun(st: State, cs: seq<Draft>, replies: seq<Reply>, n: nat): Run
    requires n <= |cs|
  {
    if n == 0 then Run([], st, [], None)
    else Next(SeriesRun(st, cs, replies, n - 1), cs[n - 1], At(replies, n - 1))
  }

  /** The run after one more step: unchanged once a call has thrown. */
  function Next(p: Run, c: Draft, reply: Reply): Run {
    if p.error.Some? then p else Call(p, c, reply)
  }

  lemma SeriesRunStep(st: State, cs: seq<Draft>, replies: seq<Reply>, n: nat)
    requires 0 < n <= |cs|
    ensures var p := SeriesRun(st, cs, replies, n - 1);
      SeriesRun(st, cs, replies, n) == if p.error.Some? then p else Call(p, cs[n - 1], At(replies, n - 1))
  {
  }

  /** After a call has thrown, the run does not change. */
  lemma {:induction false} RunStops(st: State, cs: seq<Draft>, replies: seq<Reply>, k: nat, m: nat)
    requires k <= m <= |cs| && SeriesRun(st, cs, replies, k).error.Some?
    ensures SeriesRun(st, cs, replies, m) == SeriesRun(st, cs, replies, k)
  {
    if k < m {
      RunStops(st, cs, replies, k, m - 1);
    }
  }

  /** One more call of a series that has not thrown, spelled out from what
      `addExpense` did. */
  /** The run `p` continued with the calls `i` onwards. */
  function Finish(p: Run, cs: seq<Draft>, replies: seq<Reply>, i: nat): Run
    requires i <= |cs|
    decreases |cs| - i
  {
    if i == |cs| then p else Finish(Next(p, cs[i], At(replies, i)), cs, replies, i + 1)
  }

  /** Continuing the first `n` calls with the rest is the whole series. */
  lemma {:induction false} FinishSeries(st: State, cs: seq<Draft>, replies: seq<Reply>, n: nat)
    requires n <= |cs|
    ensures Finish(SeriesRun(st, cs, replies, n), cs, replies, n) == SeriesRun(st, cs, replies, |cs|)
    decreases |cs| - n
  {
    if n < |cs| {
      FinishSeries(st, cs, replies, n + 1);
    }
  }

  /** A run that has thrown is finished. */
  lemma {:induction false} FinishStopped(p: Run, cs: seq<Draft>, replies: seq<Reply>, i: nat)
    requires i <= |cs| && p.error.Some?
    ensures Finish(p, cs, replies, i) == p
    decreases |cs| - i
  {
    if i < |cs| {
      FinishStopped(p, cs, replies, i + 1);
    }
  }

  /** The loop of `addRecurringExpense`: the `i`-th copy is added with the
      `i`-th reply; a call that throws ends the series and its error is
      re-thrown. */
  method AddCopies(st: State, cs: seq<Draft>, replies: seq<Reply>)
    returns (requests: seq<ExpenseInsert>, st': State, outcome: Outcome<seq<Expense>>)
    ensures var run := SeriesRun(st, cs, replies, |cs|);
      requests == run.requests && st' == run.state
      && outcome == (if run.error.Some? then Threw(run.error.value) else Returned(Some(run.results)))
  {
    ghost var run := SeriesRun(st, cs, replies, |cs|);
    FinishSeries(st, cs, replies, 0);
    var results: seq<Expense> := [];
    requests := [];
    st' := st;
    var i := 0;
    while i < |cs|
      invariant 0 <= i <= |cs|
      invariant Finish(Run(requests, st', results, None), cs, replies, i) == run
    {
      var s := AddExpense(st', cs[i], At(replies, i));
      CallIsAddExpense(Run(requests, st', results, None), cs[i], At(replies, i));
      requests := requests + (if s.request.Some? then [s.request.value] else []);
      st' := s.state;
      if s.outcome.Threw? {
        outcome := Threw(s.outcome.message);
        FinishStopped(Run(requests, st', results, Some(s.outcome.message)), cs, replies, i + 1);
        return;
      }
      results := results + (if s.outcome.value.Some? then [s.outcome.value.value] else []);
      i := i + 1;
    }
    outcome := Returned(Some(results));
  }

  /** The series `addRecurringExpense` adds: one copy per month, for
      `months` months from the draft's own. */
  method AddSeries(st: State, d: Draft, replies: seq<Reply>)
    returns (requests: seq<ExpenseInsert>, st': State, outcome: Outcome<seq<Expense>>)
    requires RepeatsMonthly(d)
    ensures var run := SeriesRun(st, Copies(d), replies, |Copies(d)|);
      requests == run.requests && st' == run.state
      && outcome == (if run.error.Some? then Threw(run.error.value) else Returned(Some(run.results)))
  {
    requests, st', outcome := AddCopies(st, Copies(d), replies);
  }

  /** The requests after a call adding copy `c`: its insert, when a user is
      signed in. */
  function Extend(p: seq<ExpenseInsert>, c: Draft, reply: Reply): (q: seq<ExpenseInsert>)
    ensures |q| == |p| + (if reply.user.Some? then 1 else 0) && q[..|p|] == p
  {
    p + (if reply.user.Some? then [InsertOf(c, reply.user.value)] else [])
  }

  /** The number of inserts after `n` calls, given the run after `n - 1`. */
  lemma SeriesRunCount(st: State, cs: seq<Draft>, replies: seq<Reply>, n: nat)
    requires 0 < n <= |cs|
    ensures var p := SeriesRun(st, cs, replies, n - 1);
      |SeriesRun(st, cs, replies, n).requests|
        == |p.requests| + (if p.error.None? && At(replies, n - 1).user.Some? then 1 else 0)
  {
    SeriesRunStep(st, cs, replies, n);
  }

  /** The error of a run after `n` calls, given the run after `n - 1`. */
  lemma SeriesRunError(st: State, cs: seq<Draft>, replies: seq<Reply>, n: nat)
    requires 0 < n <= |cs|
    ensures var p := SeriesRun(st, cs, replies, n - 1);
      SeriesRun(st, cs, replies, n).error.Some? <==> p.error.Some? || Fails(At(replies, n - 1))
  {
    SeriesRunStep(st, cs, replies, n);
  }

  /** One step sends at most one insert, and exactly one when it does not
      throw. */
  lemma CountNext(p: Run, c: Draft, reply: Reply, n: nat)
    requires n > 0 && |p.requests| <= n - 1 && (p.error.None? ==> |p.requests| == n - 1)
    ensures var q := Next(p, c, reply);
      |q.requests| <= n && (q.error.None? ==> |q.requests| == n)
  {
  }

  /** A series sends at most one insert per month, and exactly one per
      month when it does not throw. */
  lemma {:induction false} SeriesRequestCount(st: State, cs: seq<Draft>, replies: seq<Reply>, n: nat)
    requires n <= |cs|
    ensures |SeriesRun(st, cs, replies, n).requests| <= n
    ensures SeriesRun(st, cs, replies, n).error.None? ==> |SeriesRun(st, cs, replies, n).requests| == n
  {
    if n > 0 {
      SeriesRequestCount(st, cs, replies, n - 1);
      CountNext(SeriesRun(st, cs, replies, n - 1), cs[n - 1], At(replies, n - 1), n);
    }
  }

  /** The inserts the first `n` calls send when a user is signed in at
      each: the `j`-th is copy `j`'s, for the `j`-th user. */
  function SeriesInserts(cs: seq<Draft>, replies: seq<Reply>, n: nat): (r: seq<ExpenseInsert>)
    requires n <= |cs|
    ensures |r| == n
  {
    seq(n, j requires 0 <= j < n => InsertOf(cs[j], At(replies, j).user.GetOr("")))
  }

  /** `r` is what the first `|r|` calls of a series over `cs` send. */
  predicate SentInOrder(r: seq<ExpenseInsert>, cs: seq<Draft>, replies: seq<Reply>) {
    |r| <= |cs| && r == SeriesInserts(cs, replies, |r|)
  }

  /** The inductive step of `SeriesRequests`, on the requests alone. */
  lemma RequestsClose(r: seq<ExpenseInsert>, p: seq<ExpenseInsert>, stopped: bool,
                      cs: seq<Draft>, replies: seq<Reply>, n: nat)
    requires 0 < n <= |cs| && |p| < n && SentInOrder(p, cs, replies)
    requires !stopped ==> |p| == n - 1
    requires r == if stopped then p else Extend(p, cs[n - 1], At(replies, n - 1))
    ensures |r| <= n && SentInOrder(r, cs, replies)
  {
    if !stopped && At(replies, n - 1).user.Some? {
      var q := SeriesInserts(cs, replies, n);
      assert r == q by {
        forall j | 0 <= j < n
          ensures r[j] == q[j]
        {
          if j < n - 1 {
            assert r[j] == p[j];
          }
        }
      }
    }
  }

  /** One step keeps the inserts in month order. */
  lemma InOrderNext(p: Run, cs: seq<Draft>, replies: seq<Reply>, n: nat)
    requires 0 < n <= |cs| && |p.requests| < n && SentInOrder(p.requests, cs, replies)
    requires p.error.None? ==> |p.requests| == n - 1
    ensures SentInOrder(Next(p, cs[n - 1], At(replies, n - 1)).requests, cs, replies)
  {
    var q := Next(p, cs[n - 1], At(replies, n - 1));
    assert q.requests == if p.error.Some? then p.requests else Extend(p.requests, cs[n - 1], At(replies, n - 1));
    RequestsClose(q.requests, p.requests, p.error.Some?, cs, replies, n);
  }

  /** The `j`-th insert of a series is copy `j`'s, for the user signed in
      at the `j`-th call. */
  lemma {:induction false} SeriesRequests(st: State, cs: seq<Draft>, replies: seq<Reply>, n: nat)
    requires n <= |cs|
    ensures |SeriesRun(st, cs, replies, n).requests| <= n
    ensures SentInOrder(SeriesRun(st, cs, replies, n).requests, cs, replies)
  {
    if n > 0 {
      SeriesRequests(st, cs, replies, n - 1);
      SeriesRequestCount(st, cs, replies, n);
      SeriesRequestCount(st, cs, replies, n - 1);
      InOrderNext(SeriesRun(st, cs, replies, n - 1), cs, replies, n);
    }
  }

  /** The first `k` calls had a user signed in. */
  predicate AllSigned(replies: seq<Reply>, k: nat) {
    forall j :: 0 <= j < k ==> At(replies, j).user.Some?
  }

  /** One step sends an insert only for a signed-in user. */
  lemma SignedNext(p: Run, c: Draft, replies: seq<Reply>, n: nat)
    requires n > 0 && AllSigned(replies, |p.requests|)
    requires p.error.None? ==> |p.requests| == n - 1
    ensures AllSigned(replies, |Next(p, c, At(replies, n - 1)).requests|)
  {
  }

  /** Every insert of a series was sent for a signed-in user. */
  lemma {:induction false} SeriesRequestsSigned(st: State, cs: seq<Draft>, replies: seq<Reply>, n: nat)
    requires n <= |cs|
    ensures AllSigned(replies, |SeriesRun(st, cs, replies, n).requests|)
  {
    if n > 0 {
      SeriesRequestsSigned(st, cs, replies, n - 1);
      SeriesRunSigned(st, cs, replies, n);
    }
  }

  /** Call `n` sends an insert only for a signed-in user. */
  lemma SeriesRunSigned(st: State, cs: seq<Draft>, replies: seq<Reply>, n: nat)
    requires 0 < n <= |cs| && AllSigned(replies, |SeriesRun(st, cs, replies, n - 1).requests|)
    ensures AllSigned(replies, |SeriesRun(st, cs, replies, n).requests|)
  {
    SeriesRequestCount(st, cs, replies, n - 1);
    SeriesRunStep(st, cs, replies, n);
    SignedNext(SeriesRun(st, cs, replies, n - 1), cs[n - 1], replies, n);
  }

  /** None of the first `n` calls would throw. */
  predicate NoneFail(replies: seq<Reply>, n: nat) {
    forall j :: 0 <= j < n ==> !Fails(At(replies, j))
  }

  /** A series throws exactly when one of its calls would: nobody signed
      in, or an insert error. */
  lemma {:induction false} SeriesSucceeds(st: State, cs: seq<Draft>, replies: seq<Reply>, n: nat)
    requires n <= |cs|
    ensures SeriesRun(st, cs, replies, n).error.None? <==> NoneFail(replies, n)
  {
    if n > 0 {
      SeriesSucceeds(st, cs, replies, n - 1);
      SeriesRunError(st, cs, replies, n);
      SucceedsClose(SeriesRun(st, cs, replies, n).error.None?, SeriesRun(st, cs, replies, n - 1).error.None?, replies, n);
    }
  }

  /** The inductive step of `SeriesSucceeds`, on whether the run threw. */
  lemma SucceedsClose(ok: bool, okBefore: bool, replies: seq<Reply>, n: nat)
    requires n > 0 && (okBefore <==> NoneFail(replies, n - 1))
    requires ok <==> okBefore && !Fails(At(replies, n - 1))
    ensures ok <==> NoneFail(replies, n)
  {
  }

  /** Call `k` is the first that throws, and `count` inserts were sent up
      to and including it. */
  predicate FirstFailureAt(replies: seq<Reply>, k: nat, count: nat) {
    Fails(At(replies, k)) && (forall j :: 0 <= j < k ==> !Fails(At(replies, j)))
    && count == k + (if At(replies, k).user.Some? then 1 else 0)
  }

  /** Among calls that fail there is a first one. */
  lemma {:induction false} FirstFailing(replies: seq<Reply>, i: nat)
    requires Fails(At(replies, i))
    ensures exists k :: 0 <= k <= i && Fails(At(replies, k)) && forall j :: 0 <= j < k ==> !Fails(At(replies, j))
  {
    if !forall j :: 0 <= j < i ==> !Fails(At(replies, j)) {
      var j :| 0 <= j < i && Fails(At(replies, j));
      FirstFailing(replies, j);
    }
  }

  /** The run up to and including the first failing call: it threw, after
      an insert for every call before it and one for itself if a user was
      signed in. */
  lemma RunToFirstFailure(st: State, cs: seq<Draft>, replies: seq<Reply>, k: nat)
    requires k < |cs| && Fails(At(replies, k)) && forall j :: 0 <= j < k ==> !Fails(At(replies, j))
    ensures SeriesRun(st, cs, replies, k + 1).error.Some?
    ensures |SeriesRun(st, cs, replies, k + 1).requests| == k + (if At(replies, k).user.Some? then 1 else 0)
  {
    SeriesSucceeds(st, cs, replies, k);
    SeriesRequestCount(st, cs, replies, k);
    SeriesRunError(st, cs, replies, k + 1);
    SeriesRunCount(st, cs, replies, k + 1);
  }

  /** The first call that throws is the last call made: the calls before it
      all went through, and it sent its insert only if a user was signed
      in. */
  lemma SeriesFirstFailure(st: State, cs: seq<Draft>, replies: seq<Reply>, n: nat)
    requires n <= |cs| && SeriesRun(st, cs, replies, n).error.Some?
    ensures exists k :: 0 <= k < n && FirstFailureAt(replies, k, |SeriesRun(st, cs, replies, n).requests|)
  {
    SeriesSucceeds(st, cs, replies, n);
    var i :| 0 <= i < n && Fails(At(replies, i));
    FirstFailing(replies, i);
    var k :| 0 <= k <= i && Fails(At(replies, k)) && forall j :: 0 <= j < k ==> !Fails(At(replies, j));
    RunToFirstFailure(st, cs, replies, k);
    RunStops(st, cs, replies, k + 1, n);
    assert FirstFailureAt(replies, k, |SeriesRun(st, cs, replies, n).requests|);
  }

  /** What a call adding copy `c` collects: the expense it returned, if
      any. */
  function Collected(st: State, c: Draft, reply: Reply): (es: seq<Expense>)
    ensures |es| <= 1
  {
    var s := AddExpense(st, c, reply);
    if s.outcome.Returned? && s.outcome.value.Some? then [s.outcome.value.value] else []
  }

  /** Putting one more element first in a list built newest first. */
  lemma PrependStep<T>(pe: seq<T>, pr: seq<T>, added: seq<T>, e: seq<T>)
    requires pe == Reversed(pr) + e && |added| <= 1
    ensures added + pe == Reversed(pr + added) + e
  {
    ReversedAppend(pr, added);
  }

  /** The store after a call that does not throw, given the store
      before it. */
  lemma StoreNext(st: State, p: Run, c: Draft, reply: Reply)
    requires p.state == st.(expenses := Reversed(p.results) + st.expenses)
    ensures var q := Next(p, c, reply);
      q.state == st.(expenses := Reversed(q.results) + st.expenses)
  {
    if p.error.None? {
      var added := Collected(p.state, c, reply);
      CallIsAddExpense(p, c, reply);
      assert Call(p, c, reply).results == p.results + added;
      assert Call(p, c, reply).state == p.state.(expenses := added + p.state.expenses);
      PrependStep(p.state.expenses, p.results, added, st.expenses);
    }
  }

  /** Every call has put its expense first: the store's list is the
      collected expenses, newest first, before the old list, and nothing
      else in the store changes. */
  lemma {:induction false} SeriesStore(st: State, cs: seq<Draft>, replies: seq<Reply>, n: nat)
    requires n <= |cs|
    ensures SeriesRun(st, cs, replies, n).state == st.(expenses := Reversed(SeriesRun(st, cs, replies, n).results) + st.expenses)
  {
    if n > 0 {
      SeriesStore(st, cs, replies, n - 1);
      StoreNext(st, SeriesRun(st, cs, replies, n - 1), cs[n - 1], At(replies, n - 1));
    }
  }

  /** The expenses a series of `n` successful calls returns: one for each
      call whose insert gave a row back. */
  function Added(replies: seq<Reply>, n: nat): (es: seq<Expense>)
    ensures |es| <= n
  {
    if n == 0 then [] else Added(replies, n - 1) + RowOf(At(replies, n - 1))
  }

  /** The expense of the row a reply returned, if any. */
  function RowOf(reply: Reply): seq<Expense> {
    match reply.result
    case Ok(Some(row)) => [ToExpense(row)]
    case _ => []
  }

  /** A series that does not throw collects the expense of every returned
      row, in month order. */
  lemma {:induction false} SeriesResults(st: State, cs: seq<Draft>, replies: seq<Reply>, n: nat)
    requires n <= |cs|
    ensures SeriesRun(st, cs, replies, n).error.None? ==> SeriesRun(st, cs, replies, n).results == Added(replies, n)
  {
    if n > 0 {
      SeriesRunResults(st, cs, replies, n);
      SeriesResults(st, cs, replies, n - 1);
      ResultsClose(SeriesRun(st, cs, replies, n), SeriesRun(st, cs, replies, n - 1),
        Added(replies, n - 1), RowOf(At(replies, n - 1)), Added(replies, n));
    }
  }

  /** The inductive step of `SeriesResults`, on the collected lists alone. */
  lemma ResultsClose(q: Run, p: Run, before: seq<Expense>, row: seq<Expense>, added: seq<Expense>)
    requires q.error.None? ==> p.error.None? && q.results == p.results + row
    requires p.error.None? ==> p.results == before
    requires added == before + row
    ensures q.error.None? ==> q.results == added
  {
  }

  /** What call `n` collects, read off the series. */
  lemma SeriesRunResults(st: State, cs: seq<Draft>, replies: seq<Reply>, n: nat)
    requires 0 < n <= |cs|
    ensures SeriesRun(st, cs, replies, n).error.None? ==>
      SeriesRun(st, cs, replies, n - 1).error.None?
      && SeriesRun(st, cs, replies, n).results == SeriesRun(st, cs, replies, n - 1).results + RowOf(At(replies, n - 1))
  {
    SeriesRunStep(st, cs, replies, n);
    NextResults(SeriesRun(st, cs, replies, n - 1), cs[n - 1], At(replies, n - 1));
  }

  /** A step that leaves the run without an error started from one without
      an error and added the expense of the returned row, if any. */
  lemma NextResults(p: Run, c: Draft, reply: Reply)
    ensures var q := Next(p, c, reply);
      q.error.None? ==> p.error.None? && q.results == p.results + RowOf(reply)
  {
  }

  /** `addRecurringExpense`: without a monthly recurrence the draft is added
      once, with the first reply, and its result wrapped in a list;
      otherwise the series is added. An error is re-thrown. */
  method AddRecurringExpense(st: State, d: Draft, replies: seq<Reply>)
    returns (requests: seq<ExpenseInsert>, st': State, outcome: Outcome<seq<Expense>>)
    ensures !RepeatsMonthly(d) ==>
      var s := AddExpense(st, d, At(replies, 0));
      st' == s.state
      && requests == (if s.request.Some? then [s.request.value] else [])
      && (s.outcome.Threw? ==> outcome == Threw(s.outcome.message))
      && (s.outcome.Returned? ==>
            outcome == Returned(Some(if s.outcome.value.Some? then [s.outcome.value.value] else [])))
    ensures RepeatsMonthly(d) ==>
      var run := SeriesRun(st, Copies(d), replies, |Copies(d)|);
      requests == run.requests && st' == run.state
      && outcome == (if run.error.Some? then Threw(run.error.value) else Returned(Some(run.results)))
  {
    if RepeatsMonthly(d) {
      requests, st', outcome := AddSeries(st, d, replies);
      return;
    }
    var s := AddExpense(st, d, At(replies, 0));
    st' := s.state;
    requests := if s.request.Some? then [s.request.value] else [];
    match s.outcome
    case Threw(m) =>
      outcome := Threw(m);
    case Returned(r) =>
      outcome := Returned(Some(if r.Some? then [r.value] else []));
  }

  // ----------------------------------------------------------------- update

  /** The fields an `updateExpense` call sets; `None` is a field left
      `undefined`. A recurrence may be set to `null` (`Some(None)`). */
  datatype ExpensePatch = ExpensePatch(
    amount: Option<int>,
    description: Option<string>,
    date: Option<LocalTime>,
    categoryId: Option<string>,
    subcategoryId: Option<string>,
    recurring: Option<Option<Recurring>>)

  /** The columns an update sends; `recurring_data` is `Some(None)` for
      `null` and `Some(Some(r))` for the JSON text of `r`. */
  datatype ExpenseChanges = ExpenseChanges(
    amount: Option<int>,
    description: Option<string>,
    date: Option<LocalTime>,
    category_id: Option<string>,
    subcategory_id: Option<string>,
    recurring_data: Option<Option<Recurring>>)

  /** `dbUpdates`: a column for every field that is not `undefined`. */
  function DbUpdates(p: ExpensePatch): (u: ExpenseChanges)
    ensures u.amount == p.amount && u.description == p.description && u.date == p.date
    ensures u.category_id == p.categoryId && u.subcategory_id == p.subcategoryId
    ensures u.recurring_data == p.recurring
  {
    ExpenseChanges(p.amount, p.description, p.date, p.categoryId, p.subcategoryId, p.recurring)
  }

  /** The row after the database applies an update to it. */
  function ApplyChanges(row: ExpenseRow, u: ExpenseChanges): ExpenseRow {
    ExpenseRow(
      row.id,
      u.amount.GetOr(row.amount),
      u.description.GetOr(row.description),
      u.date.GetOr(row.date),
      u.category_id.GetOr(row.category_id),
      u.subcategory_id.GetOr(row.subcategory_id),
      match u.recurring_data
      case None => row.recurring_data
      case Some(None) => NoData
      case Some(Some(r)) => Text(RecurringJson(r), Some(r)))
  }

  /** An expense with the fields of a patch that are set. */
  function Patched(e: Expense, p: ExpensePatch): Expense {
    e.(amount := p.amount.GetOr(e.amount),
       description := p.description.GetOr(e.description),
       date := p.date.GetOr(e.date),
       categoryId := p.categoryId.GetOr(e.categoryId),
       subcategoryId := p.subcategoryId.GetOr(e.subcategoryId),
       recurring := p.recurring.GetOr(e.recurring))
  }

  /** Updating an expense's row and reading it back gives the expense with
      exactly the patched fields changed. */
  lemma UpdateReadBack(e: Expense, p: ExpensePatch)
    ensures ToExpense(ApplyChanges(ExpenseRowOf(e), DbUpdates(p))) == Patched(e, p)
  {
  }

  /** `updateExpense`: the returned row replaces every expense with the id;
      an error is re-thrown. */
  function UpdateExpense(st: State, id: string, p: ExpensePatch, reply: Result<Option<ExpenseRow>, string>)
    : (s: Step<ExpenseChanges, Expense>)
    ensures s.request == Some(DbUpdates(p))
    ensures reply.Err? ==> s.state == st && s.outcome == Threw(reply.error)
    ensures reply == Ok(None) ==> s.state == st && s.outcome == Returned(None)
    ensures reply.Ok? && reply.value.Some? ==>
      var e := ToExpense(reply.value.value);
      s.outcome == Returned(Some(e)) && s.state == st.(expenses := Replace(st.expenses, id, ExpenseId, e))
  {
    var request := Some(DbUpdates(p));
    match reply
    case Err(m) => Step(request, st, Threw(m))
    case Ok(None) => Step(request, st, Returned(None))
    case Ok(Some(row)) =>
      var e := ToExpense(row);
      Step(request, st.(expenses := Replace(st.expenses, id, ExpenseId, e)), Returned(Some(e)))
  }

  /** An update keeps the number of expenses, and, when the row has the
      id it was asked for, every other expense is left where it was. */
  lemma UpdateKeepsOthers(st: State, id: string, p: ExpensePatch, row: ExpenseRow)
    requires row.id == id
    ensures var after := UpdateExpense(st, id, p, Ok(Some(row))).state;
      |after.expenses| == |st.expenses|
      && Remove(after.expenses, id, ExpenseId) == Remove(st.expenses, id, ExpenseId)
  {
    ReplaceThenRemove(st.expenses, id, ExpenseId, ToExpense(row));
  }

  // ----------------------------------------------------------------- delete

  /** `deleteExpense`: the row is deleted, then every expense with the id
      leaves the list; a database error is re-thrown and changes nothing. */
  function DeleteExpense(st: State, id: string, error: Option<string>): (s: Step<string, ()>)
    ensures s.request == Some(id)
    ensures error.Some? ==> s.state == st && s.outcome == Threw(error.value)
    ensures error.None? ==>
      s.outcome == Returned(None) && s.state == st.(expenses := Remove(st.expenses, id, ExpenseId))
  {
    match error
    case Some(m) => Step(Some(id), st, Threw(m))
    case None => Step(Some(id), st.(expenses := Remove(st.expenses, id, ExpenseId)), Returned(None))
  }

  /** After a delete no expense has the id, and every other expense is
      there as often as before. */
  lemma DeleteRemovesOnlyId(st: State, id: string, e: Expense)
    requires e.id != id
    ensures var after := DeleteExpense(st, id, None).state.expenses;
      (forall i :: 0 <= i < |after| ==> after[i].id != id)
      && multiset(after)[e] == multiset(st.expenses)[e]
  {
    RemoveKeepsOthers(st.expenses, id, ExpenseId, e);
  }

  /** Deleting an expense just added, under an id no other expense has,
      gives back the store as it was. */
  lemma AddThenDelete(st: State, d: Draft, reply: Reply)
    requires AddExpense(st, d, reply).outcome.Returned?
    requires AddExpense(st, d, reply).outcome.value.Some?
    requires forall i :: 0 <= i < |st.expenses| ==> st.expenses[i].id != AddExpense(st, d, reply).outcome.value.value.id
    ensures var e := AddExpense(st, d, reply).outcome.value.value;
      DeleteExpense(AddExpense(st, d, reply).state, e.id, None).state == st
  {
    var e := AddExpense(st, d, reply).outcome.value.value;
    RemoveAppend([e], st.expenses, e.id, ExpenseId);
    RemoveAbsent(st.expenses, e.id, ExpenseId);
    assert Remove([e], e.id, ExpenseId) == [] by {
      assert [e][..0] == [];
    }
  }
}
