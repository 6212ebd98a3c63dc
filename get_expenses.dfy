/** The `get_expenses` edge function: guards on the caller's token and the
    stored Splitwise key, one upstream request, then the "expenses I owe"
    filter. The key lookup and the upstream call are parameters. */
module GetExpenses {
  import opened Wrappers
  import opened JsText
  import opened SplitwiseRecords
  import Auth

  /** What the upstream request gave: an HTTP answer (its `ok` flag, status
      and the `expenses` field of the JSON, if any) or a thrown error. */
  datatype Upstream =
    | Answered(ok: bool, status: int, expenses: Option<seq<Record>>)
    | Failed(message: string)

  datatype Body = Expenses(list: seq<Record>) | Error(message: string)

  datatype Response = Response(status: int, body: Body)

  const MissingAuth: string := "Missing or invalid Authorization header"
  const MissingKey: string := "Splitwise API key not found"

  /** The query of the upstream request: `dated_after` only for a non-empty
      `after_date`. */
  function UpstreamParams(afterDate: Option<string>): (ps: seq<(string, string)>)
    ensures ps != [] <==> afterDate.Some? && afterDate.value != ""
    ensures ps != [] ==> ps == [("dated_after", afterDate.value)]
  {
    if afterDate.Some? && afterDate.value != "" then [("dated_after", afterDate.value)] else []
  }

  /** `String(userId)` for the `user_id` query parameter (`"null"` when absent). */
  function UserKey(userId: Option<string>): string {
    match userId
    case Some(u) => u
    case None => "null"
  }

  /** Index of the first share whose user id prints as `key`, or `|users|`. */
  function FirstNamed(users: seq<Share>, key: string): (k: nat)
    ensures k <= |users|
    ensures k < |users| ==> IntToString(users[k].userId) == key
    ensures forall j :: 0 <= j < k ==> IntToString(users[j].userId) != key
  {
    if users == [] then 0
    else if IntToString(users[0].userId) == key then 0
    else 1 + FirstNamed(users[1..], key)
  }

  /** The filter predicate: not a payment, `deleted_at` exactly `null`, and
      the first share of the user owes more than zero (an absent share reads
      as "0", one that is not a number as `NaN`). */
  predicate Kept(e: Record, userId: Option<string>) {
    var k := FirstNamed(e.users, UserKey(userId));
    !e.payment && e.deletedAt == DeletedNull && k < |e.users| && Owes(e.users[k])
  }

  /** The predicate as the source computes it: guard, then a search over the
      shares that returns at the first match. */
  method KeepExpense(e: Record, userId: Option<string>) returns (keep: bool)
    ensures keep == Kept(e, userId)
  {
    if e.payment || e.deletedAt != DeletedNull {
      return false;
    }
    var key := UserKey(userId);
    var j := 0;
    while j < |e.users|
      invariant 0 <= j <= |e.users|
      invariant forall m :: 0 <= m < j ==> IntToString(e.users[m].userId) != key
    {
      var share := e.users[j];
      if IntToString(share.userId) == key {
        return share.owed.Num? && share.owed.cents > 0;
      }
      j := j + 1;
    }
    return false;
  }

  /** `xs.filter(keep)`. */
  function Select<T>(xs: seq<T>, keep: T -> bool): seq<T> {
    if xs == [] then []
    else Select(xs[..|xs| - 1], keep) + (if keep(xs[|xs| - 1]) then [xs[|xs| - 1]] else [])
  }

  lemma {:induction false} SelectMembers<T>(xs: seq<T>, keep: T -> bool)
    ensures forall x :: x in Select(xs, keep) <==> x in xs && keep(x)
  {
    if xs != [] {
      SelectMembers(xs[..|xs| - 1], keep);
      assert xs == xs[..|xs| - 1] + [xs[|xs| - 1]];
    }
  }

  lemma {:induction false} SelectAppend<T>(a: seq<T>, b: seq<T>, keep: T -> bool)
    ensures Select(a + b, keep) == Select(a, keep) + Select(b, keep)
  {
    if b == [] {
      assert a + b == a;
    } else {
      SelectAppend(a, b[..|b| - 1], keep);
      assert (a + b)[..|a + b| - 1] == a + b[..|b| - 1];
    }
  }

  /** The filter predicate for one caller, as a function value. */
  function KeepFor(userId: Option<string>): Record -> bool {
    e => Kept(e, userId)
  }

  /** `expenses.filter(...)` with the predicate above. */
  function Filtered(es: seq<Record>, userId: Option<string>): seq<Record> {
    Select(es, KeepFor(userId))
  }

  method FilterExpenses(es: seq<Record>, userId: Option<string>) returns (r: seq<Record>)
    ensures r == Filtered(es, userId)
  {
    r := [];
    var i := 0;
    while i < |es|
      invariant 0 <= i <= |es|
      invariant r == Filtered(es[..i], userId)
    {
      var keep := KeepExpense(es[i], userId);
      assert es[..i + 1][..i] == es[..i];
      if keep {
        r := r + [es[i]];
      }
      i := i + 1;
    }
    assert es[..|es|] == es;
  }

  /** The filter keeps exactly the records satisfying the predicate. */
  lemma FilteredMembers(es: seq<Record>, userId: Option<string>)
    ensures forall x :: x in Filtered(es, userId) <==> x in es && Kept(x, userId)
  {
    SelectMembers(es, KeepFor(userId));
  }

  /** The filter goes record by record, so it keeps upstream order. */
  lemma FilteredAppend(a: seq<Record>, b: seq<Record>, userId: Option<string>)
    ensures Filtered(a + b, userId) == Filtered(a, userId) + Filtered(b, userId)
  {
    SelectAppend(a, b, KeepFor(userId));
  }

  /** No Splitwise id prints as "null", so without `user_id` nothing is kept. */
  lemma {:induction false} NoUserIdKeepsNothing(es: seq<Record>)
    ensures Filtered(es, None) == []
  {
    if es != [] {
      NoUserIdKeepsNothing(es[..|es| - 1]);
      NotKeptWithoutUser(es[|es| - 1]);
    }
  }

  /** No expense is kept for the key "null": no printed integer reads so. */
  lemma NotKeptWithoutUser(e: Record)
    ensures !Kept(e, None)
  {
    var k := FirstNamed(e.users, "null");
    if k < |e.users| {
      IntToStringNotNull(e.users[k].userId);
    }
  }

  lemma IntToStringNotNull(n: int)
    ensures IntToString(n) != "null"
  {
    if n < 0 {
      assert IntToString(n)[0] == '-';
    }
  }

  /** The handler: token guard, key guard, the request, then the filter.
      `apiKey` is what the key lookup returns for the token. It returns the
      query of the upstream request (`None` when none was made) and the
      response. */
  method Handle(authHeader: Option<string>, apiKey: Option<string>, afterDate: Option<string>,
                userId: Option<string>, upstream: Upstream)
    returns (sent: Option<seq<(string, string)>>, resp: Response)
    ensures var jwt := Auth.ExtractJwt(authHeader);
      (jwt.None? || jwt.value == "") ==> sent.None? && resp == Response(401, Error(MissingAuth))
    ensures var jwt := Auth.ExtractJwt(authHeader);
      (jwt.Some? && jwt.value != "" && (apiKey.None? || apiKey.value == ""))
      ==> sent.None? && resp == Response(401, Error(MissingKey))
    ensures var jwt := Auth.ExtractJwt(authHeader);
      (jwt.Some? && jwt.value != "" && apiKey.Some? && apiKey.value != "")
      ==> sent == Some(UpstreamParams(afterDate))
    ensures sent.Some? && upstream.Answered? && upstream.ok
      ==> resp == Response(200, Expenses(Filtered(upstream.expenses.GetOr([]), userId)))
    ensures sent.Some? && upstream.Answered? && !upstream.ok
      ==> resp == Response(500, Error("Splitwise API error: " + IntToString(upstream.status)))
    ensures sent.Some? && upstream.Failed? ==> resp == Response(500, Error(upstream.message))
  {
    var jwt := Auth.ExtractJwt(authHeader);
    if jwt.None? || jwt.value == "" {
      return None, Response(401, Error(MissingAuth));
    }
    if apiKey.None? || apiKey.value == "" {
      return None, Response(401, Error(MissingKey));
    }
    var params: seq<(string, string)> := [];
    if afterDate.Some? && afterDate.value != "" {
      params := params + [("dated_after", afterDate.value)];
    }
    assert params == UpstreamParams(afterDate);
    sent := Some(params);
    match upstream
    case Failed(message) =>
      resp := Response(500, Error(message));
    case Answered(ok, status, expenses) =>
      if !ok {
        resp := Response(500, Error("Splitwise API error: " + IntToString(status)));
      } else {
        var kept := FilterExpenses(expenses.GetOr([]), userId);
        resp := Response(200, Expenses(kept));
      }
  }
}
