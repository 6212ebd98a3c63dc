/** The browser side of the Splitwise integration: `syncSplitwiseExpenses`
    (guards, the default lower bound, the misc category and subcategory the
    mirrored rows go to, and the insert loop) and the status-to-message
    mapping of `getCurrentSplitwiseUserInfo`. Every network and database
    call is a field of `SyncEnv`. */
module SplitwiseClient {
  import opened Wrappers
  import opened JsText
  import opened SplitwiseRecords

  const DefaultAfterDate: string := "2020-01-01T00:00:00.000Z"
  const NoSession: string := "No active session found. Please log in again."
  const NoSplitwiseUser: string := "Splitwise user ID not found"
  const NoUser: string := "User not found"
  const CategoryNotCreated: string := "Failed to create default category"
  const SubcategoryNotCreated: string := "Failed to create default subcategory"
  /** The `TypeError` of assigning a property of `null`. */
  const NullAssignment: string := "Cannot set properties of null (setting 'id')"

  /** An HTTP answer: the `ok` flag, the status and the body text. */
  datatype HttpAnswer = HttpAnswer(ok: bool, status: int, text: string)

  /** Everything the sync reads from outside: the session, the stored
      settings, the wrapper's answer and records, the signed-in user, the
      lookups and inserts of the misc category and subcategory (the
      subcategory lookup by category id), and which insert attempts throw. */
  datatype SyncEnv = SyncEnv(
    hasSession: bool,
    lastSyncTime: Option<string>,
    splitwiseUserId: Option<string>,
    answer: HttpAnswer,
    user: Option<string>,
    expenses: Option<seq<Record>>,
    miscCategory: Option<string>,
    createdCategory: Option<string>,
    subcategoryOf: map<string, string>,
    createdSubcategory: Option<string>,
    throwingInserts: set<nat>)

  /** One row the loop asks the database to insert; `amount` is `None` when
      `parseFloat` gives `NaN`. */
  datatype Insert = Insert(
    amount: Option<int>,
    description: string,
    date: string,
    categoryId: string,
    subcategoryId: string,
    userId: string)

  /** What a completed sync did: the inserts it attempted, `addedCount`, and
      that it stamped the last sync time. */
  datatype Report = Report(attempted: seq<Insert>, addedCount: nat, stampedLastSync: bool)

  /** The lower bound sent to the wrapper (`None` when no request was made),
      and the report or the message of the error thrown. */
  datatype SyncOutcome = SyncOutcome(requestedAfter: Option<string>, result: Result<Report, string>)

  /** `lastSyncTime || '2020-01-01T00:00:00.000Z'` */
  function AfterDate(lastSyncTime: Option<string>): (d: string)
    ensures (lastSyncTime.None? || lastSyncTime.value == "") ==> d == DefaultAfterDate
    ensures (lastSyncTime.Some? && lastSyncTime.value != "") ==> d == lastSyncTime.value
  {
    if lastSyncTime.Some? && lastSyncTime.value != "" then lastSyncTime.value else DefaultAfterDate
  }

  // ------------------------------------------------------------ misc category

  /** The misc category id as the code obtains it: a found row is used; when
      none is found, a created one is assigned to a property of the `null`
      lookup result, which throws. */
  function ResolveAsWritten(found: Option<string>, created: Option<string>, notCreated: string): (r: Result<string, string>)
    ensures found.Some? ==> r == Ok(found.value)
    ensures found.None? ==> r.Err?
  {
    match found
    case Some(id) => Ok(id)
    case None => if created.None? then Err(notCreated) else Err(NullAssignment)
  }

  /** The intended resolution: a created row's id is used when none is found. */
  function Resolve(found: Option<string>, created: Option<string>, notCreated: string): (r: Result<string, string>)
    ensures r.Ok? <==> found.Some? || created.Some?
    ensures r.Ok? ==> r.value == (if found.Some? then found.value else created.value)
    ensures r.Err? ==> r.error == notCreated
  {
    match found
    case Some(id) => Ok(id)
    case None => if created.None? then Err(notCreated) else Ok(created.value)
  }

  /** As written, a sync that has to create the misc category fails even
      though the category was created. */
  lemma CreatedCategoryIsLost(created: string)
    ensures ResolveAsWritten(None, Some(created), CategoryNotCreated) == Err(NullAssignment)
    ensures Resolve(None, Some(created), CategoryNotCreated) == Ok(created)
  {
  }

  // ------------------------------------------------------------ the loop

  /** `parseFloat(owed_share)`: `None` for `NaN`. */
  function OwedValue(o: OwedShare): Option<int> {
    match o
    case Num(c) => Some(c)
    case _ => None
  }

  /** The loop goes on to insert: not a payment, the user has a share, and
      its `parseFloat` is not `<= 0` (so a `NaN` share is inserted). */
  predicate Eligible(e: Record, uid: Option<int>) {
    !e.payment && uid.Some?
    && var k := FirstMatch(e.users, uid.value);
       k < |e.users| && !(e.users[k].owed.Num? && e.users[k].owed.cents <= 0)
  }

  function InsertFor(e: Record, uid: int, categoryId: string, subcategoryId: string, userId: string): Insert
    requires FirstMatch(e.users, uid) < |e.users|
  {
    Insert(OwedValue(e.users[FirstMatch(e.users, uid)].owed), e.description, e.date, categoryId, subcategoryId, userId)
  }

  /** The inserts the loop attempts over `es`, in order. */
  function Attempts(es: seq<Record>, uid: Option<int>, categoryId: string, subcategoryId: string, userId: string): seq<Insert> {
    if es == [] then []
    else
      var e := es[|es| - 1];
      Attempts(es[..|es| - 1], uid, categoryId, subcategoryId, userId)
      + (if Eligible(e, uid) then [InsertFor(e, uid.value, categoryId, subcategoryId, userId)] else [])
  }

  /** How many of the attempts `0..n-1` do not throw. */
  function Succeeded(n: nat, throwing: set<nat>): (c: nat)
    ensures c <= n
    ensures c == n <==> forall k :: 0 <= k < n ==> k !in throwing
  {
    if n == 0 then 0 else Succeeded(n - 1, throwing) + (if n - 1 in throwing then 0 else 1)
  }

  /** The `for` loop: skips, inserts, and counts the inserts that did not throw. */
  method InsertLoop(es: seq<Record>, uid: Option<int>, categoryId: string, subcategoryId: string,
                    userId: string, throwing: set<nat>)
    returns (attempted: seq<Insert>, added: nat)
    ensures attempted == Attempts(es, uid, categoryId, subcategoryId, userId)
    ensures added == Succeeded(|attempted|, throwing)
  {
    attempted, added := [], 0;
    var i := 0;
    while i < |es|
      invariant 0 <= i <= |es|
      invariant attempted == Attempts(es[..i], uid, categoryId, subcategoryId, userId)
      invariant added == Succeeded(|attempted|, throwing)
    {
      var e := es[i];
      assert es[..i + 1][..i] == es[..i];
      if e.payment {
        i := i + 1;
        continue;
      }
      if uid.None? {
        i := i + 1;
        continue;
      }
      var k := FirstMatch(e.users, uid.value);
      if k == |e.users| || (e.users[k].owed.Num? && e.users[k].owed.cents <= 0) {
        i := i + 1;
        continue;
      }
      var row := Insert(OwedValue(e.users[k].owed), e.description, e.date, categoryId, subcategoryId, userId);
      if |attempted| !in throwing {
        added := added + 1;
      }
      attempted := attempted + [row];
      i := i + 1;
    }
    assert es[..i] == es;
  }

  /** Records are handled one after another, so attempts keep upstream
      order, and there are never more attempts than records. */
  lemma {:induction false} AttemptsAppend(a: seq<Record>, b: seq<Record>, uid: Option<int>, c: string, s: string, u: string)
    ensures Attempts(a + b, uid, c, s, u) == Attempts(a, uid, c, s, u) + Attempts(b, uid, c, s, u)
    ensures |Attempts(b, uid, c, s, u)| <= |b|
  {
    if b == [] {
      assert a + b == a;
    } else {
      var n := |b| - 1;
      AttemptsAppend(a, b[..n], uid, c, s, u);
      assert (a + b)[..|a + b| - 1] == a + b[..n];
      assert (a + b)[|a + b| - 1] == b[n];
    }
  }

  /** Payments are never attempted, and every attempt carries the user's
      first share as its amount and the record's description and date. */
  lemma {:induction false} AttemptsFromEligible(es: seq<Record>, uid: Option<int>, c: string, s: string, u: string)
    ensures forall a :: a in Attempts(es, uid, c, s, u) ==>
      exists e :: e in es && Eligible(e, uid) && a == InsertFor(e, uid.value, c, s, u)
  {
    if es != [] {
      var n := |es| - 1;
      AttemptsFromEligible(es[..n], uid, c, s, u);
      forall a | a in Attempts(es, uid, c, s, u)
        ensures exists e :: e in es && Eligible(e, uid) && a == InsertFor(e, uid.value, c, s, u)
      {
        if a in Attempts(es[..n], uid, c, s, u) {
          var e :| e in es[..n] && Eligible(e, uid) && a == InsertFor(e, uid.value, c, s, u);
          assert e in es;
        } else {
          assert es[n] in es;
        }
      }
    }
  }

  // ------------------------------------------------------------ the sync

  /** The message of the first guard of the sync that fails, in the order
      the code checks them: the session, the Splitwise user id, the
      wrapper's answer, the signed-in user. */
  function GuardError(env: SyncEnv): (e: Option<string>)
    ensures !env.hasSession ==> e == Some(NoSession)
    ensures env.hasSession && (env.splitwiseUserId.None? || env.splitwiseUserId.value == "")
      ==> e == Some(NoSplitwiseUser)
    ensures env.hasSession && env.splitwiseUserId.Some? && env.splitwiseUserId.value != "" && !env.answer.ok
      ==> e == Some("Splitwise API error: " + IntToString(env.answer.status) + " - " + env.answer.text)
    ensures (env.hasSession && env.splitwiseUserId.Some? && env.splitwiseUserId.value != "" && env.answer.ok
             && env.user.None?) ==> e == Some(NoUser)
    ensures e.None? <==> env.hasSession && env.splitwiseUserId.Some? && env.splitwiseUserId.value != ""
                         && env.answer.ok && env.user.Some?
  {
    if !env.hasSession then Some(NoSession)
    else if env.splitwiseUserId.None? || env.splitwiseUserId.value == "" then Some(NoSplitwiseUser)
    else if !env.answer.ok then
      Some("Splitwise API error: " + IntToString(env.answer.status) + " - " + env.answer.text)
    else if env.user.None? then Some(NoUser)
    else None
  }

  /** The misc category and its subcategory the rows go to, resolved as the
      code does (`intended` false) or as intended (`intended` true); the
      subcategory is looked up under the resolved category. */
  function Destination(env: SyncEnv, intended: bool): (r: Result<(string, string), string>)
    ensures !intended ==>
      (r.Ok? <==> env.miscCategory.Some? && env.miscCategory.value in env.subcategoryOf)
    ensures !intended && r.Ok? ==>
      r.value == (env.miscCategory.value, env.subcategoryOf[env.miscCategory.value])
    ensures intended ==>
      (r.Ok? <==> (env.miscCategory.Some? || env.createdCategory.Some?)
                  && var c := if env.miscCategory.Some? then env.miscCategory.value else env.createdCategory.value;
                     c in env.subcategoryOf || env.createdSubcategory.Some?)
    ensures r.Err? && env.miscCategory.None? && env.createdCategory.None? ==> r.error == CategoryNotCreated
    ensures (r.Err? && env.miscCategory.Some? && env.miscCategory.value !in env.subcategoryOf
             && env.createdSubcategory.None?) ==> r.error == SubcategoryNotCreated
  {
    var cat := if intended then Resolve(env.miscCategory, env.createdCategory, CategoryNotCreated)
               else ResolveAsWritten(env.miscCategory, env.createdCategory, CategoryNotCreated);
    if cat.Err? then Err(cat.error)
    else
      var found := if cat.value in env.subcategoryOf then Some(env.subcategoryOf[cat.value]) else None;
      var sub := if intended then Resolve(found, env.createdSubcategory, SubcategoryNotCreated)
                 else ResolveAsWritten(found, env.createdSubcategory, SubcategoryNotCreated);
      if sub.Err? then Err(sub.error) else Ok((cat.value, sub.value))
  }

  /** As written, a sync whose misc category exists but has no subcategory
      fails even though the subcategory was created. */
  lemma CreatedSubcategoryIsLost(env: SyncEnv)
    requires env.miscCategory.Some? && env.miscCategory.value !in env.subcategoryOf
    requires env.createdSubcategory.Some?
    ensures Destination(env, false) == Err(NullAssignment)
    ensures Destination(env, true) == Ok((env.miscCategory.value, env.createdSubcategory.value))
  {
  }

  /** What a sync that passed its guards and resolved its destination
      reports: the inserts the loop attempts and the count of those that did
      not throw, and the stamped last sync time. */
  function Completed(env: SyncEnv, dest: (string, string)): Report
    requires env.splitwiseUserId.Some? && env.user.Some?
  {
    var attempted := Attempts(env.expenses.GetOr([]), ParseInt(env.splitwiseUserId.value), dest.0, dest.1, env.user.value);
    Report(attempted, Succeeded(|attempted|, env.throwingInserts), true)
  }

  /** The rest of the sync once `dest` is resolved: the guards, then the
      loop. */
  method SyncTo(env: SyncEnv, dest: Result<(string, string), string>) returns (out: SyncOutcome)
    ensures out.requestedAfter == (if env.hasSession && env.splitwiseUserId.Some? && env.splitwiseUserId.value != ""
                                   then Some(AfterDate(env.lastSyncTime)) else None)
    ensures GuardError(env).Some? ==> out.result == Err(GuardError(env).value)
    ensures GuardError(env).None? && dest.Err? ==> out.result == Err(dest.error)
    ensures GuardError(env).None? && dest.Ok? ==> out.result == Ok(Completed(env, dest.value))
  {
    if !env.hasSession {
      return SyncOutcome(None, Err(NoSession));
    }
    if env.splitwiseUserId.None? || env.splitwiseUserId.value == "" {
      return SyncOutcome(None, Err(NoSplitwiseUser));
    }
    var afterDate := AfterDate(env.lastSyncTime);
    if !env.answer.ok {
      var message := "Splitwise API error: " + IntToString(env.answer.status) + " - " + env.answer.text;
      return SyncOutcome(Some(afterDate), Err(message));
    }
    if env.user.None? {
      return SyncOutcome(Some(afterDate), Err(NoUser));
    }
    if dest.Err? {
      return SyncOutcome(Some(afterDate), Err(dest.error));
    }
    var uid := ParseInt(env.splitwiseUserId.value);
    var attempted: seq<Insert> := [];
    var added: nat := 0;
    var es := env.expenses.GetOr([]);
    if |es| > 0 {
      attempted, added := InsertLoop(es, uid, dest.value.0, dest.value.1, env.user.value, env.throwingInserts);
    }
    return SyncOutcome(Some(afterDate), Ok(Report(attempted, added, true)));
  }

  /** `syncSplitwiseExpenses` as written. The refresh of the store at the
      end is not part of this model. */
  method Sync(env: SyncEnv) returns (out: SyncOutcome)
    ensures !env.hasSession ==> out == SyncOutcome(None, Err(NoSession))
    ensures env.hasSession && (env.splitwiseUserId.None? || env.splitwiseUserId.value == "")
      ==> out == SyncOutcome(None, Err(NoSplitwiseUser))
    ensures out.requestedAfter.Some? ==> out.requestedAfter.value == AfterDate(env.lastSyncTime)
    ensures GuardError(env).Some? ==> out.result == Err(GuardError(env).value)
    ensures GuardError(env).None? && Destination(env, false).Err? ==> out.result == Err(Destination(env, false).error)
    ensures out.result.Ok? <==> GuardError(env).None? && Destination(env, false).Ok?
    ensures out.result.Ok? ==> out.result.value == Completed(env, Destination(env, false).value)
    ensures out.result.Ok? ==> env.miscCategory.Some?
  {
    out := SyncTo(env, Destination(env, false));
  }

  /** The sync with the misc category and subcategory resolved as intended:
      a created row's id is used when none is found. */
  method SyncIntended(env: SyncEnv) returns (out: SyncOutcome)
    ensures !env.hasSession ==> out == SyncOutcome(None, Err(NoSession))
    ensures env.hasSession && (env.splitwiseUserId.None? || env.splitwiseUserId.value == "")
      ==> out == SyncOutcome(None, Err(NoSplitwiseUser))
    ensures out.requestedAfter.Some? ==> out.requestedAfter.value == AfterDate(env.lastSyncTime)
    ensures GuardError(env).Some? ==> out.result == Err(GuardError(env).value)
    ensures GuardError(env).None? && Destination(env, true).Err? ==> out.result == Err(Destination(env, true).error)
    ensures out.result.Ok? <==> GuardError(env).None? && Destination(env, true).Ok?
    ensures out.result.Ok? ==> out.result.value == Completed(env, Destination(env, true).value)
  {
    out := SyncTo(env, Destination(env, true));
  }

  /** Whenever the code as written completes, the intended sync completes
      the same way: the two differ only where a row had to be created. */
  lemma AsWrittenAgreesWhenFound(env: SyncEnv)
    requires env.miscCategory.Some? && env.miscCategory.value in env.subcategoryOf
    ensures Destination(env, false) == Destination(env, true)
  {
  }

  // ------------------------------------------------------------ user info

  const InvalidKey: string := "Invalid Splitwise API key. Please check your API key in profile settings."
  const Forbidden: string := "Splitwise API access forbidden. Please verify your API key permissions."

  /** The error `getCurrentSplitwiseUserInfo` throws for a non-ok answer. */
  function StatusError(status: int, text: string): (m: string)
    ensures status == 401 ==> m == InvalidKey
    ensures status == 403 ==> m == Forbidden
    ensures status != 401 && status != 403 ==> m == "Splitwise API error: " + IntToString(status) + " - " + text
  {
    if status == 401 then InvalidKey
    else if status == 403 then Forbidden
    else "Splitwise API error: " + IntToString(status) + " - " + text
  }
}
