/** The Python poller: for every configured user it fetches the last eight
    hours of Splitwise expenses, keeps the ones the user owes money on and
    inserts one `expenses` row per kept entry. The HTTP call is a parameter
    (`Fetch`), row ids are serial numbers standing for fresh UUIDs, and the
    conversion of the date to US/Pacific is not part of this model. */
module Poller {
  import opened Wrappers
  import opened SplitwiseRecords

  /** One entry of the `users` list of the configuration file. */
  datatype UserConfig = UserConfig(
    name: string,
    apiToken: string,
    splitwiseUserId: int,
    supabaseUserId: string,
    categoryId: string,
    subcategoryId: string)

  /** The `get_expenses` request: bearer token, time window in seconds, page size. */
  datatype Query = Query(token: string, datedAfter: int, datedBefore: int, limit: nat)

  /** What the HTTP call gave back: its status code and the `expenses` list. */
  datatype Fetch = Fetch(status: int, expenses: seq<Record>)

  /** One row inserted into the `expenses` table. */
  datatype Row = Row(
    id: nat,
    userId: string,
    amount: int,
    description: string,
    date: string,
    categoryId: string,
    subcategoryId: string)

  const WindowSeconds: int := 8 * 60 * 60
  const PageLimit: nat := 50
  const UnreadableShare: string := "owed_share is not a number"

  /** The request for `cfg` at time `now`: the eight hours up to `now`, at
      most fifty records, authorised with the user's own token. */
  function QueryFor(cfg: UserConfig, now: int): (q: Query)
    ensures q.datedBefore == now && now - q.datedAfter == 28800
    ensures q.limit == 50 && q.token == cfg.apiToken
  {
    Query(cfg.apiToken, now - WindowSeconds, now, PageLimit)
  }

  // ------------------------------------------------------------ specification

  predicate Counts(s: Share, uid: int) {
    s.userId == uid && Owes(s)
  }

  /** How many shares of `uid` owe more than zero. */
  function OwingCount(users: seq<Share>, uid: int): nat {
    if users == [] then 0
    else OwingCount(users[..|users| - 1], uid) + (if Counts(users[|users| - 1], uid) then 1 else 0)
  }

  /** Every share of `uid` holds a number, so `float(owed_share)` succeeds. */
  predicate Readable(users: seq<Share>, uid: int) {
    forall j :: 0 <= j < |users| && users[j].userId == uid ==> users[j].owed.Num?
  }

  /** Some non-payment record has a share of `uid` that `float` rejects. */
  predicate FilterCrashes(es: seq<Record>, uid: int) {
    exists i :: 0 <= i < |es| && !es[i].payment && !Readable(es[i].users, uid)
  }

  function Copies(e: Record, n: nat): seq<Record> {
    seq(n, _ => e)
  }

  /** The `my_expenses` list: each non-payment record, once per owing share of `uid`. */
  function Selected(es: seq<Record>, uid: int): seq<Record> {
    if es == [] then []
    else
      var e := es[|es| - 1];
      Selected(es[..|es| - 1], uid) + (if e.payment then [] else Copies(e, OwingCount(e.users, uid)))
  }

  /** The owed share of the first share entry of `uid` (what `next(...)` finds). */
  function FirstOwed(users: seq<Share>, uid: int): int {
    var k := FirstMatch(users, uid);
    if k < |users| && users[k].owed.Num? then users[k].owed.cents else 0
  }

  function InsertRow(cfg: UserConfig, e: Record, id: nat): Row {
    Row(id, cfg.supabaseUserId, FirstOwed(e.users, cfg.splitwiseUserId), e.description, e.date,
        cfg.categoryId, cfg.subcategoryId)
  }

  function Rows(cfg: UserConfig, mine: seq<Record>, serial: nat): seq<Row> {
    seq(|mine|, k requires 0 <= k < |mine| => InsertRow(cfg, mine[k], serial + k))
  }

  /** The inserts one run of `process_user_expenses` makes, or the crash. */
  function Process(cfg: UserConfig, fetched: Fetch, serial: nat): (r: Result<seq<Row>, string>)
    ensures fetched.status != 200 ==> r == Ok([])
    ensures r.Err? <==> fetched.status == 200 && FilterCrashes(fetched.expenses, cfg.splitwiseUserId)
  {
    var uid := cfg.splitwiseUserId;
    if fetched.status != 200 then Ok([])
    else if FilterCrashes(fetched.expenses, uid) then Err(UnreadableShare)
    else Ok(Rows(cfg, Selected(fetched.expenses, uid), serial))
  }

  // ------------------------------------------------------------ the loops

  /** The inner loop of the filter: appends `e` to `mine` once per share of
      `uid` that owes more than zero, or fails on a share `float` rejects. */
  method AppendOwing(mine: seq<Record>, e: Record, uid: int) returns (r: Option<seq<Record>>)
    ensures r.None? <==> !Readable(e.users, uid)
    ensures r.Some? ==> r.value == mine + Copies(e, OwingCount(e.users, uid))
  {
    var acc := mine;
    var j := 0;
    while j < |e.users|
      invariant 0 <= j <= |e.users|
      invariant Readable(e.users[..j], uid)
      invariant acc == mine + Copies(e, OwingCount(e.users[..j], uid))
    {
      var u := e.users[j];
      assert e.users[..j + 1][..j] == e.users[..j];
      if u.userId == uid {
        if !u.owed.Num? {
          return None;
        }
        if u.owed.cents > 0 {
          acc := acc + [e];
        }
      }
      j := j + 1;
    }
    assert e.users[..j] == e.users;
    return Some(acc);
  }

  /** The filter loop: builds `my_expenses`, or fails as `float` would. */
  method FilterMyExpenses(es: seq<Record>, uid: int) returns (r: Option<seq<Record>>)
    ensures r.None? <==> FilterCrashes(es, uid)
    ensures r.Some? ==> r.value == Selected(es, uid)
  {
    var mine: seq<Record> := [];
    var i := 0;
    while i < |es|
      invariant 0 <= i <= |es|
      invariant !FilterCrashes(es[..i], uid)
      invariant mine == Selected(es[..i], uid)
    {
      var e := es[i];
      assert es[..i + 1][..i] == es[..i];
      if !e.payment {
        var next := AppendOwing(mine, e, uid);
        if next.None? {
          assert !Readable(es[i].users, uid);
          return None;
        }
        mine := next.value;
      }
      ghost var done := es[..i + 1];
      assert !FilterCrashes(done, uid) by {
        forall k | 0 <= k < i + 1 && !done[k].payment
          ensures Readable(done[k].users, uid)
        {
          if k < i {
            assert done[k] == es[..i][k];
          }
        }
      }
      i := i + 1;
    }
    assert es[..i] == es;
    return Some(mine);
  }

  /** `process_user_expenses`: the filter loop, then one insert per kept entry. */
  method ProcessUserExpenses(cfg: UserConfig, fetched: Fetch, serial: nat) returns (r: Result<seq<Row>, string>)
    ensures r == Process(cfg, fetched, serial)
  {
    if fetched.status != 200 {
      return Ok([]);
    }
    var found := FilterMyExpenses(fetched.expenses, cfg.splitwiseUserId);
    if found.None? {
      return Err(UnreadableShare);
    }
    var mine := found.value;
    var rows: seq<Row> := [];
    var k := 0;
    while k < |mine|
      invariant 0 <= k <= |mine|
      invariant |rows| == k
      invariant forall m :: 0 <= m < k ==> rows[m] == InsertRow(cfg, mine[m], serial + m)
    {
      rows := rows + [InsertRow(cfg, mine[k], serial + k)];
      k := k + 1;
    }
    assert rows == Rows(cfg, mine, serial);
    return Ok(rows);
  }

  // ------------------------------------------------------------ properties

  /** Selection goes record by record, so upstream order is kept. */
  lemma {:induction false} SelectedAppend(a: seq<Record>, b: seq<Record>, uid: int)
    ensures Selected(a + b, uid) == Selected(a, uid) + Selected(b, uid)
  {
    if b == [] {
      assert a + b == a;
    } else {
      var c, e := b[..|b| - 1], b[|b| - 1];
      var kept := if e.payment then [] else Copies(e, OwingCount(e.users, uid));
      SelectedAppend(a, c, uid);
      assert (a + b)[..|a + b| - 1] == a + c;
      assert (a + b)[|a + b| - 1] == e;
      assert Selected(a + b, uid) == Selected(a + c, uid) + kept;
      assert Selected(b, uid) == Selected(c, uid) + kept;
      assert (Selected(a, uid) + Selected(c, uid)) + kept == Selected(a, uid) + (Selected(c, uid) + kept);
    }
  }

  /** A single record is kept once per owing share of `uid`, and never when
      it is a payment. */
  lemma SelectedOne(e: Record, uid: int)
    ensures Selected([e], uid) == if e.payment then [] else Copies(e, OwingCount(e.users, uid))
  {
    assert [e][..0] == [];
  }

  lemma {:induction false} OwingHasMatch(users: seq<Share>, uid: int)
    requires OwingCount(users, uid) > 0
    ensures exists j :: 0 <= j < |users| && Counts(users[j], uid)
  {
    var n := |users| - 1;
    if !Counts(users[n], uid) {
      OwingHasMatch(users[..n], uid);
      var j :| 0 <= j < n && Counts(users[..n][j], uid);
      assert users[j] == users[..n][j];
    }
  }

  /** Every kept record is an upstream non-payment record with at least one
      share of `uid` that owes more than zero. */
  lemma {:induction false} SelectedMembers(es: seq<Record>, uid: int)
    ensures forall x :: x in Selected(es, uid) ==>
      x in es && !x.payment && exists j :: 0 <= j < |x.users| && Counts(x.users[j], uid)
  {
    if es != [] {
      var n := |es| - 1;
      SelectedMembers(es[..n], uid);
      forall x | x in Selected(es, uid)
        ensures x in es && !x.payment && exists j :: 0 <= j < |x.users| && Counts(x.users[j], uid)
      {
        if x in Selected(es[..n], uid) {
          assert x in es[..n];
        } else {
          assert x == es[n];
          OwingHasMatch(x.users, uid);
        }
      }
    }
  }

  /** Every inserted row carries a fresh id, the configured Supabase user,
      category and subcategory. */
  lemma ProcessRowsCarryConfig(cfg: UserConfig, fetched: Fetch, serial: nat)
    ensures var r := Process(cfg, fetched, serial);
      r.Ok? ==> forall k :: 0 <= k < |r.value| ==>
        r.value[k].id == serial + k && r.value[k].userId == cfg.supabaseUserId
        && r.value[k].categoryId == cfg.categoryId && r.value[k].subcategoryId == cfg.subcategoryId
  {
  }

  /** When the filter did not crash, the amount of every row is the owed
      share of the first entry of `uid` in its record, read as a number. */
  lemma RowAmountIsFirstMatch(cfg: UserConfig, fetched: Fetch, serial: nat, k: nat)
    requires Process(cfg, fetched, serial).Ok? && fetched.status == 200
    requires k < |Process(cfg, fetched, serial).value|
    ensures var uid := cfg.splitwiseUserId;
      var x := Selected(fetched.expenses, uid)[k];
      var m := FirstMatch(x.users, uid);
      m < |x.users| && x.users[m].owed.Num?
      && Process(cfg, fetched, serial).value[k].amount == x.users[m].owed.cents
      && Process(cfg, fetched, serial).value[k].description == x.description
  {
    var uid := cfg.splitwiseUserId;
    var es := fetched.expenses;
    var x := Selected(es, uid)[k];
    SelectedMembers(es, uid);
    assert x in Selected(es, uid);
    var i :| 0 <= i < |es| && es[i] == x;
    assert Readable(x.users, uid);
    FirstShareReadable(x.users, uid);
    var rows := Process(cfg, fetched, serial).value;
    assert rows == Rows(cfg, Selected(es, uid), serial);
    assert rows[k] == InsertRow(cfg, x, serial + k);
  }

  /** With a share of `uid` that owes and every share of `uid` readable, the
      first share of `uid` exists and is a number. */
  lemma FirstShareReadable(users: seq<Share>, uid: int)
    requires Readable(users, uid) && exists j :: 0 <= j < |users| && Counts(users[j], uid)
    ensures FirstMatch(users, uid) < |users| && users[FirstMatch(users, uid)].owed.Num?
  {
  }

  /** The amount comes from the first share entry of the user even when only
      a later entry owes: two entries of user 7, owing 0 and 5.00, give one
      row of amount 0. */
  lemma AmountFromFirstEntry()
    ensures var e := Record(1, false, DeletedNull, [Share(7, Num(0)), Share(7, Num(500))], "dinner", "d");
      var cfg := UserConfig("u", "t", 7, "me", "c", "s");
      Process(cfg, Fetch(200, [e]), 0) == Ok([Row(0, "me", 0, "dinner", "d", "c", "s")])
  {
    var e := Record(1, false, DeletedNull, [Share(7, Num(0)), Share(7, Num(500))], "dinner", "d");
    var users := e.users;
    assert users[..1] == [Share(7, Num(0))] && users[..1][..0] == [];
    assert OwingCount(users, 7) == 1;
    assert FirstMatch(users, 7) == 0;
    SelectedOne(e, 7);
    assert Copies(e, 1) == [e];
    assert !FilterCrashes([e], 7);
    var cfg := UserConfig("u", "t", 7, "me", "c", "s");
    assert Rows(cfg, [e], 0) == [InsertRow(cfg, e, 0)];
  }

  // ------------------------------------------------------------ main

  /** What `main` does for the users from index `i` on: the rows inserted,
      in order, and whether a user's run crashed (which stops the script). */
  function RunFrom(configs: seq<UserConfig>, fetches: seq<Fetch>, i: nat, serial: nat): (seq<Row>, bool)
    requires |fetches| == |configs| && i <= |configs|
    decreases |configs| - i
  {
    if i == |configs| then ([], false)
    else
      match Process(configs[i], fetches[i], serial)
      case Err(_) => ([], true)
      case Ok(rs) =>
        var rest := RunFrom(configs, fetches, i + 1, serial + |rs|);
        (rs + rest.0, rest.1)
  }

  /** One user of `main`: the run from `i` is this user's rows followed by
      the run from `i + 1`, or a crash with no rows. */
  lemma RunStep(configs: seq<UserConfig>, fetches: seq<Fetch>, i: nat, serial: nat,
                r: Result<seq<Row>, string>)
    requires |fetches| == |configs| && i < |configs|
    requires r == Process(configs[i], fetches[i], serial)
    ensures r.Err? ==> RunFrom(configs, fetches, i, serial) == ([], true)
    ensures r.Ok? ==>
      var rest := RunFrom(configs, fetches, i + 1, serial + |r.value|);
      RunFrom(configs, fetches, i, serial) == (r.value + rest.0, rest.1)
  {
  }

  lemma AppendAssoc<T>(a: seq<T>, b: seq<T>, c: seq<T>)
    ensures a + (b + c) == (a + b) + c
  {
  }

  /** `main`: each configured user in turn, with the fetch made for that user. */
  method RunAll(configs: seq<UserConfig>, fetches: seq<Fetch>, serial: nat) returns (rows: seq<Row>, crashed: bool)
    requires |fetches| == |configs|
    ensures rows == RunFrom(configs, fetches, 0, serial).0
    ensures crashed == RunFrom(configs, fetches, 0, serial).1
  {
    rows, crashed := [], false;
    ghost var whole := RunFrom(configs, fetches, 0, serial);
    var i := 0;
    var next := serial;
    assert rows + whole.0 == whole.0;
    while i < |configs|
      invariant 0 <= i <= |configs| && next == serial + |rows|
      invariant whole == (rows + RunFrom(configs, fetches, i, next).0, RunFrom(configs, fetches, i, next).1)
    {
      var r := ProcessUserExpenses(configs[i], fetches[i], next);
      RunStep(configs, fetches, i, next, r);
      if r.Err? {
        assert rows + [] == rows;
        return rows, true;
      }
      AppendAssoc(rows, r.value, RunFrom(configs, fetches, i + 1, next + |r.value|).0);
      rows := rows + r.value;
      next := next + |r.value|;
      i := i + 1;
    }
    assert rows + [] == rows;
  }

  /** The rows of the whole run carry consecutive fresh ids, so no two share one. */
  lemma {:induction false} RunIdsConsecutive(configs: seq<UserConfig>, fetches: seq<Fetch>, i: nat, serial: nat)
    requires |fetches| == |configs| && i <= |configs|
    ensures forall k :: 0 <= k < |RunFrom(configs, fetches, i, serial).0| ==>
      RunFrom(configs, fetches, i, serial).0[k].id == serial + k
    decreases |configs| - i
  {
    if i < |configs| {
      var p := Process(configs[i], fetches[i], serial);
      if p.Ok? {
        RunIdsConsecutive(configs, fetches, i + 1, serial + |p.value|);
      }
    }
  }

  /** A run crashes only when some user's fetch succeeded and a share of that
      user could not be read. */
  lemma {:induction false} RunCrashCause(configs: seq<UserConfig>, fetches: seq<Fetch>, i: nat, serial: nat)
    requires |fetches| == |configs| && i <= |configs|
    ensures RunFrom(configs, fetches, i, serial).1 <==>
      exists j :: i <= j < |configs| && fetches[j].status == 200
        && FilterCrashes(fetches[j].expenses, configs[j].splitwiseUserId)
    decreases |configs| - i
  {
    if i < |configs| {
      var p := Process(configs[i], fetches[i], serial);
      if p.Ok? {
        RunCrashCause(configs, fetches, i + 1, serial + |p.value|);
      }
    }
  }
}
