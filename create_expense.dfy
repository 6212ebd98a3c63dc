/** The `create_expense` edge function: guards, validation of the JSON body,
    collection of the `users__<i>__*` shares rounded to cents, reconciliation
    of the owed shares with the cost, and the payload sent to Splitwise.
    Amounts are integer cents, so the floating-point rounding of the source
    is exact here; the key lookup and the upstream call are parameters. */
module CreateExpense {
  import opened Wrappers
  import opened JsText
  import Auth

  datatype Kind = JString | JNumber | JBool | JNull | JObject

  /** A value of the request body: its JSON kind, its `String(v)` rendering,
      and, for values read as amounts, `Math.round(parseFloat(v) * 100)`
      (`None` when that is `NaN`). */
  datatype Value = Value(kind: Kind, text: string, cents: Option<int>)

  /** The parsed body: its keys and values (key order is not modelled). */
  type Body = map<string, Value>

  predicate Truthy(v: Value) {
    match v.kind
    case JString => v.text != ""
    case JNumber => v.text != "0"
    case JBool => v.text == "true"
    case JNull => false
    case JObject => true
  }

  /** A field is truthy: present and not a falsy value. */
  predicate TruthyField(body: Body, key: string) {
    key in body && Truthy(body[key])
  }

  function Str(s: string): Value {
    Value(JString, s, None)
  }

  /** `String(c / 100)` for an amount of `c` cents: no trailing zeros in the
      fraction and no fraction for whole amounts. */
  function FormatCents(c: int): (s: string)
    ensures |s| >= 1
  {
    var a: nat := if c < 0 then -c else c;
    var frac := a % 100;
    (if c < 0 then "-" else "") + NatToString(a / 100)
    + (if frac == 0 then ""
       else "." + [DigitChar(frac / 10)] + (if frac % 10 == 0 then "" else [DigitChar(frac % 10)]))
  }

  /** The string a rounded share is written back as. */
  function CentsText(c: int): Value {
    Value(JString, FormatCents(c), Some(c))
  }

  // ------------------------------------------------------------ share keys

  datatype ShareType = Paid | Owed

  const UsersPrefix: string := "users__"
  const MissingField: string := "Missing required field: "

  function UserKey(i: nat): string {
    UsersPrefix + (NatToString(i) + "__user_id")
  }

  function ShareKey(i: nat, t: ShareType): string {
    UsersPrefix + (NatToString(i) + ShareSuffix(t))
  }

  /** What follows the index in a share key. */
  function ShareSuffix(t: ShareType): string {
    match t
    case Paid => "__paid_share"
    case Owed => "__owed_share"
  }

  lemma StripPrefix(p: string, u: string, v: string)
    requires p + u == p + v
    ensures u == v
  {
    assert u == (p + u)[|p|..];
    assert v == (p + v)[|p|..];
  }

  /** Digits followed by a non-digit: the digits are determined. */
  lemma DigitsThenOther(x: string, s: string, y: string, t: string)
    requires forall j :: 0 <= j < |x| ==> IsDigit(x[j])
    requires forall j :: 0 <= j < |y| ==> IsDigit(y[j])
    requires |s| > 0 && !IsDigit(s[0]) && |t| > 0 && !IsDigit(t[0])
    requires x + s == y + t
    ensures x == y && s == t
  {
    var z := x + s;
    assert !IsDigit(z[|x|]) && forall j :: 0 <= j < |x| ==> IsDigit(z[j]);
    assert z == y + t;
    assert !IsDigit(z[|y|]) && forall j :: 0 <= j < |y| ==> IsDigit(z[j]);
    assert |x| == |y|;
    assert x == z[..|x|] && y == z[..|y|];
    assert s == z[|x|..] && t == z[|y|..];
  }

  /** Keys built from different indices or different suffixes differ. */
  lemma KeyParts(a: nat, s: string, b: nat, t: string)
    requires |s| > 0 && s[0] == '_' && |t| > 0 && t[0] == '_'
    requires UsersPrefix + (NatToString(a) + s) == UsersPrefix + (NatToString(b) + t)
    ensures a == b && s == t
  {
    StripPrefix(UsersPrefix, NatToString(a) + s, NatToString(b) + t);
    DigitsThenOther(NatToString(a), s, NatToString(b), t);
    NatToStringInjective(a, b);
  }

  lemma UserKeyInjective(a: nat, b: nat)
    requires UserKey(a) == UserKey(b)
    ensures a == b
  {
    KeyParts(a, "__user_id", b, "__user_id");
  }

  lemma ShareKeyInjective(a: nat, s: ShareType, b: nat, t: ShareType)
    requires ShareKey(a, s) == ShareKey(b, t)
    ensures a == b && s == t
  {
    KeyParts(a, ShareSuffix(s), b, ShareSuffix(t));
  }

  /** Share keys are never user-id keys. */
  lemma ShareKeyNotUserKey(a: nat, s: ShareType, b: nat)
    ensures ShareKey(a, s) != UserKey(b)
  {
    if ShareKey(a, s) == UserKey(b) {
      KeyParts(a, ShareSuffix(s), b, "__user_id");
    }
  }

  /** The user keys `0..i-1` are distinct, so a set holding them has at least `i` elements. */
  lemma {:induction false} KeysBound(keys: set<string>, i: nat)
    requires forall k :: 0 <= k < i ==> UserKey(k) in keys
    ensures i <= |keys|
  {
    if i > 0 {
      var rest := keys - {UserKey(i - 1)};
      forall k | 0 <= k < i - 1
        ensures UserKey(k) in rest
      {
        if UserKey(k) == UserKey(i - 1) {
          UserKeyInjective(k, i - 1);
        }
      }
      KeysBound(rest, i - 1);
    }
  }

  // ------------------------------------------------------------ collection

  predicate Contiguous(body: Body, n: nat) {
    forall k :: 0 <= k < n ==> UserKey(k) in body
  }

  /** The first index from `i` on whose `users__<k>__user_id` is missing. */
  function CountFrom(body: Body, i: nat): (n: nat)
    requires Contiguous(body, i)
    ensures i <= n && Contiguous(body, n) && UserKey(n) !in body
    decreases |body.Keys| - i
  {
    KeysBound(body.Keys, i);
    if UserKey(i) in body then
      KeysBound(body.Keys, i + 1);
      CountFrom(body, i + 1)
    else i
  }

  /** How many users the body specifies: indices `0, 1, 2, ...` up to the first gap. */
  function UserCount(body: Body): (n: nat)
    ensures Contiguous(body, n) && UserKey(n) !in body
  {
    CountFrom(body, 0)
  }

  /** A present share of user `k` that does not read as a number. */
  predicate BadShare(body: Body, k: nat, t: ShareType) {
    ShareKey(k, t) in body && body[ShareKey(k, t)].cents.None?
  }

  predicate BadAt(body: Body, k: nat) {
    BadShare(body, k, Paid) || BadShare(body, k, Owed)
  }

  /** The first index below `n` with an unreadable share, or `n`. */
  function FirstBad(body: Body, n: nat): (k: nat)
    ensures k <= n && (k < n ==> BadAt(body, k))
    ensures forall j :: 0 <= j < k ==> !BadAt(body, j)
  {
    if n == 0 then 0
    else if FirstBad(body, n - 1) < n - 1 then FirstBad(body, n - 1)
    else if BadAt(body, n - 1) then n - 1
    else n
  }

  /** The error for user `k`: `paid_share` is checked before `owed_share`. */
  function BadMessage(body: Body, k: nat): string {
    if BadShare(body, k, Paid) then "Invalid paid_share format" else "Invalid owed_share format"
  }

  /** One entry of `userShares`: the rounded shares that are present. */
  datatype Share = Share(paid: Option<int>, owed: Option<int>)

  function ReadShare(body: Body, k: nat, t: ShareType): Option<int> {
    if ShareKey(k, t) in body then body[ShareKey(k, t)].cents else None
  }

  function ShareAt(body: Body, k: nat): Share {
    Share(ReadShare(body, k, Paid), ReadShare(body, k, Owed))
  }

  function Shares(body: Body, n: nat): seq<Share> {
    seq(n, k requires 0 <= k => ShareAt(body, k))
  }

  /** Writes the rounded share of user `k` back into `m` as a string. */
  function RewriteShare(m: Body, body: Body, k: nat, t: ShareType): Body {
    var key := ShareKey(k, t);
    if key in body && body[key].cents.Some? then m[key := CentsText(body[key].cents.value)] else m
  }

  /** The body after the shares of users `0..n-1` were rewritten. */
  function Rewrite(body: Body, n: nat): Body {
    if n == 0 then body
    else RewriteShare(RewriteShare(Rewrite(body, n - 1), body, n - 1, Paid), body, n - 1, Owed)
  }

  /** Rewriting keeps the keys and leaves the shares of later users untouched. */
  lemma {:induction false} RewriteFrame(body: Body, n: nat)
    ensures Rewrite(body, n).Keys == body.Keys
    ensures forall k: nat, t :: k >= n && ShareKey(k, t) in body ==> Rewrite(body, n)[ShareKey(k, t)] == body[ShareKey(k, t)]
  {
    if n > 0 {
      RewriteFrame(body, n - 1);
      forall k: nat, t | k >= n && ShareKey(k, t) in body
        ensures Rewrite(body, n)[ShareKey(k, t)] == body[ShareKey(k, t)]
      {
        if ShareKey(k, t) == ShareKey(n - 1, Paid) {
          ShareKeyInjective(k, t, n - 1, Paid);
        }
        if ShareKey(k, t) == ShareKey(n - 1, Owed) {
          ShareKeyInjective(k, t, n - 1, Owed);
        }
      }
    }
  }

  /** One pass of the `for` over the two share types of user `i`: rounds
      each present share and writes it back, or fails on an unreadable one. */
  method CollectOne(body: Body, cur: Body, i: nat) returns (r: Result<(Share, Body), string>)
    requires forall t :: ShareKey(i, t) in body <==> ShareKey(i, t) in cur
    requires forall t :: ShareKey(i, t) in body ==> cur[ShareKey(i, t)] == body[ShareKey(i, t)]
    ensures r.Err? <==> BadAt(body, i)
    ensures r.Err? ==> r.error == BadMessage(body, i)
    ensures r.Ok? ==> (r.value.0 == ShareAt(body, i)
      && r.value.1 == RewriteShare(RewriteShare(cur, body, i, Paid), body, i, Owed))
  {
    var entry := Share(None, None);
    var next := cur;
    var key := ShareKey(i, Paid);
    if key in next {
      var c := next[key].cents;
      if c.None? {
        return Err("Invalid paid_share format");
      }
      entry := entry.(paid := c);
      next := next[key := CentsText(c.value)];
    }
    var key2 := ShareKey(i, Owed);
    if key2 == key {
      ShareKeyInjective(i, Owed, i, Paid);
    }
    if key2 in next {
      var c := next[key2].cents;
      if c.None? {
        return Err("Invalid owed_share format");
      }
      entry := entry.(owed := c);
      next := next[key2 := CentsText(c.value)];
    }
    return Ok((entry, next));
  }

  /** The `while` loop over `users__<i>__user_id`: collects and rounds each
      present share and writes it back, or stops at the first unreadable one. */
  method CollectShares(body: Body) returns (r: Result<(seq<Share>, Body), string>)
    ensures var n := UserCount(body);
      r.Err? <==> FirstBad(body, n) < n
    ensures var n := UserCount(body);
      r.Err? ==> r.error == BadMessage(body, FirstBad(body, n))
    ensures var n := UserCount(body);
      r.Ok? ==> r.value.0 == Shares(body, n) && r.value.1 == Rewrite(body, n)
  {
    var shares: seq<Share> := [];
    var cur := body;
    var i: nat := 0;
    while UserKey(i) in cur
      invariant Contiguous(body, i) && CountFrom(body, i) == UserCount(body)
      invariant cur == Rewrite(body, i) && FirstBad(body, i) == i
      invariant shares == Shares(body, i)
      decreases UserCount(body) - i
    {
      RewriteFrame(body, i);
      var step := CollectOne(body, cur, i);
      if step.Err? {
        assert FirstBad(body, i + 1) == i;
        FirstBadStays(body, i + 1, UserCount(body));
        return Err(step.error);
      }
      cur := step.value.1;
      SharesSnoc(body, i);
      shares := shares + [step.value.0];
      i := i + 1;
    }
    RewriteFrame(body, i);
    return Ok((shares, cur));
  }

  lemma SharesSnoc(body: Body, i: nat)
    ensures Shares(body, i + 1) == Shares(body, i) + [ShareAt(body, i)]
  {
  }

  /** Once an unreadable share is found, later users do not change which one comes first. */
  lemma {:induction false} FirstBadStays(body: Body, m: nat, n: nat)
    requires m <= n && FirstBad(body, m) < m
    ensures FirstBad(body, n) == FirstBad(body, m)
    decreases n - m
  {
    if m < n {
      FirstBadStays(body, m, n - 1);
    }
  }

  // ------------------------------------------------------------ reconciliation

  function SumOwed(shares: seq<Share>): int {
    if shares == [] then 0 else SumOwed(shares[..|shares| - 1]) + shares[|shares| - 1].owed.GetOr(0)
  }

  predicate PositiveOwed(s: Share) {
    s.owed.Some? && s.owed.value > 0
  }

  /** The highest index with a positive owed share. */
  function LastPositive(shares: seq<Share>): (j: Option<nat>)
    ensures j.Some? ==> j.value < |shares| && PositiveOwed(shares[j.value])
    ensures j.Some? ==> forall m :: j.value < m < |shares| ==> !PositiveOwed(shares[m])
    ensures j.None? ==> forall m :: 0 <= m < |shares| ==> !PositiveOwed(shares[m])
  {
    if shares == [] then None
    else if PositiveOwed(shares[|shares| - 1]) then Some(|shares| - 1)
    else LastPositive(shares[..|shares| - 1])
  }

  /** The share the reconciliation rewrites: none when the owed shares
      already add up to the cost. */
  function Adjusted(shares: seq<Share>, cost: int): Option<nat> {
    if SumOwed(shares) == cost then None else LastPositive(shares)
  }

  function Reconciled(shares: seq<Share>, cost: int): seq<Share> {
    match Adjusted(shares, cost)
    case None => shares
    case Some(j) =>
      var v := shares[j].owed.value;
      shares[j := shares[j].(owed := Some(cost - (SumOwed(shares) - v)))]
  }

  /** The backward `for` loop: rewrites the last positive owed share so the
      owed total matches the cost, then stops. */
  method Reconcile(shares: seq<Share>, cost: int) returns (r: seq<Share>, adjusted: Option<nat>)
    ensures adjusted == Adjusted(shares, cost)
    ensures r == Reconciled(shares, cost)
  {
    r, adjusted := shares, None;
    var total := 0;
    var m := 0;
    while m < |shares|
      invariant 0 <= m <= |shares| && total == SumOwed(shares[..m])
    {
      assert shares[..m + 1][..m] == shares[..m];
      total := total + shares[m].owed.GetOr(0);
      m := m + 1;
    }
    assert shares[..m] == shares;
    if total != cost {
      var j := |shares| - 1;
      while j >= 0
        invariant -1 <= j < |shares|
        invariant forall q :: j < q < |shares| ==> !PositiveOwed(shares[q])
      {
        if shares[j].owed.Some? && shares[j].owed.value > 0 {
          var adjustment := cost - (total - shares[j].owed.value);
          r := shares[j := shares[j].(owed := Some(adjustment))];
          adjusted := Some(j);
          return;
        }
        j := j - 1;
      }
    }
  }

  lemma {:induction false} SumOwedUpdate(shares: seq<Share>, j: nat, x: Share)
    requires j < |shares|
    ensures SumOwed(shares[j := x]) == SumOwed(shares) - shares[j].owed.GetOr(0) + x.owed.GetOr(0)
  {
    var n := |shares| - 1;
    if j < n {
      SumOwedUpdate(shares[..n], j, x);
      assert shares[j := x][..n] == shares[..n][j := x];
    } else {
      assert shares[j := x][..n] == shares[..n];
    }
  }

  /** After reconciliation the owed shares add up to the cost, unless no
      share was positive; only the owed share of the adjusted user changes,
      and no paid share changes. */
  lemma ReconciledSums(shares: seq<Share>, cost: int)
    ensures var r := Reconciled(shares, cost);
      |r| == |shares|
      && (SumOwed(r) == cost || forall m :: 0 <= m < |shares| ==> !PositiveOwed(shares[m]))
      && (forall m :: 0 <= m < |r| ==> r[m].paid == shares[m].paid)
      && (forall m :: 0 <= m < |r| && Adjusted(shares, cost) != Some(m) ==> r[m] == shares[m])
  {
    var a := Adjusted(shares, cost);
    if a.Some? {
      var j := a.value;
      var v := shares[j].owed.value;
      SumOwedUpdate(shares, j, shares[j].(owed := Some(cost - (SumOwed(shares) - v))));
    }
  }

  // ------------------------------------------------------------ payload

  /** The body with the adjusted owed share written back. */
  function Finalize(rewritten: Body, shares: seq<Share>, cost: int): Body {
    match Adjusted(shares, cost)
    case None => rewritten
    case Some(j) => rewritten[ShareKey(j, Owed) := CentsText(Reconciled(shares, cost)[j].owed.value)]
  }

  function Defaulted(body: Body, key: string, default: Value): Value {
    if key in body && body[key].kind != JNull then body[key] else default
  }

  /** `expenseData`: the fixed fields, `details` when truthy, and every
      `users__*` entry of the final body. */
  function Payload(final: Body, cost: int, today: string, groupId: Option<string>): (p: map<string, Value>)
    requires "description" in final
  {
    var dateStr := if "date" in final && final["date"].kind != JNull then final["date"].text else today;
    var gid := ParseInt(groupId.GetOr("0"));
    var base := map[
      "cost" := Value(JNumber, FormatCents(cost), Some(cost)),
      "description" := final["description"],
      "date" := Str(dateStr + "T00:00:00Z"),
      "repeat_interval" := Defaulted(final, "repeat_interval", Str("never")),
      "currency_code" := Defaulted(final, "currency_code", Str("USD")),
      "category_id" := Defaulted(final, "category_id", Value(JNumber, "1", Some(100))),
      "group_id" := (if gid.Some? then Value(JNumber, IntToString(gid.value), Some(gid.value * 100))
                     else Value(JNumber, "NaN", None)),
      "split_equally" := Value(JBool, "false", None)];
    var withDetails := if TruthyField(final, "details") then base["details" := final["details"]] else base;
    withDetails + map k | k in final && StartsWith(k, UsersPrefix) :: final[k]
  }

  /** The validation pipeline as a whole: the first failing check's message,
      or the payload. */
  function Expected(body: Body, today: string, groupId: Option<string>): Result<map<string, Value>, string> {
    if !TruthyField(body, "cost") then Err(MissingField + "cost")
    else if !TruthyField(body, "description") then Err(MissingField + "description")
    else if body["cost"].cents.None? then Err("Invalid cost format")
    else
      var cost := body["cost"].cents.value;
      var n := UserCount(body);
      if FirstBad(body, n) < n then Err(BadMessage(body, FirstBad(body, n)))
      else if n == 0 then Err("At least one user must be specified")
      else
        var shares := Shares(body, n);
        RewriteFrame(body, n);
        Ok(Payload(Finalize(Rewrite(body, n), shares, cost), cost, today, groupId))
  }

  /** The payload's owed shares are the reconciled ones: for every user with
      an `owed_share`, the payload carries the reconciled amount. */
  lemma PayloadShares(body: Body, today: string, groupId: Option<string>, k: nat)
    requires Expected(body, today, groupId).Ok?
    requires k < UserCount(body) && ShareKey(k, Owed) in body
    ensures var n := UserCount(body);
      var r := Reconciled(Shares(body, n), body["cost"].cents.value);
      var p := Expected(body, today, groupId).value;
      ShareKey(k, Owed) in p && r[k].owed.Some? && p[ShareKey(k, Owed)] == CentsText(r[k].owed.value)
  {
    var n := UserCount(body);
    var cost := body["cost"].cents.value;
    var shares := Shares(body, n);
    var final := Finalize(Rewrite(body, n), shares, cost);
    ExpectedOk(body, today, groupId);
    FinalizeAt(body, n, cost, k);
    ShareKeyIsUserEntry(k, Owed);
    PayloadUsers(final, cost, today, groupId, ShareKey(k, Owed));
  }

  /** What an accepted body gives: every user's shares read, and the
      payload of the final body. */
  lemma ExpectedOk(body: Body, today: string, groupId: Option<string>)
    requires Expected(body, today, groupId).Ok?
    ensures var n := UserCount(body);
      var cost := body["cost"].cents.value;
      var final := Finalize(Rewrite(body, n), Shares(body, n), cost);
      FirstBad(body, n) == n && "description" in final
      && Expected(body, today, groupId).value == Payload(final, cost, today, groupId)
  {
    RewriteFrame(body, UserCount(body));
  }

  lemma ShareKeyIsUserEntry(k: nat, t: ShareType)
    ensures StartsWith(ShareKey(k, t), UsersPrefix)
  {
    var rest := NatToString(k) + ShareSuffix(t);
    assert (UsersPrefix + rest)[..|UsersPrefix|] == UsersPrefix;
  }

  /** In the final body, the owed share of user `k` is the reconciled amount. */
  lemma FinalizeAt(body: Body, n: nat, cost: int, k: nat)
    requires k < n && ShareKey(k, Owed) in body && FirstBad(body, n) == n
    ensures var shares := Shares(body, n);
      var r := Reconciled(shares, cost);
      var final := Finalize(Rewrite(body, n), shares, cost);
      ShareKey(k, Owed) in final && r[k].owed.Some? && final[ShareKey(k, Owed)] == CentsText(r[k].owed.value)
  {
    var shares := Shares(body, n);
    assert !BadAt(body, k);
    assert shares[k] == ShareAt(body, k);
    RewriteAt(body, n, k, Owed);
    var a := Adjusted(shares, cost);
    if a.Some? && a.value != k {
      if ShareKey(k, Owed) == ShareKey(a.value, Owed) {
        ShareKeyInjective(k, Owed, a.value, Owed);
      }
    }
  }

  /** Every `users__*` entry of the final body reaches the payload unchanged. */
  lemma PayloadUsers(final: Body, cost: int, today: string, groupId: Option<string>, key: string)
    requires "description" in final && key in final && StartsWith(key, UsersPrefix)
    ensures key in Payload(final, cost, today, groupId)
    ensures Payload(final, cost, today, groupId)[key] == final[key]
  {
  }

  /** The share of a user below `n` is the rewritten rounded value. */
  lemma {:induction false} RewriteAt(body: Body, n: nat, k: nat, t: ShareType)
    requires k < n && ShareKey(k, t) in body && body[ShareKey(k, t)].cents.Some?
    ensures ShareKey(k, t) in Rewrite(body, n)
    ensures Rewrite(body, n)[ShareKey(k, t)] == CentsText(body[ShareKey(k, t)].cents.value)
  {
    RewriteFrame(body, n);
    if k < n - 1 {
      RewriteAt(body, n - 1, k, t);
      if ShareKey(k, t) == ShareKey(n - 1, Paid) {
        ShareKeyInjective(k, t, n - 1, Paid);
      }
      if ShareKey(k, t) == ShareKey(n - 1, Owed) {
        ShareKeyInjective(k, t, n - 1, Owed);
      }
    } else {
      RewriteFrame(body, n - 1);
      if ShareKey(k, t) == ShareKey(n - 1, Owed) && t == Paid {
        ShareKeyInjective(k, t, n - 1, Owed);
      }
    }
  }

  // ------------------------------------------------------------ handler

  /** The checks and rewrites between reading the body and sending it: the
      required fields, the cost, the shares, the reconciliation and the
      payload, stopping at the first failing check. */
  method BuildPayload(data: Body, today: string, groupId: Option<string>)
    returns (r: Result<map<string, Value>, string>)
    ensures r == Expected(data, today, groupId)
  {
    if !TruthyField(data, "cost") || !TruthyField(data, "description") {
      var missing := if !TruthyField(data, "cost") then "cost" else "description";
      return Err(MissingField + missing);
    }
    var costRead := data["cost"].cents;
    if costRead.None? {
      return Err("Invalid cost format");
    }
    var cost := costRead.value;
    var collected := CollectShares(data);
    if collected.Err? {
      return Err(collected.error);
    }
    var (shares, rewritten) := collected.value;
    if |shares| == 0 {
      return Err("At least one user must be specified");
    }
    var reconciled, adjusted := Reconcile(shares, cost);
    var final := rewritten;
    if adjusted.Some? {
      final := final[ShareKey(adjusted.value, Owed) := CentsText(reconciled[adjusted.value].owed.value)];
    }
    RewriteFrame(data, |shares|);
    r := Ok(Payload(final, cost, today, groupId));
  }

  /** What the upstream `create_expense` call gave. */
  datatype Answer = Answered(ok: bool, status: int) | Threw(message: string)

  /** What `req.json()` gives: no JSON at all, the JSON value `null`, or
      any other value with the fields it carries (a number, string or array
      carries none of the fields the handler reads, so it is the empty
      record). */
  datatype JsonBody = NotJson | JsonNull | JsonValue(fields: Body)

  /** The handler. `apiKey` is what the key lookup returns for the token,
      `today` is the current UTC date. Returns the status, the error message
      of the JSON answer if any, and the payload sent upstream (`None` when
      no request was made). A `null` body makes `requestData.cost` throw
      outside any `try`, and the runtime answers 500 with no JSON error. */
  method Handle(authHeader: Option<string>, apiKey: Option<string>, groupId: Option<string>,
                json: JsonBody, today: string, answer: Answer)
    returns (status: int, error: Option<string>, sent: Option<map<string, Value>>)
    ensures var jwt := Auth.ExtractJwt(authHeader);
      (jwt.None? || jwt.value == "") ==> status == 401 && sent.None?
    ensures var jwt := Auth.ExtractJwt(authHeader);
      (jwt.Some? && jwt.value != "" && (apiKey.None? || apiKey.value == "")) ==> status == 401 && sent.None?
    ensures var jwt := Auth.ExtractJwt(authHeader);
      var admitted := jwt.Some? && jwt.value != "" && apiKey.Some? && apiKey.value != "";
      (admitted && json.NotJson? ==> status == 400 && error == Some("Invalid JSON body") && sent.None?)
      && (admitted && json.JsonNull? ==> status == 500 && error.None? && sent.None?)
      && (admitted && json.JsonValue? && Expected(json.fields, today, groupId).Err? ==>
            status == 400 && error == Some(Expected(json.fields, today, groupId).error) && sent.None?)
      && (admitted && json.JsonValue? && Expected(json.fields, today, groupId).Ok? ==>
            sent == Some(Expected(json.fields, today, groupId).value))
    ensures sent.Some? && answer.Answered? && answer.ok ==> status == 200 && error.None?
    ensures sent.Some? && answer.Answered? && !answer.ok
      ==> status == 500 && error == Some("Splitwise API error: " + IntToString(answer.status))
    ensures sent.Some? && answer.Threw? ==> status == 500 && error == Some(answer.message)
  {
    var jwt := Auth.ExtractJwt(authHeader);
    if jwt.None? || jwt.value == "" {
      return 401, Some("Missing or invalid Authorization header"), None;
    }
    if apiKey.None? || apiKey.value == "" {
      return 401, Some("Splitwise API key not found"), None;
    }
    if json.NotJson? {
      return 400, Some("Invalid JSON body"), None;
    }
    if json.JsonNull? {
      return 500, None, None;
    }
    var built := BuildPayload(json.fields, today, groupId);
    if built.Err? {
      return 400, Some(built.error), None;
    }
    sent := Some(built.value);
    match answer
    case Threw(message) =>
      status, error := 500, Some(message);
    case Answered(ok, code) =>
      if ok {
        status, error := 200, None;
      } else {
        status, error := 500, Some("Splitwise API error: " + IntToString(code));
      }
  }
}
