/** `extractJwt` of the edge functions' shared helpers: the token of an
    `Authorization: Bearer <token>` header (the Bearer scheme of section 2.1
    of RFC 6750), read as the second space-separated field. The key lookup
    `getSplitwiseApiKey` is a database call and is not part of this model. */
module Auth {
  import opened Wrappers
  import opened JsText

  const BearerPrefix: string := "Bearer "

  /** A header that starts with "Bearer " splits on spaces into at least two
      fields, the second being the text after the prefix up to the next space. */
  lemma {:induction false} BearerSplit(h: string)
    requires StartsWith(h, BearerPrefix)
    ensures |Split(h, ' ')| >= 2
    ensures Split(h, ' ')[1..] == Split(h[7..], ' ')
  {
    assert h[..7] == BearerPrefix;
    assert h[6] == ' ';
    SplitFirstField(h, ' ', 6);
  }

  /** `extractJwt(authHeader)`: `null` unless the header starts with the
      exact prefix "Bearer ", else the second space-separated field. */
  function ExtractJwt(header: Option<string>): (r: Option<string>)
    ensures r.None? <==> header.None? || !StartsWith(header.value, BearerPrefix)
    ensures r.Some? ==> ' ' !in r.value
  {
    match header
    case None => None
    case Some(h) =>
      if StartsWith(h, BearerPrefix) then
        BearerSplit(h);
        SplitFieldsFree(h, ' ');
        Some(Split(h, ' ')[1])
      else None
  }

  /** The token is what follows "Bearer " up to the first further space (or
      the end): "Bearer a b" gives "a", "Bearer " alone gives "". */
  lemma TokenUpToSpace(t: string, i: nat)
    requires i <= |t|
    requires forall j :: 0 <= j < i ==> t[j] != ' '
    requires i == |t| || t[i] == ' '
    ensures ExtractJwt(Some(BearerPrefix + t)) == Some(t[..i])
  {
    var h := BearerPrefix + t;
    assert h[..7] == BearerPrefix;
    BearerSplit(h);
    assert h[7..] == t;
    SplitFirstField(t, ' ', i);
  }

  /** "Bearer " alone yields the empty token, not `null`. */
  lemma BarePrefixGivesEmptyToken()
    ensures ExtractJwt(Some("Bearer ")) == Some("")
  {
    TokenUpToSpace("", 0);
    assert BearerPrefix + "" == "Bearer ";
  }
}
