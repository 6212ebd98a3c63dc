/** The `get_items` edge function: it takes a receipt photo (a data URI or
    bare base64), asks Gemini for the item list and hands back the JSON it
    answered with. The environment key, the parsed request body, Gemini's
    answer and `JSON.parse` are parameters. */
module GetItems {
  import opened Wrappers
  import opened JsText

  // ------------------------------------------------------------ data URIs

  const DefaultMime: string := "image/jpeg"
  const DataTag: string := "data:"

  /** The first `;` at or after `k`, or the end of `s`. */
  function SemicolonFrom(s: string, k: nat): (q: nat)
    requires k <= |s|
    ensures k <= q <= |s|
    ensures q < |s| ==> s[q] == ';'
    ensures forall j :: k <= j < q ==> s[j] != ';'
    decreases |s| - k
  {
    if k == |s| || s[k] == ';' then k else SemicolonFrom(s, k + 1)
  }

  /** `/data:([^;]+);/` matches at `p`: the tag, then a non-empty run of
      characters other than `;`, then a `;`. The run is greedy and a shorter
      one is followed by a character other than `;`, so the run always ends
      at the first `;` after the tag. */
  predicate MatchAt(s: string, p: nat) {
    OccursAt(s, DataTag, p) && p + |DataTag| < SemicolonFrom(s, p + |DataTag|) < |s|
  }

  /** The capture group of the match at `p`. */
  function Group(s: string, p: nat): string
    requires MatchAt(s, p)
  {
    s[p + |DataTag|..SemicolonFrom(s, p + |DataTag|)]
  }

  /** The leftmost match at or after `from`, as a regular-expression search
      finds it. */
  function FirstMatch(s: string, from: nat): (r: Option<nat>)
    requires from <= |s|
    ensures r.Some? ==> from <= r.value <= |s| && MatchAt(s, r.value)
                        && forall p :: from <= p < r.value ==> !MatchAt(s, p)
    ensures r.None? ==> forall p :: from <= p <= |s| ==> !MatchAt(s, p)
    decreases |s| - from
  {
    if MatchAt(s, from) then Some(from)
    else if from == |s| then None
    else FirstMatch(s, from + 1)
  }

  /** `prefix.match(/data:([^;]+);/)?.[1]`: the text after the first usable
      `data:` up to the next `;`. */
  function MimeMatch(prefix: string): (r: Option<string>)
    ensures r.None? <==> forall p :: 0 <= p <= |prefix| ==> !MatchAt(prefix, p)
    ensures r.Some? ==> |r.value| > 0 && ';' !in r.value
                        && exists p :: OccursAt(prefix, DataTag + r.value + ";", p)
  {
    match FirstMatch(prefix, 0)
    case None => None
    case Some(p) =>
      MatchSpelled(prefix, p);
      Some(Group(prefix, p))
  }

  /** A match is the tag, its group and a `;`, and the group holds no `;`. */
  lemma MatchSpelled(s: string, p: nat)
    requires MatchAt(s, p)
    ensures |Group(s, p)| > 0 && ';' !in Group(s, p)
    ensures OccursAt(s, DataTag + Group(s, p) + ";", p)
  {
    var g := Group(s, p);
    var q := SemicolonFrom(s, p + |DataTag|);
    assert s[p..q + 1] == s[p..p + |DataTag|] + g + s[q..q + 1];
  }

  /** A prefix of the usual shape `data:<mime>;…` yields `<mime>`. */
  lemma MimeOfDataPrefix(mime: string, rest: string)
    requires |mime| > 0 && ';' !in mime
    ensures MimeMatch(DataTag + mime + ";" + rest) == Some(mime)
  {
    var s := DataTag + mime + ";" + rest;
    var q := SemicolonFrom(s, |DataTag|);
    assert s[|DataTag| + |mime|] == ';';
    assert forall j :: |DataTag| <= j < |DataTag| + |mime| ==> s[j] == mime[j - |DataTag|];
    assert q == |DataTag| + |mime|;
    assert s[..|DataTag|] == DataTag;
    assert MatchAt(s, 0);
    assert s[|DataTag|..q] == mime;
  }

  /** A prefix without `data:` leaves the mime type alone. */
  lemma NoTagNoMime(prefix: string)
    requires forall p :: 0 <= p <= |prefix| ==> !OccursAt(prefix, DataTag, p)
    ensures MimeMatch(prefix).None?
  {
  }

  /** What the data-URI split leaves in `mimeType` and `base64Data`: without a comma
      the whole image under `image/jpeg`; otherwise the second comma field as
      the payload, and the matched mime type of the first field if any. */
  predicate PayloadOf(image: string, mime: string, data: string) {
    if ',' !in image then mime == DefaultMime && data == image
    else
      var fields := Split(image, ',');
      |fields| >= 2 && data == fields[1] && mime == MimeMatch(fields[0]).GetOr(DefaultMime)
  }

  /** The data-URI split, assigning the two variables step by step. */
  method ParseImage(image: string) returns (mime: string, data: string)
    ensures PayloadOf(image, mime, data)
  {
    mime := DefaultMime;
    data := image;
    if ',' in image {
      SplitAtSeparator(image, ',');
      var fields := Split(image, ',');
      var prefix := fields[0];
      data := fields[1];
      var m := MimeMatch(prefix);
      if m.Some? {
        mime := m.value;
      }
    }
  }

  /** With a comma, the payload is the text between the first and the
      second comma (or the end), and the prefix is the text before the
      first comma. */
  lemma PayloadBetweenCommas(image: string, mime: string, data: string, i: nat, j: nat)
    requires PayloadOf(image, mime, data)
    requires i < j <= |image| && image[i] == ','
    requires forall k :: 0 <= k < i ==> image[k] != ','
    requires forall k :: i < k < j ==> image[k] != ','
    requires j == |image| || image[j] == ','
    ensures data == image[i + 1..j]
    ensures mime == MimeMatch(image[..i]).GetOr(DefaultMime)
  {
    SplitFirstField(image, ',', i);
    var tail := image[i + 1..];
    SplitFirstField(tail, ',', j - i - 1);
    assert tail[..j - i - 1] == image[i + 1..j];
  }

  // --------------------------------------------------------- code fences

  const Fence: string := "```"
  const JsonFence: string := "```json"

  predicate NoFence(s: string) {
    forall i :: 0 <= i <= |s| ==> !OccursAt(s, Fence, i)
  }

  /** The clean-up of Gemini's text: every "```json" taken out, then every
      remaining "```", then surrounding whitespace trimmed. */
  function CleanFences(raw: string): string {
    Trim(RemoveAll(RemoveAll(raw, JsonFence), Fence))
  }

  /** The removal keeps the first character of a text that does not start
      with the pattern. */
  lemma KeepsHead(s: string, pat: string)
    requires |pat| > 0 && s != [] && !StartsWith(s, pat)
    ensures RemoveAll(s, pat) == [s[0]] + RemoveAll(s[1..], pat)
  {
  }

  /** A fence at the start of a text is three backticks there. */
  lemma FenceAtStart(t: string)
    ensures OccursAt(t, Fence, 0) <==> |t| >= 3 && t[0] == '`' && t[1] == '`' && t[2] == '`'
  {
    if |t| >= 3 {
      assert t[..3][0] == t[0] && t[..3][1] == t[1] && t[..3][2] == t[2];
    }
  }

  /** A text that does not start with a fence does not start with one once
      the fences are removed either. */
  lemma NoFenceAtStart(s: string)
    requires !StartsWith(s, Fence)
    ensures !OccursAt(RemoveAll(s, Fence), Fence, 0)
  {
    var r := RemoveAll(s, Fence);
    FenceAtStart(s);
    FenceAtStart(r);
    if s != [] {
      KeepsHead(s, Fence);
      if s[0] == '`' && |s| >= 2 {
        FenceAtStart(s[1..]);
        KeepsHead(s[1..], Fence);
        if s[1] == '`' && |s| >= 3 {
          FenceAtStart(s[2..]);
          KeepsHead(s[2..], Fence);
        }
      }
    }
  }

  /** Prepending a character adds no fence except possibly at the start. */
  lemma NoFenceCons(c: char, t: string)
    requires NoFence(t) && !OccursAt([c] + t, Fence, 0)
    ensures NoFence([c] + t)
  {
    var r := [c] + t;
    forall i | 0 < i && i + 3 <= |r|
      ensures !OccursAt(r, Fence, i)
    {
      assert r[i..i + 3] == t[i - 1..i + 2];
      assert !OccursAt(t, Fence, i - 1);
    }
  }

  /** Removing every fence leaves none behind: a run of backticks loses
      three at a time from its start, so fewer than three stay, and runs
      are never joined. */
  lemma {:induction false} NoFenceLeft(s: string)
    ensures NoFence(RemoveAll(s, Fence))
    decreases |s|
  {
    if s == [] {
    } else if StartsWith(s, Fence) {
      NoFenceLeft(s[3..]);
    } else {
      NoFenceLeft(s[1..]);
      KeepsHead(s, Fence);
      NoFenceAtStart(s);
      NoFenceCons(s[0], RemoveAll(s[1..], Fence));
    }
  }

  /** A slice of a text without fences has none. */
  lemma NoFenceSlice(s: string, a: nat, b: nat)
    requires a <= b <= |s| && NoFence(s)
    ensures NoFence(s[a..b])
  {
    var t := s[a..b];
    forall i | 0 <= i && i + 3 <= |t|
      ensures !OccursAt(t, Fence, i)
    {
      SliceOfSlice(s, a, b, i, i + 3);
      assert !OccursAt(s, Fence, a + i);
    }
  }

  /** A slice of a slice is a slice of the whole. */
  lemma SliceOfSlice(s: string, a: nat, b: nat, i: nat, j: nat)
    requires a <= b <= |s| && i <= j <= b - a
    ensures s[a..b][i..j] == s[a + i..a + j]
  {
    var t := s[a..b][i..j];
    assert |t| == j - i;
    forall k | 0 <= k < j - i
      ensures t[k] == s[a + i + k]
    {
    }
  }

  /** The cleaned text holds no fence, whatever Gemini answered. */
  lemma CleanedHasNoFence(raw: string)
    ensures NoFence(CleanFences(raw))
  {
    var x := RemoveAll(RemoveAll(raw, JsonFence), Fence);
    NoFenceLeft(RemoveAll(raw, JsonFence));
    TrimIsSlice(x);
    var a, b :| 0 <= a <= b <= |x| && Trim(x) == x[a..b];
    NoFenceSlice(x, a, b);
  }

  /** Text that does not hold the pattern's first character passes through
      the removal unchanged. */
  lemma {:induction false} RemoveAllPlain(a: string, b: string, pat: string)
    requires |pat| > 0 && pat[0] !in a
    ensures RemoveAll(a + b, pat) == a + RemoveAll(b, pat)
  {
    if a == [] {
      assert a + b == b;
    } else {
      assert (a + b)[0] == a[0] != pat[0];
      assert (a + b)[1..] == a[1..] + b;
      RemoveAllPlain(a[1..], b, pat);
      assert a == [a[0]] + a[1..];
    }
  }

  /** A text shorter than the pattern is left alone. */
  lemma {:induction false} RemoveAllShort(s: string, pat: string)
    requires 0 < |pat| && |s| < |pat|
    ensures RemoveAll(s, pat) == s
  {
    if s != [] {
      RemoveAllShort(s[1..], pat);
    }
  }

  /** An answer without backticks is only trimmed. */
  lemma CleanWithoutBackticks(raw: string)
    requires '`' !in raw
    ensures CleanFences(raw) == Trim(raw)
  {
    RemoveAllPlain(raw, [], JsonFence);
    assert raw + [] == raw;
    RemoveAllPlain(raw, [], Fence);
  }

  /** An answer wrapped in a `json` code block is unwrapped. */
  lemma UnwrapsJsonBlock(t: string)
    requires '`' !in t
    ensures CleanFences(JsonFence + t + Fence) == Trim(t)
  {
    var s := JsonFence + t + Fence;
    assert StartsWith(s, JsonFence);
    assert s[|JsonFence|..] == t + Fence;
    RemoveAllPlain(t, Fence, JsonFence);
    RemoveAllShort(Fence, JsonFence);
    RemoveAllPlain(t, Fence, Fence);
    assert StartsWith(Fence, Fence);
    assert Fence[|Fence|..] == [];
    assert t + [] == t;
  }

  /** A reply framed by ideographic spaces (U+3000) is trimmed, as by
      `trim()`, before it reaches `JSON.parse`. */
  lemma CleanTrimsIdeographicSpace(t: string)
    requires '`' !in t && t != [] && !IsWhite(t[0]) && !IsWhite(t[|t| - 1])
    ensures CleanFences("\U{3000}" + t + "\U{3000}") == t
  {
    var raw := "\U{3000}" + t + "\U{3000}";
    assert '`' !in raw;
    CleanWithoutBackticks(raw);
    TrimIdeographicFrame(t);
  }

  // ------------------------------------------------------------- handler

  /** What the Gemini request gave: an HTTP answer (its `ok` flag, status,
      body text when not ok, and `candidates[0].content.parts[0].text` when
      present) or a thrown error. */
  datatype Upstream =
    | Answered(ok: bool, status: int, errorText: string, text: Option<string>)
    | Failed(message: string)

  datatype Body = Text(text: string) | Items(response: string) | Error(message: string)

  datatype Response = Response(status: int, body: Body)

  const KeyMissing: string := "Gemini API key not configured"
  const InvalidJson: string := "Invalid JSON body"
  const MissingImage: string := "Missing image field"

  /** The handler. `body` is the parsed request (`None` when it is not
      JSON) with its `image` field; `parse` is `JSON.parse` followed by the
      two-space `JSON.stringify`, or the message it throws. It returns the
      mime type and payload sent to Gemini (`None` when nothing was sent)
      and the response. */
  method Handle(httpMethod: string, apiKey: Option<string>, body: Option<Option<string>>,
                upstream: Upstream, parse: string -> Result<string, string>)
    returns (sent: Option<(string, string)>, resp: Response)
    ensures httpMethod == "OPTIONS" ==> sent.None? && resp == Response(200, Text("ok"))
    ensures httpMethod != "OPTIONS" && (apiKey.None? || apiKey.value == "")
      ==> sent.None? && resp == Response(500, Error(KeyMissing))
    ensures httpMethod != "OPTIONS" && apiKey.Some? && apiKey.value != "" && body.None?
      ==> sent.None? && resp == Response(400, Error(InvalidJson))
    ensures httpMethod != "OPTIONS" && apiKey.Some? && apiKey.value != "" && body.Some?
      && (body.value.None? || body.value.value == "")
      ==> sent.None? && resp == Response(400, Error(MissingImage))
    ensures sent.Some? <==> (httpMethod != "OPTIONS" && apiKey.Some? && apiKey.value != ""
                             && body.Some? && body.value.Some? && body.value.value != "")
    ensures sent.Some? ==> PayloadOf(body.value.value, sent.value.0, sent.value.1)
    ensures sent.Some? && upstream.Failed? ==> resp == Response(500, Error(upstream.message))
    ensures sent.Some? && upstream.Answered? && !upstream.ok
      ==> resp == Response(500, Error("Gemini API error: " + IntToString(upstream.status)
                                      + " - " + upstream.errorText))
    ensures sent.Some? && upstream.Answered? && upstream.ok
      ==> var parsed := parse(CleanFences(upstream.text.GetOr("")));
          resp == (if parsed.Ok? then Response(200, Items(parsed.value)) else Response(500, Error(parsed.error)))
  {
    if httpMethod == "OPTIONS" {
      return None, Response(200, Text("ok"));
    }
    if apiKey.None? || apiKey.value == "" {
      return None, Response(500, Error(KeyMissing));
    }
    if body.None? {
      return None, Response(400, Error(InvalidJson));
    }
    if body.value.None? || body.value.value == "" {
      return None, Response(400, Error(MissingImage));
    }
    var mime, data := ParseImage(body.value.value);
    sent := Some((mime, data));
    match upstream
    case Failed(message) =>
      resp := Response(500, Error(message));
    case Answered(ok, status, errorText, text) =>
      if !ok {
        resp := Response(500, Error("Gemini API error: " + IntToString(status) + " - " + errorText));
      } else {
        var cleaned := CleanFences(text.GetOr(""));
        match parse(cleaned)
        case Ok(pretty) =>
          resp := Response(200, Items(pretty));
        case Err(message) =>
          resp := Response(500, Error(message));
      }
  }
}
