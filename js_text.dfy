/** The few JavaScript string and number primitives the app relies on:
    `trim`, `split` on one character, `startsWith`, `replace(/lit/g, '')`,
    `String(n)` for integers and `parseInt` without a radix. Strings are
    sequences of characters; UTF-16 surrogate pairs are not distinguished. */
module JsText {
  import opened Wrappers

  // ---------------------------------------------------------------- whitespace

  /** The characters `String.prototype.trim` and `parseInt` skip: the
      ECMAScript WhiteSpace set (tab, vertical tab, form feed, BOM and every
      Unicode space separator) and the LineTerminator set (line feed,
      carriage return, line and paragraph separators). */
  predicate IsWhite(c: char) {
    c == '\t' || c == '\U{000B}' || c == '\U{000C}' || c == '\U{FEFF}'
    || IsSpaceSeparator(c)
    || c == '\n' || c == '\r' || c == '\U{2028}' || c == '\U{2029}'
  }

  /** The Unicode general category Zs. */
  predicate IsSpaceSeparator(c: char) {
    c == ' ' || c == '\U{00A0}' || c == '\U{1680}' || ('\U{2000}' <= c <= '\U{200A}')
    || c == '\U{202F}' || c == '\U{205F}' || c == '\U{3000}'
  }

  function TrimStart(s: string): (r: string)
    ensures |r| <= |s| && r == s[|s| - |r|..]
    ensures r == [] || !IsWhite(r[0])
    ensures forall i :: 0 <= i < |s| - |r| ==> IsWhite(s[i])
  {
    if s == [] || !IsWhite(s[0]) then s else TrimStart(s[1..])
  }

  function TrimEnd(s: string): (r: string)
    ensures |r| <= |s| && r == s[..|r|]
    ensures r == [] || !IsWhite(r[|r| - 1])
    ensures forall i :: |r| <= i < |s| ==> IsWhite(s[i])
  {
    if s == [] || !IsWhite(s[|s| - 1]) then s else TrimEnd(s[..|s| - 1])
  }

  /** `s.trim()` */
  function Trim(s: string): string {
    TrimEnd(TrimStart(s))
  }

  /** `s.trim()` is empty exactly when every character of `s` is whitespace. */
  lemma TrimEmptyIffAllWhite(s: string)
    ensures Trim(s) == [] <==> forall i :: 0 <= i < |s| ==> IsWhite(s[i])
  {
    var t := TrimStart(s);
    if Trim(s) == [] {
    } else {
      var r := Trim(s);
      assert r == t[..|r|];
      assert !IsWhite(s[|s| - |t|]);
    }
  }

  /** Ideographic spaces (U+3000) around a text are trimmed away. */
  lemma TrimIdeographicFrame(t: string)
    requires t != [] && !IsWhite(t[0]) && !IsWhite(t[|t| - 1])
    ensures Trim("\U{3000}" + t + "\U{3000}") == t
  {
    var raw := "\U{3000}" + t + "\U{3000}";
    var body := t + "\U{3000}";
    assert raw[1..] == body;
    assert body[0] == t[0];
    assert TrimStart(raw) == body;
    assert body[..|body| - 1] == t;
    assert TrimEnd(t) == t;
    assert TrimEnd(body) == t;
  }

  /** Trimming keeps a contiguous slice of the input. */
  lemma TrimIsSlice(s: string)
    ensures exists i, j :: 0 <= i <= j <= |s| && Trim(s) == s[i..j]
  {
    var t := TrimStart(s);
    var r := TrimEnd(t);
    var i := |s| - |t|;
    assert r == t[..|r|] && t == s[i..];
    assert r == s[i..i + |r|];
  }

  // ---------------------------------------------------------------- searching

  predicate StartsWith(s: string, prefix: string) {
    |prefix| <= |s| && s[..|prefix|] == prefix
  }

  /** `pat` occurs in `s` starting at index `i`. */
  predicate OccursAt(s: string, pat: string, i: int) {
    0 <= i && i + |pat| <= |s| && s[i..i + |pat|] == pat
  }

  predicate Contains(s: string, pat: string) {
    exists i :: 0 <= i <= |s| && OccursAt(s, pat, i)
  }

  // ---------------------------------------------------------------- split / join

  /** `s.split(sep)` for a one-character separator: the text between
      consecutive separators, so the empty string splits into `[""]`. */
  function Split(s: string, sep: char): (r: seq<string>)
    ensures |r| >= 1
  {
    if s == [] then [""]
    else
      var rest := Split(s[1..], sep);
      if s[0] == sep then [""] + rest else [[s[0]] + rest[0]] + rest[1..]
  }

  function Join(parts: seq<string>, sep: char): string
    requires |parts| >= 1
  {
    if |parts| == 1 then parts[0] else parts[0] + [sep] + Join(parts[1..], sep)
  }

  /** Splitting loses nothing: joining the fields back gives the input. */
  lemma {:induction false} JoinSplit(s: string, sep: char)
    ensures Join(Split(s, sep), sep) == s
  {
    if s != [] {
      var rest := Split(s[1..], sep);
      JoinSplit(s[1..], sep);
      if s[0] == sep {
        assert Split(s, sep)[1..] == rest;
      } else {
        var r := Split(s, sep);
        if |rest| == 1 {
          assert r == [[s[0]] + rest[0]];
        } else {
          assert r[1..] == rest[1..];
          assert Join(rest, sep) == rest[0] + [sep] + Join(rest[1..], sep);
        }
      }
    }
  }

  /** No field of a split contains the separator. */
  lemma {:induction false} SplitFieldsFree(s: string, sep: char)
    ensures forall k :: 0 <= k < |Split(s, sep)| ==> sep !in Split(s, sep)[k]
  {
    if s != [] {
      SplitFieldsFree(s[1..], sep);
    }
  }

  /** Characters before the first separator form the first field. */
  lemma {:induction false} SplitFirstField(s: string, sep: char, i: nat)
    requires i <= |s|
    requires forall j :: 0 <= j < i ==> s[j] != sep
    requires i == |s| || s[i] == sep
    ensures Split(s, sep)[0] == s[..i]
    ensures i < |s| ==> Split(s, sep)[1..] == Split(s[i + 1..], sep)
  {
    if i > 0 {
      SplitFirstField(s[1..], sep, i - 1);
      assert s[1..][i - 1..] == s[i..];
    }
  }

  /** A string holding the separator splits into at least two fields. */
  lemma {:induction false} SplitAtSeparator(s: string, sep: char)
    requires sep in s
    ensures |Split(s, sep)| >= 2
  {
    if s[0] != sep {
      SplitAtSeparator(s[1..], sep);
    }
  }

  /** A string without the separator is a single field. */
  lemma {:induction false} SplitNoSeparator(s: string, sep: char)
    requires sep !in s
    ensures Split(s, sep) == [s]
  {
    if s != [] {
      SplitNoSeparator(s[1..], sep);
      assert s == [s[0]] + s[1..];
    }
  }

  /** The field at index `k` of `s.split(sep)`, or `undefined`. */
  function SplitField(s: string, sep: char, k: nat): Option<string> {
    var parts := Split(s, sep);
    if k < |parts| then Some(parts[k]) else None
  }

  // ---------------------------------------------------------------- replace

  /** `s.replace(/pat/g, '')` for a literal pattern: removes the leftmost
      non-overlapping occurrences, scanning from the left. */
  function RemoveAll(s: string, pat: string): (r: string)
    requires |pat| > 0
    ensures |r| <= |s|
  {
    if s == [] then []
    else if StartsWith(s, pat) then RemoveAll(s[|pat|..], pat)
    else [s[0]] + RemoveAll(s[1..], pat)
  }

  // ---------------------------------------------------------------- numbers

  predicate IsDigit(c: char) { '0' <= c <= '9' }

  /** No decimal digit is white space, and none is a sign. */
  lemma DigitNotWhite(c: char)
    requires IsDigit(c)
    ensures !IsWhite(c) && c != '-' && c != '+'
  {
  }

  /** The value of `c` as a digit in radix up to 36, or 36 if it is none. */
  function DigitValue(c: char): (v: nat)
    ensures v <= 36
    ensures IsDigit(c) <==> v < 10
  {
    if '0' <= c <= '9' then (c - '0') as nat
    else if 'a' <= c <= 'z' then (c - 'a') as nat + 10
    else if 'A' <= c <= 'Z' then (c - 'A') as nat + 10
    else 36
  }

  function DigitChar(d: nat): (c: char)
    requires d < 10
    ensures IsDigit(c) && DigitValue(c) == d
  {
    '0' + d as char
  }

  /** `String(n)` for a non-negative integer. */
  function NatToString(n: nat): (r: string)
    ensures |r| >= 1
    ensures forall i :: 0 <= i < |r| ==> IsDigit(r[i])
    ensures r[0] == '0' ==> n == 0
  {
    if n < 10 then [DigitChar(n)] else NatToString(n / 10) + [DigitChar(n % 10)]
  }

  /** `String(n)` for an integer: a minus sign, then the digits. */
  function IntToString(n: int): string {
    if n < 0 then "-" + NatToString(-n) else NatToString(n)
  }

  /** Value of a string of radix digits, most significant first. */
  function DigitsValue(s: string, radix: nat): (v: nat)
    requires forall i :: 0 <= i < |s| ==> DigitValue(s[i]) < radix
  {
    if s == [] then 0
    else
      var high := DigitsValue(s[..|s| - 1], radix);
      ProductOfNats(high, radix);
      high * radix + DigitValue(s[|s| - 1])
  }

  lemma ProductOfNats(a: nat, b: nat)
    ensures a * b >= 0
  {
  }

  /** Number of leading characters of `s` that are digits of `radix`. */
  function LeadingDigits(s: string, radix: nat): (k: nat)
    ensures k <= |s|
    ensures forall i :: 0 <= i < k ==> DigitValue(s[i]) < radix
    ensures k < |s| ==> DigitValue(s[k]) >= radix
  {
    if s == [] || DigitValue(s[0]) >= radix then 0 else 1 + LeadingDigits(s[1..], radix)
  }

  /** The unsigned part of `parseInt`: a `0x`/`0X` prefix switches to
      radix 16, then the longest run of digits is read; `None` when that run
      is empty. */
  function ParseUnsigned(u: string): Option<nat> {
    var hex := |u| >= 2 && u[0] == '0' && (u[1] == 'x' || u[1] == 'X');
    var radix := if hex then 16 else 10;
    var body := if hex then u[2..] else u;
    var k := LeadingDigits(body, radix);
    if k == 0 then None else Some(DigitsValue(body[..k], radix))
  }

  /** `parseInt(s)` with no radix: skip leading whitespace, take an optional
      sign, then read the unsigned part; `NaN` is `None`. */
  function ParseInt(s: string): Option<int> {
    var t := TrimStart(s);
    var neg := |t| > 0 && t[0] == '-';
    var u := if |t| > 0 && (t[0] == '-' || t[0] == '+') then t[1..] else t;
    Signed(neg, ParseUnsigned(u))
  }

  function Signed(neg: bool, v: Option<nat>): Option<int> {
    match v
    case None => None
    case Some(x) => Some(if neg then 0 - x as int else x as int)
  }

  lemma {:induction false} NatToStringValue(n: nat)
    ensures forall i :: 0 <= i < |NatToString(n)| ==> DigitValue(NatToString(n)[i]) < 10
    ensures DigitsValue(NatToString(n), 10) == n
  {
    if n >= 10 {
      NatToStringValue(n / 10);
      var s := NatToString(n);
      assert s[..|s| - 1] == NatToString(n / 10);
    }
  }

  lemma {:induction false} AllDigitsLeading(s: string)
    requires forall i :: 0 <= i < |s| ==> IsDigit(s[i])
    ensures LeadingDigits(s, 10) == |s|
  {
    if s != [] {
      AllDigitsLeading(s[1..]);
    }
  }

  /** The unsigned reader takes back a plain run of decimal digits. */
  lemma ParseUnsignedDigits(d: string)
    requires |d| >= 1 && forall i :: 0 <= i < |d| ==> IsDigit(d[i])
    ensures ParseUnsigned(d) == Some(DigitsValue(d, 10))
  {
    var hex := |d| >= 2 && d[0] == '0' && (d[1] == 'x' || d[1] == 'X');
    assert !hex by {
      if |d| >= 2 {
        assert IsDigit(d[1]);
      }
    }
    AllDigitsLeading(d);
    assert d[..|d|] == d;
  }

  /** `parseInt` reads a plain run of decimal digits, leading zeros and all. */
  lemma ParseIntDigits(d: string)
    requires |d| >= 1 && forall i :: 0 <= i < |d| ==> IsDigit(d[i])
    ensures ParseInt(d) == Some(DigitsValue(d, 10) as int)
  {
    assert !IsWhite(d[0]) && d[0] != '-' && d[0] != '+';
    ParseIntUnsigned(d);
    ParseUnsignedDigits(d);
  }

  /** Without leading whitespace or sign, `parseInt` is the unsigned reader. */
  lemma ParseIntUnsigned(d: string)
    requires |d| >= 1 && !IsWhite(d[0]) && d[0] != '-' && d[0] != '+'
    ensures ParseInt(d) == ParseUnsigned(d)
  {
    assert TrimStart(d) == d;
  }

  /** A leading minus sign negates what the unsigned reader finds. */
  lemma ParseIntMinus(d: string)
    ensures ParseInt("-" + d) == Signed(true, ParseUnsigned(d))
  {
    var m := "-" + d;
    assert TrimStart(m) == m by { assert !IsWhite(m[0]); }
    assert ParseInt(m) == Signed(true, ParseUnsigned(m[1..]));
    assert m[1..] == d;
  }

  /** `parseInt(String(n)) == n` for every integer `n`. */
  lemma ParseIntOfString(n: int)
    ensures ParseInt(IntToString(n)) == Some(n)
  {
    var m: nat := if n < 0 then -n else n;
    var d := NatToString(m);
    NatToStringValue(m);
    ParseUnsignedDigits(d);
    if n < 0 {
      ParseIntMinus(d);
    } else {
      ParseIntUnsigned(d);
    }
  }

  /** Different non-negative integers print differently. */
  lemma {:induction false} NatToStringInjective(a: nat, b: nat)
    requires NatToString(a) == NatToString(b)
    ensures a == b
  {
    NatToStringValue(a);
    NatToStringValue(b);
  }
}
