/** Calendar arithmetic shared by the store and the month picker: a
    month of a year, a local date-time as a JavaScript `Date` shows it in the
    browser's zone, the date-fns operations `addMonths`/`subMonths` and
    `format(d, 'yyyy-MM')`, `parseISO` of a `yyyy-MM-01` string, and the
    month prefix of `toISOString()`. The zone is a fixed offset from UTC;
    daylight saving is not modelled. */
module Calendar {
  import opened Wrappers
  import opened JsText

  // ------------------------------------------------------------- months

  /** A month of a year; `month` runs 1..12 when valid. */
  datatype YearMonth = YearMonth(year: int, month: int)

  predicate ValidMonth(ym: YearMonth) {
    1 <= ym.month <= 12
  }

  /** Months counted from January of year 0. */
  function MonthIndex(ym: YearMonth): int {
    ym.year * 12 + (ym.month - 1)
  }

  /** The month with a given index. */
  function FromIndex(i: int): (ym: YearMonth)
    ensures ValidMonth(ym) && MonthIndex(ym) == i
  {
    YearMonth(i / 12, i % 12 + 1)
  }

  /** Month indices number the valid months one to one. */
  lemma FromIndexOfIndex(ym: YearMonth)
    requires ValidMonth(ym)
    ensures FromIndex(MonthIndex(ym)) == ym
  {
    var i := MonthIndex(ym);
    assert i == ym.year * 12 + (ym.month - 1);
    assert i / 12 == ym.year && i % 12 == ym.month - 1;
  }

  /** `n` months after `ym` (before it when `n` is negative). */
  function ShiftMonth(ym: YearMonth, n: int): (r: YearMonth)
    ensures ValidMonth(r) && MonthIndex(r) == MonthIndex(ym) + n
  {
    FromIndex(MonthIndex(ym) + n)
  }

  /** The months just before and just after a month, across a year end. */
  lemma NeighbourMonths(ym: YearMonth)
    requires ValidMonth(ym)
    ensures ShiftMonth(ym, -1) == if ym.month == 1 then YearMonth(ym.year - 1, 12) else YearMonth(ym.year, ym.month - 1)
    ensures ShiftMonth(ym, 1) == if ym.month == 12 then YearMonth(ym.year + 1, 1) else YearMonth(ym.year, ym.month + 1)
  {
    var before := if ym.month == 1 then YearMonth(ym.year - 1, 12) else YearMonth(ym.year, ym.month - 1);
    var after := if ym.month == 12 then YearMonth(ym.year + 1, 1) else YearMonth(ym.year, ym.month + 1);
    FromIndexOfIndex(before);
    FromIndexOfIndex(after);
  }

  /** Stepping back one month and forward one month are inverse. */
  lemma ShiftMonthInverse(ym: YearMonth, n: int)
    requires ValidMonth(ym)
    ensures ShiftMonth(ShiftMonth(ym, n), -n) == ym
  {
    FromIndexOfIndex(ym);
  }

  predicate LeapYear(y: int) {
    (y % 4 == 0 && y % 100 != 0) || y % 400 == 0
  }

  /** Days in a month of the proleptic Gregorian calendar. */
  function DaysIn(ym: YearMonth): (n: int)
    ensures 28 <= n <= 31
  {
    if ym.month == 2 then (if LeapYear(ym.year) then 29 else 28)
    else if ym.month == 4 || ym.month == 6 || ym.month == 9 || ym.month == 11 then 30
    else 31
  }

  // --------------------------------------------------------- date-times

  const DayMs: int := 24 * 60 * 60 * 1000

  /** A local date-time: calendar date and milliseconds since midnight. */
  datatype DateTime = DateTime(year: int, month: int, day: int, msOfDay: int)

  function MonthOf(dt: DateTime): YearMonth {
    YearMonth(dt.year, dt.month)
  }

  predicate ValidDateTime(dt: DateTime) {
    ValidMonth(MonthOf(dt)) && 1 <= dt.day <= DaysIn(MonthOf(dt)) && 0 <= dt.msOfDay < DayMs
  }

  /** date-fns `addMonths(d, n)`: same day of month and time of day, `n`
      months later, the day clamped to the length of the target month. */
  function AddMonths(dt: DateTime, n: int): (r: DateTime)
    ensures MonthIndex(MonthOf(r)) == MonthIndex(MonthOf(dt)) + n
    ensures r.msOfDay == dt.msOfDay
    ensures r.day == if dt.day <= DaysIn(MonthOf(r)) then dt.day else DaysIn(MonthOf(r))
    ensures ValidDateTime(dt) ==> ValidDateTime(r)
  {
    var target := ShiftMonth(MonthOf(dt), n);
    var last := DaysIn(target);
    DateTime(target.year, target.month, if dt.day <= last then dt.day else last, dt.msOfDay)
  }

  /** A day that exists in every month survives any number of month steps. */
  lemma AddMonthsKeepsEarlyDay(dt: DateTime, n: int)
    requires ValidDateTime(dt) && dt.day <= 28
    ensures AddMonths(dt, n).day == dt.day
    ensures AddMonths(AddMonths(dt, n), -n) == dt
  {
    FromIndexOfIndex(MonthOf(dt));
  }

  /** The day before, as a calendar date (time of day unchanged). */
  function PrevDay(dt: DateTime): DateTime {
    if dt.day > 1 then dt.(day := dt.day - 1)
    else
      var p := ShiftMonth(MonthOf(dt), -1);
      DateTime(p.year, p.month, DaysIn(p), dt.msOfDay)
  }

  /** The day after, as a calendar date (time of day unchanged). */
  function NextDay(dt: DateTime): DateTime {
    if dt.day < DaysIn(MonthOf(dt)) then dt.(day := dt.day + 1)
    else
      var n := ShiftMonth(MonthOf(dt), 1);
      DateTime(n.year, n.month, 1, dt.msOfDay)
  }

  /** A zone offset (local time minus UTC), less than a day either way. */
  type Offset = o: int | -DayMs < o < DayMs

  /** The UTC date-time of a local date-time in a zone `offset` ms ahead of
      UTC: the time of day moves back by the offset, crossing at most one
      midnight. */
  function ToUtc(dt: DateTime, offset: Offset): (u: DateTime)
    ensures ValidDateTime(dt) ==> 0 <= u.msOfDay < DayMs
    ensures offset == 0 && ValidDateTime(dt) ==> u == dt
  {
    var t := dt.msOfDay - offset;
    if t < 0 then PrevDay(dt).(msOfDay := t + DayMs)
    else if t >= DayMs then NextDay(dt).(msOfDay := t - DayMs)
    else dt.(msOfDay := t)
  }

  /** An order-preserving stand-in for `getTime()` of valid local
      date-times in one fixed zone: lexicographic on (date, time). */
  function TimeKey(dt: DateTime): int {
    ((dt.year * 12 + (dt.month - 1)) * 31 + (dt.day - 1)) * DayMs + dt.msOfDay
  }

  // --------------------------------------------------------------- text

  function Zeros(k: nat): (z: string)
    ensures |z| == k && forall i :: 0 <= i < k ==> z[i] == '0'
  {
    seq(k, _ => '0')
  }

  /** `n` in decimal, left-padded with zeros to at least `width` digits. */
  function Pad(n: nat, width: nat): (r: string)
    ensures |r| == if |NatToString(n)| >= width then |NatToString(n)| else width
    ensures forall i :: 0 <= i < |r| ==> IsDigit(r[i])
  {
    var d := NatToString(n);
    if |d| >= width then d else Zeros(width - |d|) + d
  }

  /** A zero in front does not change the value of a digit string. */
  lemma {:induction false} LeadingZeroValue(s: string)
    requires forall i :: 0 <= i < |s| ==> IsDigit(s[i])
    ensures forall i :: 0 <= i < |['0'] + s| ==> DigitValue((['0'] + s)[i]) < 10
    ensures DigitsValue(['0'] + s, 10) == DigitsValue(s, 10)
  {
    var t := ['0'] + s;
    if s != [] {
      LeadingZeroValue(s[..|s| - 1]);
      assert t[..|t| - 1] == ['0'] + s[..|s| - 1];
    }
  }

  lemma {:induction false} ZerosValue(k: nat, s: string)
    requires forall i :: 0 <= i < |s| ==> IsDigit(s[i])
    ensures forall i :: 0 <= i < |Zeros(k) + s| ==> DigitValue((Zeros(k) + s)[i]) < 10
    ensures DigitsValue(Zeros(k) + s, 10) == DigitsValue(s, 10)
  {
    if k > 0 {
      ZerosValue(k - 1, s);
      var rest := Zeros(k - 1) + s;
      assert Zeros(k) == ['0'] + Zeros(k - 1);
      assert Zeros(k) + s == ['0'] + rest;
      assert forall i :: 0 <= i < |rest| ==> IsDigit(rest[i]);
      LeadingZeroValue(rest);
    } else {
      assert Zeros(k) + s == s;
    }
  }

  /** Padding keeps the value. */
  lemma PadValue(n: nat, width: nat)
    ensures forall i :: 0 <= i < |Pad(n, width)| ==> DigitValue(Pad(n, width)[i]) < 10
    ensures DigitsValue(Pad(n, width), 10) == n
  {
    NatToStringValue(n);
    var d := NatToString(n);
    if |d| < width {
      ZerosValue(width - |d|, d);
    }
  }

  /** Two digit strings of one length with one value are equal. */
  lemma {:induction false} DigitsValueInjective(a: string, b: string)
    requires |a| == |b|
    requires forall i :: 0 <= i < |a| ==> IsDigit(a[i])
    requires forall i :: 0 <= i < |b| ==> IsDigit(b[i])
    requires DigitsValue(a, 10) == DigitsValue(b, 10)
    ensures a == b
  {
    if a != [] {
      var n := |a| - 1;
      DigitsLastEqual(a, b);
      DigitsValueInjective(a[..n], b[..n]);
      assert a == a[..n] + [a[n]] && b == b[..n] + [b[n]];
    }
  }

  /** Equal values of equal-length digit strings share their last digit and
      the value of what precedes it. */
  lemma DigitsLastEqual(a: string, b: string)
    requires |a| == |b| > 0
    requires forall i :: 0 <= i < |a| ==> IsDigit(a[i])
    requires forall i :: 0 <= i < |b| ==> IsDigit(b[i])
    requires DigitsValue(a, 10) == DigitsValue(b, 10)
    ensures a[|a| - 1] == b[|b| - 1]
    ensures DigitsValue(a[..|a| - 1], 10) == DigitsValue(b[..|b| - 1], 10)
  {
    var n := |a| - 1;
    assert IsDigit(a[n]) && IsDigit(b[n]);
    TensAndUnits(DigitsValue(a[..n], 10), DigitValue(a[n]), DigitsValue(b[..n], 10), DigitValue(b[n]));
  }

  lemma TensAndUnits(h1: nat, d1: nat, h2: nat, d2: nat)
    requires d1 < 10 && d2 < 10
    requires h1 * 10 + d1 == h2 * 10 + d2
    ensures h1 == h2 && d1 == d2
  {
  }

  /** A number below 10^k pads to exactly k digits. */
  lemma PadWidth(n: nat, k: nat)
    requires 1 <= k <= 6
    requires n < if k == 1 then 10 else if k == 2 then 100 else if k == 3 then 1000
                 else if k == 4 then 10000 else if k == 5 then 100000 else 1000000
    ensures |Pad(n, k)| == k
  {
    NatToStringLength(n, k);
  }

  lemma {:induction false} NatToStringLength(n: nat, k: nat)
    requires 1 <= k <= 6
    requires n < if k == 1 then 10 else if k == 2 then 100 else if k == 3 then 1000
                 else if k == 4 then 10000 else if k == 5 then 100000 else 1000000
    ensures |NatToString(n)| <= k
  {
    if n >= 10 {
      NatToStringLength(n / 10, k - 1);
    }
  }

  /** date-fns `yyyy`: the year of the era, so year 0 prints as 0001 and
      year -1 as 0002; at least four digits. */
  function YearText(y: int): string {
    Pad(if y > 0 then y else 1 - y, 4)
  }

  /** `format(d, 'yyyy-MM')` of a month. */
  function MonthText(ym: YearMonth): string
    requires ValidMonth(ym)
  {
    YearText(ym.year) + "-" + Pad(ym.month, 2)
  }

  /** `format(d, 'yyyy-MM')` of a local date-time. */
  function FormatMonth(dt: DateTime): string
    requires ValidMonth(MonthOf(dt))
  {
    MonthText(MonthOf(dt))
  }

  /** Four digits, a dash, two digits. */
  predicate MonthShaped(s: string) {
    |s| == 7 && s[4] == '-' && IsDigit(s[0]) && IsDigit(s[1]) && IsDigit(s[2]) && IsDigit(s[3])
    && IsDigit(s[5]) && IsDigit(s[6])
  }

  /** The year and month fields of a month-shaped string are digit runs. */
  lemma MonthShapedFields(s: string)
    requires MonthShaped(s)
    ensures |s[..4]| == 4 && forall i :: 0 <= i < 4 ==> IsDigit(s[..4][i])
    ensures |s[5..]| == 2 && forall i :: 0 <= i < 2 ==> IsDigit(s[5..][i])
    ensures '-' !in s[..4] && '-' !in s[5..]
  {
    assert s[..4] == [s[0], s[1], s[2], s[3]];
    assert s[5..] == [s[5], s[6]];
  }

  /** `parseISO(s + '-01')` as far as a month picker string goes: four
      digits, a dash, two digits naming a month 01..12; anything else is an
      invalid date (`None`). */
  function ParseMonth(s: string): (r: Option<YearMonth>)
    ensures r.Some? ==> ValidMonth(r.value) && 0 <= r.value.year <= 9999
  {
    if !MonthShaped(s) then None
    else
      var y := DigitsValue(s[..4], 10);
      var m := DigitsValue(s[5..], 10);
      DigitsBelow(s[..4]);
      if 1 <= m <= 12 then Some(YearMonth(y, m)) else None
  }

  lemma DigitsBelow(s: string)
    requires |s| == 4 && forall i :: 0 <= i < 4 ==> IsDigit(s[i])
    ensures DigitsValue(s, 10) <= 9999
  {
    assert s[..1][..0] == [];
    assert DigitsValue(s[..1], 10) <= 9;
    assert s[..2][..1] == s[..1];
    assert DigitsValue(s[..2], 10) <= 99;
    assert s[..3][..2] == s[..2];
    assert DigitsValue(s[..3], 10) <= 999;
    assert s[..3] == s[..|s| - 1];
  }

  /** Formatting then parsing a month of years 1..9999 gives it back. */
  lemma ParseMonthText(ym: YearMonth)
    requires ValidMonth(ym) && 1 <= ym.year <= 9999
    ensures ParseMonth(MonthText(ym)) == Some(ym)
  {
    var s := MonthText(ym);
    var yt := YearText(ym.year);
    var mt := Pad(ym.month, 2);
    PadWidth(ym.year, 4);
    PadWidth(ym.month, 2);
    assert s == yt + "-" + mt;
    assert s[..4] == yt && s[5..] == mt;
    PadValue(ym.year, 4);
    PadValue(ym.month, 2);
  }

  /** Parsing then formatting gives the text back, except for year 0000,
      which prints as 0001. */
  lemma MonthTextOfParse(s: string)
    requires ParseMonth(s).Some? && ParseMonth(s).value.year >= 1
    ensures MonthText(ParseMonth(s).value) == s
  {
    var ym := ParseMonth(s).value;
    ParseMonthText(ym);
    SameParseSameText(MonthText(ym), s);
  }

  /** Two month-shaped texts that parse to the same month are equal. */
  lemma SameParseSameText(s: string, t: string)
    requires ParseMonth(s).Some? && ParseMonth(s) == ParseMonth(t)
    ensures s == t
  {
    MonthShapedFields(s);
    MonthShapedFields(t);
    DigitsValueInjective(s[..4], t[..4]);
    DigitsValueInjective(s[5..], t[5..]);
    assert s == s[..4] + "-" + s[5..];
    assert t == t[..4] + "-" + t[5..];
  }

  /** The first seven characters of `toISOString()` of a UTC date-time:
      four-digit years for 0..9999, otherwise a sign and six digits. */
  function IsoMonthPrefix(u: DateTime): string {
    if 0 <= u.year <= 9999 then Pad(u.year, 4) + "-" + Pad(if u.month >= 0 then u.month else 0, 2)
    else
      var signed := (if u.year < 0 then "-" else "+") + Pad(if u.year < 0 then -u.year else u.year, 6);
      signed[..7]
  }

  /** For years 1..9999 the ISO prefix and the date-fns month agree. */
  lemma IsoPrefixIsFormat(u: DateTime)
    requires ValidMonth(MonthOf(u)) && 1 <= u.year <= 9999
    ensures IsoMonthPrefix(u) == FormatMonth(u)
  {
  }
}
