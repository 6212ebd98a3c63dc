/** Two pure helpers of the UI utilities: the background class of a
    category type and the "Month yyyy" title of a `yyyy-MM` string. */
module UiUtils {
  import opened Wrappers
  import opened JsText
  import opened Calendar

  /** The category types the app knows. */
  const KnownTypes: set<string> := {"car", "groceries", "home", "food", "misc"}

  /** `getCategoryColor(type)`. */
  function CategoryColor(kind: string): (c: string)
    ensures kind in KnownTypes ==> c == "bg-expense-" + kind
    ensures kind !in KnownTypes ==> c == "bg-gray-400"
  {
    match kind
    case "car" => "bg-expense-car"
    case "groceries" => "bg-expense-groceries"
    case "home" => "bg-expense-home"
    case "food" => "bg-expense-food"
    case "misc" => "bg-expense-misc"
    case _ => "bg-gray-400"
  }

  const MonthNames: seq<string> := ["January", "February", "March", "April", "May", "June", "July",
                                    "August", "September", "October", "November", "December"]

  /** `new Date(y, m, 1)` as a month: years 0..99 mean 1900..1999, and a
      month index outside 0..11 rolls into neighbouring years. */
  function DateOfParts(y: int, monthIndex: int): (ym: YearMonth)
    ensures ValidMonth(ym)
  {
    var year := if 0 <= y <= 99 then 1900 + y else y;
    FromIndex(year * 12 + monthIndex)
  }

  /** `getMonthName(month)`: split on '-', `parseInt` both parts, build the
      first of that month and format it as "MMMM yyyy". A part that is not
      a number makes an invalid date, on which `format` throws (`None`). */
  function MonthName(month: string): Option<string> {
    var parts := Split(month, '-');
    Title(ParseInt(parts[0]), if |parts| >= 2 then ParseInt(parts[1]) else None)
  }

  /** "MMMM yyyy" of `new Date(y, m - 1, 1)`; `None` for an invalid date. */
  function Title(y: Option<int>, m: Option<int>): (r: Option<string>)
    ensures r.Some? <==> y.Some? && m.Some?
  {
    if y.None? || m.None? then None else Some(Heading(DateOfParts(y.value, m.value - 1)))
  }

  /** `format(d, 'MMMM yyyy')` of the first of a month. */
  function Heading(ym: YearMonth): string
    requires ValidMonth(ym)
  {
    MonthNames[ym.month - 1] + " " + YearText(ym.year)
  }

  /** A `yyyy-MM` string splits into its year and its month. */
  lemma SplitMonth(s: string)
    requires MonthShaped(s)
    ensures Split(s, '-') == [s[..4], s[5..]]
  {
    MonthShapedFields(s);
    SplitFirstField(s, '-', 4);
    SplitNoSeparator(s[5..], '-');
  }

  /** The parts of a well-formed month as `parseInt` reads them. */
  lemma MonthParts(s: string)
    requires ParseMonth(s).Some?
    ensures MonthName(s) == Title(Some(ParseMonth(s).value.year), Some(ParseMonth(s).value.month))
  {
    var ym := ParseMonth(s).value;
    MonthShapedFields(s);
    SplitMonth(s);
    var parts := Split(s, '-');
    ParseIntDigits(s[..4]);
    ParseIntDigits(s[5..]);
    assert ParseInt(parts[0]) == Some(ym.year);
    assert ParseInt(parts[1]) == Some(ym.month);
  }

  /** The title of month `m` of year `y`, with two-digit years moved to
      the twentieth century. */
  lemma TitleOf(y: int, m: int)
    requires 1 <= m <= 12
    ensures 0 <= y <= 99 ==> Title(Some(y), Some(m)) == Some(Heading(YearMonth(1900 + y, m)))
    ensures !(0 <= y <= 99) ==> Title(Some(y), Some(m)) == Some(Heading(YearMonth(y, m)))
  {
    FromIndexOfIndex(YearMonth(if 0 <= y <= 99 then 1900 + y else y, m));
  }

  /** For a well-formed month of year 0100 or later, the title is the
      English month name followed by the year exactly as written. */
  lemma MonthNameOfMonth(s: string)
    requires ParseMonth(s).Some? && ParseMonth(s).value.year >= 100
    ensures MonthName(s) == Some(MonthNames[ParseMonth(s).value.month - 1] + " " + s[..4])
  {
    var ym := ParseMonth(s).value;
    MonthParts(s);
    TitleOf(ym.year, ym.month);
    YearAsWritten(s);
  }

  /** The year of a parsed month, printed back, is the text it came from. */
  lemma YearAsWritten(s: string)
    requires ParseMonth(s).Some? && ParseMonth(s).value.year >= 1
    ensures YearText(ParseMonth(s).value.year) == s[..4]
  {
    var ym := ParseMonth(s).value;
    MonthTextOfParse(s);
    var t := MonthText(ym);
    PadWidth(ym.year, 4);
    PadWidth(ym.month, 2);
    assert t[..4] == YearText(ym.year);
  }

  /** Years 0000..0099 are read as 1900..1999: "0024-03" is March 1924. */
  lemma TwoDigitYear(s: string)
    requires ParseMonth(s).Some? && ParseMonth(s).value.year <= 99
    ensures var ym := ParseMonth(s).value;
      MonthName(s) == Some(Heading(YearMonth(1900 + ym.year, ym.month)))
  {
    var ym := ParseMonth(s).value;
    MonthParts(s);
    TitleOf(ym.year, ym.month);
  }
}
