/** The month picker's two buttons: the selected `yyyy-MM` string is read
    with `parseISO(selected + '-01')`, stepped one month with
    `subMonths`/`addMonths`, and printed back with `format(d, 'yyyy-MM')`.
    A string `parseISO` rejects gives an invalid date, on which `format`
    throws; that is `None` here. */
module MonthSelector {
  import opened Wrappers
  import opened JsText
  import opened Calendar

  /** `goToPreviousMonth`: the string handed to `onChange`. */
  function Previous(selected: string): (r: Option<string>)
    ensures r.Some? <==> ParseMonth(selected).Some?
    ensures r.Some? ==>
      var ym := ParseMonth(selected).value;
      r.value == MonthText(if ym.month == 1 then YearMonth(ym.year - 1, 12)
                           else YearMonth(ym.year, ym.month - 1))
  {
    match ParseMonth(selected)
    case None => None
    case Some(ym) =>
      NeighbourMonths(ym);
      Some(MonthText(ShiftMonth(ym, -1)))
  }

  /** `goToNextMonth`: the string handed to `onChange`. */
  function Next(selected: string): (r: Option<string>)
    ensures r.Some? <==> ParseMonth(selected).Some?
    ensures r.Some? ==>
      var ym := ParseMonth(selected).value;
      r.value == MonthText(if ym.month == 12 then YearMonth(ym.year + 1, 1)
                           else YearMonth(ym.year, ym.month + 1))
  {
    match ParseMonth(selected)
    case None => None
    case Some(ym) =>
      NeighbourMonths(ym);
      Some(MonthText(ShiftMonth(ym, 1)))
  }

  /** Both buttons print a well-formed `yyyy-MM` while the year stays within
      0001..9999. */
  lemma StepsAreMonthShaped(selected: string)
    requires ParseMonth(selected).Some?
    ensures var ym := ShiftMonth(ParseMonth(selected).value, -1);
      1 <= ym.year ==> MonthShaped(Previous(selected).value)
    ensures var ym := ShiftMonth(ParseMonth(selected).value, 1);
      1 <= ym.year <= 9999 ==> MonthShaped(Next(selected).value)
  {
    var ym := ParseMonth(selected).value;
    var p := ShiftMonth(ym, -1);
    var n := ShiftMonth(ym, 1);
    if 1 <= p.year {
      ParseMonthText(p);
    }
    if 1 <= n.year <= 9999 {
      ParseMonthText(n);
    }
  }

  /** Next undoes previous, as long as the previous month has a year of at
      least 0001 (year 0 prints as 0001). */
  lemma NextOfPrevious(selected: string)
    requires ParseMonth(selected).Some?
    requires ShiftMonth(ParseMonth(selected).value, -1).year >= 1
    ensures Next(Previous(selected).value) == Some(selected)
  {
    var ym := ParseMonth(selected).value;
    var p := ShiftMonth(ym, -1);
    ParseMonthText(p);
    ShiftMonthInverse(ym, -1);
    MonthTextOfParse(selected);
  }

  /** Previous undoes next, as long as the next month is before year 10000. */
  lemma PreviousOfNext(selected: string)
    requires ParseMonth(selected).Some?
    requires ShiftMonth(ParseMonth(selected).value, 1).year <= 9999
    requires ParseMonth(selected).value.year >= 1
    ensures Previous(Next(selected).value) == Some(selected)
  {
    var ym := ParseMonth(selected).value;
    var n := ShiftMonth(ym, 1);
    ParseMonthText(n);
    ShiftMonthInverse(ym, 1);
    MonthTextOfParse(selected);
  }

  /** A string that is not a month (here: a month 13) gives an invalid date. */
  lemma ThirteenthMonthFails()
    ensures Previous("2024-13") == None && Next("2024-13") == None
  {
    var s := "2024-13";
    assert s[5..] == "13";
    assert DigitsValue(s[5..], 10) == 13 by {
      assert s[5..][..1] == "1";
      assert "1"[..0] == [];
    }
  }
}
