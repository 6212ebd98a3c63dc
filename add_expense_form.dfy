/** The add-expense page's form check and its months field. Amounts are in
    cents. */
module AddExpenseForm {
  import opened Wrappers
  import opened JsText

  /** The form fields `validateForm` reads. */
  datatype Form = Form(
    initialized: bool,
    categoryId: string,
    subcategoryId: string,
    amount: int,
    description: string,
    isRecurring: bool,
    monthsInput: string)

  datatype Verdict = Accepted | Rejected(message: string)

  const NotInitialized := "App is still initializing. Please try again in a moment."
  const NoCategory := "Please select a category and subcategory"
  const BadAmount := "Please enter a valid amount"
  const NoDescription := "Please enter a description"
  const BadMonths := "Please enter a valid number of months (1-60)"

  /** The months text of a recurring form is a number 1..60 for `parseInt`. */
  predicate MonthsOk(input: string) {
    var n := ParseInt(input);
    n.Some? && 1 <= n.value <= 60
  }

  /** `validateForm()`: the guards in order, the first failing one giving
      its message. */
  function Validate(f: Form): (v: Verdict)
    ensures v == Accepted <==>
      (f.initialized && f.categoryId != "" && f.subcategoryId != "" && f.amount > 0
       && Trim(f.description) != "" && (f.isRecurring ==> MonthsOk(f.monthsInput)))
    ensures !f.initialized ==> v == Rejected(NotInitialized)
    ensures f.initialized && (f.categoryId == "" || f.subcategoryId == "") ==> v == Rejected(NoCategory)
    ensures f.initialized && f.categoryId != "" && f.subcategoryId != "" && f.amount <= 0
      ==> v == Rejected(BadAmount)
    ensures (f.initialized && f.categoryId != "" && f.subcategoryId != "" && f.amount > 0
             && Trim(f.description) == "") ==> v == Rejected(NoDescription)
    ensures (f.initialized && f.categoryId != "" && f.subcategoryId != "" && f.amount > 0
             && Trim(f.description) != "" && f.isRecurring && !MonthsOk(f.monthsInput))
      ==> v == Rejected(BadMonths)
  {
    if !f.initialized then Rejected(NotInitialized)
    else if f.categoryId == "" || f.subcategoryId == "" then Rejected(NoCategory)
    else if f.amount <= 0 then Rejected(BadAmount)
    else if Trim(f.description) == "" then Rejected(NoDescription)
    else if f.isRecurring && !MonthsOk(f.monthsInput) then Rejected(BadMonths)
    else Accepted
  }

  /** A description of spaces only is rejected like an empty one. */
  lemma BlankDescriptionRejected(f: Form)
    requires f.initialized && f.categoryId != "" && f.subcategoryId != "" && f.amount > 0
    requires forall i :: 0 <= i < |f.description| ==> IsWhite(f.description[i])
    ensures Validate(f) == Rejected(NoDescription)
  {
    TrimEmptyIffAllWhite(f.description);
  }

  /** A description made only of ideographic spaces (U+3000) is blank for
      `trim()`, so the form rejects it. */
  lemma IdeographicSpaceRejected(f: Form)
    requires f.initialized && f.categoryId != "" && f.subcategoryId != "" && f.amount > 0
    requires f.description == "\U{3000}\U{3000}"
    ensures Validate(f) == Rejected(NoDescription)
  {
    BlankDescriptionRejected(f);
  }

  /** The months text of a recurring form is read like `parseInt`: "12abc"
      counts as 12. */
  lemma MonthsReadLeadingDigits(d: string, rest: string)
    requires |d| >= 1 && forall i :: 0 <= i < |d| ==> IsDigit(d[i])
    requires rest == [] || !IsDigit(rest[0])
    requires 1 <= DigitsValue(d, 10) <= 60
    ensures MonthsOk(d + rest)
  {
    var s := d + rest;
    assert s[0] == d[0];
    DigitNotWhite(s[0]);
    ParseIntUnsigned(s);
    UnsignedOfRun(d, rest);
  }

  /** A digit run followed by a non-digit reads as the run's value. */
  lemma UnsignedOfRun(d: string, rest: string)
    requires |d| >= 1 && forall i :: 0 <= i < |d| ==> IsDigit(d[i])
    requires rest == [] || !IsDigit(rest[0])
    requires |d| >= 2 || d[0] != '0'
    ensures ParseUnsigned(d + rest) == Some(DigitsValue(d, 10))
  {
    var s := d + rest;
    assert s[0] == d[0];
    var hex := |s| >= 2 && s[0] == '0' && (s[1] == 'x' || s[1] == 'X');
    assert !hex by {
      if |d| >= 2 {
        assert s[1] == d[1];
      }
    }
    LeadingDigitsOfRun(d, rest);
    assert s[..|d|] == d;
  }

  /** The digit run is read up to the first non-digit. */
  lemma {:induction false} LeadingDigitsOfRun(d: string, rest: string)
    requires forall i :: 0 <= i < |d| ==> IsDigit(d[i])
    requires rest == [] || !IsDigit(rest[0])
    ensures LeadingDigits(d + rest, 10) == |d|
  {
    if d != [] {
      LeadingDigitsOfRun(d[1..], rest);
      assert (d + rest)[1..] == d[1..] + rest;
    } else {
      assert d + rest == rest;
    }
  }

  /** The months effect: the stored count follows the text only when the
      text reads as a positive integer. */
  function NextMonths(current: int, input: string): (m: int)
    ensures ParseInt(input).Some? && ParseInt(input).value > 0 ==> m == ParseInt(input).value
    ensures !(ParseInt(input).Some? && ParseInt(input).value > 0) ==> m == current
  {
    var parsed := ParseInt(input);
    if parsed.Some? && parsed.value > 0 then parsed.value else current
  }

  /** The stored count stays positive whatever is typed. */
  lemma {:induction false} MonthsStayPositive(start: int, inputs: seq<string>)
    requires start > 0
    ensures Typed(start, inputs) > 0
  {
    if inputs != [] {
      MonthsStayPositive(start, inputs[..|inputs| - 1]);
    }
  }

  /** The stored count after a sequence of edits of the months text. */
  function Typed(start: int, inputs: seq<string>): int {
    if inputs == [] then start else NextMonths(Typed(start, inputs[..|inputs| - 1]), inputs[|inputs| - 1])
  }
}
