/** The zod schemas of the forms (`validation.ts`) as validators: each
    returns the issues zod reports for an input whose fields already have
    the right JavaScript types, field by field and check by check, and an
    input is accepted when there are none. Numbers are reals; dates are
    valid instants. */
module Validation {
  import opened Wrappers
  import opened Calendar
  import opened JsText
  import opened StoreModel

  /** One reported problem: the field it is about and its message. */
  datatype Issue = Issue(path: string, message: string)

  /** The issue of one check, if it fails. */
  function Check(ok: bool, path: string, message: string): (r: seq<Issue>)
    ensures r == [] <==> ok
  {
    if ok then [] else [Issue(path, message)]
  }

  /** `z.string().min(lo, short).max(hi, long)`: both checks run. */
  function LengthIssues(s: string, lo: nat, hi: nat, path: string, short: string, long: string): (r: seq<Issue>)
    ensures r == [] <==> lo <= |s| <= hi
    ensures forall i :: 0 <= i < |r| ==> r[i].path == path
  {
    Check(|s| >= lo, path, short) + Check(|s| <= hi, path, long)
  }

  /** zod's message for a value outside an enum. */
  function EnumMessage(options: seq<string>, received: string): string {
    "Invalid enum value. Expected " + Quoted(options) + ", received '" + received + "'"
  }

  function Quoted(options: seq<string>): string
    decreases |options|
  {
    if options == [] then ""
    else if |options| == 1 then "'" + options[0] + "'"
    else "'" + options[0] + "' | " + Quoted(options[1..])
  }

  function EnumIssues(options: seq<string>, v: string, path: string): (r: seq<Issue>)
    ensures r == [] <==> v in options
  {
    Check(v in options, path, EnumMessage(options, v))
  }

  predicate IsHex(c: char) {
    '0' <= c <= '9' || 'a' <= c <= 'f' || 'A' <= c <= 'F'
  }

  /** zod's UUID pattern, case-insensitive: groups of 8, 4, 4, 4 and 12
      hex digits joined by dashes. */
  predicate IsUuid(s: string) {
    |s| == 36
    && forall i :: 0 <= i < 36 ==> if i in {8, 13, 18, 23} then s[i] == '-' else IsHex(s[i])
  }

  // --------------------------------------------------------------- schemas

  const CategoryTypes: seq<string> := ["car", "groceries", "home", "food", "misc"]

  datatype CategoryInput = CategoryInput(name: string, kind: string, icon: Option<string>)

  /** `categorySchema`: a name of 1..50 characters and one of the five
      types; the icon is free. */
  function ValidateCategory(c: CategoryInput): (r: seq<Issue>)
    ensures r == [] <==> 1 <= |c.name| <= 50 && c.kind in {"car", "groceries", "home", "food", "misc"}
    ensures forall i :: 0 <= i < |r| ==> r[i].path == "name" || r[i].path == "type"
  {
    LengthIssues(c.name, 1, 50, "name", "Name is required", "Name is too long")
    + EnumIssues(CategoryTypes, c.kind, "type")
  }

  datatype SubcategoryInput = SubcategoryInput(name: string, categoryId: string)

  /** `subcategorySchema`: a name of 1..50 characters and a UUID parent. */
  function ValidateSubcategory(s: SubcategoryInput): (r: seq<Issue>)
    ensures r == [] <==> 1 <= |s.name| <= 50 && IsUuid(s.categoryId)
  {
    LengthIssues(s.name, 1, 50, "name", "Name is required", "Name is too long")
    + Check(IsUuid(s.categoryId), "categoryId", "Invalid category ID")
  }

  const Frequencies: seq<string> := ["daily", "weekly", "monthly", "yearly"]

  datatype RecurringInput = RecurringInput(frequency: string, endDate: Option<LocalTime>,
                                           lastProcessed: Option<LocalTime>)

  datatype ExpenseInput = ExpenseInput(
    amount: real,
    description: string,
    date: LocalTime,
    categoryId: string,
    subcategoryId: Option<string>,
    recurring: Option<RecurringInput>)

  /** `expenseSchema`: a positive amount, a description of 1..200
      characters, UUID category and (when given) subcategory ids, and a
      recurrence, when given, with one of four frequencies. */
  function ValidateExpense(e: ExpenseInput): (r: seq<Issue>)
    ensures r == [] <==>
      e.amount > 0.0 && 1 <= |e.description| <= 200 && IsUuid(e.categoryId)
      && (e.subcategoryId.Some? ==> IsUuid(e.subcategoryId.value))
      && (e.recurring.Some? ==> e.recurring.value.frequency in {"daily", "weekly", "monthly", "yearly"})
  {
    Check(e.amount > 0.0, "amount", "Amount must be positive")
    + LengthIssues(e.description, 1, 200, "description", "Description is required", "Description is too long")
    + Check(IsUuid(e.categoryId), "categoryId", "Invalid category ID")
    + (match e.subcategoryId
       case None => []
       case Some(id) => Check(IsUuid(id), "subcategoryId", "Invalid subcategory ID"))
    + (match e.recurring
       case None => []
       case Some(rec) => EnumIssues(Frequencies, rec.frequency, "recurring.frequency"))
  }

  datatype BudgetInput = BudgetInput(amount: real, month: string, categoryId: string)

  /** `budgetSchema`: a positive amount, a month matching `^\d{4}-\d{2}$`
      and a UUID category. */
  function ValidateBudget(b: BudgetInput): (r: seq<Issue>)
    ensures r == [] <==> b.amount > 0.0 && MonthShaped(b.month) && IsUuid(b.categoryId)
  {
    Check(b.amount > 0.0, "amount", "Amount must be positive")
    + Check(MonthShaped(b.month), "month", "Invalid month format (YYYY-MM)")
    + Check(IsUuid(b.categoryId), "categoryId", "Invalid category ID")
  }

  const SomeUuid := "123e4567-e89b-12d3-a456-426614174000"

  /** The month pattern checks the shape only: a thirteenth month passes,
      though no month picker produces it and parsing it gives no month. */
  lemma BudgetAcceptsMonthThirteen()
    ensures ValidateBudget(BudgetInput(100.0, "2024-13", SomeUuid)) == []
    ensures ParseMonth("2024-13").None?
  {
    assert IsUuid(SomeUuid);
    assert DigitsValue("2024-13"[5..], 10) == 13 by {
      assert "2024-13"[5..] == "13";
      assert "13"[..1] == "1";
      assert "1"[..0] == [];
    }
  }

  /** The month check as evidently intended: the text names a month
      01..12 of a four-digit year. */
  function ValidateBudgetMonth(b: BudgetInput): (r: seq<Issue>)
    ensures r == [] <==> b.amount > 0.0 && ParseMonth(b.month).Some? && IsUuid(b.categoryId)
  {
    Check(b.amount > 0.0, "amount", "Amount must be positive")
    + Check(ParseMonth(b.month).Some?, "month", "Invalid month format (YYYY-MM)")
    + Check(IsUuid(b.categoryId), "categoryId", "Invalid category ID")
  }

  /** The intended check accepts exactly the months the month picker
      formats: every month of years 1..9999, and, for a year from 0001, a
      text it accepts is that month's own text. */
  lemma BudgetMonthMeaning(b: BudgetInput, ym: YearMonth)
    requires b.amount > 0.0 && IsUuid(b.categoryId)
    ensures ValidMonth(ym) && 1 <= ym.year <= 9999 ==>
      ValidateBudgetMonth(b.(month := MonthText(ym))) == []
    ensures ValidateBudgetMonth(b) == [] && ParseMonth(b.month).value.year >= 1 ==>
      b.month == MonthText(ParseMonth(b.month).value)
  {
    if ValidMonth(ym) && 1 <= ym.year <= 9999 {
      ParseMonthText(ym);
    }
    if ValidateBudgetMonth(b) == [] && ParseMonth(b.month).value.year >= 1 {
      MonthTextOfParse(b.month);
    }
  }

  datatype GoalInput = GoalInput(name: string, targetAmount: real, currentAmount: real, deadline: Option<LocalTime>)

  /** `savingsGoalSchema`: a name of 1..50 characters, a positive target
      and a current amount that is not negative. */
  function ValidateGoal(g: GoalInput): (r: seq<Issue>)
    ensures r == [] <==> 1 <= |g.name| <= 50 && g.targetAmount > 0.0 && g.currentAmount >= 0.0
  {
    LengthIssues(g.name, 1, 50, "name", "Name is required", "Name is too long")
    + Check(g.targetAmount > 0.0, "targetAmount", "Target amount must be positive")
    + Check(g.currentAmount >= 0.0, "currentAmount", "Current amount cannot be negative")
  }
}
