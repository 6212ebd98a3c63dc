/** Database rows and their conversion into the store's entities: snake_case
    columns become camelCase fields, numeric columns are read as cents, and
    a date column is read as the local date-time of its instant. */
module StoreRecords {
  import opened Wrappers
  import opened StoreModel

  datatype CategoryRow = CategoryRow(id: string, name: string, kind: string, icon: string)

  datatype SubcategoryRow = SubcategoryRow(id: string, name: string, category_id: string)

  /** The `recurring_data` column: `null`, a JSON text together with what
      `JSON.parse` makes of it (`None` when it throws), or an object. */
  datatype RecurringData = NoData | Text(text: string, parsed: Option<Recurring>) | Object(value: Recurring)

  datatype ExpenseRow = ExpenseRow(
    id: string,
    amount: int,
    description: string,
    date: LocalTime,
    category_id: string,
    subcategory_id: string,
    recurring_data: RecurringData)

  datatype BudgetRow = BudgetRow(id: string, amount: int, month: string, category_id: string)

  /** A date column's text and the instant `new Date(text)` reads from it. */
  datatype DateText = DateText(text: string, at: LocalTime)

  datatype GoalRow = GoalRow(
    id: string,
    name: string,
    target_amount: int,
    current_amount: int,
    due_date: Option<DateText>,
    icon: string,
    color: string)

  /** `convertToCategory`. */
  function ToCategory(row: CategoryRow): (c: Category)
    ensures c.id == row.id && c.name == row.name && c.kind == row.kind && c.icon == row.icon
  {
    Category(row.id, row.name, row.kind, row.icon)
  }

  /** `convertToSubCategory`: `category_id` becomes `categoryId`. */
  function ToSubcategory(row: SubcategoryRow): (s: Subcategory)
    ensures s.id == row.id && s.name == row.name && s.categoryId == row.category_id
  {
    Subcategory(row.id, row.name, row.category_id)
  }

  /** The recurrence `convertToExpense` attaches: only for truthy data; a
      text is parsed, an object taken as it is, a parse error leaves it
      unset. */
  function RecurringOf(data: RecurringData): (r: Option<Recurring>)
    ensures data.NoData? ==> r.None?
    ensures data.Text? && data.text == "" ==> r.None?
    ensures data.Text? && data.text != "" ==> r == data.parsed
    ensures data.Object? ==> r == Some(data.value)
  {
    match data
    case NoData => None
    case Text(text, parsed) => if text == "" then None else parsed
    case Object(value) => Some(value)
  }

  /** `convertToExpense`. */
  function ToExpense(row: ExpenseRow): (e: Expense)
    ensures e.id == row.id && e.amount == row.amount && e.description == row.description
    ensures e.date == row.date
    ensures e.categoryId == row.category_id && e.subcategoryId == row.subcategory_id
    ensures e.recurring == RecurringOf(row.recurring_data)
  {
    Expense(row.id, row.amount, row.description, row.date, row.category_id, row.subcategory_id,
            RecurringOf(row.recurring_data))
  }

  /** `convertToBudget`: the month text is kept verbatim. */
  function ToBudget(row: BudgetRow): (b: Budget)
    ensures b.id == row.id && b.amount == row.amount && b.month == row.month
    ensures b.categoryId == row.category_id
  {
    Budget(row.id, row.amount, row.month, row.category_id)
  }

  /** `convertToSavingsGoal`: no due date for a falsy `due_date`. */
  function ToSavingsGoal(row: GoalRow): (g: SavingsGoal)
    ensures g.dueDate.None? <==> (row.due_date.None? || row.due_date.value.text == "")
    ensures g.dueDate.Some? ==> g.dueDate.value == row.due_date.value.at
    ensures g.id == row.id && g.name == row.name && g.icon == row.icon && g.color == row.color
    ensures g.targetAmount == row.target_amount && g.currentAmount == row.current_amount
  {
    var due := match row.due_date
      case None => None
      case Some(d) => if d.text == "" then None else Some(d.at);
    SavingsGoal(row.id, row.name, row.target_amount, row.current_amount, due, row.icon, row.color)
  }

  /** The row an expense was read from, with its recurrence stored as an
      object. */
  function ExpenseRowOf(e: Expense): ExpenseRow {
    ExpenseRow(e.id, e.amount, e.description, e.date, e.categoryId, e.subcategoryId,
               match e.recurring case None => NoData case Some(r) => Object(r))
  }

  /** Reading an expense back from its row loses nothing. */
  lemma ExpenseRoundTrip(e: Expense)
    ensures ToExpense(ExpenseRowOf(e)) == e
  {
  }

  /** `handleError(error, message)`: the toast text; the function itself
      always returns `null`. */
  function ErrorText(message: string, errorMessage: string): string {
    message + ": " + errorMessage
  }
}
