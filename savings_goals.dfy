/** The savings-goal actions of the store (`savingsGoalActions.ts`). The
    signed-in user and the database's replies are arguments; a date is
    sent as its instant, and read back with the text the database keeps
    for it. */
module SavingsGoals {
  import opened Wrappers
  import opened Calendar
  import opened StoreModel
  import opened StoreRecords

  /** A goal as the form hands it over. */
  datatype GoalDraft = GoalDraft(
    name: string,
    targetAmount: int,
    currentAmount: int,
    dueDate: Option<LocalTime>,
    icon: string,
    color: string)

  /** The row `addSavingsGoal` inserts; `due_date` is `null` without a due
      date. */
  datatype GoalInsert = GoalInsert(
    name: string,
    target_amount: int,
    current_amount: int,
    due_date: Option<LocalTime>,
    icon: string,
    color: string,
    user_id: string)

  function GoalInsertOf(g: GoalDraft, user: string): GoalInsert {
    GoalInsert(g.name, g.targetAmount, g.currentAmount, g.dueDate, g.icon, g.color, user)
  }

  /** A date column as the database keeps it, with the (non-empty) ISO
      text of the instant. */
  function DateColumn(due: Option<LocalTime>, iso: string): Option<DateText> {
    match due
    case None => None
    case Some(t) => Some(DateText(iso, t))
  }

  /** The row the database keeps for an insert, under the id it chose. */
  function StoredGoal(ins: GoalInsert, id: string, iso: string): GoalRow {
    GoalRow(id, ins.name, ins.target_amount, ins.current_amount, DateColumn(ins.due_date, iso), ins.icon, ins.color)
  }

  /** A goal inserted and read back is the draft under its new id, due
      date included. */
  lemma AddReadBack(g: GoalDraft, user: string, id: string, iso: string)
    requires iso != ""
    ensures ToSavingsGoal(StoredGoal(GoalInsertOf(g, user), id, iso))
      == SavingsGoal(id, g.name, g.targetAmount, g.currentAmount, g.dueDate, g.icon, g.color)
  {
  }

  /** `addSavingsGoal`: without a user nothing is sent; a returned row is
      converted and appended. Every error is reported and turned into
      `null`. */
  function AddSavingsGoal(st: State, g: GoalDraft, user: Option<string>, reply: Result<Option<GoalRow>, string>)
    : (s: Step<GoalInsert, SavingsGoal>)
    ensures s.outcome.Returned?
    ensures user.None? ==> s == Step(None, st, Returned(None))
    ensures user.Some? ==> s.request == Some(GoalInsertOf(g, user.value))
    ensures s.state != st ==> user.Some? && reply.Ok? && reply.value.Some?
    ensures user.Some? && reply.Ok? && reply.value.Some? ==>
      var ng := ToSavingsGoal(reply.value.value);
      s.outcome == Returned(Some(ng)) && s.state == st.(savingsGoals := st.savingsGoals + [ng])
  {
    match user
    case None => Step(None, st, Returned(None))
    case Some(u) =>
      var request := Some(GoalInsertOf(g, u));
      match reply
      case Err(_) => Step(request, st, Returned(None))
      case Ok(None) => Step(request, st, Returned(None))
      case Ok(Some(row)) =>
        var ng := ToSavingsGoal(row);
        Step(request, st.(savingsGoals := st.savingsGoals + [ng]), Returned(Some(ng)))
  }

  /** An update: `None` is a field left `undefined`; a due date of
      `Some(None)` clears it. */
  datatype GoalPatch = GoalPatch(
    name: Option<string>,
    targetAmount: Option<int>,
    currentAmount: Option<int>,
    dueDate: Option<Option<LocalTime>>,
    icon: Option<string>,
    color: Option<string>)

  /** The columns an update sends; `None` leaves a column out. */
  datatype GoalChanges = GoalChanges(
    name: Option<string>,
    target_amount: Option<int>,
    current_amount: Option<int>,
    due_date: Option<Option<LocalTime>>,
    icon: Option<string>,
    color: Option<string>)

  /** The update sends exactly the fields that are not `undefined`, under
      their column names, an empty string or a zero included. */
  predicate Carries(p: GoalPatch, u: GoalChanges) {
    u.name == p.name && u.target_amount == p.targetAmount && u.current_amount == p.currentAmount
    && u.due_date == p.dueDate && u.icon == p.icon && u.color == p.color
  }

  /** `dbUpdates` of `updateSavingsGoal`, built one field at a time. */
  method GoalDbUpdates(p: GoalPatch) returns (u: GoalChanges)
    ensures Carries(p, u)
  {
    u := GoalChanges(None, None, None, None, None, None);
    if p.name.Some? {
      u := u.(name := p.name);
    }
    if p.targetAmount.Some? {
      u := u.(target_amount := p.targetAmount);
    }
    if p.currentAmount.Some? {
      u := u.(current_amount := p.currentAmount);
    }
    if p.dueDate.Some? {
      u := u.(due_date := Some(if p.dueDate.value.Some? then p.dueDate.value else None));
    }
    if p.icon.Some? {
      u := u.(icon := p.icon);
    }
    if p.color.Some? {
      u := u.(color := p.color);
    }
  }

  /** The row after the database applies an update to it; `iso` is the
      text it keeps for a new due date. */
  function ApplyGoalChanges(row: GoalRow, u: GoalChanges, iso: string): GoalRow {
    GoalRow(row.id, u.name.GetOr(row.name), u.target_amount.GetOr(row.target_amount),
            u.current_amount.GetOr(row.current_amount),
            match u.due_date case None => row.due_date case Some(due) => DateColumn(due, iso),
            u.icon.GetOr(row.icon), u.color.GetOr(row.color))
  }

  /** The row a goal was read from. */
  function GoalRowOf(g: SavingsGoal, iso: string): GoalRow {
    GoalRow(g.id, g.name, g.targetAmount, g.currentAmount, DateColumn(g.dueDate, iso), g.icon, g.color)
  }

  /** Updating a goal's row and reading it back replaces exactly the
      fields that were given, even with an empty name or a zero amount,
      and a due date given as `null` is cleared. */
  lemma UpdateReadBack(g: SavingsGoal, p: GoalPatch, u: GoalChanges, iso: string, newIso: string)
    requires Carries(p, u) && iso != "" && newIso != ""
    ensures var back := ToSavingsGoal(ApplyGoalChanges(GoalRowOf(g, iso), u, newIso));
      back.id == g.id && back.name == p.name.GetOr(g.name)
      && back.targetAmount == p.targetAmount.GetOr(g.targetAmount)
      && back.currentAmount == p.currentAmount.GetOr(g.currentAmount)
      && back.dueDate == p.dueDate.GetOr(g.dueDate)
      && back.icon == p.icon.GetOr(g.icon) && back.color == p.color.GetOr(g.color)
  {
  }

  /** `updateSavingsGoal`: the returned row replaces every goal with the
      id; an error is reported and turned into `null`. */
  method UpdateSavingsGoal(st: State, id: string, p: GoalPatch, reply: Result<Option<GoalRow>, string>)
    returns (s: Step<GoalChanges, SavingsGoal>)
    ensures s.request.Some? && Carries(p, s.request.value) && s.outcome.Returned?
    ensures !(reply.Ok? && reply.value.Some?) ==> s.state == st && s.outcome == Returned(None)
    ensures reply.Ok? && reply.value.Some? ==>
      var ng := ToSavingsGoal(reply.value.value);
      s.outcome == Returned(Some(ng)) && s.state == st.(savingsGoals := Replace(st.savingsGoals, id, GoalId, ng))
  {
    var u := GoalDbUpdates(p);
    match reply
    case Err(_) =>
      s := Step(Some(u), st, Returned(None));
    case Ok(None) =>
      s := Step(Some(u), st, Returned(None));
    case Ok(Some(row)) =>
      var ng := ToSavingsGoal(row);
      s := Step(Some(u), st.(savingsGoals := Replace(st.savingsGoals, id, GoalId, ng)), Returned(Some(ng)));
  }

  /** An update whose row has the id it was asked for keeps the number of
      goals and leaves every other goal where it was. */
  lemma UpdateKeepsOthers(goals: seq<SavingsGoal>, id: string, ng: SavingsGoal)
    requires ng.id == id
    ensures var after := Replace(goals, id, GoalId, ng);
      |after| == |goals| && Remove(after, id, GoalId) == Remove(goals, id, GoalId)
  {
    ReplaceThenRemove(goals, id, GoalId, ng);
  }

  /** `deleteSavingsGoal`: on success every goal with the id is dropped;
      an error is reported and re-thrown. */
  function DeleteSavingsGoal(st: State, id: string, error: Option<string>): (s: Step<string, ()>)
    ensures s.request == Some(id)
    ensures error.Some? ==> s.state == st && s.outcome == Threw(error.value)
    ensures error.None? ==>
      s.outcome == Returned(None) && s.state == st.(savingsGoals := Remove(st.savingsGoals, id, GoalId))
  {
    match error
    case Some(m) => Step(Some(id), st, Threw(m))
    case None => Step(Some(id), st.(savingsGoals := Remove(st.savingsGoals, id, GoalId)), Returned(None))
  }

  /** After a delete no goal has the id, and every other goal is there as
      often as before. */
  lemma DeleteRemovesOnlyId(st: State, id: string, g: SavingsGoal)
    requires g.id != id
    ensures var after := DeleteSavingsGoal(st, id, None).state.savingsGoals;
      (forall i :: 0 <= i < |after| ==> after[i].id != id)
      && multiset(after)[g] == multiset(st.savingsGoals)[g]
  {
    RemoveKeepsOthers(st.savingsGoals, id, GoalId, g);
  }
}
