/**
 * The savings-goal server actions: reading the submitted form, checking it,
 * and writing one `savings_goals` row for the signed-in user.
 */
module SavingsGoalActions {
  import opened Wrappers
  import opened Backend

  const GoalsTable: string := "savings_goals"
  const SavingsPage: string := "/dashboard/savings"
  const NameAndTargetRequired: string := "Name and target amount are required"
  const IdNameAndTargetRequired: string := "ID, name, and target amount are required"
  const GoalIdRequired: string := "Savings goal ID is required"

  /** The goal fields as the actions read them from the form. */
  datatype GoalForm = GoalForm(
    name: Option<string>,
    targetAmount: Option<real>,   // None: NaN
    currentAmount: Option<real>,  // None: NaN
    targetDate: Option<string>)   // None: null

  /**
   * `name = get('name')`, `targetAmount = parseFloat(get('targetAmount'))`,
   * `currentAmount = parseFloat(get('currentAmount') || '0')`,
   * `targetDate = get('targetDate') || null`.
   */
  function ReadGoalForm(form: FormData, parse: Parser): (g: GoalForm)
    ensures g.name == Field(form, "name")
    ensures g.targetAmount == ParseField(parse, Field(form, "targetAmount"))
    ensures !Truthy(Field(form, "currentAmount")) ==> g.currentAmount == parse("0")
    ensures Truthy(Field(form, "currentAmount")) ==> g.currentAmount == parse(form["currentAmount"])
    ensures g.targetDate.Some? <==> Truthy(Field(form, "targetDate"))
    ensures g.targetDate.Some? ==> g.targetDate.value == form["targetDate"]
  {
    GoalForm(
      Field(form, "name"),
      ParseField(parse, Field(form, "targetAmount")),
      parse(OrElse(Field(form, "currentAmount"), "0")),
      if Truthy(Field(form, "targetDate")) then Some(form["targetDate"]) else None)
  }

  /** `!name || isNaN(targetAmount)`. */
  predicate GoalFormIncomplete(g: GoalForm) {
    !Truthy(g.name) || g.targetAmount.None?
  }

  /** The stored columns: an unparseable current amount becomes 0, a missing date null. */
  function GoalValues(g: GoalForm): (row: Row)
    requires !GoalFormIncomplete(g)
    ensures row.Keys == {"name", "target_amount", "current_amount", "target_date"}
    ensures row["name"] == Text(g.name.value)
    ensures row["target_amount"] == Number(g.targetAmount.value)
    ensures row["current_amount"] == Number(g.currentAmount.GetOr(0.0))
    ensures row["target_date"] == (if g.targetDate.Some? then Text(g.targetDate.value) else Null)
  {
    map[
      "name" := Text(g.name.value),
      "target_amount" := Number(g.targetAmount.value),
      "current_amount" := Number(g.currentAmount.GetOr(0.0)),
      "target_date" := if g.targetDate.Some? then Text(g.targetDate.value) else Null]
  }

  /** `addSavingsGoal`: validate, then insert the goal as the signed-in user's. */
  function AddSavingsGoal(form: FormData, parse: Parser, user: Option<User>, insertFailure: Option<Thrown>): Run
  {
    var g := ReadGoalForm(form, parse);
    if GoalFormIncomplete(g) then Run(Failure(NameAndTargetRequired), [])
    else SignedInWrite(user, id => Insert(GoalsTable, GoalValues(g)["user_id" := Text(id)]), insertFailure, [SavingsPage])
  }

  /** `updateSavingsGoal`: also needs an id; changes only the caller's row with that id. */
  function UpdateSavingsGoal(form: FormData, parse: Parser, user: Option<User>, updateFailure: Option<Thrown>): Run
  {
    var id := Field(form, "id");
    var g := ReadGoalForm(form, parse);
    if !Truthy(id) || GoalFormIncomplete(g) then Run(Failure(IdNameAndTargetRequired), [])
    else SignedInWrite(user, uid => Update(GoalsTable, GoalValues(g), OwnRow(id.value, uid)), updateFailure, [SavingsPage])
  }

  /** `deleteSavingsGoal`: deletes only the caller's row with the given id. */
  function DeleteSavingsGoal(form: FormData, user: Option<User>, deleteFailure: Option<Thrown>): Run
  {
    var id := Field(form, "id");
    if !Truthy(id) then Run(Failure(GoalIdRequired), [])
    else SignedInWrite(user, uid => Delete(GoalsTable, OwnRow(id.value, uid)), deleteFailure, [SavingsPage])
  }

  /**
   * Adding succeeds exactly when the name is present, the target parses, a
   * user is signed in and the insert does not fail; the inserted row is the
   * caller's and carries the parsed values.
   */
  lemma AddSucceedsExactly(form: FormData, parse: Parser, user: Option<User>, insertFailure: Option<Thrown>)
    ensures var r := AddSavingsGoal(form, parse, user, insertFailure);
            var g := ReadGoalForm(form, parse);
            (r.reply.Success? <==> Truthy(g.name) && g.targetAmount.Some? && user.Some? && insertFailure.None?)
            && (r.reply.Success? ==>
                  r.calls == [GetUser, Insert(GoalsTable, GoalValues(g)["user_id" := Text(user.value.id)]), Revalidate(SavingsPage)])
  {
  }

  /**
   * Validation comes first: an incomplete form (no name, or a target that does
   * not parse) is refused with 'Name and target amount are required' and no
   * backend call whoever is signed in; a complete one with no user is
   * refused as 'Unauthorized' after only fetching the user.
   */
  lemma AddChecksBeforeAuth(form: FormData, parse: Parser, u1: Option<User>, u2: Option<User>, f1: Option<Thrown>, f2: Option<Thrown>)
    ensures GoalFormIncomplete(ReadGoalForm(form, parse)) ==>
              AddSavingsGoal(form, parse, u1, f1) == AddSavingsGoal(form, parse, u2, f2)
              && AddSavingsGoal(form, parse, u1, f1).calls == []
    ensures GoalFormIncomplete(ReadGoalForm(form, parse)) ==>
              AddSavingsGoal(form, parse, u1, f1) == Run(Failure(NameAndTargetRequired), [])
    ensures !GoalFormIncomplete(ReadGoalForm(form, parse)) && u1.None? ==>
              AddSavingsGoal(form, parse, u1, f1) == Run(Failure(Unauthorized), [GetUser])
  {
  }

  /**
   * The defaults: a missing or empty current amount is parsed from "0", an
   * unparseable one is stored as 0, and a missing or empty target date is
   * stored as null.
   */
  lemma StoredDefaults(form: FormData, parse: Parser)
    requires parse("0") == Some(0.0)
    requires !GoalFormIncomplete(ReadGoalForm(form, parse))
    ensures !Truthy(Field(form, "currentAmount")) ==> GoalValues(ReadGoalForm(form, parse))["current_amount"] == Number(0.0)
    ensures ReadGoalForm(form, parse).currentAmount.None? ==> GoalValues(ReadGoalForm(form, parse))["current_amount"] == Number(0.0)
    ensures !Truthy(Field(form, "targetDate")) ==> GoalValues(ReadGoalForm(form, parse))["target_date"] == Null
  {
  }

  /** A missing target amount is `parseFloat(null)`, which is NaN, so the form is refused. */
  lemma MissingTargetIsRefused(form: FormData, parse: Parser, user: Option<User>, insertFailure: Option<Thrown>)
    requires "targetAmount" !in form
    ensures AddSavingsGoal(form, parse, user, insertFailure) == Run(Failure(NameAndTargetRequired), [])
  {
  }

  /** Update and delete write only through the (id, caller) filter, and only after fetching the user; the update writes the form's goal values. */
  lemma ChangesAreScopedToCaller(form: FormData, parse: Parser, user: User, failure: Option<Thrown>)
    requires Truthy(Field(form, "id"))
    ensures var r := DeleteSavingsGoal(form, Some(user), failure);
            r.calls[0] == GetUser && r.calls[1] == Delete(GoalsTable, [Eq("id", form["id"]), Eq("user_id", user.id)])
    ensures !GoalFormIncomplete(ReadGoalForm(form, parse)) ==>
              var r := UpdateSavingsGoal(form, parse, Some(user), failure);
              r.calls[0] == GetUser
              && r.calls[1] == Update(GoalsTable, GoalValues(ReadGoalForm(form, parse)), [Eq("id", form["id"]), Eq("user_id", user.id)])
  {
  }

  /** Updating succeeds exactly when the id, name and target are present, a user is signed in and the update does not fail. */
  lemma UpdateSucceedsExactly(form: FormData, parse: Parser, user: Option<User>, failure: Option<Thrown>)
    ensures var r := UpdateSavingsGoal(form, parse, user, failure);
            var g := ReadGoalForm(form, parse);
            r.reply.Success? <==> Truthy(Field(form, "id")) && Truthy(g.name) && g.targetAmount.Some? && user.Some? && failure.None?
    ensures var r := DeleteSavingsGoal(form, user, failure);
            r.reply.Success? <==> Truthy(Field(form, "id")) && user.Some? && failure.None?
  {
  }

  /** Update and delete also check their fields before anything else. */
  lemma UpdateAndDeleteCheckBeforeAuth(form: FormData, parse: Parser, user: Option<User>, failure: Option<Thrown>)
    ensures !Truthy(Field(form, "id")) || GoalFormIncomplete(ReadGoalForm(form, parse)) ==>
              UpdateSavingsGoal(form, parse, user, failure) == Run(Failure(IdNameAndTargetRequired), [])
    ensures Truthy(Field(form, "id")) && !GoalFormIncomplete(ReadGoalForm(form, parse)) && user.None? ==>
              UpdateSavingsGoal(form, parse, user, failure) == Run(Failure(Unauthorized), [GetUser])
    ensures Truthy(Field(form, "id")) && user.None? ==>
              DeleteSavingsGoal(form, user, failure) == Run(Failure(Unauthorized), [GetUser])
  {
  }

  /** Update refuses a missing id with its own message, before anything else. */
  lemma UpdateNeedsId(form: FormData, parse: Parser, user: Option<User>, failure: Option<Thrown>)
    requires "id" !in form || form["id"] == ""
    ensures UpdateSavingsGoal(form, parse, user, failure) == Run(Failure(IdNameAndTargetRequired), [])
    ensures DeleteSavingsGoal(form, user, failure) == Run(Failure(GoalIdRequired), [])
  {
  }
}
