/**
 * The income and expense server actions. The two files are the same code over
 * different names: the table, the text column (`source` for income,
 * `description` for expenses), the error messages and the list page. `Table`
 * carries those names and the actions are written once.
 */
module Entries {
  import opened Wrappers
  import opened Backend

  datatype Table = IncomeTable | ExpensesTable

  function TableName(t: Table): string {
    if t == IncomeTable then "income" else "expenses"
  }

  /** The form field and column holding the entry's text. */
  function TextColumn(t: Table): string {
    if t == IncomeTable then "source" else "description"
  }

  function AddRequired(t: Table): string {
    if t == IncomeTable then "Source, amount, and date are required"
    else "Description, amount, and date are required"
  }

  function UpdateRequired(t: Table): string {
    if t == IncomeTable then "ID, source, amount, and date are required"
    else "ID, description, amount, and date are required"
  }

  function IdRequired(t: Table): string {
    if t == IncomeTable then "Income ID is required" else "Expense ID is required"
  }

  /** The pages revalidated after a change: the table's own page, then the dashboard. */
  function ChangedPages(t: Table): seq<string> {
    [if t == IncomeTable then "/dashboard/income" else "/dashboard/expenses", "/dashboard"]
  }

  /** The entry fields as read from the form; `amount` None stands for NaN. */
  datatype EntryForm = EntryForm(text: Option<string>, amount: Option<real>, date: Option<string>)

  function ReadEntryForm(t: Table, form: FormData, parse: Parser): (e: EntryForm)
    ensures e.text == Field(form, TextColumn(t))
    ensures e.amount == ParseField(parse, Field(form, "amount"))
    ensures e.date == Field(form, "date")
  {
    EntryForm(Field(form, TextColumn(t)), ParseField(parse, Field(form, "amount")), Field(form, "date"))
  }

  /** `!text || isNaN(amount) || !date`. */
  predicate EntryFormIncomplete(e: EntryForm) {
    !Truthy(e.text) || e.amount.None? || !Truthy(e.date)
  }

  /** The stored columns: the text, amount and date exactly as submitted. */
  function EntryValues(t: Table, e: EntryForm): (row: Row)
    requires !EntryFormIncomplete(e)
    ensures row.Keys == {TextColumn(t), "amount", "date"}
    ensures row[TextColumn(t)] == Text(e.text.value)
    ensures row["amount"] == Number(e.amount.value)
    ensures row["date"] == Text(e.date.value)
  {
    map[TextColumn(t) := Text(e.text.value), "amount" := Number(e.amount.value), "date" := Text(e.date.value)]
  }

  /** `addIncome` / `addExpense`. */
  function AddEntry(t: Table, form: FormData, parse: Parser, user: Option<User>, insertFailure: Option<Thrown>): Run {
    var e := ReadEntryForm(t, form, parse);
    if EntryFormIncomplete(e) then Run(Failure(AddRequired(t)), [])
    else SignedInWrite(user, uid => Insert(TableName(t), EntryValues(t, e)["user_id" := Text(uid)]), insertFailure, ChangedPages(t))
  }

  /** `updateIncome` / `updateExpense`. */
  function UpdateEntry(t: Table, form: FormData, parse: Parser, user: Option<User>, updateFailure: Option<Thrown>): Run {
    var id := Field(form, "id");
    var e := ReadEntryForm(t, form, parse);
    if !Truthy(id) || EntryFormIncomplete(e) then Run(Failure(UpdateRequired(t)), [])
    else SignedInWrite(user, uid => Update(TableName(t), EntryValues(t, e), OwnRow(id.value, uid)), updateFailure, ChangedPages(t))
  }

  /** `deleteIncome` / `deleteExpense`. */
  function DeleteEntry(t: Table, form: FormData, user: Option<User>, deleteFailure: Option<Thrown>): Run {
    var id := Field(form, "id");
    if !Truthy(id) then Run(Failure(IdRequired(t)), [])
    else SignedInWrite(user, uid => Delete(TableName(t), OwnRow(id.value, uid)), deleteFailure, ChangedPages(t))
  }

  /**
   * Adding succeeds exactly when the text, a parseable amount and the date are
   * present, a user is signed in and the insert does not fail. The inserted
   * row is the caller's and carries the text, amount and date unchanged; both
   * pages are then revalidated.
   */
  lemma AddSucceedsExactly(t: Table, form: FormData, parse: Parser, user: Option<User>, failure: Option<Thrown>)
    ensures var r := AddEntry(t, form, parse, user, failure);
            var e := ReadEntryForm(t, form, parse);
            (r.reply.Success? <==> !EntryFormIncomplete(e) && user.Some? && failure.None?)
            && (r.reply.Success? ==>
                  && r.calls[1] == Insert(TableName(t), EntryValues(t, e)["user_id" := Text(user.value.id)])
                  && r.calls[1].row["user_id"] == Text(user.value.id)
                  && r.calls[1].row[TextColumn(t)] == Text(form[TextColumn(t)])
                  && r.calls[1].row["date"] == Text(form["date"])
                  && r.calls[2..] == [Revalidate(ChangedPages(t)[0]), Revalidate("/dashboard")])
  {
  }

  /**
   * The checks come first: any incomplete form, and for update and delete a
   * missing id, is refused with the table's message before the user is
   * fetched, and only then does a missing user give 'Unauthorized'.
   */
  lemma ChecksBeforeAuth(t: Table, form: FormData, parse: Parser, user: Option<User>, failure: Option<Thrown>)
    ensures EntryFormIncomplete(ReadEntryForm(t, form, parse)) ==>
              AddEntry(t, form, parse, user, failure) == Run(Failure(AddRequired(t)), [])
    ensures !Truthy(Field(form, "id")) ==>
              UpdateEntry(t, form, parse, user, failure) == Run(Failure(UpdateRequired(t)), [])
              && DeleteEntry(t, form, user, failure) == Run(Failure(IdRequired(t)), [])
    ensures !EntryFormIncomplete(ReadEntryForm(t, form, parse)) && user.None? ==>
              AddEntry(t, form, parse, user, failure) == Run(Failure(Unauthorized), [GetUser])
    ensures Truthy(Field(form, "id")) && user.None? ==>
              DeleteEntry(t, form, user, failure) == Run(Failure(Unauthorized), [GetUser])
    ensures Truthy(Field(form, "id")) && EntryFormIncomplete(ReadEntryForm(t, form, parse)) ==>
              UpdateEntry(t, form, parse, user, failure) == Run(Failure(UpdateRequired(t)), [])
    ensures Truthy(Field(form, "id")) && !EntryFormIncomplete(ReadEntryForm(t, form, parse)) && user.None? ==>
              UpdateEntry(t, form, parse, user, failure) == Run(Failure(Unauthorized), [GetUser])
  {
  }

  /** Update and delete touch only the row with the given id that belongs to the caller. */
  lemma ChangesAreScopedToCaller(t: Table, form: FormData, parse: Parser, user: User, failure: Option<Thrown>)
    requires Truthy(Field(form, "id"))
    ensures DeleteEntry(t, form, Some(user), failure).calls[1]
              == Delete(TableName(t), [Eq("id", form["id"]), Eq("user_id", user.id)])
    ensures !EntryFormIncomplete(ReadEntryForm(t, form, parse)) ==>
              UpdateEntry(t, form, parse, Some(user), failure).calls[1]
                == Update(TableName(t), EntryValues(t, ReadEntryForm(t, form, parse)), [Eq("id", form["id"]), Eq("user_id", user.id)])
  {
  }

  /** Update needs everything add needs, and an id. */
  lemma UpdateNeedsMoreThanAdd(t: Table, form: FormData, parse: Parser, user: Option<User>, failure: Option<Thrown>)
    ensures UpdateEntry(t, form, parse, user, failure).reply.Success? ==>
              Truthy(Field(form, "id")) && AddEntry(t, form, parse, user, failure).reply.Success?
  {
  }

  /** A failed write is reported with its message, and nothing is revalidated. */
  lemma FailedWriteIsReported(t: Table, form: FormData, user: User, failure: Thrown)
    requires Truthy(Field(form, "id"))
    ensures DeleteEntry(t, form, Some(user), Some(failure)) ==
              Run(Failure(CaughtMessage(failure)), [GetUser, Delete(TableName(t), OwnRow(form["id"], user.id))])
  {
  }

  /** The income actions read `source` and answer with the income messages. */
  lemma IncomeNames()
    ensures TableName(IncomeTable) == "income" && TextColumn(IncomeTable) == "source"
    ensures AddRequired(IncomeTable) == "Source, amount, and date are required"
    ensures UpdateRequired(IncomeTable) == "ID, source, amount, and date are required"
    ensures IdRequired(IncomeTable) == "Income ID is required"
    ensures ChangedPages(IncomeTable) == ["/dashboard/income", "/dashboard"]
  {
  }

  /** The expense actions read `description` and answer with the expense messages. */
  lemma ExpenseNames()
    ensures TableName(ExpensesTable) == "expenses" && TextColumn(ExpensesTable) == "description"
    ensures AddRequired(ExpensesTable) == "Description, amount, and date are required"
    ensures UpdateRequired(ExpensesTable) == "ID, description, amount, and date are required"
    ensures IdRequired(ExpensesTable) == "Expense ID is required"
    ensures ChangedPages(ExpensesTable) == ["/dashboard/expenses", "/dashboard"]
  {
  }
}
