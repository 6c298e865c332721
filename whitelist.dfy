/**
 * The admin-only whitelist actions over the `email_whitelist` table: list,
 * add, remove and change an entry's status. Each checks its form first, then
 * the admin gate, then makes its one backend call.
 */
module Whitelist {
  import opened Wrappers
  import opened Backend
  import opened EmailRule

  const WhitelistTable: string := "email_whitelist"
  const AdminPage: string := "/dashboard/admin"
  const EmailRequired: string := "Email is required"
  const EmailInvalid: string := "Please enter a valid email address"
  const EmailIdRequired: string := "Email ID is required"
  const IdAndStatusRequired: string := "ID and status are required"
  const InvalidStatus: string := "Invalid status value"

  datatype Status = Active | Inactive

  /** The status as the table stores it. */
  function StatusText(s: Status): string {
    if s == Active then "active" else "inactive"
  }

  /** The status a form value names, if it names one. */
  function ParseStatus(text: string): (s: Option<Status>)
    ensures s.Some? <==> text == "active" || text == "inactive"
    ensures s.Some? ==> StatusText(s.value) == text
  {
    if text == "active" then Some(Active) else if text == "inactive" then Some(Inactive) else None
  }

  datatype WhitelistedEmail = WhitelistedEmail(id: string, email: string, createdAt: string, notes: Option<string>, status: Status)

  /**
   * `getWhitelistedEmails`: 'Unauthorized' without a user or without admin
   * rights, the caught message on a query error, and otherwise the rows as the
   * query returned them (possibly `null`).
   */
  function GetWhitelistedEmails(session: Session, query: Answer<seq<WhitelistedEmail>>): (r: Fetched<seq<WhitelistedEmail>>)
    ensures session.user.None? || !session.isAdmin ==> r == Fetched(None, Some(Unauthorized))
    ensures session.user.Some? && session.isAdmin && query.failure.Some? ==>
              r == Fetched(None, Some(CaughtMessage(query.failure.value)))
    ensures r.data.Some? ==> session.user.Some? && session.isAdmin && query.failure.None? && r.data == query.data
    ensures r.error.None? <==> session.user.Some? && session.isAdmin && query.failure.None?
  {
    if session.user.None? || !session.isAdmin then Fetched(None, Some(Unauthorized))
    else if query.failure.Some? then Fetched(None, Some(CaughtMessage(query.failure.value)))
    else Fetched(query.data, None)
  }

  /** The row an admin adds: the email, the notes or `null`, and status 'active'. */
  function WhitelistRow(email: string, notes: Option<string>): (row: Row)
    ensures row.Keys == {"email", "notes", "status"}
    ensures row["email"] == Text(email) && row["status"] == Text("active")
    ensures row["notes"] == (if Truthy(notes) then Text(notes.value) else Null)
  {
    map["email" := Text(email), "notes" := TextOrNull(notes), "status" := Text(StatusText(Active))]
  }

  /** The form check `addEmailToWhitelist` makes before anything else: the message it refuses with, if any. */
  function EmailProblem(email: Option<string>): (problem: Option<string>)
    ensures problem.None? <==> Truthy(email) && IsValidEmail(email.value)
    ensures !Truthy(email) ==> problem == Some(EmailRequired)
    ensures Truthy(email) && !IsValidEmail(email.value) ==> problem == Some(EmailInvalid)
  {
    if !Truthy(email) then Some(EmailRequired)
    else if !IsValidEmail(email.value) then Some(EmailInvalid)
    else None
  }

  /** `addEmailToWhitelist`. */
  function AddEmailToWhitelist(form: FormData, session: Session, insertFailure: Option<Thrown>): Run {
    var email := Field(form, "email");
    var problem := EmailProblem(email);
    if problem.Some? then Run(Failure(problem.value), [])
    else AdminOnly(session, _ => Written(Insert(WhitelistTable, WhitelistRow(email.value, Field(form, "notes"))), insertFailure, [AdminPage]))
  }

  /** `removeEmailFromWhitelist`. */
  function RemoveEmailFromWhitelist(form: FormData, session: Session, deleteFailure: Option<Thrown>): Run {
    var id := Field(form, "id");
    if !Truthy(id) then Run(Failure(EmailIdRequired), [])
    else AdminOnly(session, _ => Written(Delete(WhitelistTable, [Eq("id", id.value)]), deleteFailure, [AdminPage]))
  }

  /** The form check of `updateEmailStatus`: both fields present, and a known status. */
  function StatusProblem(id: Option<string>, status: Option<string>): (problem: Option<string>)
    ensures problem.None? <==> Truthy(id) && status.Some? && ParseStatus(status.value).Some?
    ensures !Truthy(id) || !Truthy(status) ==> problem == Some(IdAndStatusRequired)
    ensures Truthy(id) && Truthy(status) && ParseStatus(status.value).None? ==> problem == Some(InvalidStatus)
  {
    if !Truthy(id) || !Truthy(status) then Some(IdAndStatusRequired)
    else if ParseStatus(status.value).None? then Some(InvalidStatus)
    else None
  }

  /** `updateEmailStatus`. */
  function UpdateEmailStatus(form: FormData, session: Session, updateFailure: Option<Thrown>): Run {
    var id, status := Field(form, "id"), Field(form, "status");
    var problem := StatusProblem(id, status);
    if problem.Some? then Run(Failure(problem.value), [])
    else AdminOnly(session, _ => Written(Update(WhitelistTable, map["status" := Text(status.value)], [Eq("id", id.value)]), updateFailure, [AdminPage]))
  }

  /**
   * Adding succeeds exactly when the email is present and matches the email
   * pattern, the caller is an admin and the insert does not fail; the row
   * added is then the email with status 'active'.
   */
  lemma AddSucceedsExactly(form: FormData, session: Session, failure: Option<Thrown>)
    ensures var r := AddEmailToWhitelist(form, session, failure);
            (r.reply.Success? <==>
              && "email" in form && form["email"] != "" && MatchesEmailRegex(form["email"])
              && session.user.Some? && session.isAdmin && failure.None?)
            && (r.reply.Success? ==>
                  r.calls == [GetUser, IsAdmin(session.user.value.id),
                              Insert(WhitelistTable, WhitelistRow(form["email"], Field(form, "notes"))),
                              Revalidate(AdminPage)])
  {
    if "email" in form {
      ValidIffRegex(form["email"]);
    }
  }

  /**
   * Validation before authorization: when the form is refused, every action
   * refuses it with the same reply and no backend call, whoever is signed in.
   */
  lemma ValidationBeforeAuth(form: FormData, s1: Session, s2: Session, f1: Option<Thrown>, f2: Option<Thrown>)
    ensures EmailProblem(Field(form, "email")).Some? ==>
              AddEmailToWhitelist(form, s1, f1) == AddEmailToWhitelist(form, s2, f2)
              && AddEmailToWhitelist(form, s1, f1) == Run(Failure(EmailProblem(Field(form, "email")).value), [])
    ensures !Truthy(Field(form, "id")) ==>
              RemoveEmailFromWhitelist(form, s1, f1) == Run(Failure(EmailIdRequired), [])
    ensures StatusProblem(Field(form, "id"), Field(form, "status")).Some? ==>
              UpdateEmailStatus(form, s1, f1) == UpdateEmailStatus(form, s2, f2)
              && UpdateEmailStatus(form, s1, f1).calls == []
  {
  }

  /** A signed-in user who is not an admin (or no user at all) gets 'Unauthorized' from every action, and nothing is written. */
  lemma NonAdminsAreRefused(form: FormData, session: Session, query: Answer<seq<WhitelistedEmail>>, failure: Option<Thrown>)
    requires session.user.None? || !session.isAdmin
    ensures GetWhitelistedEmails(session, query) == Fetched(None, Some(Unauthorized))
    ensures EmailProblem(Field(form, "email")).None? ==>
              AddEmailToWhitelist(form, session, failure).reply == Failure(Unauthorized)
              && NoWrites(AddEmailToWhitelist(form, session, failure).calls)
    ensures Truthy(Field(form, "id")) ==>
              RemoveEmailFromWhitelist(form, session, failure).reply == Failure(Unauthorized)
              && NoWrites(RemoveEmailFromWhitelist(form, session, failure).calls)
    ensures StatusProblem(Field(form, "id"), Field(form, "status")).None? ==>
              UpdateEmailStatus(form, session, failure).reply == Failure(Unauthorized)
              && NoWrites(UpdateEmailStatus(form, session, failure).calls)
  {
    var email := Field(form, "email");
    if EmailProblem(email).None? {
      AdminGate(session, _ => Written(Insert(WhitelistTable, WhitelistRow(email.value, Field(form, "notes"))), failure, [AdminPage]));
    }
    var id := Field(form, "id");
    if Truthy(id) {
      AdminGate(session, _ => Written(Delete(WhitelistTable, [Eq("id", id.value)]), failure, [AdminPage]));
    }
    var status := Field(form, "status");
    if StatusProblem(id, status).None? {
      AdminGate(session, _ => Written(Update(WhitelistTable, map["status" := Text(status.value)], [Eq("id", id.value)]), failure, [AdminPage]));
    }
  }

  /** A status other than 'active' or 'inactive' is refused before the admin gate. */
  lemma UnknownStatusIsRefused(form: FormData, session: Session, failure: Option<Thrown>)
    requires Truthy(Field(form, "id")) && Truthy(Field(form, "status"))
    requires form["status"] != "active" && form["status"] != "inactive"
    ensures UpdateEmailStatus(form, session, failure) == Run(Failure(InvalidStatus), [])
  {
  }

  /** An admin's status change writes exactly the new status, to the entry with the given id. */
  lemma StatusUpdateWritesStatus(form: FormData, session: Session, failure: Option<Thrown>)
    requires StatusProblem(Field(form, "id"), Field(form, "status")).None?
    requires session.user.Some? && session.isAdmin
    ensures UpdateEmailStatus(form, session, failure).calls[2]
              == Update(WhitelistTable, map["status" := Text(form["status"])], [Eq("id", form["id"])])
    ensures UpdateEmailStatus(form, session, failure).reply.Success? <==> failure.None?
  {
  }
}
