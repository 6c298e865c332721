/**
 * The admin page's whitelist panel: the add dialog with its client-side
 * email checks and error line, and the remove and status-toggle buttons.
 * Server actions are the pure functions of `Whitelist`; the panel records the
 * requests it sends and how often it refreshes the page.
 */
module WhitelistManager {
  import opened Wrappers
  import opened Backend
  import opened EmailRule
  import opened Whitelist

  const AddFailedFallback: string := "Failed to add email"

  /** `currentStatus === "active" ? "inactive" : "active"`. */
  function Toggle(s: Status): (t: Status)
    ensures t != s
  {
    if s == Active then Inactive else Active
  }

  lemma ToggleTwice(s: Status)
    ensures Toggle(Toggle(s)) == s
  {
  }

  /** The form the toggle button sends: the same id and the new status. */
  function ToggleForm(id: string, current: Status): (form: FormData)
    ensures form.Keys == {"id", "status"}
    ensures form["id"] == id && form["status"] == StatusText(Toggle(current))
  {
    map["id" := id, "status" := StatusText(Toggle(current))]
  }

  /**
   * The toggle's form always passes `updateEmailStatus`' own checks when the
   * id is non-empty, so for an admin the stored status becomes the toggled one.
   */
  lemma ToggleFormIsAccepted(id: string, current: Status, session: Session, failure: Option<Thrown>)
    requires id != "" && session.user.Some? && session.isAdmin
    ensures StatusProblem(Field(ToggleForm(id, current), "id"), Field(ToggleForm(id, current), "status")).None?
    ensures UpdateEmailStatus(ToggleForm(id, current), session, failure).calls[2]
              == Update(WhitelistTable, map["status" := Text(StatusText(Toggle(current)))], [Eq("id", id)])
  {
    var form := ToggleForm(id, current);
    assert ParseStatus(form["status"]).Some?;
  }

  /** The server reply's error as the dialog shows it: its message, or the fallback when that is empty. */
  function ShownError(reply: Reply): (shown: string)
    requires reply.Failure?
    ensures shown != ""
    ensures reply.message != "" ==> shown == reply.message
  {
    if reply.message != "" then reply.message else AddFailedFallback
  }

  /** A request the panel sends to the server. */
  datatype Request = AddEmail(form: FormData) | RemoveEmail(form: FormData) | SetStatus(form: FormData)

  class WhitelistManagerView {
    var isAddDialogOpen: bool
    var addError: Option<string>
    var requests: seq<Request>
    var refreshes: nat

    constructor()
      ensures !isAddDialogOpen && addError.None? && requests == [] && refreshes == 0
    {
      isAddDialogOpen := false;
      addError := None;
      requests := [];
      refreshes := 0;
    }

    /**
     * `handleAddEmail`: clear the error; refuse an empty or malformed email
     * locally, with no request; otherwise send the form, and on success close
     * the dialog and refresh, on failure show the server's message.
     */
    method HandleAddEmail(form: FormData, session: Session, insertFailure: Option<Thrown>)
      modifies this
      ensures var email := Field(form, "email");
              !Truthy(email) ==>
                addError == Some(EmailRequired) && requests == old(requests)
                && isAddDialogOpen == old(isAddDialogOpen) && refreshes == old(refreshes)
      ensures var email := Field(form, "email");
              Truthy(email) && !IsValidEmail(email.value) ==>
                addError == Some(EmailInvalid) && requests == old(requests)
                && isAddDialogOpen == old(isAddDialogOpen) && refreshes == old(refreshes)
      ensures var email := Field(form, "email");
              var reply := AddEmailToWhitelist(form, session, insertFailure).reply;
              Truthy(email) && IsValidEmail(email.value) ==>
                && requests == old(requests) + [AddEmail(form)]
                && (reply.Success? ==> !isAddDialogOpen && addError.None? && refreshes == old(refreshes) + 1)
                && (reply.Failure? ==>
                      addError == Some(ShownError(reply)) && isAddDialogOpen == old(isAddDialogOpen)
                      && refreshes == old(refreshes))
    {
      addError := None;
      var email := Field(form, "email");
      if !Truthy(email) {
        addError := Some(EmailRequired);
        return;
      }
      if !IsValidEmail(email.value) {
        addError := Some(EmailInvalid);
        return;
      }
      requests := requests + [AddEmail(form)];
      var result := AddEmailToWhitelist(form, session, insertFailure);
      if result.reply.Failure? {
        addError := Some(ShownError(result.reply));
        return;
      }
      isAddDialogOpen := false;
      refreshes := refreshes + 1;
    }

    /** `handleRemoveEmail`: send the id and refresh, whatever the reply. */
    method HandleRemoveEmail(id: string)
      modifies this
      ensures requests == old(requests) + [RemoveEmail(map["id" := id])]
      ensures refreshes == old(refreshes) + 1
      ensures isAddDialogOpen == old(isAddDialogOpen) && addError == old(addError)
    {
      requests := requests + [RemoveEmail(map["id" := id])];
      refreshes := refreshes + 1;
    }

    /** `handleToggleStatus`: send the id with the toggled status and refresh, whatever the reply. */
    method HandleToggleStatus(id: string, current: Status)
      modifies this
      ensures requests == old(requests) + [SetStatus(ToggleForm(id, current))]
      ensures refreshes == old(refreshes) + 1
      ensures isAddDialogOpen == old(isAddDialogOpen) && addError == old(addError)
    {
      requests := requests + [SetStatus(ToggleForm(id, current))];
      refreshes := refreshes + 1;
    }
  }

  /**
   * The dialog's checks are the server's: a form the dialog sends passes the
   * server's email checks, so the server always goes on to its admin gate.
   */
  lemma DialogChecksMatchServer(form: FormData, session: Session, insertFailure: Option<Thrown>)
    requires Truthy(Field(form, "email")) && IsValidEmail(form["email"])
    ensures EmailProblem(Field(form, "email")).None?
    ensures AddEmailToWhitelist(form, session, insertFailure).calls != []
  {
  }
}
