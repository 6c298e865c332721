/**
 * The account settings actions: change the display name, and mark the account
 * for deletion (record the request, flag the user's metadata, sign out).
 */
module Settings {
  import opened Wrappers
  import opened JsText
  import opened Backend

  const NameRequired: string := "Display name is required"
  const SettingsPage: string := "/dashboard/settings"
  const PendingDeletionTable: string := "accounts_pending_deletion"

  /** `!fullName || fullName.trim() === ''`. */
  predicate NameMissing(fullName: Option<string>) {
    !Truthy(fullName) || Trim(fullName.value) == ""
  }

  /** `updateProfile`: stores the submitted name, untrimmed, as `full_name`. */
  function UpdateProfile(form: FormData, user: Option<User>, updateFailure: Option<Thrown>): Run {
    var fullName := Field(form, "fullName");
    if NameMissing(fullName) then Run(Failure(NameRequired), [])
    else SignedInWrite(user, _ => UpdateUser(map["full_name" := Text(fullName.value)]), updateFailure, [SettingsPage])
  }

  /**
   * A name that is missing or all whitespace is refused before the user is
   * fetched; otherwise a missing user gives 'Unauthorized'.
   */
  lemma ProfileChecksNameFirst(form: FormData, user: Option<User>, failure: Option<Thrown>)
    ensures "fullName" !in form || IsBlank(form["fullName"]) ==>
              UpdateProfile(form, user, failure) == Run(Failure(NameRequired), [])
    ensures !NameMissing(Field(form, "fullName")) && user.None? ==>
              UpdateProfile(form, user, failure) == Run(Failure(Unauthorized), [GetUser])
  {
    if "fullName" in form {
      TrimEmptyIffBlank(form["fullName"]);
    }
  }

  /**
   * With a name that is not all whitespace and a signed-in user, the stored
   * `full_name` is the submitted text itself, surrounding spaces included;
   * a failing update is reported with its message and nothing is revalidated.
   */
  lemma ProfileStoresNameAsGiven(form: FormData, user: User, failure: Option<Thrown>)
    requires "fullName" in form && !IsBlank(form["fullName"])
    ensures |UpdateProfile(form, Some(user), failure).calls| >= 2
    ensures UpdateProfile(form, Some(user), failure).calls[1] == UpdateUser(map["full_name" := Text(form["fullName"])])
    ensures failure.Some? ==>
              UpdateProfile(form, Some(user), failure) ==
                Run(Failure(CaughtMessage(failure.value)), [GetUser, UpdateUser(map["full_name" := Text(form["fullName"])])])
    ensures failure.None? ==> UpdateProfile(form, Some(user), failure).reply == Success
  {
    TrimEmptyIffBlank(form["fullName"]);
  }

  /** A name with surrounding spaces is stored with them. */
  lemma PaddedNameIsStoredPadded(user: User)
    ensures UpdateProfile(map["fullName" := " Ada "], Some(user), None) ==
              Run(Success, [GetUser, UpdateUser(map["full_name" := Text(" Ada ")]), Revalidate(SettingsPage)])
  {
    assert !IsBlank(" Ada ") by { assert !IsWhitespace(" Ada "[1]); }
    TrimEmptyIffBlank(" Ada ");
  }

  /** The pending-deletion record: who, their email (or null), and when. */
  function PendingDeletionRow(user: User, requestedAt: string): Row {
    map["user_id" := Text(user.id),
        "email" := (if user.email.Some? then Text(user.email.value) else Null),
        "requested_at" := Text(requestedAt)]
  }

  /** The metadata flag set on the account. */
  function DeletionMetadata(requestedAt: string): Row {
    map["marked_for_deletion" := Flag(true), "deletion_requested_at" := Text(requestedAt)]
  }

  /**
   * `markAccountForDeletion`: record the request, then flag the metadata, then
   * sign out; each failure stops the sequence. The two `new Date()` readings
   * are the parameters `insertTime` and `updateTime`.
   */
  function MarkAccountForDeletion(
    user: Option<User>,
    insertTime: string,
    updateTime: string,
    insertFailure: Option<Thrown>,
    updateFailure: Option<Thrown>): Run
  {
    SignedIn(user, (u: User) =>
      var insert := Insert(PendingDeletionTable, PendingDeletionRow(u, insertTime));
      var update := UpdateUser(DeletionMetadata(updateTime));
      if insertFailure.Some? then Run(Failure(CaughtMessage(insertFailure.value)), [insert])
      else if updateFailure.Some? then Run(Failure(CaughtMessage(updateFailure.value)), [insert, update])
      else Run(Success, [insert, update, SignOut]))
  }

  /** Without a user nothing is written and the reply is 'Unauthorized'. */
  lemma DeletionNeedsUser(insertTime: string, updateTime: string, f1: Option<Thrown>, f2: Option<Thrown>)
    ensures MarkAccountForDeletion(None, insertTime, updateTime, f1, f2) == Run(Failure(Unauthorized), [GetUser])
  {
  }

  /**
   * The user is signed out only after both writes succeeded; the insert comes
   * before the metadata update; and success is exactly the absence of both
   * failures.
   */
  lemma SignOutComesLast(user: Option<User>, insertTime: string, updateTime: string, f1: Option<Thrown>, f2: Option<Thrown>)
    ensures var r := MarkAccountForDeletion(user, insertTime, updateTime, f1, f2);
            && (SignOut in r.calls <==> user.Some? && f1.None? && f2.None?)
            && (r.reply.Success? <==> SignOut in r.calls)
            && (SignOut in r.calls ==>
                  r.calls == [GetUser,
                              Insert(PendingDeletionTable, PendingDeletionRow(user.value, insertTime)),
                              UpdateUser(DeletionMetadata(updateTime)),
                              SignOut])
            && (user.Some? && f1.Some? ==> |r.calls| == 2 && r.reply == Failure(CaughtMessage(f1.value)))
  {
    var r := MarkAccountForDeletion(user, insertTime, updateTime, f1, f2);
    if user.Some? {
      var u := user.value;
      var insert := Insert(PendingDeletionTable, PendingDeletionRow(u, insertTime));
      var update := UpdateUser(DeletionMetadata(updateTime));
      if f1.Some? {
        assert r.calls == [GetUser, insert];
      } else if f2.Some? {
        assert r.calls == [GetUser, insert, update];
      }
    }
  }
}
