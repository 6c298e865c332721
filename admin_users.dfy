/**
 * The admin-only actions over the `admin_users` table: list the admins, make
 * a whitelisted, signed-up user an admin, and remove an admin other than
 * oneself.
 */
module AdminUsers {
  import opened Wrappers
  import opened Backend
  import opened EmailRule
  import Whitelist

  const AdminTable: string := "admin_users"
  const NotWhitelisted: string := "This email is not in the whitelist. Please add it to the whitelist first."
  const UserNotFound: string := "User not found. Make sure they have signed up first."
  const UserIdRequired: string := "User ID is required"
  const CannotRemoveSelf: string := "You cannot remove yourself as an admin."
  const PlaceholderEmail: string := "admin user"

  /** A row of `admin_users`, with the `user_email` the listing adds. */
  datatype AdminUser = AdminUser(userId: string, createdAt: string, userEmail: Option<string>)

  /** `getAdminUsers`' result. */
  datatype AdminListing = AdminListing(data: Option<seq<AdminUser>>, currentUserId: Option<string>, error: Option<string>)

  /** `{ ...admin, user_email: "admin user" }`. */
  function WithPlaceholder(a: AdminUser): AdminUser {
    a.(userEmail := Some(PlaceholderEmail))
  }

  /** `getAdminUsers`. */
  function GetAdminUsers(session: Session, query: Answer<seq<AdminUser>>): AdminListing {
    if session.user.None? || !session.isAdmin then AdminListing(None, None, Some(Unauthorized))
    else if query.failure.Some? then AdminListing(None, None, Some(CaughtMessage(query.failure.value)))
    else
      var rows := query.data.GetOr([]);
      AdminListing(Some(seq(|rows|, k requires 0 <= k < |rows| => WithPlaceholder(rows[k]))), Some(session.user.value.id), None)
  }

  /**
   * For an admin whose query succeeds the listing has one row per admin row,
   * in order, each with its own id and creation time and the placeholder
   * email, and names the caller; anyone else gets 'Unauthorized' and no id.
   */
  lemma AdminListingShape(session: Session, query: Answer<seq<AdminUser>>)
    ensures var r := GetAdminUsers(session, query);
            session.user.Some? && session.isAdmin && query.failure.None? ==>
              && r.error.None? && r.currentUserId == Some(session.user.value.id)
              && r.data.Some? && |r.data.value| == |query.data.GetOr([])|
              && forall k :: 0 <= k < |r.data.value| ==>
                   r.data.value[k].userEmail == Some(PlaceholderEmail)
                   && r.data.value[k].userId == query.data.GetOr([])[k].userId
                   && r.data.value[k].createdAt == query.data.GetOr([])[k].createdAt
    ensures var r := GetAdminUsers(session, query);
            session.user.None? || !session.isAdmin ==> r == AdminListing(None, None, Some(Unauthorized))
    ensures var r := GetAdminUsers(session, query);
            r.data.Some? <==> r.error.None?
  {
  }

  /** Whether auth user `u` has exactly the email `email` (`u.email === email`). */
  predicate HasEmail(u: User, email: string) {
    u.email == Some(email)
  }

  /** `users.find(u => u.email === email)`: the position of the first match. */
  function FindUserByEmail(users: seq<User>, email: string): (found: Option<nat>)
    ensures found.Some? ==> found.value < |users| && HasEmail(users[found.value], email)
    ensures found.Some? ==> forall k :: 0 <= k < found.value ==> !HasEmail(users[k], email)
    ensures found.None? ==> forall k :: 0 <= k < |users| ==> !HasEmail(users[k], email)
  {
    if users == [] then None
    else if HasEmail(users[0], email) then Some(0)
    else
      var rest := FindUserByEmail(users[1..], email);
      if rest.None? then None else Some(rest.value + 1)
  }

  /** The new admin row: the target's id, created by the caller. */
  function AdminRow(targetId: string, callerId: string): Row {
    map["user_id" := Text(targetId), "created_by" := Text(callerId)]
  }

  /** What `addAdminUser` does once the caller is known to be an admin. */
  function AddAsAdmin(
    email: string,
    caller: User,
    lookup: Answer<string>,
    users: Answer<seq<User>>,
    insertFailure: Option<Thrown>): Run
  {
    if lookup.failure.Some? then Run(Failure(CaughtMessage(lookup.failure.value)), [FindWhitelisted(email)])
    else if lookup.data.None? then Run(Failure(NotWhitelisted), [FindWhitelisted(email)])
    else if users.failure.Some? then Run(Failure(CaughtMessage(users.failure.value)), [FindWhitelisted(email), ListUsers])
    else
      var all := users.data.GetOr([]);
      var found := FindUserByEmail(all, email);
      if found.None? then Run(Failure(UserNotFound), [FindWhitelisted(email), ListUsers])
      else After([FindWhitelisted(email), ListUsers], Written(Insert(AdminTable, AdminRow(all[found.value].id, caller.id)), insertFailure, [Whitelist.AdminPage]))
  }

  /**
   * `addAdminUser`: the email checks, the admin gate, then the whitelist
   * lookup, the user lookup and the insert.
   */
  function AddAdminUser(
    form: FormData,
    session: Session,
    lookup: Answer<string>,
    users: Answer<seq<User>>,
    insertFailure: Option<Thrown>): Run
  {
    var email := Field(form, "email");
    var problem := Whitelist.EmailProblem(email);
    if problem.Some? then Run(Failure(problem.value), [])
    else AdminOnly(session, (caller: User) => AddAsAdmin(email.value, caller, lookup, users, insertFailure))
  }

  /** `addAdminUser` checks the email exactly as the whitelist does, before any backend call. */
  lemma AddChecksEmailFirst(form: FormData, session: Session, lookup: Answer<string>, users: Answer<seq<User>>, failure: Option<Thrown>)
    ensures !Truthy(Field(form, "email")) ==>
              AddAdminUser(form, session, lookup, users, failure) == Run(Failure(Whitelist.EmailRequired), [])
    ensures Truthy(Field(form, "email")) && !MatchesEmailRegex(form["email"]) ==>
              AddAdminUser(form, session, lookup, users, failure) == Run(Failure(Whitelist.EmailInvalid), [])
  {
    if "email" in form {
      ValidIffRegex(form["email"]);
    }
  }

  /** An email missing from the whitelist is refused before the user list is fetched. */
  lemma NotWhitelistedSkipsLookup(form: FormData, session: Session, lookup: Answer<string>, users: Answer<seq<User>>, failure: Option<Thrown>)
    requires Whitelist.EmailProblem(Field(form, "email")).None?
    requires session.user.Some? && session.isAdmin
    requires lookup.failure.None? && lookup.data.None?
    ensures AddAdminUser(form, session, lookup, users, failure) ==
              Run(Failure(NotWhitelisted), [GetUser, IsAdmin(session.user.value.id), FindWhitelisted(form["email"])])
  {
  }

  /**
   * On success the inserted row names the first signed-up user whose email
   * is exactly the submitted one, and the caller as its creator; with no
   * such user the reply is 'User not found…' and nothing is inserted.
   */
  lemma AddTargetsFirstMatch(form: FormData, session: Session, lookup: Answer<string>, users: Answer<seq<User>>, failure: Option<Thrown>)
    requires Whitelist.EmailProblem(Field(form, "email")).None?
    requires session.user.Some? && session.isAdmin
    requires lookup.failure.None? && lookup.data.Some? && users.failure.None?
    ensures var r := AddAdminUser(form, session, lookup, users, failure);
            var all := users.data.GetOr([]);
            var email := form["email"];
            && ((forall k :: 0 <= k < |all| ==> !HasEmail(all[k], email)) ==>
                  r == Run(Failure(UserNotFound), [GetUser, IsAdmin(session.user.value.id), FindWhitelisted(email), ListUsers]))
            && (r.reply.Success? <==> (exists k :: 0 <= k < |all| && HasEmail(all[k], email)) && failure.None?)
            && (r.reply.Success? ==>
                  exists k :: 0 <= k < |all| && HasEmail(all[k], email)
                    && (forall j :: 0 <= j < k ==> !HasEmail(all[j], email))
                    && r.calls[4] == Insert(AdminTable, map["user_id" := Text(all[k].id), "created_by" := Text(session.user.value.id)]))
  {
    var all := users.data.GetOr([]);
    var email := form["email"];
    var found := FindUserByEmail(all, email);
    if found.Some? {
      assert HasEmail(all[found.value], email);
    }
  }

  /** `removeAdminUser`. */
  function RemoveAdminUser(form: FormData, session: Session, deleteFailure: Option<Thrown>): Run {
    var userId := Field(form, "userId");
    if !Truthy(userId) then Run(Failure(UserIdRequired), [])
    else AdminOnly(session, (caller: User) =>
      if userId.value == caller.id then Run(Failure(CannotRemoveSelf), [])
      else Written(Delete(AdminTable, [Eq("user_id", userId.value)]), deleteFailure, [Whitelist.AdminPage]))
  }

  /**
   * The self-removal guard runs after the admin gate: an admin removing
   * themself is refused and nothing is deleted, while a non-admin trying it
   * is refused as 'Unauthorized'.
   */
  lemma NoSelfRemoval(form: FormData, session: Session, failure: Option<Thrown>)
    requires Truthy(Field(form, "userId")) && session.user.Some? && form["userId"] == session.user.value.id
    ensures session.isAdmin ==>
              RemoveAdminUser(form, session, failure) == Run(Failure(CannotRemoveSelf), [GetUser, IsAdmin(session.user.value.id)])
    ensures !session.isAdmin ==>
              RemoveAdminUser(form, session, failure) == Run(Failure(Unauthorized), [GetUser, IsAdmin(session.user.value.id)])
    ensures NoWrites(RemoveAdminUser(form, session, failure).calls)
  {
  }

  /** Removal succeeds exactly for an admin removing someone else whose delete does not fail. */
  lemma RemoveSucceedsExactly(form: FormData, session: Session, failure: Option<Thrown>)
    ensures var r := RemoveAdminUser(form, session, failure);
            r.reply.Success? <==>
              Truthy(Field(form, "userId")) && session.user.Some? && session.isAdmin
              && form["userId"] != session.user.value.id && failure.None?
    ensures !Truthy(Field(form, "userId")) ==> RemoveAdminUser(form, session, failure) == Run(Failure(UserIdRequired), [])
  {
  }
}
