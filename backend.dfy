/**
 * What the server actions see of the hosted backend, reduced to values.
 *
 * Every server action is modelled as a pure function of the submitted form and
 * of the answers the backend gives; it returns the reply the action sends back
 * together with the ordered list of backend calls it made. The backend's
 * answers (the signed-in user, the `is_admin` RPC's verdict, whether a write
 * failed) are parameters.
 */
module Backend {
  import opened Wrappers

  /** A submitted HTML form: field name to text. A missing field reads as `null`. */
  type FormData = map<string, string>

  /** `formData.get(key)`. */
  function Field(form: FormData, key: string): (v: Option<string>)
    ensures v.Some? <==> key in form
  {
    if key in form then Some(form[key]) else None
  }

  /** A form value is truthy in JavaScript iff it is present and not the empty string. */
  predicate Truthy(v: Option<string>) {
    v.Some? && v.value != ""
  }

  /** `(value as string) || fallback`. */
  function OrElse(v: Option<string>, fallback: string): (r: string)
    ensures Truthy(v) ==> r == v.value
    ensures !Truthy(v) ==> r == fallback
  {
    if Truthy(v) then v.value else fallback
  }

  /** `parseFloat`, supplied by the caller: None stands for NaN. */
  type Parser = string -> Option<real>

  /**
   * `parseFloat(formData.get(key) as string)`. A missing field is `null`, which
   * `parseFloat` reads as the text "null" and so as NaN.
   */
  function ParseField(parse: Parser, v: Option<string>): (r: Option<real>)
    ensures v.None? ==> r.None?
    ensures v.Some? ==> r == parse(v.value)
  {
    if v.None? then None else parse(v.value)
  }

  /** An authenticated user: id, email and the `full_name` entry of its metadata. */
  datatype User = User(id: string, email: Option<string>, fullName: Option<string>)

  /** The signed-in user, if any, and what the `is_admin` RPC answers for that user. */
  datatype Session = Session(user: Option<User>, isAdmin: bool)

  /**
   * A value thrown inside an action's `try` and caught by its `catch`: the
   * backend's error object, which may or may not be an instance of Error.
   */
  datatype Thrown = Thrown(isErrorInstance: bool, message: string)

  /** The catch clause: `error instanceof Error ? error : new Error('Unknown error')`. */
  function CaughtMessage(t: Thrown): (m: string)
    ensures t.isErrorInstance ==> m == t.message
    ensures !t.isErrorInstance ==> m == "Unknown error"
  {
    if t.isErrorInstance then t.message else "Unknown error"
  }

  /** A backend read: its data (possibly `null`) and its error (possibly `null`). */
  datatype Answer<T> = Answer(data: Option<T>, failure: Option<Thrown>)

  /** A JavaScript value stored in a row. */
  datatype Value = Text(text: string) | Number(number: real) | Flag(flag: bool) | Null

  /** A row as sent to the backend: column name to value. */
  type Row = map<string, Value>

  /** An `.eq(column, value)` filter. */
  datatype Filter = Eq(column: string, value: string)

  /** One backend call, in the order an action issues them. */
  datatype Call =
    | GetUser
    | IsAdmin(userId: string)
    | Insert(table: string, row: Row)
    | Update(table: string, values: Row, filters: seq<Filter>)
    | Delete(table: string, filters: seq<Filter>)
    | FindWhitelisted(email: string)
    | ListUsers
    | UpdateUser(metadata: Row)
    | SignOut
    | Revalidate(path: string)

  /** `{ success, error }` as the actions return it. */
  datatype Reply = Success | Failure(message: string)

  /** An action's reply together with the backend calls it made. */
  datatype Run = Run(reply: Reply, calls: seq<Call>)

  const Unauthorized: string := "Unauthorized"

  /** The reply after a write: success, or the caught message of the failure. */
  function AfterWrite(failure: Option<Thrown>): (r: Reply)
    ensures r.Success? <==> failure.None?
    ensures failure.Some? ==> r == Failure(CaughtMessage(failure.value))
  {
    if failure.None? then Success else Failure(CaughtMessage(failure.value))
  }

  /** `v || null` as a stored value: the text when it is truthy, else `null`. */
  function TextOrNull(v: Option<string>): (r: Value)
    ensures Truthy(v) ==> r == Text(v.value)
    ensures !Truthy(v) ==> r == Null
  {
    if Truthy(v) then Text(v.value) else Null
  }

  /** `revalidatePath(p)` for each path, in order. */
  function Revalidations(paths: seq<string>): (r: seq<Call>)
    ensures |r| == |paths|
    ensures forall k :: 0 <= k < |paths| ==> r[k] == Revalidate(paths[k])
  {
    seq(|paths|, k requires 0 <= k < |paths| => Revalidate(paths[k]))
  }

  /** A write that is thrown on failure: on success the paths are revalidated. */
  function Written(write: Call, failure: Option<Thrown>, paths: seq<string>): Run {
    Run(AfterWrite(failure), [write] + (if failure.None? then Revalidations(paths) else []))
  }

  /** `r` preceded by the calls `first`. */
  function After(first: seq<Call>, r: Run): Run {
    Run(r.reply, first + r.calls)
  }

  /** Fetch the user; without one reply 'Unauthorized', otherwise continue with the user. */
  function SignedIn(user: Option<User>, next: User -> Run): Run {
    if user.None? then Run(Failure(Unauthorized), [GetUser])
    else After([GetUser], next(user.value))
  }

  /**
   * Fetch the user and ask the `is_admin` RPC about it; without a user, or
   * when the answer is not truthy, reply 'Unauthorized'; otherwise continue
   * with the user.
   */
  function AdminOnly(session: Session, next: User -> Run): Run {
    if session.user.None? then Run(Failure(Unauthorized), [GetUser])
    else if !session.isAdmin then Run(Failure(Unauthorized), [GetUser, IsAdmin(session.user.value.id)])
    else After([GetUser, IsAdmin(session.user.value.id)], next(session.user.value))
  }

  /** A write call: something that changes a table or the user's metadata. */
  predicate IsWrite(c: Call) {
    c.Insert? || c.Update? || c.Delete? || c.UpdateUser?
  }

  /** No call of `calls` writes anything. */
  predicate NoWrites(calls: seq<Call>) {
    forall k :: 0 <= k < |calls| ==> !IsWrite(calls[k])
  }

  /** The admin gate lets a run through only for an admin, and otherwise writes nothing. */
  lemma AdminGate(session: Session, next: User -> Run)
    ensures session.user.None? || !session.isAdmin ==>
              AdminOnly(session, next).reply == Failure(Unauthorized) && NoWrites(AdminOnly(session, next).calls)
    ensures session.user.Some? && session.isAdmin ==>
              AdminOnly(session, next).reply == next(session.user.value).reply
              && AdminOnly(session, next).calls == [GetUser, IsAdmin(session.user.value.id)] + next(session.user.value).calls
  {
  }

  /**
   * The tail every user-owned write shares: fetch the user; without one reply
   * 'Unauthorized'; otherwise issue the write built from the user's id, and on
   * success revalidate `paths` and reply with success, on failure reply with
   * the caught message.
   */
  function SignedInWrite(user: Option<User>, write: string -> Call, failure: Option<Thrown>, paths: seq<string>): (r: Run)
    ensures |r.calls| >= 1 && r.calls[0] == GetUser
    ensures user.None? ==> r == Run(Failure(Unauthorized), [GetUser])
    ensures user.Some? ==> r.reply == AfterWrite(failure)
    ensures user.Some? ==> r.calls == [GetUser, write(user.value.id)] + (if failure.None? then Revalidations(paths) else [])
    ensures r.reply.Success? <==> user.Some? && failure.None?
  {
    SignedIn(user, (u: User) => Written(write(u.id), failure, paths))
  }

  /** A read's outcome as the read actions return it: `{ data, error }`. */
  datatype Fetched<T> = Fetched(data: Option<T>, error: Option<string>)

  /** The `.eq("id", id).eq("user_id", userId)` pair that scopes a change to one of the caller's rows. */
  function OwnRow(id: string, userId: string): seq<Filter> {
    [Eq("id", id), Eq("user_id", userId)]
  }
}
