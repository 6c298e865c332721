/**
 * The route guard that runs before every matched request: a signed-out
 * visitor asking for a dashboard page is sent to the sign-in page, and a
 * signed-in one asking for the sign-in page is sent to the dashboard. The
 * matcher decides which paths the guard runs on at all.
 */
module Middleware {
  import opened Wrappers
  import opened JsText

  const LoginPath: string := "/login"
  const DashboardPath: string := "/dashboard"

  /** What the guard answers: a redirect to a path, or the request passed on unchanged. */
  datatype Outcome = RedirectTo(target: string) | PassThrough

  /**
   * The redirect decision on whether a user is signed in and the request's
   * pathname: `startsWith('/dashboard')` for the signed-out test, equality
   * with '/login' for the signed-in one.
   */
  function Decide(signedIn: bool, path: string): Outcome {
    if !signedIn && StartsWith(path, DashboardPath) then RedirectTo(LoginPath)
    else if signedIn && path == LoginPath then RedirectTo(DashboardPath)
    else PassThrough
  }

  /**
   * The decision in full: each redirect happens exactly under its own
   * condition, the two conditions never hold together, and every other
   * (user, path) pair is passed through.
   */
  lemma DecideIsExact(signedIn: bool, path: string)
    ensures Decide(signedIn, path) == RedirectTo(LoginPath) <==> !signedIn && StartsWith(path, DashboardPath)
    ensures Decide(signedIn, path) == RedirectTo(DashboardPath) <==> signedIn && path == LoginPath
    ensures Decide(signedIn, path) == PassThrough <==>
              !(!signedIn && StartsWith(path, DashboardPath)) && !(signedIn && path == LoginPath)
    ensures Decide(signedIn, path).RedirectTo? ==> Decide(signedIn, path).target in {LoginPath, DashboardPath}
  {
    assert !StartsWith(LoginPath, DashboardPath);
  }

  /** A redirect never leads to another redirect for the same visitor. */
  lemma NoRedirectLoop(signedIn: bool, path: string)
    requires Decide(signedIn, path).RedirectTo?
    ensures Decide(signedIn, Decide(signedIn, path).target) == PassThrough
  {
    assert !StartsWith(LoginPath, DashboardPath);
  }

  /**
   * The tests are textual: a signed-out request for '/dashboardX' is
   * redirected although it is no dashboard page, while a signed-in request
   * for '/login/x' is not.
   */
  lemma TestsArePlainText()
    ensures Decide(false, "/dashboardX") == RedirectTo(LoginPath)
    ensures Decide(false, "/dashboard/savings") == RedirectTo(LoginPath)
    ensures Decide(true, "/login/x") == PassThrough
    ensures Decide(true, "/dashboardX") == PassThrough
    ensures Decide(false, "/login") == PassThrough
  {
    assert "/dashboardX"[..|DashboardPath|] == DashboardPath;
    assert "/dashboard/savings"[..|DashboardPath|] == DashboardPath;
    assert !StartsWith(LoginPath, DashboardPath);
  }

  /** The alternatives of the matcher's negative lookahead, in order. */
  const Excluded: seq<string> := ["_next/static", "_next/image", "favicon.ico", "auth/callback"]

  /** One pattern character against one path character: '.' is the regex wildcard, anything else itself. */
  predicate PatternCharMatches(p: char, c: char) {
    if p == '.' then !IsLineTerminator(c) else c == p
  }

  /** Pattern `pat` matches `s` from index `i` on. */
  predicate MatchesAt(s: string, pat: string, i: nat) {
    i + |pat| <= |s| && forall k :: 0 <= k < |pat| ==> PatternCharMatches(pat[k], s[i + k])
  }

  /** No line terminator after the leading character. */
  predicate SingleLine(path: string) {
    forall k :: 1 <= k < |path| ==> !IsLineTerminator(path[k])
  }

  /**
   * `/((?!_next/static|_next/image|favicon.ico|auth/callback).*)` over the
   * whole pathname: a leading '/', none of the alternatives right after it,
   * and the rest made of characters a `.` matches.
   */
  predicate MatcherRuns(path: string) {
    && |path| >= 1 && path[0] == '/'
    && (forall a :: a in Excluded ==> !MatchesAt(path, a, 1))
    && SingleLine(path)
  }

  /** The whole middleware: nothing happens when the matcher does not run, else the decision. */
  function Guard(signedIn: bool, path: string): (o: Option<Outcome>)
    ensures o.None? <==> !MatcherRuns(path)
    ensures o.Some? ==> o.value == Decide(signedIn, path)
  {
    if MatcherRuns(path) then Some(Decide(signedIn, path)) else None
  }

  /**
   * The guard covers the pages it protects: it runs on every single-line
   * path under '/dashboard' and on '/login', so a signed-out visitor never
   * reaches a dashboard page and a signed-in one never sees the sign-in page.
   */
  lemma GuardCoversItsPages(signedIn: bool, path: string)
    requires StartsWith(path, DashboardPath) || path == LoginPath
    requires SingleLine(path)
    ensures MatcherRuns(path)
    ensures !signedIn && StartsWith(path, DashboardPath) ==> Guard(signedIn, path) == Some(RedirectTo(LoginPath))
    ensures signedIn && path == LoginPath ==> Guard(signedIn, path) == Some(RedirectTo(DashboardPath))
  {
    assert path[0] == '/';
    assert path[1] == 'd' || path[1] == 'l';
    forall a | a in Excluded
      ensures !MatchesAt(path, a, 1)
    {
      assert a[0] == '_' || a[0] == 'f' || a[0] == 'a';
    }
  }

  /** Static files, the favicon and the sign-in callback are skipped; the lookahead tests prefixes only. */
  lemma MatcherSkipsAssets()
    ensures !MatcherRuns("/_next/static/chunks/main.js")
    ensures !MatcherRuns("/_next/image")
    ensures !MatcherRuns("/favicon.ico")
    ensures !MatcherRuns("/auth/callback")
    ensures !MatcherRuns("/auth/callbacks")
  {
    assert MatchesAt("/_next/static/chunks/main.js", Excluded[0], 1);
    assert MatchesAt("/_next/image", Excluded[1], 1);
    assert MatchesAt("/favicon.ico", Excluded[2], 1);
    assert MatchesAt("/auth/callback", Excluded[3], 1);
    assert MatchesAt("/auth/callbacks", Excluded[3], 1);
  }

  /**
   * The '.' in `favicon.ico` is a wildcard, so any path beginning
   * "/favicon" + one character + "ico" is skipped too; and an excluded name
   * further along the path does not stop the guard.
   */
  lemma MatcherQuirks()
    ensures !MatcherRuns("/faviconXico")
    ensures MatcherRuns("/docs/_next/static")
    ensures !MatcherRuns("/login\n")
  {
    assert MatchesAt("/faviconXico", Excluded[2], 1);
    var p := "/docs/_next/static";
    forall a | a in Excluded
      ensures !MatchesAt(p, a, 1)
    {
      assert a[0] != p[1];
    }
    assert IsLineTerminator("/login\n"[6]);
  }
}
