/** The route guard (middleware.ts): pages are classified by path prefix, and the caller's
    session and role decide whether the request passes or is sent elsewhere. */
module Middleware {

  import opened Wrappers
  import opened Text
  import opened Schema

  datatype Decision = Pass | Redirect(target: string)

  const LoginPath := "/login"
  const AdminDashboard := "/admin/dashboard"
  const DonorDashboard := "/donor/dashboard"

  predicate IsAuthPage(path: string) { StartsWith(path, "/login") }
  predicate IsAdminPage(path: string) { StartsWith(path, "/admin") }
  predicate IsDonorPage(path: string) { StartsWith(path, "/donor") }

  /** The three prefixes differ in their second character, so a path is at most one kind of page. */
  lemma PagesDisjoint(path: string)
    ensures !(IsAuthPage(path) && IsAdminPage(path))
    ensures !(IsAuthPage(path) && IsDonorPage(path))
    ensures !(IsAdminPage(path) && IsDonorPage(path))
  {
    if IsAuthPage(path) {
      assert path[1] == "/login"[1];
    }
    if IsAdminPage(path) {
      assert path[1] == "/admin"[1];
    }
  }

  /** `middleware(request)` for a request to `path` carrying `session`. */
  function Decide(path: string, session: Option<Session>): (d: Decision)
    // A signed-in administrator or donor on the login page goes to their own dashboard;
    // anyone else there passes.
    ensures IsAuthPage(path) ==>
              d == (if IsAdmin(session) then Redirect(AdminDashboard)
                    else if IsDonor(session) then Redirect(DonorDashboard) else Pass)
    // Without a session, administrator and donor pages send the caller to the login page.
    ensures (IsAdminPage(path) || IsDonorPage(path)) && session.None? ==> d == Redirect(LoginPath)
    // A session with another role on an administrator page goes to the donor dashboard,
    // and on a donor page to the administrator dashboard.
    ensures IsAdminPage(path) && session.Some? && !IsAdmin(session) ==> d == Redirect(DonorDashboard)
    ensures IsDonorPage(path) && session.Some? && !IsDonor(session) ==> d == Redirect(AdminDashboard)
    // The owner of a page passes; a path of none of the three kinds passes.
    ensures IsAdminPage(path) && IsAdmin(session) ==> d == Pass
    ensures IsDonorPage(path) && IsDonor(session) ==> d == Pass
    ensures !IsAuthPage(path) && !IsAdminPage(path) && !IsDonorPage(path) ==> d == Pass
  {
    PagesDisjoint(path);
    var isAuth := session.Some?;
    var role := if session.Some? then session.value.role else None;
    if IsAuthPage(path) then
      if isAuth && role == Some(AdminRole) then Redirect(AdminDashboard)
      else if isAuth && role == Some(DonorRole) then Redirect(DonorDashboard)
      else Pass
    else if IsAdminPage(path) && !isAuth then Redirect(LoginPath)
    else if IsAdminPage(path) && role != Some(AdminRole) then Redirect(DonorDashboard)
    else if IsDonorPage(path) && !isAuth then Redirect(LoginPath)
    else if IsDonorPage(path) && role != Some(DonorRole) then Redirect(AdminDashboard)
    else Pass
  }

  /** `config.matcher`: `/admin/:path*`, `/donor/:path*` and `/login`. */
  predicate Matched(path: string)
  {
    path == "/admin" || StartsWith(path, "/admin/") ||
    path == "/donor" || StartsWith(path, "/donor/") ||
    path == "/login"
  }

  /** What a request meets: the guard runs only on matched paths. */
  function Guard(path: string, session: Option<Session>): (d: Decision)
    ensures !Matched(path) ==> d == Pass
    ensures Matched(path) ==> d == Decide(path, session)
  {
    if Matched(path) then Decide(path, session) else Pass
  }

  /** Every matched path is one of the guard's page kinds, so the matcher loses no case the
      guard distinguishes. */
  lemma MatchedPathsAreClassified(path: string)
    requires Matched(path)
    ensures IsAuthPage(path) || IsAdminPage(path) || IsDonorPage(path)
  {
    if StartsWith(path, "/admin/") {
      assert path[..6] == "/admin/"[..6];
    } else if StartsWith(path, "/donor/") {
      assert path[..6] == "/donor/"[..6];
    }
  }

  /** The classification is a bare prefix test: "/administrator" counts as an administrator
      page, though the matcher never runs the guard there. */
  lemma PrefixClassification()
    ensures IsAdminPage("/administrator")
    ensures Decide("/administrator", Some(Session(Some(DonorRole), 1))) == Redirect(DonorDashboard)
    ensures !Matched("/administrator")
    ensures Guard("/administrator", Some(Session(Some(DonorRole), 1))) == Pass
  {
    assert "/administrator"[..6] == "/admin";
    assert "/administrator"[..7] != "/admin/" by {
      assert "/administrator"[6] != "/admin/"[6];
    }
  }
}
