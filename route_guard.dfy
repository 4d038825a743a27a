/** The route guard of the session middleware (utils/supabase/middleware.ts):
    which requests go on and which are redirected, decided from whether a
    user is signed in, the role in the user's metadata and the path. */
module RouteGuard {
  import opened Common

  /** Who is asking: nobody, or a signed-in user whose metadata may carry a role. */
  datatype Session = Anonymous | SignedIn(role: Option<string>)

  /** The middleware's answer: the request goes on, or the browser is sent elsewhere. */
  datatype Decision = PassThrough | Redirect(path: string)

  const LoginPath := "/login"
  const SignupPath := "/signup"
  const AdminDashboard := "/admin/dashboard"
  const RepDashboard := "/rep/dashboard"

  predicate IsAdmin(s: Session) {
    s.SignedIn? && s.role == Some("Admin")
  }

  predicate AdminPath(path: string) {
    StartsWith(path, "/admin")
  }

  predicate RepPath(path: string) {
    StartsWith(path, "/rep")
  }

  /** The dashboard of the signed-in user's role. */
  function HomeOf(s: Session): (r: string)
    ensures r == AdminDashboard <==> IsAdmin(s)
    ensures r == RepDashboard <==> !IsAdmin(s)
  {
    if s.SignedIn? && s.role == Some("Admin") then AdminDashboard else RepDashboard
  }

  /** The decision of `updateSession`, checks in source order. Nobody signed
      out gets into the admin or rep area, nobody but an Admin into the
      admin area, and every redirect goes to the login page or a dashboard. */
  function Decide(s: Session, path: string): (d: Decision)
    ensures d.PassThrough? && (AdminPath(path) || RepPath(path)) ==> s.SignedIn?
    ensures d.PassThrough? && AdminPath(path) ==> IsAdmin(s)
    ensures d.Redirect? ==> d.path in {LoginPath, RepDashboard, AdminDashboard}
  {
    if s.Anonymous? && (StartsWith(path, "/admin") || StartsWith(path, "/rep")) then
      Redirect(LoginPath)
    else if s.SignedIn? && StartsWith(path, "/admin") && s.role != Some("Admin") then
      Redirect(RepDashboard)
    else if s.SignedIn? && (path == LoginPath || path == SignupPath) then
      Redirect(HomeOf(s))
    else
      PassThrough
  }

  /** Anonymous visitors are kept out of the admin and rep areas, and only those. */
  lemma AnonymousGuarded(path: string)
    ensures Decide(Anonymous, path) == Redirect(LoginPath) <==> AdminPath(path) || RepPath(path)
    ensures Decide(Anonymous, path) == PassThrough <==> !AdminPath(path) && !RepPath(path)
  {
  }

  /** A signed-in user without the Admin role, a missing role included, is
      sent from the admin area to the rep dashboard. */
  lemma NonAdminKeptOut(role: Option<string>, path: string)
    requires role != Some("Admin") && AdminPath(path)
    ensures Decide(SignedIn(role), path) == Redirect(RepDashboard)
  {
  }

  /** A signed-in user on the login or signup page is sent to the dashboard of the role. */
  lemma SignedInLeavesLogin(s: Session, path: string)
    requires s.SignedIn? && (path == LoginPath || path == SignupPath)
    ensures Decide(s, path) == Redirect(if IsAdmin(s) then AdminDashboard else RepDashboard)
  {
    assert path[0] == '/' && path[1] != 'a';
  }

  /** An Admin is never redirected except away from the login and signup pages,
      so the rep area is open to Admins too. */
  lemma AdminPasses(path: string)
    ensures Decide(SignedIn(Some("Admin")), path) ==
            if path == LoginPath || path == SignupPath then Redirect(AdminDashboard) else PassThrough
  {
  }

  /** Everything the guard does, read from the other side: a request is
      redirected only for one of the three reasons. */
  lemma RedirectReasons(s: Session, path: string)
    ensures Decide(s, path).Redirect? <==>
              (s.Anonymous? && (AdminPath(path) || RepPath(path))) ||
              (s.SignedIn? && AdminPath(path) && !IsAdmin(s)) ||
              (s.SignedIn? && (path == LoginPath || path == SignupPath))
  {
  }

  /** Matching is by prefix: any path that begins with `/admin` or `/rep`, such
      as `/administrator` or `/reports`, belongs to the protected area. */
  lemma PrefixMatching(suffix: string)
    ensures Decide(Anonymous, "/admin" + suffix) == Redirect(LoginPath)
    ensures Decide(Anonymous, "/rep" + suffix) == Redirect(LoginPath)
    ensures Decide(SignedIn(None), "/admin" + suffix) == Redirect(RepDashboard)
  {
    assert ("/admin" + suffix)[..6] == "/admin";
    assert ("/rep" + suffix)[..4] == "/rep";
  }

  /** Following a redirect never leads to another one: the target of every
      redirect lets the same session through. */
  lemma RedirectSettles(s: Session, path: string)
    requires Decide(s, path).Redirect?
    ensures Decide(s, Decide(s, path).path) == PassThrough
  {
    var target := Decide(s, path).path;
    assert target == LoginPath || target == RepDashboard || target == AdminDashboard;
    assert LoginPath[1] == 'l' && RepDashboard[1] == 'r' && RepDashboard[2] == 'e';
    if target == RepDashboard {
      assert !AdminPath(target) by { assert target[1] != "/admin"[1]; }
      assert target != LoginPath && target != SignupPath by { assert |target| == 14; }
    } else if target == AdminDashboard {
      assert IsAdmin(s);
      assert target != LoginPath && target != SignupPath by { assert |target| == 16; }
    } else {
      assert s.Anonymous?;
      assert !AdminPath(target) && !RepPath(target) by { assert target[1] == 'l'; }
    }
  }
}
