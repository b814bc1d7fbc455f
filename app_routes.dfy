/** The router and its `ProtectedRoute` guard. */
module AppRoutes {
  import opened Common

  /** The parsed `user` entry of localStorage; only its role matters here
      (a missing role compares unequal to every role name, as "" does). */
  datatype StoredUser = StoredUser(role: string)

  /** What a guarded route renders: a redirect or the wrapped page. */
  datatype Decision = RedirectTo(path: string) | ShowChildren

  /** `ProtectedRoute({ children, adminOnly })` for the stored user (None
      when nothing, or a falsy value, is stored). */
  function Guard(user: Option<StoredUser>, adminOnly: bool): (d: Decision)
    ensures d == RedirectTo("/login") <==> user.None?
    ensures d == RedirectTo("/") <==> user.Some? && adminOnly && user.value.role != "admin"
    ensures d == ShowChildren <==> user.Some? && (!adminOnly || user.value.role == "admin")
  {
    if user.None? then RedirectTo("/login")
    else if adminOnly && user.value.role != "admin" then RedirectTo("/")
    else ShowChildren
  }

  /** The paths the router declares. */
  const Paths: set<string> := {"/", "/login", "/register", "/about", "/services", "/login/forgot",
    "/reset-password/:token", "/search-results", "/mybookings", "/admin-dashboard"}

  /** How a declared path is wrapped: None when it is not guarded,
      otherwise the `adminOnly` flag of its `ProtectedRoute`. */
  function RouteGuard(path: string): (g: Option<bool>)
    requires path in Paths
    ensures g.Some? <==> path == "/mybookings" || path == "/admin-dashboard"
    ensures g == Some(true) <==> path == "/admin-dashboard"
  {
    if path == "/mybookings" then Some(false)
    else if path == "/admin-dashboard" then Some(true)
    else None
  }

  /** What visiting a declared path renders for the stored user: only a
      guarded path redirects, and only to a declared path. */
  function Visit(path: string, user: Option<StoredUser>): (d: Decision)
    requires path in Paths
    ensures d.RedirectTo? ==> RouteGuard(path).Some? && d.path in Paths
    ensures RouteGuard(path).None? ==> d == ShowChildren
  {
    match RouteGuard(path)
    case None => ShowChildren
    case Some(adminOnly) => Guard(user, adminOnly)
  }

  /** Who reaches which page: the unguarded pages are open to everyone, My
      Bookings to anyone logged in whatever the role, the admin dashboard
      only to a stored admin; a visitor without a stored user is sent to
      the login page from both guarded pages, and a logged-in non-admin
      from the dashboard to the home page. */
  lemma WhoSeesWhat(path: string, user: Option<StoredUser>)
    requires path in Paths
    ensures path != "/mybookings" && path != "/admin-dashboard" ==> Visit(path, user) == ShowChildren
    ensures Visit("/mybookings", user) == ShowChildren <==> user.Some?
    ensures Visit("/admin-dashboard", user) == ShowChildren <==> user.Some? && user.value.role == "admin"
    ensures user.None? && RouteGuard(path).Some? ==> Visit(path, user) == RedirectTo("/login")
    ensures user.Some? && user.value.role != "admin" ==> Visit("/admin-dashboard", user) == RedirectTo("/")
  {
  }
}
