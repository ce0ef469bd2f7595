/** The route guards of src/contexts/RouteGuard.tsx: what a protected or a
    public route renders, given the outcome of `checkAuth()`. */
module RouteGuard {
  import opened Js
  import Auth

  const LoginPath := "/login"
  const HomePath := "/dashboard"

  /** What a guard renders: its children, or a `<Navigate>` element with its
      target, its `replace` flag and the `state.from` it carries. */
  datatype Rendered = Children | Navigate(to: string, replace: bool, from: Option<string>)

  /** `ProtectedRoute`: the children for an authenticated session, otherwise a
      replacing redirect to the login page that remembers where the visitor
      was going. */
  function ProtectedRoute(authorised: bool, pathname: string): (r: Rendered)
    ensures r.Children? <==> authorised
    ensures !authorised ==> r == Navigate(LoginPath, true, Some(pathname))
  {
    if !authorised then Navigate(LoginPath, true, Some(pathname)) else Children
  }

  /** `PublicRoute`: a restricted route (such as the login page) sends an
      authenticated session to the dashboard; anything else renders. */
  function PublicRoute(authorised: bool, restricted: bool): (r: Rendered)
    ensures r.Navigate? <==> restricted && authorised
    ensures r.Navigate? ==> r == Navigate(HomePath, true, None)
  {
    if restricted && authorised then Navigate(HomePath, true, None) else Children
  }

  /** `restricted` defaults to `false`. */
  function PublicRouteDefault(authorised: bool): Rendered {
    PublicRoute(authorised, false)
  }

  /** An unrestricted public route renders its children in every session. */
  lemma UnrestrictedAlwaysRenders(authorised: bool)
    ensures PublicRouteDefault(authorised) == Children
  {
  }

  /** No session is sent away by both guards: the login page (restricted) and
      a protected page never redirect at the same time, so the two redirects
      cannot bounce a visitor back and forth. */
  lemma GuardsNeverBothRedirect(authorised: bool, pathname: string)
    ensures !(ProtectedRoute(authorised, pathname).Navigate? && PublicRoute(authorised, true).Navigate?)
    ensures ProtectedRoute(authorised, pathname).Navigate? ==> PublicRoute(authorised, true) == Children
  {
  }

  /** A protected page visited after `logout` redirects to the login page. */
  method VisitAfterLogout(auth: Auth.AuthProvider, pathname: string) returns (r: Rendered)
    modifies auth
    ensures r == Navigate(LoginPath, true, Some(pathname))
  {
    auth.Logout();
    r := ProtectedRoute(auth.CheckAuth(), pathname);
  }

  /** After `login` a protected page renders, and the login page (restricted)
      redirects to the dashboard. */
  method VisitAfterLogin(auth: Auth.AuthProvider, pathname: string, now: nat) returns (page: Rendered, loginPage: Rendered)
    modifies auth
    ensures page == Children
    ensures loginPage == Navigate(HomePath, true, None)
  {
    var _ := auth.Login("", "", now);
    page := ProtectedRoute(auth.CheckAuth(), pathname);
    loginPage := PublicRoute(auth.CheckAuth(), true);
  }
}
