/**
  The route guard (`components/ProtectedRoute.tsx`): what a protected page
  shows, decided from the authentication state and the role the page needs.
 */
module ProtectedRoute {
  import opened Optional
  import opened Text
  import Auth

  /** The four things the guard can render. The redirect remembers the
      location it came from so the login page can return there. */
  datatype View =
    | Spinner
    | RedirectToLogin(target: string, from: string)
    | AccessDenied(requiredRole: string)
    | Children

  const LoginPath := "/login"

  /** The guard's decision, checked in the program's order: loading, then
      authentication, then role. */
  function Decide(s: Auth.AuthState, requiredRole: Option<string>, from: string): (v: View)
    ensures v == Spinner <==> s.isLoading
    ensures v.RedirectToLogin? <==> !s.isLoading && !Auth.IsAuthenticated(s)
    ensures v.RedirectToLogin? ==> v.target == LoginPath && v.from == from
    ensures v.AccessDenied? <==>
      !s.isLoading && Auth.IsAuthenticated(s) && requiredRole.Some? && requiredRole.value != ""
      && s.user.value.role != requiredRole.value
    ensures v.AccessDenied? ==> v.requiredRole == requiredRole.value
    ensures v == Children <==>
      !s.isLoading && Auth.IsAuthenticated(s)
      && (requiredRole.None? || requiredRole.value == "" || s.user.value.role == requiredRole.value)
  {
    if s.isLoading then Spinner
    else if !Auth.IsAuthenticated(s) then RedirectToLogin(LoginPath, from)
    else if requiredRole.Some? && requiredRole.value != "" && s.user.value.role != requiredRole.value then
      AccessDenied(requiredRole.value)
    else Children
  }

  /** A signed-out visitor never sees a protected page, whatever it requires. */
  lemma LoggedOutNeverSeesChildren(s: Auth.AuthState, requiredRole: Option<string>, from: string)
    ensures Decide(Auth.Logout(s), requiredRole, from) != Children
    ensures !s.isLoading ==> Decide(Auth.Logout(s), requiredRole, from) == RedirectToLogin(LoginPath, from)
  {
  }

  /** After a mock login, an admin-only page opens exactly for addresses
      containing "admin". */
  lemma AdminPageAfterLogin(s: Auth.AuthState, email: string, password: string, id: string, from: string)
    requires Auth.AcceptsCredentials(email, password)
    ensures var t := Auth.Login(s, email, password, id).0;
      (Decide(t, Some(Auth.Admin), from) == Children) <==> Includes(email, "admin")
  {
    Auth.RolePriority(email);
  }

  /** A farmer who signed in through the mock login is turned away from an
      officer's page. */
  lemma FarmerDeniedOfficerPage(s: Auth.AuthState, email: string, password: string, id: string, from: string)
    requires Auth.AcceptsCredentials(email, password)
    requires !Includes(email, "admin") && !Includes(email, "officer")
    ensures Decide(Auth.Login(s, email, password, id).0, Some(Auth.Officer), from) == AccessDenied(Auth.Officer)
  {
    Auth.RolePriority(email);
  }

  /** A page that requires no role opens for any signed-in user once loading ends. */
  lemma OpenPageForAnyUser(s: Auth.AuthState, from: string)
    requires !s.isLoading && Auth.IsAuthenticated(s)
    ensures Decide(s, None, from) == Children
  {
  }
}
