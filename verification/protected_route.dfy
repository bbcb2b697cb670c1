/**
 * The gate in front of signed-in pages: while the session is loading it
 * shows a loader; with no user it redirects and renders nothing; with a
 * user it renders the page.
 */
module ProtectedRoute {
  import opened Wrappers

  const DefaultRedirect: string := "/auth/login"

  datatype View = Loader | Nothing | Children

  /** What one render shows and where, if anywhere, the effect navigates. */
  datatype Gate = Gate(view: View, redirect: Option<string>)

  /** `redirectTo` when the caller passes it, the login page otherwise. */
  function RedirectTarget(redirectTo: Option<string>): (t: string)
    ensures redirectTo.None? ==> t == DefaultRedirect
    ensures redirectTo.Some? ==> t == redirectTo.value
  {
    if redirectTo.Some? then redirectTo.value else DefaultRedirect
  }

  function Decide(loading: bool, hasUser: bool, redirectTo: Option<string>): (g: Gate)
    ensures loading ==> g == Gate(Loader, None)
    ensures !loading && !hasUser ==> g == Gate(Nothing, Some(RedirectTarget(redirectTo)))
    ensures !loading && hasUser ==> g == Gate(Children, None)
  {
    var view := if loading then Loader else if !hasUser then Nothing else Children;
    var redirect := if !loading && !hasUser then Some(RedirectTarget(redirectTo)) else None;
    Gate(view, redirect)
  }

  /**
   * The page is rendered exactly when a user is known and loading is over,
   * and a redirect happens exactly when loading is over without a user.
   */
  lemma ChildrenOnlyForUsers(loading: bool, hasUser: bool, redirectTo: Option<string>)
    ensures Decide(loading, hasUser, redirectTo).view == Children <==> !loading && hasUser
    ensures Decide(loading, hasUser, redirectTo).redirect.Some? <==> !loading && !hasUser
    ensures Decide(loading, hasUser, redirectTo).view == Children ==> Decide(loading, hasUser, redirectTo).redirect.None?
  {
  }
}
