/** The route guard: an ordered chain of checks over the authentication state that picks
    exactly one thing to show. `isEmailVerified` is taken as an input; a falsy one keeps every
    signed-in user out (`UnverifiedNeverShowsChildren`). */
module ProtectedRoute {
  import opened JsPrims
  import opened DatabaseTypes

  /** What the guard renders. */
  datatype Outcome = Spinner | Redirect(to: string) | SettingUp | Children

  datatype AuthState = AuthState(
    isSignedIn: bool, isEmailVerified: bool, profile: Option<User>, loading: bool)

  /** The guard with `requireAdmin` given or omitted (omitted means false). */
  function Guard(auth: AuthState, requireAdmin: Option<bool>): (r: Outcome)
    ensures auth.loading ==> r == Spinner
    ensures !auth.loading && !auth.isSignedIn ==> r == Redirect("/login")
    ensures r == Children <==>
      !auth.loading && auth.isSignedIn && auth.isEmailVerified && auth.profile.Some? &&
      (requireAdmin != Some(true) || auth.profile.value.role == Admin)
  {
    var admin := requireAdmin.GetOr(false);
    if auth.loading then Spinner
    else if !auth.isSignedIn then Redirect("/login")
    else if !auth.isEmailVerified then Redirect("/verify-email")
    else if auth.profile.None? then SettingUp
    else if admin && auth.profile.value.role != Admin then Redirect("/voter")
    else Children
  }

  /** A signed-in user whose e-mail is unverified goes to /verify-email, whatever the
      profile, its role and the route's admin requirement. */
  /** With `isEmailVerified` falsy, as it is when the context provides no such member, the
      guard never renders its children: it shows the spinner or redirects. */
  lemma UnverifiedNeverShowsChildren(auth: AuthState, requireAdmin: Option<bool>)
    requires !auth.isEmailVerified
    ensures Guard(auth, requireAdmin) != Children
    ensures !auth.loading ==> Guard(auth, requireAdmin).Redirect?
  {
  }

  lemma UnverifiedGoesToVerify(auth: AuthState, requireAdmin: Option<bool>, p: Option<User>)
    requires !auth.loading && auth.isSignedIn && !auth.isEmailVerified
    ensures Guard(auth, requireAdmin) == Redirect("/verify-email")
    ensures Guard(auth.(profile := p), Some(!requireAdmin.GetOr(false))) == Redirect("/verify-email")
  {
  }

  /** Only an admin route turns anyone away to /voter, and only a loaded non-admin profile. */
  lemma VoterRedirect(auth: AuthState, requireAdmin: Option<bool>)
    ensures Guard(auth, requireAdmin) == Redirect("/voter") <==>
      !auth.loading && auth.isSignedIn && auth.isEmailVerified && auth.profile.Some? &&
      requireAdmin == Some(true) && auth.profile.value.role == Voter
  {
  }

  /** Omitting `requireAdmin` is the same as passing false; an admin sees the same outcome
      on every route. */
  lemma RequireAdminDefault(auth: AuthState)
    ensures Guard(auth, None) == Guard(auth, Some(false))
    ensures auth.profile.Some? && auth.profile.value.role == Admin ==>
      Guard(auth, Some(true)) == Guard(auth, None)
  {
  }

  /** While loading, the spinner is shown whatever the other inputs are. */
  lemma LoadingIgnoresRest(a: AuthState, b: AuthState, ra: Option<bool>, rb: Option<bool>)
    requires a.loading && b.loading
    ensures Guard(a, ra) == Guard(b, rb) == Spinner
  {
  }
}
