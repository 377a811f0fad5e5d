/** The post-login redirect: the `hasRedirected` flag, the two effects that
    set and clear it, the choice of destination and the render guard
    (app/pages/LoginPage.tsx). */
module RedirectGuard {
  import opened Optional

  /** The fields of the session user the page reads. */
  datatype User = User(id: string, role: string)

  /** One run of the effects: the session store's `isAuthenticated` and
      current user, and `location.state?.from?.pathname`. */
  datatype Observation = Observation(isAuthenticated: bool, user: Option<User>, from: Option<string>)

  /** A call `navigate(path, { replace })`. */
  datatype Navigation = Navigation(path: string, replace: bool)

  /** The flag after one observation, and the navigation issued in it. */
  datatype Reaction = Reaction(hasRedirected: bool, nav: Option<Navigation>)

  const LoginPath: string := "/login"
  const AdminHome: string := "/menu/admin"
  const MainHome: string := "/menu/main"
  const AdminRole: string := "admin"

  /** `from && from !== '/login' ? from : role default`: a usable origin wins
      over the role; otherwise the admin role goes to the admin menu and any
      other role to the main menu. The target is never empty and never the
      login page itself. */
  function TargetPath(from: Option<string>, role: string): (p: string)
    ensures p != "" && p != LoginPath
    ensures Truthy(from) && from.value != LoginPath ==> p == from.value
    ensures !(Truthy(from) && from.value != LoginPath) ==>
      (role == AdminRole ==> p == AdminHome) && (role != AdminRole ==> p == MainHome)
  {
    if Truthy(from) && from.value != LoginPath then from.value
    else if role == AdminRole then AdminHome
    else MainHome
  }

  /** Both effects for one observation. A navigation is issued exactly when
      the session is authenticated with a user and the flag is unset, and it
      replaces the history entry; an unauthenticated observation clears the
      flag; an authenticated one keeps it set once set. */
  function Step(hasRedirected: bool, o: Observation): (r: Reaction)
    ensures r.nav.Some? <==> o.isAuthenticated && o.user.Some? && !hasRedirected
    ensures r.nav.Some? ==> r.nav.value == Navigation(TargetPath(o.from, o.user.value.role), true)
    ensures !o.isAuthenticated ==> !r.hasRedirected
    ensures o.isAuthenticated ==> (r.hasRedirected <==> hasRedirected || r.nav.Some?)
  {
    // first effect: redirect once
    var redirect := o.isAuthenticated && o.user.Some? && !hasRedirected;
    var flag := if redirect then true else hasRedirected;
    var nav := if redirect then Some(Navigation(TargetPath(o.from, o.user.value.role), true)) else None;
    // second effect: reset on sign-out
    Reaction(if !o.isAuthenticated then false else flag, nav)
  }

  /** Re-running the effects on an unchanged observation does nothing, so
      it does not matter whether React re-runs them on a render whose
      dependencies did not change. */
  lemma StepIdempotent(hasRedirected: bool, o: Observation)
    ensures var r := Step(hasRedirected, o);
      Step(r.hasRedirected, o) == Reaction(r.hasRedirected, None)
  {
  }

  /** The flag after a sequence of observations. */
  function FlagAfter(hasRedirected: bool, obs: seq<Observation>): bool {
    if obs == [] then hasRedirected
    else Step(FlagAfter(hasRedirected, obs[..|obs| - 1]), obs[|obs| - 1]).hasRedirected
  }

  /** The navigation (if any) issued at each observation of a sequence. */
  function Trace(hasRedirected: bool, obs: seq<Observation>): (t: seq<Option<Navigation>>)
    ensures |t| == |obs|
  {
    seq(|obs|, i requires 0 <= i < |obs| => Step(FlagAfter(hasRedirected, obs[..i]), obs[i]).nav)
  }

  /** `isAuthenticated && user`: the form is rendered only outside an
      authenticated session. */
  predicate ShowForm(isAuthenticated: bool, user: Option<User>) {
    !(isAuthenticated && user.Some?)
  }

  /** Once set, the flag stays set for as long as the session stays authenticated. */
  lemma {:induction false} FlagPersists(hasRedirected: bool, obs: seq<Observation>, i: nat, j: nat)
    requires i <= j <= |obs|
    requires FlagAfter(hasRedirected, obs[..i])
    requires forall k :: i <= k < j ==> obs[k].isAuthenticated
    ensures FlagAfter(hasRedirected, obs[..j])
    decreases j
  {
    if i < j {
      FlagPersists(hasRedirected, obs, i, j - 1);
      assert obs[..j][..j - 1] == obs[..j - 1];
    }
  }

  /** At most one navigation per sign-in on one mounted page: between any
      two navigations of the same flag the session was observed
      unauthenticated. A remount starts a fresh flag and is not covered. */
  lemma {:induction false} AtMostOnceUntilSignOut(hasRedirected: bool, obs: seq<Observation>, i: nat, j: nat)
    requires i < j < |obs|
    requires Trace(hasRedirected, obs)[i].Some? && Trace(hasRedirected, obs)[j].Some?
    ensures exists k :: i < k < j && !obs[k].isAuthenticated
  {
    if forall k :: i < k < j ==> obs[k].isAuthenticated {
      assert obs[..i + 1][..i] == obs[..i];
      assert FlagAfter(hasRedirected, obs[..i + 1]);
      FlagPersists(hasRedirected, obs, i + 1, j);
      assert false;
    }
  }

  /** `n` repetitions of the same observation. */
  function Repeat(o: Observation, n: nat): (obs: seq<Observation>)
    ensures |obs| == n
  {
    seq(n, _ => o)
  }

  /** Any number of identical authenticated observations starting from an
      unset flag navigate exactly once, at the first of them. */
  lemma RepeatedObservationsNavigateOnce(o: Observation, n: nat)
    requires o.isAuthenticated && o.user.Some?
    ensures forall i :: 0 <= i < n ==> (Trace(false, Repeat(o, n))[i].Some? <==> i == 0)
  {
  }

  /** After `i > 0` identical authenticated observations the flag is set. */
  lemma FlagAfterRepeated(o: Observation, n: nat, i: nat)
    requires o.isAuthenticated && o.user.Some?
    requires i <= n
    ensures FlagAfter(false, Repeat(o, n)[..i]) == (i > 0)
    decreases i
  {
  }

  /** Signing out re-arms the guard: an authenticated observation with a user
      right after an unauthenticated one always navigates, whatever happened before. */
  lemma SignOutReenablesRedirect(hasRedirected: bool, obs: seq<Observation>, k: nat)
    requires k + 1 < |obs|
    requires !obs[k].isAuthenticated
    requires obs[k + 1].isAuthenticated && obs[k + 1].user.Some?
    ensures Trace(hasRedirected, obs)[k + 1].Some?
  {
  }

  /** Sign in, repeat, sign out, sign in again on one mounted page: two
      navigations, one per sign-in. */
  lemma SecondLoginScenario(u: User, from: Option<string>)
    ensures var signedIn, signedOut := Observation(true, Some(u), from), Observation(false, None, from);
      var t := Trace(false, [signedIn, signedIn, signedOut, signedIn]);
      && t[0] == Some(Navigation(TargetPath(from, u.role), true))
      && t[1] == None && t[2] == None
      && t[3] == Some(Navigation(TargetPath(from, u.role), true))
  {
  }

  /** Whenever the guard navigates, the form is hidden; while the form is
      shown, the guard never navigates. */
  lemma NavigationHidesForm(hasRedirected: bool, o: Observation)
    ensures Step(hasRedirected, o).nav.Some? <==> !ShowForm(o.isAuthenticated, o.user) && !hasRedirected
  {
  }
}
