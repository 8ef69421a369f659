/**
 The two navigation guards of the client. The role-aware guard decides, from
 the session snapshot (`loading`, `user`) and the route's optional list of
 allowed roles, whether to show the verifying spinner, to redirect to the entry
 page (with or without the originating location), or to render the guarded
 page; it also decides which error toast to raise. The guard inlined in the
 application shell makes the same decision from `isAuthenticated` alone.
 */
module RouteGuard {
  import opened Core
  import opened Types

  /** The location the user tried to reach. */
  datatype Location = Location(pathname: string)

  /** What the role-aware guard renders. A redirect always targets the entry
      page "/" and replaces the history entry; `from` is the location state it
      carries, if any. */
  datatype GuardOutcome =
    | Spinner
    | Redirect(to: string, from: Option<Location>, replace: bool)
    | Render

  /** JavaScript `allowedRoles.includes(role)`. */
  predicate Includes(roles: seq<Role>, role: Role) {
    exists i :: 0 <= i < |roles| && roles[i] == role
  }

  /** The route lets this user in: either no role list was given, or the list
      (even an empty one, which is truthy) includes the user's role. */
  predicate RoleAllowed(allowedRoles: Option<seq<Role>>, role: Role) {
    allowedRoles.None? || Includes(allowedRoles.value, role)
  }

  /** The role-aware guard's decision. Loading wins over everything, a missing
      user is sent home with the originating location, a user whose role is not
      allowed is sent home without it, and only the remaining case renders. */
  function Decide(loading: bool, user: Option<User>, allowedRoles: Option<seq<Role>>,
                  location: Location): (r: GuardOutcome)
    ensures loading <==> r == Spinner
    ensures r.Redirect? ==> r.to == "/" && r.replace
    ensures r.Redirect? && r.from.Some? <==> !loading && user.None?
    ensures r.Redirect? && r.from.Some? ==> r.from == Some(location)
    ensures r.Redirect? && r.from.None? <==>
              !loading && user.Some? && !RoleAllowed(allowedRoles, user.value.role)
    ensures r == Render <==>
              !loading && user.Some? && RoleAllowed(allowedRoles, user.value.role)
  {
    if loading then Spinner
    else if user.None? then Redirect("/", Some(location), true)
    else if allowedRoles.Some? && !Includes(allowedRoles.value, user.value.role) then
      Redirect("/", None, true)
    else Render
  }

  /** The error toast the guard's effect raises for a snapshot, if any. */
  function ToastFor(loading: bool, user: Option<User>, allowedRoles: Option<seq<Role>>)
    : Option<string>
  {
    if !loading && user.None? then Some("You must be logged in to access this page")
    else if !loading && user.Some? && allowedRoles.Some?
            && !Includes(allowedRoles.value, user.value.role) then
      Some("Access denied. Role '" + RoleName(user.value.role) + "' is not authorized.")
    else None
  }

  /** A toast is raised exactly when the guard redirects, never while loading,
      and its wording tells the two redirect cases apart. */
  lemma ToastExactlyOnRedirect(loading: bool, user: Option<User>,
                               allowedRoles: Option<seq<Role>>, location: Location)
    ensures ToastFor(loading, user, allowedRoles).Some? <==>
              Decide(loading, user, allowedRoles, location).Redirect?
    ensures loading ==> ToastFor(loading, user, allowedRoles).None?
    ensures Decide(loading, user, allowedRoles, location).Redirect? ==>
              (ToastFor(loading, user, allowedRoles)
                 == Some("You must be logged in to access this page")
               <==> Decide(loading, user, allowedRoles, location).from.Some?)
  {
  }

  /** An empty role list is truthy in JavaScript and includes nothing: it
      turns away every signed-in user. */
  lemma EmptyRoleListDeniesEveryone(user: User, location: Location)
    ensures Decide(false, Some(user), Some([]), location) == Redirect("/", None, true)
  {
  }

  /** Without a role list, every signed-in user gets the page once loading is over. */
  lemma NoRoleListAdmitsEveryone(user: User, location: Location)
    ensures Decide(false, Some(user), None, location) == Render
  {
  }

  /** Widening the role list never turns a rendered page into a redirect. */
  lemma {:induction false} WiderRolesAdmitMore(loading: bool, user: Option<User>,
                                               roles: seq<Role>, wider: seq<Role>,
                                               location: Location)
    requires forall i :: 0 <= i < |roles| ==> Includes(wider, roles[i])
    requires Decide(loading, user, Some(roles), location) == Render
    ensures Decide(loading, user, Some(wider), location) == Render
  {
    var i :| 0 <= i < |roles| && roles[i] == user.value.role;
    assert Includes(wider, roles[i]);
  }

  /** What the guard inlined in the application shell renders. */
  datatype ShellOutcome =
    | Placeholder
    | ShellRedirect(to: string, from: Location, replace: bool)
    | ShellRender

  /** The shell guard: the placeholder while loading, home with the
      originating location when not authenticated, the page otherwise. It has
      no role check. */
  function ShellDecide(loading: bool, isAuthenticated: bool, location: Location)
    : (r: ShellOutcome)
    ensures loading <==> r == Placeholder
    ensures r.ShellRedirect? <==> !loading && !isAuthenticated
    ensures r.ShellRedirect? ==> r == ShellRedirect("/", location, true)
    ensures r == ShellRender <==> !loading && isAuthenticated
  {
    if loading then Placeholder
    else if !isAuthenticated then ShellRedirect("/", location, true)
    else ShellRender
  }

  /** Fed with the same session, the shell guard decides exactly as the
      role-aware guard does for a route without a role list. */
  lemma ShellAgreesWithUnrestrictedGuard(loading: bool, user: Option<User>, location: Location)
    ensures var shell := ShellDecide(loading, user.Some?, location);
            var guard := Decide(loading, user, None, location);
            && (shell == Placeholder <==> guard == Spinner)
            && (shell == ShellRender <==> guard == Render)
            && (shell.ShellRedirect? <==> guard == Redirect("/", Some(location), true))
  {
  }
}
