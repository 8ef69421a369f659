/**
 The session store of the client: the signed-in user and the loading flag,
 held by the provider and mirrored into browser storage under the key
 `devnexus_user`. The store's sign-in operations are simulated behind timers;
 each is modelled as two atomic steps, the call (which raises `loading`) and
 the timer firing (which settles the user and lowers `loading`).
 */
module Session {
  import opened Core
  import opened Types

  /** The storage key the signed-in user is mirrored under. */
  const StorageKey: string := "devnexus_user"

  /** The fixed demonstration account every sign-in resolves to. */
  const MockUser: User := User(
    "u1",
    "Alex Developer",
    "alex@devnexus.com",
    Some("https://images.unsplash.com/photo-1472099645785-5658abf4ff4e?ixlib=rb-1.2.1&auto=format&fit=facearea&facepad=2&w=256&h=256&q=80"),
    true,
    UserRole,
    None)

  /** The provider's state, together with what browser storage holds under
      the storage key (None when the key is absent). */
  datatype SessionState = SessionState(user: Option<User>, loading: bool, stored: Option<User>)

  /** The provider when it mounts: no user yet, and loading. */
  function Mount(stored: Option<User>): (s: SessionState)
    ensures s.user.None? && s.loading && s.stored == stored
  {
    SessionState(None, true, stored)
  }

  /** The start-up timer fires: the stored user, if any, becomes the session
      user; otherwise the user is left as it was. Loading always ends. */
  function Restore(s: SessionState): (r: SessionState)
    ensures !r.loading && r.stored == s.stored
    ensures s.stored.Some? ==> r.user == s.stored
    ensures s.stored.None? ==> r.user == s.user
  {
    SessionState(if s.stored.Some? then s.stored else s.user, false, s.stored)
  }

  /** Calling `login`, `signup` or `loginWithGoogle`: loading goes up at once;
      nothing else changes until the timer fires. */
  function BeginSignIn(s: SessionState): (r: SessionState)
    ensures r.loading && r.user == s.user && r.stored == s.stored
  {
    s.(loading := true)
  }

  /** The user `signup(name, email, _)` creates: the demonstration account
      with its name and email replaced. The password is ignored. */
  function SignupUser(name: string, email: string): (u: User)
    ensures u.name == name && u.email == email
    ensures u == MockUser.(name := u.name, email := u.email)
  {
    MockUser.(name := name, email := email)
  }

  /** The sign-in timer fires with the user it settles on: that user becomes
      the session user and is written to storage, and loading ends. */
  function SettleSignIn(s: SessionState, u: User): (r: SessionState)
    ensures r.user == Some(u) && r.stored == Some(u) && !r.loading
  {
    SessionState(Some(u), false, Some(u))
  }

  /** `login(email, password)`, from the call to the timer. The credentials
      are not consulted: every login yields the demonstration account. */
  function Login(s: SessionState): SessionState {
    SettleSignIn(BeginSignIn(s), MockUser)
  }

  /** `signup(name, email, password)`, from the call to the timer. */
  function Signup(s: SessionState, name: string, email: string): SessionState {
    SettleSignIn(BeginSignIn(s), SignupUser(name, email))
  }

  /** `loginWithGoogle()`, from the call to the timer. */
  function LoginWithGoogle(s: SessionState): SessionState {
    SettleSignIn(BeginSignIn(s), MockUser)
  }

  /** `logout()`: the user is cleared and the storage key removed; the loading
      flag is left as it was. */
  function Logout(s: SessionState): (r: SessionState)
    ensures r.user.None? && r.stored.None? && r.loading == s.loading
  {
    SessionState(None, s.loading, None)
  }

  /** The value the provider hands to consumers. */
  datatype AuthSnapshot = AuthSnapshot(user: Option<User>, loading: bool, isAuthenticated: bool)

  /** The provider value of a state: `isAuthenticated` is `!!user`. */
  function Snapshot(s: SessionState): (v: AuthSnapshot)
    ensures v.user == s.user && v.loading == s.loading
    ensures v.isAuthenticated <==> v.user.Some?
  {
    AuthSnapshot(s.user, s.loading, s.user.Some?)
  }

  /** `useAuth()`: the provider value, or the error raised outside a provider. */
  function UseAuth(provided: Option<AuthSnapshot>): (r: Result<AuthSnapshot, string>)
    ensures provided.None? <==> r.Err?
    ensures r.Err? ==> r.error == "useAuth must be used within an AuthProvider"
    ensures provided.Some? ==> r == Ok(provided.value)
  {
    match provided
    case None => Err("useAuth must be used within an AuthProvider")
    case Some(v) => Ok(v)
  }

  /** Every signed-in result of login and sign-up is authenticated, not
      loading, and persisted; login ends on the demonstration account, and
      sign-up on it with only the name and email replaced. */
  lemma SignInOutcomes(s: SessionState, name: string, email: string)
    ensures Login(s) == SessionState(Some(MockUser), false, Some(MockUser))
    ensures LoginWithGoogle(s) == Login(s)
    ensures Signup(s, name, email).user.Some?
    ensures Signup(s, name, email).user.value == MockUser.(name := name, email := email)
    ensures Snapshot(Login(s)).isAuthenticated && Snapshot(Signup(s, name, email)).isAuthenticated
    ensures Signup(s, name, email).stored == Signup(s, name, email).user
  {
  }

  /** The operations a running provider goes through once mounted. */
  datatype Event = Restored | LoggedIn | SignedUp(name: string, email: string) | GoogleLoggedIn | LoggedOut

  function Apply(s: SessionState, e: Event): SessionState {
    match e
    case Restored => Restore(s)
    case LoggedIn => Login(s)
    case SignedUp(name, email) => Signup(s, name, email)
    case GoogleLoggedIn => LoginWithGoogle(s)
    case LoggedOut => Logout(s)
  }

  function Run(s: SessionState, events: seq<Event>): SessionState
    decreases |events|
  {
    if |events| == 0 then s else Run(Apply(s, events[0]), events[1..])
  }

  /** Storage mirrors the session user. */
  predicate Mirrored(s: SessionState) {
    s.user == s.stored
  }

  /** Once the start-up restore has run, storage mirrors the session user after
      every further operation. */
  lemma {:induction false} RestoreThenMirrored(stored: Option<User>, events: seq<Event>)
    ensures Mirrored(Run(Restore(Mount(stored)), events))
  {
    MirroredStaysMirrored(Restore(Mount(stored)), events);
  }

  lemma {:induction false} MirroredStaysMirrored(s: SessionState, events: seq<Event>)
    requires Mirrored(s)
    ensures Mirrored(Run(s, events))
    decreases |events|
  {
    if |events| > 0 {
      MirroredStaysMirrored(Apply(s, events[0]), events[1..]);
    }
  }

  /** A mirrored session survives a page reload: mounting afresh on what
      storage holds and restoring gives back the same user, not loading. */
  lemma ReloadKeepsUser(s: SessionState)
    requires Mirrored(s)
    ensures Restore(Mount(s.stored)).user == s.user
    ensures !Restore(Mount(s.stored)).loading
  {
  }

  /** Logging out after any operation leaves no user, in the store or in
      storage, and the session is no longer authenticated. */
  lemma LogoutClearsEverything(s: SessionState)
    ensures !Snapshot(Logout(s)).isAuthenticated
    ensures Logout(Logout(s)) == Logout(s)
  {
  }
}
