/** The authentication provider: token, user, admin flag and loading flag,
    driven by the answers of the authentication service. */
module Session {
  import opened Wrappers
  import opened Entities

  /** The answer of an authentication-service call: a value, or a thrown error. */
  datatype Reply<T> = Ok(value: T) | Failed

  datatype LoginResponse = LoginResponse(token: string, user: User)

  /** The provider's state; `token` is the persisted session token. */
  datatype AuthState = AuthState(token: Option<string>, user: Option<User>, isAdmin: bool, isLoading: bool)

  /** A transition's boolean answer together with the state it leaves. */
  datatype Answer = Answer(ok: bool, state: AuthState)

  /** Customers with an id below this count as administrators. */
  const AdminIdBound: int := 5

  predicate IsAdminId(u: User)
  {
    u.customerId < AdminIdBound
  }

  /** `if (token)`: an absent or empty stored token is falsy. */
  predicate HasToken(token: Option<string>)
  {
    token.Some? && token.value != ""
  }

  /** The provider's first render: no user, not admin, loading. */
  function Initial(stored: Option<string>): AuthState
  {
    AuthState(stored, None, false, true)
  }

  /** `loadUserData`: fetch the current user; on failure drop the token. */
  function LoadUserData(s: AuthState, reply: Reply<User>): (r: AuthState)
    ensures !r.isLoading
    ensures reply.Ok? ==> r.token == s.token && r.user == Some(reply.value) && r.isAdmin == IsAdminId(reply.value)
    ensures reply.Failed? ==> r.token.None? && r.user == s.user && r.isAdmin == s.isAdmin
  {
    match reply
    case Ok(u) => s.(user := Some(u), isAdmin := IsAdminId(u), isLoading := false)
    case Failed => s.(token := None, isLoading := false)
  }

  /** The mount effect: with a stored token fetch the user, otherwise just stop
      loading. `reply` is what the fetch would answer; it is unused without a token. */
  function Restore(stored: Option<string>, reply: Reply<User>): (r: AuthState)
    ensures !r.isLoading
    ensures !HasToken(stored) ==> r == AuthState(stored, None, false, false)
    ensures HasToken(stored) && reply.Failed? ==> r == AuthState(None, None, false, false)
    ensures HasToken(stored) && reply.Ok? ==>
      r == AuthState(stored, Some(reply.value), IsAdminId(reply.value), false)
  {
    if HasToken(stored) then LoadUserData(Initial(stored).(isLoading := true), reply)
    else Initial(stored).(isLoading := false)
  }

  /** `login`: on success store token and user and derive the admin flag. */
  function Login(s: AuthState, reply: Reply<LoginResponse>): (r: Answer)
    ensures r.ok <==> reply.Ok?
    ensures reply.Failed? ==> r.state == s
    ensures reply.Ok? ==> r.state.token == Some(reply.value.token) && r.state.user == Some(reply.value.user)
    ensures reply.Ok? ==> r.state.isAdmin == IsAdminId(reply.value.user) && r.state.isLoading == s.isLoading
  {
    match reply
    case Ok(resp) => Answer(true, s.(token := Some(resp.token), user := Some(resp.user), isAdmin := IsAdminId(resp.user)))
    case Failed => Answer(false, s)
  }

  /** `register`: on success store token and user; the admin flag is left alone. */
  function Register(s: AuthState, reply: Reply<LoginResponse>): (r: Answer)
    ensures r.ok <==> reply.Ok?
    ensures r.state.isAdmin == s.isAdmin && r.state.isLoading == s.isLoading
    ensures reply.Failed? ==> r.state == s
    ensures reply.Ok? ==> r.state.token == Some(reply.value.token) && r.state.user == Some(reply.value.user)
  {
    match reply
    case Ok(resp) => Answer(true, s.(token := Some(resp.token), user := Some(resp.user)))
    case Failed => Answer(false, s)
  }

  /** `logout`. */
  function Logout(s: AuthState): (r: AuthState)
    ensures r.token.None? && r.user.None? && !r.isAdmin && r.isLoading == s.isLoading
  {
    s.(token := None, user := None, isAdmin := false)
  }

  /** `updateProfile`: on success replace the user with the service's copy. */
  function UpdateProfile(s: AuthState, reply: Reply<User>): (r: Answer)
    ensures r.ok <==> reply.Ok?
    ensures reply.Failed? ==> r.state == s
    ensures reply.Ok? ==> r.state == s.(user := Some(reply.value))
  {
    match reply
    case Ok(u) => Answer(true, s.(user := Some(u)))
    case Failed => Answer(false, s)
  }

  /** Admin implies a user, and a user implies a stored token. */
  predicate Consistent(s: AuthState)
  {
    (s.isAdmin ==> s.user.Some?) && (s.user.Some? ==> s.token.Some?)
  }

  /** Startup establishes consistency and every later transition keeps it
      (a profile update is only offered to a logged-in user). */
  lemma TransitionsKeepConsistent(s: AuthState, stored: Option<string>, u: Reply<User>, resp: Reply<LoginResponse>)
    ensures Consistent(Restore(stored, u))
    ensures Consistent(s) ==> Consistent(Login(s, resp).state)
    ensures Consistent(s) ==> Consistent(Register(s, resp).state)
    ensures Consistent(Logout(s))
    ensures Consistent(s) && s.user.Some? ==> Consistent(UpdateProfile(s, u).state)
  {
  }

  /** A failed login from a logged-out state persists no token. */
  lemma FailedLoginStoresNoToken(s: AuthState)
    requires s.token.None?
    ensures Login(s, Failed).state.token.None? && !Login(s, Failed).ok
  {
  }

  /** Registering while an administrator is logged in keeps the admin flag,
      whatever the new account's id, so the flag no longer matches the user. */
  lemma RegisterKeepsStaleAdminFlag(s: AuthState, resp: LoginResponse)
    requires s.isAdmin && !IsAdminId(resp.user)
    ensures Register(s, Ok(resp)).state.isAdmin
    ensures Register(s, Ok(resp)).state.user == Some(resp.user)
    ensures !AdminAgrees(Register(s, Ok(resp)).state)
  {
  }

  /** Consistency, and the admin flag is the one derived from the user's id. */
  predicate AdminAgrees(s: AuthState)
  {
    Consistent(s) && (s.user.Some? ==> s.isAdmin == IsAdminId(s.user.value))
  }

  /** `register` deriving the admin flag from the new user, as `login` does. */
  function RegisterCorrected(s: AuthState, reply: Reply<LoginResponse>): (r: Answer)
    ensures r.ok <==> reply.Ok?
    ensures reply.Failed? ==> r.state == s
    ensures reply.Ok? ==> r.state.token == Some(reply.value.token) && r.state.user == Some(reply.value.user)
    ensures reply.Ok? ==> r.state.isAdmin == IsAdminId(reply.value.user) && r.state.isLoading == s.isLoading
  {
    match reply
    case Ok(resp) => Answer(true, s.(token := Some(resp.token), user := Some(resp.user), isAdmin := IsAdminId(resp.user)))
    case Failed => Answer(false, s)
  }

  /** With the corrected `register`, startup establishes that the admin flag
      belongs to the current user and every transition keeps it; a profile
      update is taken to return the same account. */
  lemma CorrectedTransitionsKeepAdminAgreement(s: AuthState, stored: Option<string>, u: Reply<User>, resp: Reply<LoginResponse>)
    ensures AdminAgrees(Restore(stored, u))
    ensures AdminAgrees(s) ==> AdminAgrees(Login(s, resp).state)
    ensures AdminAgrees(s) ==> AdminAgrees(RegisterCorrected(s, resp).state)
    ensures AdminAgrees(Logout(s))
    ensures AdminAgrees(s) && s.user.Some? && (u.Ok? ==> u.value.customerId == s.user.value.customerId) ==>
              AdminAgrees(UpdateProfile(s, u).state)
  {
  }
}
