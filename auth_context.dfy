/** The client's session store (the AuthProvider context): three localStorage
    keys, the `token` and `user` React state, axios's default Authorization
    header, a loading flag, and the effect that re-derives the header and the
    user whenever the token changes. React's render/commit cycle is made
    explicit: a handler changes the state, and `Commit` runs the effect when
    the token differs from the one it last ran for. */
module Auth {
  import opened Common

  const TokenKey: string := "token"
  const UsernameKey: string := "username"
  const UserIdKey: string := "userId"

  /** localStorage: string keys to string values. */
  type Storage = map<string, string>

  /** The `user` object; `id` is absent when the user was rebuilt from storage. */
  datatype User = User(username: Option<string>, id: Option<int>)

  /** Everything the provider holds. `effectFor` is the token the effect last
      ran for, `None` before the first commit. */
  datatype AuthState = AuthState(storage: Storage, token: Option<string>, user: Option<User>,
                                 header: Option<string>, loading: bool, effectFor: Option<Option<string>>)

  /** `localStorage.getItem`: null for a key that is not there. */
  function GetItem(storage: Storage, key: string): (v: Option<string>)
    ensures v.Some? <==> key in storage
    ensures v.Some? ==> v.value == storage[key]
  {
    if key in storage then Some(storage[key]) else None
  }

  /** `String(n)` for an integer. */
  function IntString(n: int): (s: string)
    ensures |s| >= 1
  {
    if n < 0 then "-" + DecimalString(-n) else DecimalString(n)
  }

  /** The value axios sends in the Authorization header. */
  function TokenHeader(token: string): string {
    "Token " + token
  }

  /** `isAuthenticated()`: the token is truthy, so null and "" both mean signed out. */
  predicate Authenticated(s: AuthState) {
    Present(s.token)
  }

  /** The first render: the token comes from storage, there is no user yet,
      and the header is whatever axios held before. */
  function Initial(storage: Storage, header: Option<string>): (s: AuthState)
    ensures s.token == GetItem(storage, TokenKey) && s.user.None? && s.loading && s.effectFor.None?
    ensures s.storage == storage && s.header == header
  {
    AuthState(storage, GetItem(storage, TokenKey), None, header, true, None)
  }

  /** A commit after a render: the [token] effect runs when the token is not
      the one it last ran for. A truthy token sets the header and rebuilds the
      user from the stored username; any other token removes the header. */
  function Commit(s: AuthState): (r: AuthState)
    ensures r.storage == s.storage && r.token == s.token && r.effectFor == Some(s.token)
    ensures s.effectFor == Some(s.token) ==> r == s
    ensures s.effectFor != Some(s.token) ==>
              && !r.loading
              && r.header == (if Present(s.token) then Some(TokenHeader(s.token.value)) else None)
              && r.user == (if Present(s.token) then Some(User(GetItem(s.storage, UsernameKey), None)) else s.user)
  {
    if s.effectFor == Some(s.token) then s
    else if Present(s.token) then
      s.(header := Some(TokenHeader(s.token.value)), user := Some(User(GetItem(s.storage, UsernameKey), None)),
         loading := false, effectFor := Some(s.token))
    else s.(header := None, loading := false, effectFor := Some(s.token))
  }

  /** `login(token, username, userId)`: store the three keys, then set the
      token, the user and the header, whatever the previous session was. */
  function AfterLogin(s: AuthState, token: string, username: string, userId: int): (r: AuthState)
    ensures GetItem(r.storage, TokenKey) == Some(token)
    ensures GetItem(r.storage, UsernameKey) == Some(username)
    ensures GetItem(r.storage, UserIdKey) == Some(IntString(userId))
    ensures forall k :: k !in {TokenKey, UsernameKey, UserIdKey} ==> GetItem(r.storage, k) == GetItem(s.storage, k)
    ensures r.token == Some(token) && r.user == Some(User(Some(username), Some(userId)))
    ensures r.header == Some(TokenHeader(token))
    ensures r.loading == s.loading && r.effectFor == s.effectFor
  {
    s.(storage := s.storage[TokenKey := token][UsernameKey := username][UserIdKey := IntString(userId)],
       token := Some(token), user := Some(User(Some(username), Some(userId))), header := Some(TokenHeader(token)))
  }

  /** `logout()`: remove the three keys, clear the token and the user, drop the header. */
  function AfterLogout(s: AuthState): (r: AuthState)
    ensures GetItem(r.storage, TokenKey).None? && GetItem(r.storage, UsernameKey).None?
    ensures GetItem(r.storage, UserIdKey).None?
    ensures forall k :: k !in {TokenKey, UsernameKey, UserIdKey} ==> GetItem(r.storage, k) == GetItem(s.storage, k)
    ensures r.token.None? && r.user.None? && r.header.None?
    ensures r.loading == s.loading && r.effectFor == s.effectFor
  {
    s.(storage := s.storage - {TokenKey, UsernameKey, UserIdKey}, token := None, user := None, header := None)
  }

  /** Right after `login`, and after the commit that follows it, the session is
      authenticated exactly when the token is non-empty. */
  lemma LoginAuthenticates(s: AuthState, token: string, username: string, userId: int)
    ensures Authenticated(AfterLogin(s, token, username, userId)) <==> token != ""
    ensures Authenticated(Commit(AfterLogin(s, token, username, userId))) <==> token != ""
  {
  }

  /** Right after `logout`, and after the commit that follows it, the session is
      not authenticated, there is no user and no header. */
  lemma LogoutSignsOut(s: AuthState)
    ensures !Authenticated(AfterLogout(s)) && !Authenticated(Commit(AfterLogout(s)))
    ensures Commit(AfterLogout(s)).user.None? && Commit(AfterLogout(s)).header.None?
  {
  }

  /** `login` keeps nothing of the session it replaces: two sessions that
      log in with the same arguments agree on everything the user can see. */
  lemma LoginOverwrites(s1: AuthState, s2: AuthState, token: string, username: string, userId: int)
    ensures var r1 := AfterLogin(s1, token, username, userId);
            var r2 := AfterLogin(s2, token, username, userId);
            && r1.token == r2.token && r1.user == r2.user && r1.header == r2.header
            && forall k :: k in {TokenKey, UsernameKey, UserIdKey} ==> GetItem(r1.storage, k) == GetItem(r2.storage, k)
  {
  }

  /** A second commit with nothing new in between changes nothing. */
  lemma CommitIdempotent(s: AuthState)
    ensures Commit(Commit(s)) == Commit(s)
  {
  }

  /** Mounting the provider: the token is read from storage; a truthy one sets
      the header and a user holding only the stored username; otherwise the
      header is removed and there is no user. Loading is over either way. */
  lemma MountHydrates(storage: Storage, header: Option<string>)
    ensures var s := Commit(Initial(storage, header));
            && s.token == GetItem(storage, TokenKey)
            && !s.loading
            && (Present(s.token) ==> s.header == Some(TokenHeader(s.token.value))
                                     && s.user == Some(User(GetItem(storage, UsernameKey), None)))
            && (!Present(s.token) ==> s.header.None? && s.user.None?)
  {
  }

  /** The commit after `login`: when the token is new and non-empty the effect
      runs again and rebuilds the user from storage, so the user keeps the
      username but loses the id; otherwise the user from `login` stays. */
  lemma LoginThenCommit(s: AuthState, token: string, username: string, userId: int)
    ensures var r := Commit(AfterLogin(s, token, username, userId));
            && r.token == Some(token)
            && r.user == (if token != "" && s.effectFor != Some(Some(token)) then Some(User(Some(username), None))
                          else Some(User(Some(username), Some(userId))))
            && r.header == (if token == "" && s.effectFor != Some(Some(token)) then None else Some(TokenHeader(token)))
  {
  }

  /** A reload after `login` restores the token, the header and the username,
      but not the user id (it stays in storage and is never read back). */
  lemma ReloadAfterLogin(s: AuthState, token: string, username: string, userId: int, header: Option<string>)
    requires token != ""
    ensures var r := Commit(Initial(AfterLogin(s, token, username, userId).storage, header));
            && Authenticated(r) && r.token == Some(token) && r.header == Some(TokenHeader(token))
            && r.user == Some(User(Some(username), None))
  {
  }

  /** A reload after `logout` comes back signed out. */
  lemma ReloadAfterLogout(s: AuthState, header: Option<string>)
    ensures var r := Commit(Initial(AfterLogout(s).storage, header));
            !Authenticated(r) && r.user.None? && r.header.None?
  {
  }

  /** The provider component as a stateful object. */
  class AuthProvider {
    var storage: Storage
    var token: Option<string>
    var user: Option<User>
    var header: Option<string>
    var loading: bool
    var effectFor: Option<Option<string>>

    function State(): AuthState
      reads this
    {
      AuthState(storage, token, user, header, loading, effectFor)
    }

    /** Mounting: the first render followed by its commit. */
    constructor (storage0: Storage, header0: Option<string>)
      ensures State() == Commit(Initial(storage0, header0))
    {
      storage := storage0;
      token := GetItem(storage0, TokenKey);
      user := None;
      header := header0;
      loading := true;
      effectFor := None;
      new;
      CommitRender();
    }

    function IsAuthenticated(): (b: bool)
      reads this
      ensures b <==> Authenticated(State())
    {
      token.Some? && token.value != ""
    }

    method Login(t: string, username: string, userId: int)
      modifies this
      ensures State() == AfterLogin(old(State()), t, username, userId)
    {
      storage := storage[TokenKey := t];
      storage := storage[UsernameKey := username];
      storage := storage[UserIdKey := IntString(userId)];
      token := Some(t);
      user := Some(User(Some(username), Some(userId)));
      header := Some(TokenHeader(t));
    }

    method Logout()
      modifies this
      ensures State() == AfterLogout(old(State()))
    {
      storage := storage - {TokenKey};
      storage := storage - {UsernameKey};
      storage := storage - {UserIdKey};
      token := None;
      user := None;
      header := None;
    }

    /** The commit after a render: run the [token] effect if the token changed. */
    method CommitRender()
      modifies this
      ensures State() == Commit(old(State()))
    {
      if effectFor != Some(token) {
        if Present(token) {
          header := Some(TokenHeader(token.value));
          user := Some(User(GetItem(storage, UsernameKey), None));
        } else {
          header := None;
        }
        loading := false;
        effectFor := Some(token);
      }
    }
  }
}
