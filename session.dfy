/** The client's session (src/contexts/AuthContext.tsx): the signed-in user, the loading flag,
    the two tokens kept in browser storage and the Authorization header shared by all API
    calls, with the operations init, login, refresh and logout. Decoding a token and the two
    token endpoints are parameters: each either answers or fails. The clock is a parameter. */
module Session {
  import opened Basics

  /** The claims of a decoded access token (`JwtPayload`); `exp` is in seconds. */
  datatype Claims = Claims(userId: string, exp: real, email: string, name: string, role: string)

  /** The signed-in user (`User`). */
  datatype User = User(id: string, email: string, name: string, role: string)

  /** The `access` and `refresh` members of a successful `POST /users/token/`. */
  datatype TokenPair = TokenPair(access: string, refresh: string)

  /** The user built from a token's claims. */
  function UserOf(c: Claims): (u: User)
    ensures u.id == c.userId && u.email == c.email && u.name == c.name && u.role == c.role
  {
    User(c.userId, c.email, c.name, c.role)
  }

  /** The value given to the Authorization header for an access token. */
  function Bearer(access: string): string {
    "Bearer " + access
  }

  /** Everything the session operations read and write: `user`, `isLoading`, the storage items
      `access_token` and `refresh_token` (absent = None), and the default Authorization header
      (deleted = None). */
  datatype AuthState = AuthState(user: Option<User>, isLoading: bool, access: Option<string>,
                                 refresh: Option<string>, header: Option<string>)

  /** A stored token is truthy: present and not the empty string. */
  predicate Truthy(t: Option<string>) {
    t.Some? && t.value != ""
  }

  /** `isAuthenticated: !!user`. */
  predicate IsAuthenticated(s: AuthState) {
    s.user.Some?
  }

  /** What an operation leaves behind, and whether it completed without throwing. */
  datatype Outcome = Outcome(state: AuthState, ok: bool)

  // ---------------------------------------------------------------------------
  // The operations on values

  /** `logout`: both tokens removed, no user, header deleted. */
  function LoggedOut(s: AuthState): (r: AuthState)
    ensures !IsAuthenticated(r) && r.access.None? && r.refresh.None? && r.header.None?
    ensures r.isLoading == s.isLoading
  {
    s.(user := None, access := None, refresh := None, header := None)
  }

  /** `refreshToken`: `endpoint` answers `POST /users/token/refresh/` with a new access token
      or fails; `decode` is `jwtDecode`. Any failure logs out and rethrows. */
  function Refreshed(s: AuthState, endpoint: string -> Option<string>, decode: string -> Option<Claims>): Outcome {
    if !Truthy(s.refresh) then Outcome(LoggedOut(s), false)
    else
      match endpoint(s.refresh.value)
      case None => Outcome(LoggedOut(s), false)
      case Some(access) =>
        match decode(access)
        case None => Outcome(LoggedOut(s.(access := Some(access))), false)
        case Some(c) =>
          Outcome(s.(access := Some(access), user := Some(UserOf(c)), header := Some(Bearer(access))), true)
  }

  /** `login`: `response` is the answer of `POST /users/token/`, None when the request fails.
      Both tokens are stored before the access token is decoded, so a token that cannot be
      decoded stays stored while the call throws. */
  function LoggedIn(s: AuthState, response: Option<TokenPair>, decode: string -> Option<Claims>): Outcome {
    match response
    case None => Outcome(s, false)
    case Some(p) =>
      var stored := s.(access := Some(p.access), refresh := Some(p.refresh));
      match decode(p.access)
      case None => Outcome(stored, false)
      case Some(c) => Outcome(stored.(user := Some(UserOf(c)), header := Some(Bearer(p.access))), true)
  }

  /** `initAuth` at time `now` (seconds): a truthy stored access token is decoded; an expired
      one (`exp < now`) is refreshed, a live one signs the user in; a decode or refresh failure
      logs out. The loading flag is cleared in every case. */
  function Initialised(s: AuthState, now: real, decode: string -> Option<Claims>,
                       endpoint: string -> Option<string>): AuthState {
    var after :=
      if !Truthy(s.access) then s
      else
        match decode(s.access.value)
        case None => LoggedOut(s)
        case Some(c) =>
          if c.exp < now then
            var o := Refreshed(s, endpoint, decode);
            if o.ok then o.state else LoggedOut(o.state)
          else s.(user := Some(UserOf(c)));
    after.(isLoading := false)
  }

  // ---------------------------------------------------------------------------
  // Properties

  /** Logging out twice is logging out once. */
  lemma {:induction false} LogoutIdempotent(s: AuthState)
    ensures LoggedOut(LoggedOut(s)) == LoggedOut(s)
  {
  }

  /** Init always ends with the loading flag cleared, whatever the token, the decoder and the
      refresh endpoint do. */
  lemma {:induction false} InitEndsLoading(s: AuthState, now: real, decode: string -> Option<Claims>,
                        endpoint: string -> Option<string>)
    ensures !Initialised(s, now, decode, endpoint).isLoading
  {
  }

  /** Without a truthy stored access token, init changes nothing but the loading flag; in
      particular a signed-out session stays signed out. */
  lemma {:induction false} InitWithoutToken(s: AuthState, now: real, decode: string -> Option<Claims>,
                         endpoint: string -> Option<string>)
    requires !Truthy(s.access)
    ensures Initialised(s, now, decode, endpoint) == s.(isLoading := false)
    ensures !IsAuthenticated(s) ==> !IsAuthenticated(Initialised(s, now, decode, endpoint))
  {
  }

  /** A token that is not expired (`exp >= now`) signs in the user of its claims and leaves
      the storage and the header alone. */
  lemma {:induction false} InitWithLiveToken(s: AuthState, now: real, decode: string -> Option<Claims>,
                          endpoint: string -> Option<string>, c: Claims)
    requires Truthy(s.access) && decode(s.access.value) == Some(c) && c.exp >= now
    ensures Initialised(s, now, decode, endpoint)
            == s.(user := Some(UserOf(c)), isLoading := false)
  {
  }

  /** A token that expired strictly before `now` leads to a refresh; the extra logout after a
      failed refresh changes nothing, so init ends in the refresh's own state. */
  lemma {:induction false} InitWithExpiredToken(s: AuthState, now: real, decode: string -> Option<Claims>,
                             endpoint: string -> Option<string>, c: Claims)
    requires Truthy(s.access) && decode(s.access.value) == Some(c) && c.exp < now
    ensures Initialised(s, now, decode, endpoint)
            == Refreshed(s, endpoint, decode).state.(isLoading := false)
  {
    var o := Refreshed(s, endpoint, decode);
    if !o.ok {
      RefreshFailureLogsOut(s, endpoint, decode);
      LogoutIdempotent(s);
    }
  }

  /** A token the decoder rejects logs the session out. */
  lemma {:induction false} InitWithUndecodableToken(s: AuthState, now: real, decode: string -> Option<Claims>,
                                 endpoint: string -> Option<string>)
    requires Truthy(s.access) && decode(s.access.value).None?
    ensures Initialised(s, now, decode, endpoint) == LoggedOut(s).(isLoading := false)
  {
  }

  /** Every failed refresh, whichever step failed, ends signed out with both tokens removed. */
  lemma {:induction false} RefreshFailureLogsOut(s: AuthState, endpoint: string -> Option<string>,
                              decode: string -> Option<Claims>)
    ensures !Refreshed(s, endpoint, decode).ok ==> Refreshed(s, endpoint, decode).state == LoggedOut(s)
  {
  }

  /** A refresh without a truthy stored refresh token fails without calling the endpoint. */
  lemma {:induction false} RefreshNeedsRefreshToken(s: AuthState, endpoint: string -> Option<string>,
                                 decode: string -> Option<Claims>)
    requires !Truthy(s.refresh)
    ensures !Refreshed(s, endpoint, decode).ok
  {
  }

  /** A successful refresh replaces only the access token (and sets the user and header from
      it); the refresh token is left as it was. */
  lemma {:induction false} RefreshSuccess(s: AuthState, endpoint: string -> Option<string>, decode: string -> Option<Claims>)
    requires Refreshed(s, endpoint, decode).ok
    ensures var r := Refreshed(s, endpoint, decode).state;
            r.refresh == s.refresh && r.isLoading == s.isLoading
            && r.access == endpoint(s.refresh.value)
            && r.header == Some(Bearer(r.access.value))
            && decode(r.access.value).Some? && r.user == Some(UserOf(decode(r.access.value).value))
  {
  }

  /** A failed token request stores nothing; a successful one stores both tokens, and once
      the access token decodes the user and the header come from it. */
  lemma {:induction false} LoginEffect(s: AuthState, response: Option<TokenPair>, decode: string -> Option<Claims>)
    ensures response.None? ==> LoggedIn(s, response, decode) == Outcome(s, false)
    ensures response.Some? ==>
              LoggedIn(s, response, decode).state.access == Some(response.value.access)
              && LoggedIn(s, response, decode).state.refresh == Some(response.value.refresh)
    ensures LoggedIn(s, response, decode).ok <==>
              response.Some? && decode(response.value.access).Some?
    ensures LoggedIn(s, response, decode).ok ==>
              LoggedIn(s, response, decode).state.user == Some(UserOf(decode(response.value.access).value))
              && LoggedIn(s, response, decode).state.header == Some(Bearer(response.value.access))
  {
  }

  /** The session invariant: a signed-in user always has a stored access token, and a set
      Authorization header always carries the stored access token. */
  predicate Consistent(s: AuthState) {
    (s.user.Some? ==> s.access.Some?)
    && (s.header.Some? ==> s.access.Some? && s.header.value == Bearer(s.access.value))
  }

  /** Logout, refresh and init keep the invariant; so does a login that completes. */
  lemma {:induction false} OperationsKeepConsistent(s: AuthState, now: real, response: Option<TokenPair>,
                                 endpoint: string -> Option<string>, decode: string -> Option<Claims>)
    requires Consistent(s)
    ensures Consistent(LoggedOut(s))
    ensures Consistent(Refreshed(s, endpoint, decode).state)
    ensures Consistent(Initialised(s, now, decode, endpoint))
    ensures LoggedIn(s, response, decode).ok ==> Consistent(LoggedIn(s, response, decode).state)
  {
  }

  /** The decoder that rejects every token. */
  function NoClaims(token: string): Option<Claims> {
    None
  }

  /** A login whose token cannot be decoded stores the new tokens but keeps the header of the
      previous session, which then names a token no longer stored. */
  lemma {:induction false} FailedDecodeLeavesStaleHeader()
    ensures var s := AuthState(None, false, Some("old"), Some("r0"), Some(Bearer("old")));
            var o := LoggedIn(s, Some(TokenPair("new", "r1")), NoClaims);
            Consistent(s) && !o.ok && !Consistent(o.state)
  {
    assert Bearer("old")[7] != Bearer("new")[7];
  }

  // ---------------------------------------------------------------------------
  // The provider

  class AuthProvider {
    var user: Option<User>
    var isLoading: bool
    /** The `access_token` and `refresh_token` storage items. */
    var accessToken: Option<string>
    var refreshToken: Option<string>
    /** `api.defaults.headers.common['Authorization']`. */
    var authHeader: Option<string>

    function State(): AuthState
      reads this
    {
      AuthState(user, isLoading, accessToken, refreshToken, authHeader)
    }

    /** The provider as mounted, over whatever the browser storage holds. */
    constructor (storedAccess: Option<string>, storedRefresh: Option<string>)
      ensures State() == AuthState(None, true, storedAccess, storedRefresh, None)
    {
      user := None;
      isLoading := true;
      accessToken := storedAccess;
      refreshToken := storedRefresh;
      authHeader := None;
    }

    /** `isAuthenticated`. */
    function Authenticated(): (r: bool)
      reads this
      ensures r <==> IsAuthenticated(State())
    {
      user.Some?
    }

    method Logout()
      modifies this
      ensures State() == LoggedOut(old(State()))
    {
      accessToken := None;
      refreshToken := None;
      user := None;
      authHeader := None;
    }

    method RefreshToken(endpoint: string -> Option<string>, decode: string -> Option<Claims>)
      returns (ok: bool)
      modifies this
      ensures Outcome(State(), ok) == Refreshed(old(State()), endpoint, decode)
    {
      if refreshToken.None? || refreshToken.value == "" {
        Logout();
        return false;
      }
      var answer := endpoint(refreshToken.value);
      if answer.None? {
        Logout();
        return false;
      }
      accessToken := answer;
      var claims := decode(answer.value);
      if claims.None? {
        Logout();
        return false;
      }
      user := Some(UserOf(claims.value));
      authHeader := Some(Bearer(answer.value));
      ok := true;
    }

    method Login(response: Option<TokenPair>, decode: string -> Option<Claims>) returns (ok: bool)
      modifies this
      ensures Outcome(State(), ok) == LoggedIn(old(State()), response, decode)
    {
      if response.None? {
        return false;
      }
      accessToken := Some(response.value.access);
      refreshToken := Some(response.value.refresh);
      var claims := decode(response.value.access);
      if claims.None? {
        return false;
      }
      user := Some(UserOf(claims.value));
      authHeader := Some(Bearer(response.value.access));
      ok := true;
    }

    method InitAuth(now: real, decode: string -> Option<Claims>, endpoint: string -> Option<string>)
      modifies this
      ensures State() == Initialised(old(State()), now, decode, endpoint)
    {
      if accessToken.Some? && accessToken.value != "" {
        var claims := decode(accessToken.value);
        if claims.None? {
          Logout();
        } else if claims.value.exp < now {
          var ok := RefreshToken(endpoint, decode);
          if !ok {
            Logout();
          }
        } else {
          user := Some(UserOf(claims.value));
        }
      }
      isLoading := false;
    }
  }
}
