/**
 * The web client's sign-in glue: the credentials provider's `authorize`, and
 * the `jwt` and `session` callbacks that keep the backend's tokens in the
 * client's session and refresh the access token when it runs out.
 * The backend's HTTP endpoints are parameters (`login`, `refresh`); the clock
 * is the parameter `now`, in milliseconds.
 */
module AuthProvider {
  import opened Wrappers
  import Crypto
  import AuthFlows
  import AuthStore
  import AuthProperties

  /** The message on which `authorize` reports an unverified account. */
  const UnverifiedMessage: string := "Please verify your email first"
  /** The marker the `jwt` callback leaves when a refresh fails. */
  const RefreshTokenError: string := "RefreshTokenError"
  /** How long the client treats a fresh access token as usable: fifteen minutes. */
  const AccessWindowMs: int := 15 * 60 * 1000

  datatype Credentials = Credentials(email: string, password: string)

  /** The `user` part of the backend's answer, as the client reads it. */
  datatype BackendUser = BackendUser(
    id: string, email: string, fullName: string,
    username: Option<string>, roles: Option<seq<string>>, image: Option<string>)

  datatype BackendAuth = BackendAuth(user: BackendUser, accessToken: Crypto.Token, refreshToken: Crypto.Token)

  /** What a call to the backend comes back with: an answer, or an error carrying the body's `message`, if any. */
  datatype ApiOutcome = Succeeded(auth: BackendAuth) | Failed(message: Option<string>)

  /** The user object `authorize` hands to the session library. */
  datatype SignedInUser = SignedInUser(
    id: string, email: string, name: string,
    username: Option<string>, roles: Option<seq<string>>,
    accessToken: Crypto.Token, refreshToken: Crypto.Token, image: Option<string>)

  /** `authorize` returns null, throws `unverified`, or returns a user. */
  datatype AuthorizeResult = Rejected | Unverified | SignedIn(user: SignedInUser)

  /** The token the session library stores between requests; every property may be unset. */
  datatype JwtToken = JwtToken(
    sub: Option<string>, email: Option<string>, name: Option<string>, picture: Option<string>,
    accessToken: Option<Crypto.Token>, refreshToken: Option<Crypto.Token>,
    accessTokenExpires: Option<int>,
    roles: Option<seq<string>>, username: Option<string>, error: Option<string>)

  datatype SessionUser = SessionUser(
    id: Option<string>, email: Option<string>, name: Option<string>,
    username: Option<string>, roles: Option<seq<string>>, image: Option<string>)

  /** The session the client reads; `expires` is carried over from the library's own session. */
  datatype ClientSession = ClientSession(
    expires: string,
    accessToken: Option<Crypto.Token>, refreshToken: Option<Crypto.Token>,
    accessTokenExpires: Option<int>, error: Option<string>, user: SessionUser)

  /** JavaScript's `x || null` on an optional string: the empty string counts as missing. */
  function NonEmpty(s: Option<string>): (r: Option<string>)
    ensures r.Some? <==> s.Some? && s.value != ""
    ensures r.Some? ==> r == s
  {
    if s.Some? && s.value != "" then s else None
  }

  predicate MissingCredentials(c: Option<Credentials>)
  {
    c.None? || c.value.email == "" || c.value.password == ""
  }

  function ToSignedInUser(auth: BackendAuth): (u: SignedInUser)
  {
    SignedInUser(
      auth.user.id, auth.user.email, auth.user.fullName,
      auth.user.username, auth.user.roles,
      auth.accessToken, auth.refreshToken, NonEmpty(auth.user.image))
  }

  /**
   * `authorize`, with the message that marks an unverified account as a
   * parameter: missing credentials are refused without calling the backend;
   * otherwise the backend's answer becomes the user, an error with exactly
   * `unverifiedMessage` becomes `Unverified`, and any other error a refusal.
   */
  function AuthorizeOn(unverifiedMessage: string, c: Option<Credentials>, login: (string, string) -> ApiOutcome): (r: AuthorizeResult)
    ensures MissingCredentials(c) ==> r == Rejected
    ensures r.SignedIn? <==> !MissingCredentials(c) && login(c.value.email, c.value.password).Succeeded?
    ensures r.SignedIn? ==>
      var auth := login(c.value.email, c.value.password).auth;
      && r.user.id == auth.user.id && r.user.email == auth.user.email && r.user.name == auth.user.fullName
      && r.user.accessToken == auth.accessToken && r.user.refreshToken == auth.refreshToken
      && (r.user.image.Some? <==> auth.user.image.Some? && auth.user.image.value != "")
    ensures r.Unverified? <==>
      !MissingCredentials(c) && login(c.value.email, c.value.password) == Failed(Some(unverifiedMessage))
  {
    if MissingCredentials(c) then Rejected
    else
      match login(c.value.email, c.value.password)
      case Succeeded(auth) => SignedIn(ToSignedInUser(auth))
      case Failed(message) =>
        if message == Some(unverifiedMessage) then Unverified else Rejected
  }

  /** `authorize` as written, listening for `Please verify your email first`. */
  function Authorize(c: Option<Credentials>, login: (string, string) -> ApiOutcome): (r: AuthorizeResult)
    ensures MissingCredentials(c) ==> r == Rejected
    ensures r.SignedIn? <==> !MissingCredentials(c) && login(c.value.email, c.value.password).Succeeded?
    ensures r.Unverified? <==>
      !MissingCredentials(c) && login(c.value.email, c.value.password) == Failed(Some("Please verify your email first"))
  {
    AuthorizeOn(UnverifiedMessage, c, login)
  }

  /** `authorize` listening for the message the backend's login actually sends. */
  function AuthorizeMatchingBackend(c: Option<Credentials>, login: (string, string) -> ApiOutcome): (r: AuthorizeResult)
    ensures MissingCredentials(c) ==> r == Rejected
    ensures r.SignedIn? <==> !MissingCredentials(c) && login(c.value.email, c.value.password).Succeeded?
    ensures r.Unverified? <==>
      !MissingCredentials(c) && login(c.value.email, c.value.password) == Failed(Some("Please verify your email before logging in"))
  {
    AuthorizeOn(AuthFlows.VerifyFirstMessage, c, login)
  }

  /** The login endpoint of the backend model, as the client sees it. */
  function BackendLogin(db: AuthStore.Db, now: int): (string, string) -> ApiOutcome
  {
    (email: string, password: string) =>
      match AuthFlows.Login(db, email, password, now).result
      case Ok(resp) =>
        Succeeded(BackendAuth(
          BackendUser(resp.user.id, resp.user.email, resp.user.fullName, None, None, None),
          resp.accessToken, resp.refreshToken))
      case Err(e) => Failed(Some(e.message))
  }

  /**
   * Whatever the store and the credentials, `authorize` as written never
   * reports an unverified account against this backend: the backend's
   * message is not the one it listens for.
   */
  lemma UnverifiedNeverReported(db: AuthStore.Db, c: Option<Credentials>, now: int)
    ensures Authorize(c, BackendLogin(db, now)) != Unverified
  {
    if !MissingCredentials(c) {
      var r := AuthFlows.Login(db, c.value.email, c.value.password, now).result;
      if r.Err? {
        assert r.error.message == AuthFlows.InvalidCredentialsMessage || r.error.message == AuthFlows.VerifyFirstMessage;
        assert AuthFlows.InvalidCredentialsMessage[0] == 'I' && UnverifiedMessage[0] == 'P';
        assert |AuthFlows.VerifyFirstMessage| == 42 && |UnverifiedMessage| == 30;
      }
    }
  }

  /**
   * Listening for the backend's own message, a correct password on an
   * unverified account is reported as `Unverified`.
   */
  lemma UnverifiedReportedWhenMatching(db: AuthStore.Db, i: nat, password: string, now: int)
    requires AuthStore.EmailsUnique(db.users) && i < |db.users|
    requires db.users[i].passwordHash.Some? && db.users[i].emailVerified.None?
    requires db.users[i].email != "" && password != ""
    ensures AuthorizeMatchingBackend(Some(Credentials(db.users[i].email, password)), BackendLogin(db, now)) == Unverified
  {
    AuthProperties.LoginRejections(db, i, password, now);
  }

  /** Whether the stored access token is still inside its window; an unset expiry never is. */
  predicate StillValid(token: JwtToken, now: int)
  {
    token.accessTokenExpires.Some? && now < token.accessTokenExpires.value
  }

  /**
   * The `jwt` callback. On sign-in it stores the user's tokens with a fresh
   * window; while the window is open the token is returned as it is; after
   * that the refresh token is traded for new tokens, and a failed trade
   * leaves the token as it was, marked with `RefreshTokenError`.
   */
  function JwtCallback(token: JwtToken, user: Option<SignedInUser>, hasAccount: bool, now: int,
                       refresh: Option<Crypto.Token> -> ApiOutcome): (r: JwtToken)
    ensures hasAccount && user.Some? ==>
      && r.accessToken == Some(user.value.accessToken) && r.refreshToken == Some(user.value.refreshToken)
      && r.accessTokenExpires == Some(now + AccessWindowMs)
      && r.roles == user.value.roles && r.username == user.value.username
      && r.sub == token.sub && r.email == token.email && r.name == token.name
      && r.picture == token.picture && r.error == token.error
    ensures !(hasAccount && user.Some?) && StillValid(token, now) ==> r == token
    ensures !(hasAccount && user.Some?) && !StillValid(token, now) ==>
      match refresh(token.refreshToken)
      case Succeeded(auth) =>
        r == token.(accessToken := Some(auth.accessToken), refreshToken := Some(auth.refreshToken),
                    accessTokenExpires := Some(now + AccessWindowMs),
                    roles := auth.user.roles, username := auth.user.username)
      case Failed(_) => r == token.(error := Some(RefreshTokenError))
  {
    if hasAccount && user.Some? then
      token.(accessToken := Some(user.value.accessToken), refreshToken := Some(user.value.refreshToken),
             accessTokenExpires := Some(now + AccessWindowMs),
             roles := user.value.roles, username := user.value.username)
    else if StillValid(token, now) then
      token
    else
      match refresh(token.refreshToken)
      case Succeeded(auth) =>
        token.(accessToken := Some(auth.accessToken), refreshToken := Some(auth.refreshToken),
               accessTokenExpires := Some(now + AccessWindowMs),
               roles := auth.user.roles, username := auth.user.username)
      case Failed(_) => token.(error := Some(RefreshTokenError))
  }

  /** The `session` callback: the client's session mirrors the stored token. */
  function SessionCallback(expires: string, token: JwtToken): (s: ClientSession)
    ensures s.accessToken == token.accessToken && s.refreshToken == token.refreshToken
    ensures s.error == token.error && s.accessTokenExpires == token.accessTokenExpires
    ensures s.user.id == token.sub && s.user.image == token.picture
    ensures s.user.email == token.email && s.user.name == token.name
    ensures s.user.username == token.username && s.user.roles == token.roles
    ensures s.expires == expires
  {
    ClientSession(
      expires, token.accessToken, token.refreshToken, token.accessTokenExpires, token.error,
      SessionUser(token.sub, token.email, token.name, token.username, token.roles, token.picture))
  }

  /** The client's window is the backend's access-token lifetime. */
  lemma WindowMatchesAccessLifetime()
    ensures AccessWindowMs == Crypto.AccessTtlMs
  {
  }

  /**
   * A token stored at `now` is kept, without calling the backend, for
   * exactly the window that follows: a request before `now + AccessWindowMs`
   * gets it back unchanged, whatever `refresh` would say, and from then on
   * every request goes to `refresh`.
   */
  lemma StoredTokenKeptForWindow(token: JwtToken, user: SignedInUser, now: int, later: int,
                                 refresh: Option<Crypto.Token> -> ApiOutcome,
                                 other: Option<Crypto.Token> -> ApiOutcome)
    ensures
      var stored := JwtCallback(token, Some(user), true, now, refresh);
      && (StillValid(stored, later) <==> later < now + AccessWindowMs)
      && (later < now + AccessWindowMs ==> JwtCallback(stored, None, false, later, other) == stored)
  {
  }

  /**
   * When the client stores a token `lag` milliseconds after the backend minted
   * it, the client keeps using it for `lag` milliseconds after its modelled
   * expiry (`Crypto.Verify`) has passed. The signing library as configured
   * reads `iat` in seconds and would accept the token far longer still
   * (`Crypto.MillisecondIatNeverExpires`).
   */
  lemma StaleWindow(sub: string, email: string, mintedAt: int, storedAt: int, later: int, token: JwtToken,
                    user: SignedInUser, refresh: Option<Crypto.Token> -> ApiOutcome,
                    other: Option<Crypto.Token> -> ApiOutcome)
    requires mintedAt <= storedAt
    requires user.accessToken == Crypto.Mint(sub, email, Crypto.Access, mintedAt, Crypto.AccessTtlMs)
    ensures
      var stored := JwtCallback(token, Some(user), true, storedAt, refresh);
      && (storedAt <= later < storedAt + AccessWindowMs ==>
            JwtCallback(stored, None, false, later, other).accessToken == Some(user.accessToken))
      && (Crypto.Verify(user.accessToken, later).None? <==> later >= mintedAt + Crypto.AccessTtlMs)
  {
  }

  /**
   * A failed refresh keeps the old tokens and expiry and sets the error
   * marker; a later successful refresh replaces the tokens but, since it
   * spreads the old token, leaves the marker in place.
   */
  lemma RefreshFailureMarked(token: JwtToken, now: int, later: int,
                             failing: Option<Crypto.Token> -> ApiOutcome,
                             succeeding: Option<Crypto.Token> -> ApiOutcome)
    requires !StillValid(token, now) && failing(token.refreshToken).Failed?
    requires succeeding(token.refreshToken).Succeeded? && later >= now
    ensures
      var failed := JwtCallback(token, None, false, now, failing);
      && failed.accessToken == token.accessToken && failed.refreshToken == token.refreshToken
      && failed.accessTokenExpires == token.accessTokenExpires
      && failed.error == Some(RefreshTokenError)
      && var recovered := JwtCallback(failed, None, false, later, succeeding);
      && recovered.accessToken == Some(succeeding(token.refreshToken).auth.accessToken)
      && recovered.error == Some(RefreshTokenError)
  {
    var failed := JwtCallback(token, None, false, now, failing);
    assert failed == token.(error := Some(RefreshTokenError));
    assert !StillValid(failed, later);
  }

  /**
   * What `authorize` returns on a successful login reaches the client's
   * session: both tokens, the username and the roles, with no error.
   */
  lemma SignInReachesSession(c: Option<Credentials>, login: (string, string) -> ApiOutcome,
                             expires: string, now: int, refresh: Option<Crypto.Token> -> ApiOutcome)
    requires !MissingCredentials(c) && login(c.value.email, c.value.password).Succeeded?
    ensures
      var auth := login(c.value.email, c.value.password).auth;
      var user := AuthorizeMatchingBackend(c, login).user;
      var empty := JwtToken(None, None, None, None, None, None, None, None, None, None);
      var session := SessionCallback(expires, JwtCallback(empty, Some(user), true, now, refresh));
      && session.accessToken == Some(auth.accessToken) && session.refreshToken == Some(auth.refreshToken)
      && session.user.username == auth.user.username && session.user.roles == auth.user.roles
      && session.error == None
  {
  }
}
