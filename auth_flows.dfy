/**
 * The six flows of the authentication service (`register`, `login`,
 * `verifyEmail`, `forgotPassword`, `resetPassword`, `refreshToken`) and
 * `generateTokens`, each as a function from the store before the call to the
 * call's result and the store after it. The clock (`Date.now()`) and the
 * random tokens (`randomBytes(32)`) are parameters.
 */
module AuthFlows {
  import opened Wrappers
  import Crypto
  import opened AuthStore

  const EmailTakenMessage: string := "Email already registered"
  const InvalidCredentialsMessage: string := "Invalid credentials"
  const VerifyFirstMessage: string := "Please verify your email before logging in"
  const InvalidVerificationMessage: string := "Invalid or expired verification token"
  const InvalidResetMessage: string := "Invalid or expired reset token"
  const InvalidRefreshMessage: string := "Invalid refresh token"

  /** The two exception classes the service throws. */
  datatype AuthError = BadRequest(message: string) | Unauthorized(message: string)

  /**
   * The body `register` reads. `userType` and `profession` are read by the
   * service although the validated class does not declare them.
   */
  datatype RegisterDto = RegisterDto(
    email: string, password: string, fullName: string,
    userType: Option<UserType>, profession: Option<string>)

  /** The user fields `login` and `refreshToken` return. */
  datatype PublicUser = PublicUser(id: string, email: string, fullName: string, userType: Option<UserType>)

  /** `AuthResponse`: the public user and the freshly minted pair of tokens. */
  datatype AuthResponse = AuthResponse(user: PublicUser, accessToken: Crypto.Token, refreshToken: Crypto.Token)

  /** The pair `generateTokens` returns. */
  datatype Tokens = Tokens(accessToken: Crypto.Token, refreshToken: Crypto.Token)

  /** What a call returns (or throws) and the store it leaves behind. */
  datatype Transition<T> = Transition(result: Result<T, AuthError>, after: Db)

  /**
   * `generateTokens`: an access token (15 minutes) and a refresh token (7 days),
   * both for the user's id and email, both stamped with `now`.
   */
  function GenerateTokens(id: string, email: string, now: int): (t: Tokens)
    ensures t.accessToken.Signed? && t.refreshToken.Signed?
    ensures t.accessToken.claims.kind == Crypto.Access && t.refreshToken.claims.kind == Crypto.Refresh
    ensures t.accessToken.claims.sub == id && t.refreshToken.claims.sub == id
    ensures t.accessToken.claims.email == email && t.refreshToken.claims.email == email
    ensures Crypto.Verify(t.accessToken, now).Some? && Crypto.Verify(t.refreshToken, now).Some?
    ensures t.accessToken != t.refreshToken
  {
    Tokens(
      Crypto.Mint(id, email, Crypto.Access, now, Crypto.AccessTtlMs),
      Crypto.Mint(id, email, Crypto.Refresh, now, Crypto.RefreshTtlMs))
  }

  /** The user fields a response exposes. */
  function Public(u: User): (p: PublicUser)
  {
    PublicUser(u.id, u.email, u.fullName, u.userType)
  }

  /** The row `register` creates. */
  function NewUser(dto: RegisterDto, id: string, verificationToken: string, now: int): (u: User)
    ensures AccountConsistent(u) && u.emailVerified.None?
    ensures u.passwordHash.Some? && Crypto.VerifyPassword(u.passwordHash.value, dto.password)
    ensures u.profile.Some? <==> dto.userType == Some(Professional)
  {
    User(
      id := id,
      email := dto.email,
      passwordHash := Some(Crypto.Hash(dto.password)),
      fullName := dto.fullName,
      userType := dto.userType,
      profile := if dto.userType == Some(Professional) then Some(Profile(dto.profession.GetOr(""))) else None,
      emailVerified := None,
      emailVerificationToken := Some(verificationToken),
      emailVerificationExpires := Some(now + VerificationTtlMs),
      passwordResetToken := None,
      passwordResetExpires := None)
  }

  /** `register(dto)`. */
  function Register(db: Db, dto: RegisterDto, now: int, id: string, verificationToken: string): (r: Transition<()>)
    ensures r.result.Err? <==> exists i :: 0 <= i < |db.users| && db.users[i].email == dto.email
    ensures r.result.Err? ==> r.result.error == BadRequest(EmailTakenMessage) && r.after == db
    ensures r.result.Ok? ==> r.after.sessions == db.sessions && |r.after.users| == |db.users| + 1
    ensures r.result.Ok? ==> r.after.users[..|db.users|] == db.users
  {
    if UserByEmail(db.users, dto.email).Some? then
      Transition(Err(BadRequest(EmailTakenMessage)), db)
    else
      Transition(Ok(()), db.(users := db.users + [NewUser(dto, id, verificationToken, now)]))
  }

  /** `login({ email, password })`. */
  function Login(db: Db, email: string, password: string, now: int): (r: Transition<AuthResponse>)
    ensures r.result.Err? ==> r.after == db && r.result.error.Unauthorized?
    ensures r.result.Ok? ==> r.after.users == db.users && |r.after.sessions| == |db.sessions| + 1
    ensures r.result.Ok? ==> r.after.sessions[..|db.sessions|] == db.sessions
    ensures r.result.Ok? ==> exists i :: 0 <= i < |db.users| && db.users[i].email == email
  {
    match UserByEmail(db.users, email)
    case None => Transition(Err(Unauthorized(InvalidCredentialsMessage)), db)
    case Some(i) =>
      var u := db.users[i];
      if u.passwordHash.None? then
        Transition(Err(Unauthorized(InvalidCredentialsMessage)), db)
      else if u.emailVerified.None? then
        Transition(Err(Unauthorized(VerifyFirstMessage)), db)
      else if !Crypto.VerifyPassword(u.passwordHash.value, password) then
        Transition(Err(Unauthorized(InvalidCredentialsMessage)), db)
      else
        var tokens := GenerateTokens(u.id, u.email, now);
        var session := Session(u.id, tokens.refreshToken, now + SessionTtlMs);
        Transition(
          Ok(AuthResponse(Public(u), tokens.accessToken, tokens.refreshToken)),
          db.(sessions := db.sessions + [session]))
  }

  /** `verifyEmail(token)`. */
  function VerifyEmail(db: Db, token: string, now: int): (r: Transition<()>)
    ensures r.result.Ok? <==> exists i :: 0 <= i < |db.users| && VerificationMatches(db.users[i], token, now)
    ensures r.result.Err? ==> r.result.error == BadRequest(InvalidVerificationMessage) && r.after == db
    ensures r.after.sessions == db.sessions && |r.after.users| == |db.users|
  {
    match VerificationHolder(db.users, token, now)
    case None => Transition(Err(BadRequest(InvalidVerificationMessage)), db)
    case Some(i) =>
      var verified := db.users[i].(
        emailVerified := Some(now),
        emailVerificationToken := None,
        emailVerificationExpires := None);
      Transition(Ok(()), db.(users := db.users[i := verified]))
  }

  /** `forgotPassword(email)`: never throws, whether or not the email is known. */
  function ForgotPassword(db: Db, email: string, now: int, resetToken: string): (r: Transition<()>)
    ensures r.result.Ok?
    ensures r.after.sessions == db.sessions && |r.after.users| == |db.users|
    ensures (forall i :: 0 <= i < |db.users| ==> db.users[i].email != email) ==> r.after == db
  {
    match UserByEmail(db.users, email)
    case None => Transition(Ok(()), db)
    case Some(i) =>
      var pending := db.users[i].(
        passwordResetToken := Some(resetToken),
        passwordResetExpires := Some(now + ResetTtlMs));
      Transition(Ok(()), db.(users := db.users[i := pending]))
  }

  /** `session.deleteMany({ where: { userId } })`: the other users' sessions, in order. */
  function RemoveSessionsOf(sessions: seq<Session>, userId: string): (r: seq<Session>)
    ensures forall s :: s in r <==> s in sessions && s.userId != userId
    ensures |r| <= |sessions|
    ensures |r| == |sessions| <==> forall k :: 0 <= k < |sessions| ==> sessions[k].userId != userId
    ensures (forall k :: 0 <= k < |sessions| ==> sessions[k].userId != userId) ==> r == sessions
  {
    if |sessions| == 0 then []
    else if sessions[0].userId == userId then RemoveSessionsOf(sessions[1..], userId)
    else [sessions[0]] + RemoveSessionsOf(sessions[1..], userId)
  }

  /** `resetPassword(token, newPassword)`. */
  function ResetPassword(db: Db, token: string, newPassword: string, now: int): (r: Transition<()>)
    ensures r.result.Ok? <==> exists i :: 0 <= i < |db.users| && ResetMatches(db.users[i], token, now)
    ensures r.result.Err? ==> r.result.error == BadRequest(InvalidResetMessage) && r.after == db
    ensures |r.after.users| == |db.users|
  {
    match ResetHolder(db.users, token, now)
    case None => Transition(Err(BadRequest(InvalidResetMessage)), db)
    case Some(i) => Transition(Ok(()), ResetAccount(db, i, newPassword))
  }

  /**
   * What a reset does to the account it found: the new password's hash, no
   * pending reset token, and none of its sessions left.
   */
  function ResetAccount(db: Db, i: nat, newPassword: string): (after: Db)
    requires i < |db.users|
    ensures |after.users| == |db.users|
    ensures after.users[i].passwordHash == Some(Crypto.Hash(newPassword))
    ensures after.users[i].passwordResetToken.None? && after.users[i].passwordResetExpires.None?
    ensures forall j :: 0 <= j < |db.users| && j != i ==> after.users[j] == db.users[j]
    ensures forall s :: s in after.sessions <==> s in db.sessions && s.userId != db.users[i].id
  {
    var reset := db.users[i].(
      passwordHash := Some(Crypto.Hash(newPassword)),
      passwordResetToken := None,
      passwordResetExpires := None);
    Db(db.users[i := reset], RemoveSessionsOf(db.sessions, db.users[i].id))
  }

  /**
   * `resetPassword` as written, on the query's token as received (`None`
   * when the request has no `token` parameter). A missing token drops the
   * token filter, so the first account with any unexpired reset token is reset.
   */
  function ResetPasswordAsWritten(db: Db, token: Option<string>, newPassword: string, now: int): (r: Transition<()>)
    ensures token.None? ==> (r.result.Ok? <==> exists i :: 0 <= i < |db.users| && LiveReset(db.users[i], now))
    ensures token.Some? ==>
      (r.result.Ok? <==> exists i :: 0 <= i < |db.users| && ResetMatches(db.users[i], token.value, now))
    ensures r.result.Err? ==> r.result.error == BadRequest(InvalidResetMessage) && r.after == db
  {
    match token
    case Some(t) => ResetPassword(db, t, newPassword, now)
    case None =>
      match AnyResetHolder(db.users, now)
      case None => Transition(Err(BadRequest(InvalidResetMessage)), db)
      case Some(i) => Transition(Ok(()), ResetAccount(db, i, newPassword))
  }

  /**
   * `resetPassword` refusing a request that carries no token, as a reset
   * without the emailed token is evidently not meant to succeed.
   */
  function ResetPasswordRequest(db: Db, token: Option<string>, newPassword: string, now: int): (r: Transition<()>)
    ensures r.result.Ok? <==>
      token.Some? && exists i :: 0 <= i < |db.users| && ResetMatches(db.users[i], token.value, now)
    ensures r.result.Err? ==> r.result.error == BadRequest(InvalidResetMessage) && r.after == db
    ensures |r.after.users| == |db.users|
  {
    match token
    case Some(t) => ResetPassword(db, t, newPassword, now)
    case None => Transition(Err(BadRequest(InvalidResetMessage)), db)
  }

  /**
   * `refreshToken(refreshToken)`. Every failure inside the `try`, including a
   * session whose user cannot be read, surfaces as the same Unauthorized error.
   */
  function Refresh(db: Db, token: Crypto.Token, now: int): (r: Transition<AuthResponse>)
    ensures r.result.Err? ==> r.result.error == Unauthorized(InvalidRefreshMessage) && r.after == db
    ensures r.result.Ok? ==> Crypto.Verify(token, now).Some? && token.claims.kind == Crypto.Refresh
    ensures r.result.Ok? ==> exists k :: 0 <= k < |db.sessions| && SessionMatches(db.sessions[k], token, now)
    ensures r.after.users == db.users && |r.after.sessions| == |db.sessions|
  {
    match Crypto.Verify(token, now)
    case None => Transition(Err(Unauthorized(InvalidRefreshMessage)), db)
    case Some(claims) =>
      if claims.kind != Crypto.Refresh then
        Transition(Err(Unauthorized(InvalidRefreshMessage)), db)
      else
        match SessionHolder(db.sessions, token, now)
        case None => Transition(Err(Unauthorized(InvalidRefreshMessage)), db)
        case Some(k) =>
          match UserById(db.users, db.sessions[k].userId)
          case None => Transition(Err(Unauthorized(InvalidRefreshMessage)), db)
          case Some(i) =>
            var u := db.users[i];
            var tokens := GenerateTokens(u.id, u.email, now);
            var rotated := db.sessions[k].(token := tokens.refreshToken, expiresAt := now + SessionTtlMs);
            Transition(
              Ok(AuthResponse(Public(u), tokens.accessToken, tokens.refreshToken)),
              db.(sessions := db.sessions[k := rotated]))
  }
}
