/**
 * `AuthService` as a stateful object: the users and sessions tables are its
 * fields, and each flow reads them, checks its conditions and then updates or
 * appends rows, one step after another. Each method is proved to do exactly
 * what the matching step function of `AuthFlows` describes, and to keep the
 * store invariant.
 */
module Service {
  import opened Wrappers
  import Crypto
  import opened AuthStore
  import opened AuthFlows
  import AuthInvariants

  class AuthService {
    /** The users table. */
    var users: seq<User>
    /** The sessions table. */
    var sessions: seq<Session>

    /** The store as a value. */
    function State(): (db: Db)
      reads this
    {
      Db(users, sessions)
    }

    ghost predicate Valid()
      reads this
    {
      AuthStore.Valid(State())
    }

    /** A service over an existing, consistent store. */
    constructor (db: Db)
      requires AuthStore.Valid(db)
      ensures Valid() && State() == db
    {
      users := db.users;
      sessions := db.sessions;
    }

    /** `register(dto)`; `id` and `verificationToken` are the fresh values the database and `randomBytes` supply. */
    method Register(dto: RegisterDto, now: int, id: string, verificationToken: string) returns (r: Result<(), AuthError>)
      requires Valid()
      requires FreshUserId(users, id) && FreshVerificationToken(users, verificationToken)
      modifies this
      ensures Valid()
      ensures AuthFlows.Register(old(State()), dto, now, id, verificationToken) == Transition(r, State())
    {
      var existing := UserByEmail(users, dto.email);
      if existing.Some? {
        return Err(BadRequest(EmailTakenMessage));
      }
      AuthInvariants.RegisterPreservesValid(State(), dto, now, id, verificationToken);
      users := users + [NewUser(dto, id, verificationToken, now)];
      r := Ok(());
    }

    /** `login({ email, password })`. */
    method Login(email: string, password: string, now: int) returns (r: Result<AuthResponse, AuthError>)
      requires Valid()
      modifies this
      ensures Valid()
      ensures AuthFlows.Login(old(State()), email, password, now) == Transition(r, State())
    {
      var found := UserByEmail(users, email);
      if found.None? {
        return Err(Unauthorized(InvalidCredentialsMessage));
      }
      var user := users[found.value];
      if user.passwordHash.None? {
        return Err(Unauthorized(InvalidCredentialsMessage));
      }
      if user.emailVerified.None? {
        return Err(Unauthorized(VerifyFirstMessage));
      }
      var passwordValid := Crypto.VerifyPassword(user.passwordHash.value, password);
      if !passwordValid {
        return Err(Unauthorized(InvalidCredentialsMessage));
      }
      var tokens := GenerateTokens(user.id, user.email, now);
      AuthInvariants.LoginPreservesValid(State(), email, password, now);
      sessions := sessions + [Session(user.id, tokens.refreshToken, now + SessionTtlMs)];
      r := Ok(AuthResponse(Public(user), tokens.accessToken, tokens.refreshToken));
    }

    /** `verifyEmail(token)`. */
    method VerifyEmail(token: string, now: int) returns (r: Result<(), AuthError>)
      requires Valid()
      modifies this
      ensures Valid()
      ensures AuthFlows.VerifyEmail(old(State()), token, now) == Transition(r, State())
    {
      var found := VerificationHolder(users, token, now);
      if found.None? {
        return Err(BadRequest(InvalidVerificationMessage));
      }
      var i := found.value;
      AuthInvariants.VerifyEmailPreservesValid(State(), token, now);
      users := users[i := users[i].(
        emailVerified := Some(now),
        emailVerificationToken := None,
        emailVerificationExpires := None)];
      r := Ok(());
    }

    /** `forgotPassword(email)`; `resetToken` is the fresh value `randomBytes` supplies. */
    method ForgotPassword(email: string, now: int, resetToken: string) returns (r: Result<(), AuthError>)
      requires Valid() && FreshResetToken(users, resetToken)
      modifies this
      ensures Valid()
      ensures AuthFlows.ForgotPassword(old(State()), email, now, resetToken) == Transition(r, State())
    {
      var found := UserByEmail(users, email);
      if found.None? {
        return Ok(());
      }
      var i := found.value;
      AuthInvariants.ForgotPasswordPreservesValid(State(), email, now, resetToken);
      users := users[i := users[i].(
        passwordResetToken := Some(resetToken),
        passwordResetExpires := Some(now + ResetTtlMs))];
      r := Ok(());
    }

    /**
     * `resetPassword(token, newPassword)`, with the query's token as received;
     * a request without one is refused.
     */
    method ResetPassword(token: Option<string>, newPassword: string, now: int) returns (r: Result<(), AuthError>)
      requires Valid()
      modifies this
      ensures Valid()
      ensures AuthFlows.ResetPasswordRequest(old(State()), token, newPassword, now) == Transition(r, State())
    {
      if token.None? {
        return Err(BadRequest(InvalidResetMessage));
      }
      var found := ResetHolder(users, token.value, now);
      if found.None? {
        return Err(BadRequest(InvalidResetMessage));
      }
      var i := found.value;
      var userId := users[i].id;
      AuthInvariants.ResetPasswordPreservesValid(State(), token.value, newPassword, now);
      users := users[i := users[i].(
        passwordHash := Some(Crypto.Hash(newPassword)),
        passwordResetToken := None,
        passwordResetExpires := None)];
      sessions := RemoveSessionsOf(sessions, userId);
      r := Ok(());
    }

    /** `refreshToken(refreshToken)`. */
    method RefreshToken(token: Crypto.Token, now: int) returns (r: Result<AuthResponse, AuthError>)
      requires Valid()
      modifies this
      ensures Valid()
      ensures AuthFlows.Refresh(old(State()), token, now) == Transition(r, State())
    {
      var payload := Crypto.Verify(token, now);
      if payload.None? || payload.value.kind != Crypto.Refresh {
        return Err(Unauthorized(InvalidRefreshMessage));
      }
      var held := SessionHolder(sessions, token, now);
      if held.None? {
        return Err(Unauthorized(InvalidRefreshMessage));
      }
      var k := held.value;
      var owner := UserById(users, sessions[k].userId);
      if owner.None? {
        return Err(Unauthorized(InvalidRefreshMessage));
      }
      var user := users[owner.value];
      var tokens := GenerateTokens(user.id, user.email, now);
      AuthInvariants.RefreshPreservesValid(State(), token, now);
      sessions := sessions[k := sessions[k].(token := tokens.refreshToken, expiresAt := now + SessionTtlMs)];
      r := Ok(AuthResponse(Public(user), tokens.accessToken, tokens.refreshToken));
    }
  }
}
