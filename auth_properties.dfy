/**
 * What the authentication flows promise, stated over the step functions of
 * `AuthFlows`: the error paths, the fields each flow writes, single use of
 * verification and reset tokens, refresh-token rotation, session revocation
 * on password reset, and the register / verify / login / refresh lifecycle.
 */
module AuthProperties {
  import opened Wrappers
  import Crypto
  import opened AuthStore
  import opened AuthFlows
  import AuthInvariants

  /** With unique emails, the email lookup finds the one user holding it. */
  lemma EmailLookupFinds(users: seq<User>, i: nat, email: string)
    requires EmailsUnique(users) && i < |users| && users[i].email == email
    ensures UserByEmail(users, email) == Some(i)
  {
  }

  /** With unique verification tokens, the lookup finds the one user holding the token. */
  lemma VerificationLookupFinds(users: seq<User>, i: nat, token: string, now: int)
    requires VerificationTokensUnique(users) && i < |users| && VerificationMatches(users[i], token, now)
    ensures VerificationHolder(users, token, now) == Some(i)
  {
  }

  /** With unique reset tokens, the lookup finds the one user holding the token. */
  lemma ResetLookupFinds(users: seq<User>, i: nat, token: string, now: int)
    requires ResetTokensUnique(users) && i < |users| && ResetMatches(users[i], token, now)
    ensures ResetHolder(users, token, now) == Some(i)
  {
  }

  // ---------------------------------------------------------------- register

  /**
   * A registration with a new email appends exactly one account: the argon2
   * hash of the password (which verifies that password and no other), no
   * verification date, a verification token valid for 24 hours, no reset
   * token, and a profile exactly when the account is a professional's.
   */
  lemma RegisteredAccount(db: Db, dto: RegisterDto, now: int, id: string, verificationToken: string)
    requires forall j :: 0 <= j < |db.users| ==> db.users[j].email != dto.email
    ensures
      var r := Register(db, dto, now, id, verificationToken);
      && r.result == Ok(())
      && r.after.sessions == db.sessions
      && r.after.users == db.users + [r.after.users[|db.users|]]
      && var u := r.after.users[|db.users|];
      && u.id == id && u.email == dto.email && u.fullName == dto.fullName && u.userType == dto.userType
      && u.passwordHash == Some(Crypto.Hash(dto.password))
      && (forall q :: Crypto.VerifyPassword(u.passwordHash.value, q) <==> q == dto.password)
      && u.emailVerified.None?
      && u.emailVerificationToken == Some(verificationToken)
      && u.emailVerificationExpires == Some(now + 86_400_000)
      && u.passwordResetToken.None? && u.passwordResetExpires.None?
      && (u.profile.Some? <==> dto.userType == Some(Professional))
  {
  }

  /** Right after registering, logging in is refused until the email is verified, whatever the password. */
  lemma RegisterThenLoginNeedsVerification(
    db: Db, dto: RegisterDto, now: int, id: string, verificationToken: string, password: string, later: int)
    requires forall j :: 0 <= j < |db.users| ==> db.users[j].email != dto.email
    ensures
      var after := Register(db, dto, now, id, verificationToken).after;
      Login(after, dto.email, password, later) == Transition(Err(Unauthorized(VerifyFirstMessage)), after)
  {
    var after := Register(db, dto, now, id, verificationToken).after;
    assert after.users[|db.users|].email == dto.email;
    assert UserByEmail(after.users, dto.email) == Some(|db.users|);
  }

  // ------------------------------------------------------------------- login

  /**
   * Login succeeds exactly for a verified account with that (exact) email whose
   * stored hash is the hash of the given password.
   */
  lemma LoginSucceedsIff(db: Db, email: string, password: string, now: int)
    requires EmailsUnique(db.users)
    ensures Login(db, email, password, now).result.Ok? <==>
      exists i :: 0 <= i < |db.users| && db.users[i].email == email
        && db.users[i].emailVerified.Some? && db.users[i].passwordHash == Some(Crypto.Hash(password))
  {
    var found := UserByEmail(db.users, email);
    if found.Some? {
      forall i | 0 <= i < |db.users| && db.users[i].email == email ensures i == found.value {
        EmailLookupFinds(db.users, i, email);
      }
    }
  }

  /** An unknown email is refused with the same error as a wrong password, and nothing changes. */
  lemma LoginUnknownEmail(db: Db, email: string, password: string, now: int)
    requires forall j :: 0 <= j < |db.users| ==> db.users[j].email != email
    ensures Login(db, email, password, now) == Transition(Err(Unauthorized(InvalidCredentialsMessage)), db)
  {
  }

  /**
   * The order of the checks: a missing hash is refused as invalid credentials;
   * an unverified account is refused before its password is looked at (so with
   * the same error for the right and the wrong password); a wrong password on
   * a verified account is refused as invalid credentials.
   */
  lemma LoginRejections(db: Db, i: nat, password: string, now: int)
    requires EmailsUnique(db.users) && i < |db.users|
    ensures
      var u := db.users[i];
      var r := Login(db, u.email, password, now);
      && (u.passwordHash.None? ==> r.result == Err(Unauthorized(InvalidCredentialsMessage)))
      && (u.passwordHash.Some? && u.emailVerified.None? ==> r.result == Err(Unauthorized(VerifyFirstMessage)))
      && (u.passwordHash.Some? && u.emailVerified.Some? && u.passwordHash != Some(Crypto.Hash(password)) ==>
            r.result == Err(Unauthorized(InvalidCredentialsMessage)))
  {
    EmailLookupFinds(db.users, i, db.users[i].email);
  }

  /**
   * A successful login adds exactly one session, for that user, holding the
   * returned refresh token and expiring in 7 days; the response exposes only
   * id, email, full name and user type, with an access and a refresh token
   * minted for the user at `now`.
   */
  lemma LoginCreatesOneSession(db: Db, i: nat, password: string, now: int)
    requires EmailsUnique(db.users) && i < |db.users|
    requires Login(db, db.users[i].email, password, now).result.Ok?
    ensures
      var u := db.users[i];
      var r := Login(db, u.email, password, now);
      var resp := r.result.value;
      && r.after.users == db.users
      && r.after.sessions == db.sessions + [Session(u.id, resp.refreshToken, now + 604_800_000)]
      && resp.user == PublicUser(u.id, u.email, u.fullName, u.userType)
      && resp.refreshToken == Crypto.Signed(Crypto.Claims(u.id, u.email, Crypto.Refresh, now, now + 604_800_000))
      && resp.accessToken == Crypto.Signed(Crypto.Claims(u.id, u.email, Crypto.Access, now, now + 900_000))
  {
    EmailLookupFinds(db.users, i, db.users[i].email);
  }

  // ------------------------------------------------------------ verify email

  /** A matching token verifies exactly its account: verified at `now`, token and expiry cleared. */
  lemma VerifyEmailEffect(db: Db, i: nat, token: string, now: int)
    requires VerificationTokensUnique(db.users) && i < |db.users| && VerificationMatches(db.users[i], token, now)
    ensures VerifyEmail(db, token, now) == Transition(Ok(()), db.(users := db.users[i := db.users[i].(
      emailVerified := Some(now), emailVerificationToken := None, emailVerificationExpires := None)]))
  {
    VerificationLookupFinds(db.users, i, token, now);
  }

  /** A verification token works once: replaying it fails, at any time, and changes nothing. */
  lemma VerifyEmailReplayFails(db: Db, token: string, now: int, later: int)
    requires VerificationTokensUnique(db.users)
    requires VerifyEmail(db, token, now).result.Ok?
    ensures
      var after := VerifyEmail(db, token, now).after;
      VerifyEmail(after, token, later) == Transition(Err(BadRequest(InvalidVerificationMessage)), after)
  {
    var i := VerificationHolder(db.users, token, now).value;
    var after := VerifyEmail(db, token, now).after;
    forall j | 0 <= j < |after.users| ensures !VerificationMatches(after.users[j], token, later) {
      if j < i {
        assert db.users[j].emailVerificationToken != db.users[i].emailVerificationToken;
      } else if i < j {
        assert db.users[i].emailVerificationToken != db.users[j].emailVerificationToken;
      }
    }
  }

  // --------------------------------------------------------- forgot password

  /** A known email gets a reset token valid for one hour; nothing else changes. */
  lemma ForgotPasswordEffect(db: Db, i: nat, now: int, resetToken: string)
    requires EmailsUnique(db.users) && i < |db.users|
    ensures ForgotPassword(db, db.users[i].email, now, resetToken) == Transition(Ok(()), db.(users := db.users[i := db.users[i].(
      passwordResetToken := Some(resetToken), passwordResetExpires := Some(now + 3_600_000))]))
  {
    EmailLookupFinds(db.users, i, db.users[i].email);
  }

  /** The issued reset token is accepted exactly until its hour is up. */
  lemma ForgotPasswordTokenUsable(db: Db, i: nat, now: int, resetToken: string, newPassword: string, later: int)
    requires Valid(db) && i < |db.users| && FreshResetToken(db.users, resetToken)
    ensures
      var after := ForgotPassword(db, db.users[i].email, now, resetToken).after;
      ResetPassword(after, resetToken, newPassword, later).result.Ok? <==> later < now + 3_600_000
  {
    ForgotPasswordEffect(db, i, now, resetToken);
    var after := ForgotPassword(db, db.users[i].email, now, resetToken).after;
    assert after.users[i].passwordResetToken == Some(resetToken);
    assert after.users[i].passwordResetExpires == Some(now + 3_600_000);
    forall j | 0 <= j < |after.users| && j != i ensures !ResetMatches(after.users[j], resetToken, later) {
      assert after.users[j] == db.users[j];
    }
    if later < now + 3_600_000 {
      assert ResetMatches(after.users[i], resetToken, later);
    }
  }

  // ---------------------------------------------------------- reset password

  /**
   * A matching reset token (verified account or not) replaces that account's
   * hash by the hash of the new password, clears the reset token, and deletes
   * every session of that user and no other.
   */
  lemma ResetPasswordEffect(db: Db, i: nat, token: string, newPassword: string, now: int)
    requires ResetTokensUnique(db.users) && i < |db.users| && ResetMatches(db.users[i], token, now)
    ensures
      var r := ResetPassword(db, token, newPassword, now);
      && r.result == Ok(())
      && r.after.users == db.users[i := db.users[i].(
           passwordHash := Some(Crypto.Hash(newPassword)), passwordResetToken := None, passwordResetExpires := None)]
      && (forall s :: s in r.after.sessions <==> s in db.sessions && s.userId != db.users[i].id)
  {
    ResetLookupFinds(db.users, i, token, now);
  }

  /** A reset token works once: replaying it fails, at any time, and changes nothing. */
  lemma ResetPasswordReplayFails(db: Db, token: string, newPassword: string, now: int, other: string, later: int)
    requires ResetTokensUnique(db.users)
    requires ResetPassword(db, token, newPassword, now).result.Ok?
    ensures
      var after := ResetPassword(db, token, newPassword, now).after;
      ResetPassword(after, token, other, later) == Transition(Err(BadRequest(InvalidResetMessage)), after)
  {
    var i := ResetHolder(db.users, token, now).value;
    var after := ResetPassword(db, token, newPassword, now).after;
    forall j | 0 <= j < |after.users| ensures !ResetMatches(after.users[j], token, later) {
      if j < i {
        assert db.users[j].passwordResetToken != db.users[i].passwordResetToken;
      } else if i < j {
        assert db.users[i].passwordResetToken != db.users[j].passwordResetToken;
      }
    }
  }

  /** In a valid store, every session holds a signed token whose subject is the session's user. */
  lemma SessionTokenOwner(db: Db, s: Session)
    requires Valid(db) && s in db.sessions
    ensures s.token.Signed? && s.token.claims.sub == s.userId
  {
    var k :| 0 <= k < |db.sessions| && db.sessions[k] == s;
    assert SessionConsistent(db.sessions[k], db.users);
  }

  /** After a reset, no refresh token minted for that user is accepted any more. */
  lemma ResetPasswordRevokesRefreshTokens(
    db: Db, i: nat, token: string, newPassword: string, now: int, t: Crypto.Token, later: int)
    requires Valid(db) && i < |db.users| && ResetMatches(db.users[i], token, now)
    requires t.Signed? && t.claims.sub == db.users[i].id
    ensures Refresh(ResetPassword(db, token, newPassword, now).after, t, later).result.Err?
  {
    ResetLookupFinds(db.users, i, token, now);
    var remaining := RemoveSessionsOf(db.sessions, db.users[i].id);
    assert ResetPassword(db, token, newPassword, now).after.sessions == remaining;
    forall k | 0 <= k < |remaining| ensures remaining[k].token != t {
      assert remaining[k] in db.sessions && remaining[k].userId != db.users[i].id;
      SessionTokenOwner(db, remaining[k]);
    }
  }

  /** After a reset of a verified account, login accepts the new password and only it. */
  lemma LoginAfterReset(db: Db, i: nat, token: string, newPassword: string, now: int, password: string, later: int)
    requires Valid(db) && i < |db.users| && ResetMatches(db.users[i], token, now)
    requires db.users[i].emailVerified.Some?
    ensures
      var after := ResetPassword(db, token, newPassword, now).after;
      Login(after, db.users[i].email, password, later).result.Ok? <==> password == newPassword
  {
    ResetPasswordEffect(db, i, token, newPassword, now);
    AuthInvariants.ResetPasswordPreservesValid(db, token, newPassword, now);
    var after := ResetPassword(db, token, newPassword, now).after;
    EmailLookupFinds(after.users, i, db.users[i].email);
  }

  /**
   * As written, a reset request without a `token` query parameter succeeds
   * as soon as some account has requested a reset within the hour, and
   * sets that account's password to the caller's choice.
   */
  lemma MissingTokenResetsPendingAccount(db: Db, i: nat, newPassword: string, now: int)
    requires Valid(db) && i < |db.users| && LiveReset(db.users[i], now)
    ensures
      var r := ResetPasswordAsWritten(db, None, newPassword, now);
      && r.result.Ok?
      && exists k :: 0 <= k < |db.users| && db.users[k].passwordResetToken.Some?
           && r.after.users[k].passwordHash == Some(Crypto.Hash(newPassword))
  {
    var k := AnyResetHolder(db.users, now).value;
    assert AccountConsistent(db.users[k]);
  }

  /**
   * Refusing a request without a token, a reset changes an account's
   * password only for a caller presenting that account's unexpired reset token.
   */
  lemma ResetNeedsHeldToken(db: Db, token: Option<string>, newPassword: string, now: int, k: nat)
    requires k < |db.users|
    ensures ResetPasswordRequest(db, None, newPassword, now) == Transition(Err(BadRequest(InvalidResetMessage)), db)
    ensures
      var after := ResetPasswordRequest(db, token, newPassword, now).after;
      after.users[k].passwordHash != db.users[k].passwordHash ==>
        token.Some? && ResetMatches(db.users[k], token.value, now)
  {
    if token.Some? {
      var found := ResetHolder(db.users, token.value, now);
      if found.Some? {
        var after := ResetAccount(db, found.value, newPassword);
        if k != found.value {
          assert after.users[k] == db.users[k];
        }
      }
    }
  }

  // ----------------------------------------------------------- refresh token

  /** An access token presented as a refresh token is refused, and nothing changes. */
  lemma AccessTokenRejected(db: Db, t: Crypto.Token, now: int)
    requires t.Signed? && t.claims.kind == Crypto.Access
    ensures Refresh(db, t, now) == Transition(Err(Unauthorized(InvalidRefreshMessage)), db)
  {
  }

  /**
   * Refresh succeeds exactly for a live token with the `refresh` type claim
   * that an unexpired session holds.
   */
  lemma RefreshSucceedsIff(db: Db, t: Crypto.Token, now: int)
    requires Valid(db)
    ensures Refresh(db, t, now).result.Ok? <==>
      && Crypto.Verify(t, now).Some? && t.claims.kind == Crypto.Refresh
      && exists k :: 0 <= k < |db.sessions| && SessionMatches(db.sessions[k], t, now)
  {
    var found := SessionHolder(db.sessions, t, now);
    if found.Some? {
      assert SessionConsistent(db.sessions[found.value], db.users);
    }
  }

  /**
   * A successful refresh overwrites the token and expiry of one session that
   * held the presented token, with a refresh token minted at `now` for that
   * session's user; the other sessions and the users are untouched.
   */
  lemma RefreshRotatesSession(db: Db, t: Crypto.Token, now: int)
    requires Refresh(db, t, now).result.Ok?
    ensures
      var r := Refresh(db, t, now);
      var minted := r.result.value.refreshToken;
      exists k :: 0 <= k < |db.sessions| && SessionMatches(db.sessions[k], t, now)
        && minted.Signed? && minted.claims.sub == db.sessions[k].userId
        && minted.claims.kind == Crypto.Refresh && minted.claims.iat == now
        && r.after.sessions == db.sessions[k := Session(db.sessions[k].userId, minted, now + 604_800_000)]
        && r.after.users == db.users
  {
    var k := SessionHolder(db.sessions, t, now).value;
    assert SessionMatches(db.sessions[k], t, now);
  }

  /**
   * Rotation: once a refresh token held by one session has been exchanged,
   * presenting it again fails (the new token differs from it, as it is stamped
   * with a different time).
   */
  lemma RefreshReplayFails(db: Db, t: Crypto.Token, now: int, later: int)
    requires Refresh(db, t, now).result.Ok?
    requires t.Signed? && t.claims.iat != now
    requires forall a, b :: 0 <= a < b < |db.sessions| ==> db.sessions[a].token != t || db.sessions[b].token != t
    ensures
      var after := Refresh(db, t, now).after;
      Refresh(after, t, later) == Transition(Err(Unauthorized(InvalidRefreshMessage)), after)
  {
    var k := SessionHolder(db.sessions, t, now).value;
    var after := Refresh(db, t, now).after;
    forall j | 0 <= j < |after.sessions| ensures after.sessions[j].token != t {
      if j < k {
        assert db.sessions[j].token != t;
      } else if k < j {
        assert db.sessions[j].token != t;
      }
    }
  }

  /** The token a refresh returns is itself accepted by the next refresh, within its 7 days. */
  lemma RotatedTokenAccepted(db: Db, t: Crypto.Token, now: int, later: int)
    requires Valid(db) && Refresh(db, t, now).result.Ok?
    requires later < now + 604_800_000
    ensures
      var r := Refresh(db, t, now);
      Refresh(r.after, r.result.value.refreshToken, later).result.Ok?
  {
    var r := Refresh(db, t, now);
    var k := SessionHolder(db.sessions, t, now).value;
    AuthInvariants.RefreshPreservesValid(db, t, now);
    RefreshSucceedsIff(r.after, r.result.value.refreshToken, later);
    assert SessionMatches(r.after.sessions[k], r.result.value.refreshToken, later);
  }

  // --------------------------------------------------------------- lifecycle

  /**
   * The life of an account, from a valid store: register (login is refused
   * until verification), verify with the issued token within 24 hours, log in,
   * refresh within 7 days, and find the first refresh token rejected afterwards.
   */
  lemma RegistrationLifecycle(
    db: Db, dto: RegisterDto, id: string, verificationToken: string, t0: int, t1: int, t2: int, t3: int, t4: int)
    requires Valid(db) && FreshUserId(db.users, id) && FreshVerificationToken(db.users, verificationToken)
    requires forall j :: 0 <= j < |db.users| ==> db.users[j].email != dto.email
    requires t1 < t0 + VerificationTtlMs
    requires t2 < t3 < t2 + SessionTtlMs
    ensures
      var registered := Register(db, dto, t0, id, verificationToken);
      var verified := VerifyEmail(registered.after, verificationToken, t1);
      var login := Login(verified.after, dto.email, dto.password, t2);
      && registered.result.Ok?
      && Login(registered.after, dto.email, dto.password, t1).result == Err(Unauthorized(VerifyFirstMessage))
      && verified.result.Ok?
      && login.result.Ok?
      && var issued := login.result.value.refreshToken;
      && var refreshed := Refresh(login.after, issued, t3);
      && refreshed.result.Ok?
      && Refresh(refreshed.after, issued, t4).result == Err(Unauthorized(InvalidRefreshMessage))
  {
    var n := |db.users|;
    var registered := Register(db, dto, t0, id, verificationToken);
    RegisteredAccount(db, dto, t0, id, verificationToken);
    RegisterThenLoginNeedsVerification(db, dto, t0, id, verificationToken, dto.password, t1);
    AuthInvariants.RegisterPreservesValid(db, dto, t0, id, verificationToken);
    var db1 := registered.after;

    assert VerificationMatches(db1.users[n], verificationToken, t1);
    VerifyEmailEffect(db1, n, verificationToken, t1);
    AuthInvariants.VerifyEmailPreservesValid(db1, verificationToken, t1);
    var db2 := VerifyEmail(db1, verificationToken, t1).after;
    assert db2.sessions == db.sessions;
    assert db2.users[n].email == dto.email && db2.users[n].emailVerified.Some?;

    LoginSucceedsIff(db2, dto.email, dto.password, t2);
    assert Login(db2, dto.email, dto.password, t2).result.Ok?;
    LoginCreatesOneSession(db2, n, dto.password, t2);
    AuthInvariants.LoginPreservesValid(db2, dto.email, dto.password, t2);
    var login := Login(db2, dto.email, dto.password, t2);
    var issued := login.result.value.refreshToken;
    var db3 := login.after;
    assert issued.claims.sub == id;

    RefreshSucceedsIff(db3, issued, t3);
    assert SessionMatches(db3.sessions[|db.sessions|], issued, t3);
    assert Refresh(db3, issued, t3).result.Ok?;

    forall a, b | 0 <= a < b < |db3.sessions| ensures db3.sessions[a].token != issued || db3.sessions[b].token != issued {
      assert db3.sessions[a] == db.sessions[a];
      assert SessionConsistent(db.sessions[a], db.users);
    }
    RefreshReplayFails(db3, issued, t3, t4);
  }
}
