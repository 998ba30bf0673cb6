/**
 * Every flow of the authentication service keeps the store invariant
 * `AuthStore.Valid`: unique ids, emails and pending tokens, consistent
 * per-account token state, and sessions that belong to existing users and
 * hold refresh tokens minted for them.
 */
module AuthInvariants {
  import opened Wrappers
  import Crypto
  import opened AuthStore
  import opened AuthFlows

  /** Replacing a user by one with the same id keeps the set of ids. */
  lemma UserIdsUpdate(users: seq<User>, i: nat, u: User)
    requires i < |users| && u.id == users[i].id
    ensures UserIds(users[i := u]) == UserIds(users)
  {
    var after := users[i := u];
    forall id | id in UserIds(users) ensures id in UserIds(after) {
      var j :| 0 <= j < |users| && users[j].id == id;
      assert after[j].id == id;
    }
    forall id | id in UserIds(after) ensures id in UserIds(users) {
      var j :| 0 <= j < |after| && after[j].id == id;
      assert users[j].id == id;
    }
  }

  /** Appending a user adds exactly its id. */
  lemma UserIdsAppend(users: seq<User>, u: User)
    ensures UserIds(users + [u]) == UserIds(users) + {u.id}
  {
    var after := users + [u];
    forall id | id in UserIds(users) ensures id in UserIds(after) {
      var j :| 0 <= j < |users| && users[j].id == id;
      assert after[j].id == id;
    }
    assert after[|users|].id == u.id;
  }

  /** Sessions consistent with one user table stay so with a table of the same ids. */
  lemma SessionsFollowIds(sessions: seq<Session>, before: seq<User>, after: seq<User>)
    requires forall k :: 0 <= k < |sessions| ==> SessionConsistent(sessions[k], before)
    requires UserIds(before) <= UserIds(after)
    ensures forall k :: 0 <= k < |sessions| ==> SessionConsistent(sessions[k], after)
  {
  }

  /**
   * Replacing one user by a consistent row with the same id and email, whose
   * pending tokens are either cleared, kept, or (for the reset token) fresh,
   * keeps the invariant.
   */
  lemma UpdateUserValid(db: Db, i: nat, u: User)
    requires Valid(db) && i < |db.users|
    requires u.id == db.users[i].id && u.email == db.users[i].email && AccountConsistent(u)
    requires u.emailVerificationToken.None? || u.emailVerificationToken == db.users[i].emailVerificationToken
    requires || u.passwordResetToken.None?
             || u.passwordResetToken == db.users[i].passwordResetToken
             || FreshResetToken(db.users, u.passwordResetToken.value)
    ensures Valid(db.(users := db.users[i := u]))
  {
    var users := db.users[i := u];
    assert IdsUnique(users) by {
      forall a, b | 0 <= a < b < |users| ensures users[a].id != users[b].id {
        assert users[a].id == db.users[a].id && users[b].id == db.users[b].id;
      }
    }
    assert EmailsUnique(users) by {
      forall a, b | 0 <= a < b < |users| ensures users[a].email != users[b].email {
        assert users[a].email == db.users[a].email && users[b].email == db.users[b].email;
      }
    }
    assert VerificationTokensUnique(users) by {
      forall a, b | 0 <= a < b < |users| && users[a].emailVerificationToken.Some?
        ensures users[a].emailVerificationToken != users[b].emailVerificationToken
      {
        if a != i && b != i {
          assert users[a] == db.users[a] && users[b] == db.users[b];
        }
      }
    }
    assert ResetTokensUnique(users) by {
      forall a, b | 0 <= a < b < |users| && users[a].passwordResetToken.Some?
        ensures users[a].passwordResetToken != users[b].passwordResetToken
      {
        if a != i && b != i {
          assert users[a] == db.users[a] && users[b] == db.users[b];
        }
      }
    }
    assert forall a :: 0 <= a < |users| ==> AccountConsistent(users[a]) by {
      forall a | 0 <= a < |users| ensures AccountConsistent(users[a]) {
        if a != i { assert users[a] == db.users[a]; }
      }
    }
    UserIdsUpdate(db.users, i, u);
    SessionsFollowIds(db.sessions, db.users, users);
  }

  /** Appending a consistent user with a fresh id, email and verification token keeps the invariant. */
  lemma AppendUserValid(db: Db, u: User)
    requires Valid(db) && AccountConsistent(u) && u.passwordResetToken.None?
    requires FreshUserId(db.users, u.id)
    requires forall j :: 0 <= j < |db.users| ==> db.users[j].email != u.email
    requires u.emailVerificationToken.Some? ==> FreshVerificationToken(db.users, u.emailVerificationToken.value)
    ensures Valid(db.(users := db.users + [u]))
  {
    var users := db.users + [u];
    var n := |db.users|;
    assert forall a :: 0 <= a < n ==> users[a] == db.users[a];
    assert users[n] == u;
    assert IdsUnique(users) by {
      forall a, b | 0 <= a < b < |users| ensures users[a].id != users[b].id {
        if b < n { assert users[a] == db.users[a] && users[b] == db.users[b]; }
      }
    }
    assert EmailsUnique(users) by {
      forall a, b | 0 <= a < b < |users| ensures users[a].email != users[b].email {
        if b < n { assert users[a] == db.users[a] && users[b] == db.users[b]; }
      }
    }
    assert VerificationTokensUnique(users) by {
      forall a, b | 0 <= a < b < |users| && users[a].emailVerificationToken.Some?
        ensures users[a].emailVerificationToken != users[b].emailVerificationToken
      {
        if b < n { assert users[a] == db.users[a] && users[b] == db.users[b]; }
      }
    }
    assert ResetTokensUnique(users) by {
      forall a, b | 0 <= a < b < |users| && users[a].passwordResetToken.Some?
        ensures users[a].passwordResetToken != users[b].passwordResetToken
      {
        if b < n { assert users[a] == db.users[a] && users[b] == db.users[b]; }
      }
    }
    UserIdsAppend(db.users, u);
    SessionsFollowIds(db.sessions, db.users, users);
  }

  /** Registering with a fresh id and a fresh verification token keeps the store invariant, whether or not the email was taken. */
  lemma RegisterPreservesValid(db: Db, dto: RegisterDto, now: int, id: string, verificationToken: string)
    requires Valid(db)
    requires FreshUserId(db.users, id) && FreshVerificationToken(db.users, verificationToken)
    ensures Valid(Register(db, dto, now, id, verificationToken).after)
  {
    var r := Register(db, dto, now, id, verificationToken);
    if r.result.Ok? {
      AppendUserValid(db, NewUser(dto, id, verificationToken, now));
    }
  }

  /** A login keeps the store invariant: the session it opens belongs to an existing user and holds a refresh token for that user. */
  lemma LoginPreservesValid(db: Db, email: string, password: string, now: int)
    requires Valid(db)
    ensures Valid(Login(db, email, password, now).after)
  {
    var r := Login(db, email, password, now);
    if r.result.Ok? {
      var i := UserByEmail(db.users, email).value;
      var last := r.after.sessions[|db.sessions|];
      assert last.userId == db.users[i].id;
      assert SessionConsistent(last, db.users);
      forall k | 0 <= k < |r.after.sessions| ensures SessionConsistent(r.after.sessions[k], r.after.users) {
        if k < |db.sessions| {
          assert r.after.sessions[k] == db.sessions[k];
        }
      }
    }
  }

  /** Verifying an email keeps the store invariant. */
  lemma VerifyEmailPreservesValid(db: Db, token: string, now: int)
    requires Valid(db)
    ensures Valid(VerifyEmail(db, token, now).after)
  {
    var r := VerifyEmail(db, token, now);
    if r.result.Ok? {
      var i := VerificationHolder(db.users, token, now).value;
      UpdateUserValid(db, i, r.after.users[i]);
    }
  }

  /** Requesting a reset with a fresh reset token keeps the store invariant. */
  lemma ForgotPasswordPreservesValid(db: Db, email: string, now: int, resetToken: string)
    requires Valid(db) && FreshResetToken(db.users, resetToken)
    ensures Valid(ForgotPassword(db, email, now, resetToken).after)
  {
    var r := ForgotPassword(db, email, now, resetToken);
    if UserByEmail(db.users, email).Some? {
      var i := UserByEmail(db.users, email).value;
      UpdateUserValid(db, i, r.after.users[i]);
    }
  }

  /** Resetting one account keeps the store invariant: its sessions are dropped and the others stay consistent. */
  lemma ResetAccountPreservesValid(db: Db, i: nat, newPassword: string)
    requires Valid(db) && i < |db.users|
    ensures Valid(ResetAccount(db, i, newPassword))
  {
    var after := ResetAccount(db, i, newPassword);
    var mid := db.(users := db.users[i := after.users[i]]);
    UpdateUserValid(db, i, after.users[i]);
    assert after == mid.(sessions := RemoveSessionsOf(db.sessions, db.users[i].id));
    forall k | 0 <= k < |after.sessions| ensures SessionConsistent(after.sessions[k], after.users) {
      var s := after.sessions[k];
      assert s in db.sessions;
      var k' :| 0 <= k' < |db.sessions| && db.sessions[k'] == s;
      assert SessionConsistent(mid.sessions[k'], mid.users);
    }
  }

  /** Resetting a password keeps the store invariant. */
  lemma ResetPasswordPreservesValid(db: Db, token: string, newPassword: string, now: int)
    requires Valid(db)
    ensures Valid(ResetPassword(db, token, newPassword, now).after)
  {
    var r := ResetPassword(db, token, newPassword, now);
    if r.result.Ok? {
      ResetAccountPreservesValid(db, ResetHolder(db.users, token, now).value, newPassword);
    }
  }

  /** The reset as written keeps the store invariant too, with or without a token. */
  lemma ResetPasswordAsWrittenPreservesValid(db: Db, token: Option<string>, newPassword: string, now: int)
    requires Valid(db)
    ensures Valid(ResetPasswordAsWritten(db, token, newPassword, now).after)
  {
    match token
    case Some(t) => ResetPasswordPreservesValid(db, t, newPassword, now);
    case None =>
      var holder := AnyResetHolder(db.users, now);
      if holder.Some? {
        ResetAccountPreservesValid(db, holder.value, newPassword);
      }
  }

  /** Refreshing keeps the store invariant: the rotated session holds a refresh token for the same user. */
  lemma RefreshPreservesValid(db: Db, token: Crypto.Token, now: int)
    requires Valid(db)
    ensures Valid(Refresh(db, token, now).after)
  {
    var r := Refresh(db, token, now);
    if r.result.Ok? {
      var k := SessionHolder(db.sessions, token, now).value;
      forall j | 0 <= j < |r.after.sessions| ensures SessionConsistent(r.after.sessions[j], r.after.users) {
        assert SessionConsistent(db.sessions[j], db.users);
      }
    }
  }
}
