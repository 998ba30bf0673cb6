/**
 * The two tables the authentication service reads and writes (users and
 * sessions), the lookups it issues against them, and the consistency the
 * store keeps between them.
 */
module AuthStore {
  import opened Wrappers
  import Crypto

  /** `UserType` of the schema. A request may leave it out (`None`). */
  datatype UserType = Client | Professional

  /** The profile row created with a professional's account. */
  datatype Profile = Profile(profession: string)

  /** A row of the users table; timestamps are milliseconds since the epoch. */
  datatype User = User(
    id: string,
    email: string,
    passwordHash: Option<Crypto.Digest>,
    fullName: string,
    userType: Option<UserType>,
    profile: Option<Profile>,
    emailVerified: Option<int>,
    emailVerificationToken: Option<string>,
    emailVerificationExpires: Option<int>,
    passwordResetToken: Option<string>,
    passwordResetExpires: Option<int>)

  /** A row of the sessions table: one outstanding refresh token. */
  datatype Session = Session(userId: string, token: Crypto.Token, expiresAt: int)

  /** The whole store. Row order is the order `findFirst` scans in. */
  datatype Db = Db(users: seq<User>, sessions: seq<Session>)

  /** Lifetime of an email-verification token (24 hours), in milliseconds. */
  const VerificationTtlMs: int := 24 * 60 * 60 * 1000

  /** Lifetime of a password-reset token (1 hour), in milliseconds. */
  const ResetTtlMs: int := 60 * 60 * 1000

  /** Lifetime of a session row (7 days), in milliseconds. */
  const SessionTtlMs: int := 7 * 24 * 60 * 60 * 1000

  /** The first row satisfying `p`, as `findFirst`/`findUnique` return it. */
  function FirstIndex<T>(rows: seq<T>, p: T -> bool): (r: Option<nat>)
    ensures r.Some? ==> r.value < |rows| && p(rows[r.value])
    ensures r.Some? ==> forall j :: 0 <= j < r.value ==> !p(rows[j])
    ensures r.None? <==> forall j :: 0 <= j < |rows| ==> !p(rows[j])
  {
    if |rows| == 0 then None
    else if p(rows[0]) then Some(0)
    else match FirstIndex(rows[1..], p)
      case None => None
      case Some(k) => Some(k + 1)
  }

  /** `user.findUnique({ where: { email } })`: an exact, case-sensitive match. */
  function UserByEmail(users: seq<User>, email: string): (r: Option<nat>)
    ensures r.Some? ==> r.value < |users| && users[r.value].email == email
    ensures r.Some? ==> forall j :: 0 <= j < r.value ==> users[j].email != email
    ensures r.None? <==> forall j :: 0 <= j < |users| ==> users[j].email != email
  {
    FirstIndex(users, (u: User) => u.email == email)
  }

  /** The row a session's `include: { user: true }` joins to. */
  function UserById(users: seq<User>, id: string): (r: Option<nat>)
    ensures r.Some? ==> r.value < |users| && users[r.value].id == id
    ensures r.None? <==> forall j :: 0 <= j < |users| ==> users[j].id != id
  {
    FirstIndex(users, (u: User) => u.id == id)
  }

  /** The `where` of `verifyEmail`: exact token, expiry after `now`, not yet verified. */
  predicate VerificationMatches(u: User, token: string, now: int)
  {
    && u.emailVerificationToken == Some(token)
    && u.emailVerificationExpires.Some? && u.emailVerificationExpires.value > now
    && u.emailVerified.None?
  }

  /** `user.findFirst` with the `where` of `verifyEmail`. */
  function VerificationHolder(users: seq<User>, token: string, now: int): (r: Option<nat>)
    ensures r.Some? ==> r.value < |users| && VerificationMatches(users[r.value], token, now)
    ensures r.None? <==> forall j :: 0 <= j < |users| ==> !VerificationMatches(users[j], token, now)
  {
    FirstIndex(users, (u: User) => VerificationMatches(u, token, now))
  }

  /** The `where` of `resetPassword`: exact token, expiry after `now`. */
  predicate ResetMatches(u: User, token: string, now: int)
  {
    && u.passwordResetToken == Some(token)
    && u.passwordResetExpires.Some? && u.passwordResetExpires.value > now
  }

  /** `user.findFirst` with the `where` of `resetPassword`. */
  function ResetHolder(users: seq<User>, token: string, now: int): (r: Option<nat>)
    ensures r.Some? ==> r.value < |users| && ResetMatches(users[r.value], token, now)
    ensures r.None? <==> forall j :: 0 <= j < |users| ==> !ResetMatches(users[j], token, now)
  {
    FirstIndex(users, (u: User) => ResetMatches(u, token, now))
  }

  /** A reset token that has not expired yet, whatever its value. */
  predicate LiveReset(u: User, now: int)
  {
    u.passwordResetExpires.Some? && u.passwordResetExpires.value > now
  }

  /**
   * `user.findFirst` with the `where` of `resetPassword` when the query
   * carries no token: the undefined token filter is dropped, leaving the
   * expiry filter alone.
   */
  function AnyResetHolder(users: seq<User>, now: int): (r: Option<nat>)
    ensures r.Some? ==> r.value < |users| && LiveReset(users[r.value], now)
    ensures r.None? <==> forall j :: 0 <= j < |users| ==> !LiveReset(users[j], now)
  {
    FirstIndex(users, (u: User) => LiveReset(u, now))
  }

  /** The `where` of `refreshToken`'s session lookup: exact token, expiry after `now`. */
  predicate SessionMatches(s: Session, token: Crypto.Token, now: int)
  {
    s.token == token && s.expiresAt > now
  }

  /** `session.findFirst` with the `where` of `refreshToken`. */
  function SessionHolder(sessions: seq<Session>, token: Crypto.Token, now: int): (r: Option<nat>)
    ensures r.Some? ==> r.value < |sessions| && SessionMatches(sessions[r.value], token, now)
    ensures r.None? <==> forall k :: 0 <= k < |sessions| ==> !SessionMatches(sessions[k], token, now)
  {
    FirstIndex(sessions, (s: Session) => SessionMatches(s, token, now))
  }

  /** The ids of all users. */
  function UserIds(users: seq<User>): (ids: set<string>)
    ensures forall i :: 0 <= i < |users| ==> users[i].id in ids
    ensures forall id :: id in ids ==> exists i :: 0 <= i < |users| && users[i].id == id
  {
    set u | u in users :: u.id
  }

  /** No two users share an id. */
  ghost predicate IdsUnique(users: seq<User>)
  {
    forall i, j :: 0 <= i < j < |users| ==> users[i].id != users[j].id
  }

  /** No two users share an email (the unique constraint `findUnique` relies on). */
  ghost predicate EmailsUnique(users: seq<User>)
  {
    forall i, j :: 0 <= i < j < |users| ==> users[i].email != users[j].email
  }

  /** No two users hold the same pending verification token. */
  ghost predicate VerificationTokensUnique(users: seq<User>)
  {
    forall i, j :: 0 <= i < j < |users| && users[i].emailVerificationToken.Some? ==>
      users[i].emailVerificationToken != users[j].emailVerificationToken
  }

  /** No two users hold the same pending reset token. */
  ghost predicate ResetTokensUnique(users: seq<User>)
  {
    forall i, j :: 0 <= i < j < |users| && users[i].passwordResetToken.Some? ==>
      users[i].passwordResetToken != users[j].passwordResetToken
  }

  /**
   * The per-account state the flows keep: a verified account has no pending
   * verification token, and each pending token comes with its expiry.
   */
  ghost predicate AccountConsistent(u: User)
  {
    && (u.emailVerified.Some? ==> u.emailVerificationToken.None? && u.emailVerificationExpires.None?)
    && (u.emailVerificationToken.Some? <==> u.emailVerificationExpires.Some?)
    && (u.passwordResetToken.Some? <==> u.passwordResetExpires.Some?)
  }

  /** A session belongs to an existing user and holds a refresh token minted for that user. */
  ghost predicate SessionConsistent(s: Session, users: seq<User>)
  {
    && s.userId in UserIds(users)
    && s.token.Signed? && s.token.claims.sub == s.userId && s.token.claims.kind == Crypto.Refresh
  }

  /** The store invariant every flow preserves. */
  ghost predicate Valid(db: Db)
  {
    && IdsUnique(db.users)
    && EmailsUnique(db.users)
    && VerificationTokensUnique(db.users)
    && ResetTokensUnique(db.users)
    && (forall i :: 0 <= i < |db.users| ==> AccountConsistent(db.users[i]))
    && (forall k :: 0 <= k < |db.sessions| ==> SessionConsistent(db.sessions[k], db.users))
  }

  /** `id` can be given to a new user. */
  predicate FreshUserId(users: seq<User>, id: string)
  {
    forall i :: 0 <= i < |users| ==> users[i].id != id
  }

  /** `token` is held by no user as a pending verification token. */
  predicate FreshVerificationToken(users: seq<User>, token: string)
  {
    forall i :: 0 <= i < |users| ==> users[i].emailVerificationToken != Some(token)
  }

  /** `token` is held by no user as a pending reset token. */
  predicate FreshResetToken(users: seq<User>, token: string)
  {
    forall i :: 0 <= i < |users| ==> users[i].passwordResetToken != Some(token)
  }
}
