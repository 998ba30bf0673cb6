/**
 * The cryptographic primitives the authentication service relies on, taken as
 * black boxes with the contracts the service needs from them:
 *  - argon2 password hashing (`argon2.hash`, `argon2.verify`);
 *  - signed JSON Web Tokens (`JwtService.signAsync`, `JwtService.verifyAsync`).
 * Salts, cost parameters, signatures and encodings are not modelled.
 */
module Crypto {
  import opened Wrappers

  /**
   * An argon2 digest. The model only remembers which plaintext it was computed
   * from, so that verification can be stated; nothing in the service reads it.
   */
  datatype Digest = Argon2(plaintext: string)

  /** `argon2.hash(password)`. */
  function Hash(password: string): (d: Digest)
  {
    Argon2(password)
  }

  /** `argon2.verify(digest, candidate)`: true exactly for the plaintext that was hashed. */
  function VerifyPassword(digest: Digest, candidate: string): (ok: bool)
    ensures ok <==> digest == Hash(candidate)
  {
    digest.plaintext == candidate
  }

  /** The `type` claim of a minted token. */
  datatype TokenKind = Access | Refresh

  /** The payload the service signs: `{ sub, email, type, iat }` plus the expiry the signer adds. */
  datatype Claims = Claims(sub: string, email: string, kind: TokenKind, iat: int, exp: int)

  /**
   * A token string as received from a client: either one this server signed
   * (its claims are then readable), or anything else (a forgery, garbage).
   * Signing is taken to be injective, so equal tokens carry equal claims.
   */
  datatype Token = Signed(claims: Claims) | Unsigned(raw: string)

  /** Lifetime of an access token (`expiresIn: '15m'`), in milliseconds. */
  const AccessTtlMs: int := 15 * 60 * 1000

  /** Lifetime of a refresh token (`expiresIn: '7d'`), in milliseconds. */
  const RefreshTtlMs: int := 7 * 24 * 60 * 60 * 1000

  /** `jwtService.signAsync(payload, { expiresIn })` at time `now`. */
  function Mint(sub: string, email: string, kind: TokenKind, now: int, ttl: int): (t: Token)
    ensures t.Signed? && t.claims.sub == sub && t.claims.email == email && t.claims.kind == kind
    ensures forall later :: Verify(t, later).Some? <==> later < now + ttl
  {
    Signed(Claims(sub, email, kind, now, now + ttl))
  }

  /**
   * `jwtService.verifyAsync(token)` at time `now`: the claims of a token this
   * server signed and whose expiry has not been reached; otherwise it throws.
   */
  function Verify(t: Token, now: int): (r: Option<Claims>)
    ensures r.Some? ==> t.Signed? && r.value == t.claims && now < t.claims.exp
    ensures t.Signed? && now < t.claims.exp ==> r == Some(t.claims)
    ensures t.Unsigned? ==> r.None?
  {
    if t.Signed? && now < t.claims.exp then Some(t.claims) else None
  }

  // The expiry the signing library itself computes. It reads `iat` as
  // seconds since the epoch and writes `exp = iat + expiresIn` in seconds;
  // its check reads the clock in whole seconds.

  /** `expiresIn: '15m'`, in seconds. */
  const AccessTtlSeconds: int := 15 * 60
  /** `expiresIn: '7d'`, in seconds. */
  const RefreshTtlSeconds: int := 7 * 24 * 60 * 60

  /** The `exp` claim the library writes for a payload carrying `iat`. */
  function LibraryExp(iat: int, ttlSeconds: int): (exp: int)
    ensures exp - iat == ttlSeconds
  {
    iat + ttlSeconds
  }

  /** The library's expiry check at `nowMs` milliseconds since the epoch. */
  predicate LibraryAccepts(exp: int, nowMs: int)
  {
    nowMs / 1000 < exp
  }

  /**
   * As written, the payload's `iat` is `Date.now()`, in milliseconds. The
   * library then takes it for seconds, so a token minted at `mintedMs` is
   * accepted for age at every instant before `1000 * mintedMs`: an access
   * token minted in 2023 is still accepted a year later, where the intended
   * fifteen-minute token is long expired.
   */
  lemma MillisecondIatNeverExpires(mintedMs: int, laterMs: int)
    requires 0 <= laterMs < 1000 * mintedMs
    ensures LibraryAccepts(LibraryExp(mintedMs, AccessTtlSeconds), laterMs)
    ensures LibraryAccepts(LibraryExp(mintedMs, RefreshTtlSeconds), laterMs)
  {
    assert (laterMs / 1000) * 1000 <= laterMs;
  }

  /** The concrete case: minted on 14 November 2023, presented a year later. */
  lemma AccessTokenAcceptedAYearLater()
    ensures
      var minted := 1_700_000_000_000;
      var later := minted + 365 * 24 * 60 * 60 * 1000;
      && LibraryAccepts(LibraryExp(minted, AccessTtlSeconds), later)
      && Verify(Mint("id", "a@b.c", Access, minted, AccessTtlMs), later).None?
  {
    MillisecondIatNeverExpires(1_700_000_000_000, 1_700_000_000_000 + 365 * 24 * 60 * 60 * 1000);
  }

  /**
   * With `iat` in seconds (the value the library puts there by itself), the
   * library accepts a token exactly before the end of the second in which
   * its lifetime runs out, which is never later than the lifetime `Mint`
   * models: the library then rejects every token `Verify` rejects.
   */
  lemma SecondIatExpiresOnTime(sub: string, email: string, kind: TokenKind, mintedMs: int, laterMs: int, ttlSeconds: int)
    requires ttlSeconds >= 0
    ensures LibraryAccepts(LibraryExp(mintedMs / 1000, ttlSeconds), laterMs) <==>
      laterMs < (mintedMs / 1000 + ttlSeconds) * 1000
    ensures LibraryAccepts(LibraryExp(mintedMs / 1000, ttlSeconds), laterMs) ==>
      Verify(Mint(sub, email, kind, mintedMs, ttlSeconds * 1000), laterMs).Some?
  {
    var q := mintedMs / 1000;
    var e := q + ttlSeconds;
    assert (laterMs / 1000) * 1000 <= laterMs < (laterMs / 1000) * 1000 + 1000;
    if laterMs / 1000 < e {
      assert laterMs / 1000 + 1 <= e;
      assert (laterMs / 1000 + 1) * 1000 <= e * 1000;
    } else {
      assert (laterMs / 1000) * 1000 >= e * 1000;
    }
    assert q * 1000 <= mintedMs;
    assert e * 1000 == q * 1000 + ttlSeconds * 1000;
  }
}
