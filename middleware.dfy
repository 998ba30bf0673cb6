/**
 * The web client's route guard: pages under `/auth/` are for signed-out
 * visitors, every other page the guard runs on is for signed-in users.
 * Whether the request carries a session token is the parameter `hasToken`.
 */
module Middleware {
  import opened Wrappers

  const AuthPrefix: string := "/auth/"
  const HomePath: string := "/"
  const LoginPath: string := "/auth/login"

  /** Let the request through, or redirect it, possibly with a `callbackUrl` query parameter. */
  datatype Decision = Next | Redirect(path: string, callbackUrl: Option<string>)

  /** `String.prototype.startsWith`. */
  predicate StartsWith(s: string, prefix: string)
  {
    |prefix| <= |s| && s[..|prefix|] == prefix
  }

  function Guard(pathname: string, hasToken: bool): (d: Decision)
    ensures StartsWith(pathname, AuthPrefix) ==> (d.Next? <==> !hasToken)
    ensures !StartsWith(pathname, AuthPrefix) ==> (d.Next? <==> hasToken)
    ensures d.Redirect? && hasToken ==> d == Redirect(HomePath, None)
    ensures d.Redirect? && !hasToken ==> d == Redirect(LoginPath, Some(pathname))
  {
    if StartsWith(pathname, AuthPrefix) then
      if hasToken then Redirect(HomePath, None) else Next
    else if !hasToken then
      Redirect(LoginPath, Some(pathname))
    else
      Next
  }

  /** A signed-in user is sent away from the auth pages and let through everywhere else, and the reverse for a visitor. */
  lemma GuardCases(pathname: string)
    ensures StartsWith(pathname, AuthPrefix) ==>
      Guard(pathname, true) == Redirect(HomePath, None) && Guard(pathname, false) == Next
    ensures !StartsWith(pathname, AuthPrefix) ==>
      Guard(pathname, true) == Next && Guard(pathname, false) == Redirect(LoginPath, Some(pathname))
  {
  }

  /** Only paths strictly below `/auth/` are public: `/auth` itself and `/authors` are guarded. */
  lemma PrefixNeedsSlash()
    ensures Guard("/auth", false) == Redirect(LoginPath, Some("/auth"))
    ensures Guard("/authors", false) == Redirect(LoginPath, Some("/authors"))
    ensures Guard("/auth/register", false) == Next
  {
    assert !StartsWith("/auth", AuthPrefix);
    assert "/authors"[..6] != AuthPrefix by { assert "/authors"[5] == 'o'; }
    assert "/auth/register"[..6] == AuthPrefix;
  }

  /**
   * No redirect loop: a request that is redirected and follows the redirect
   * with the same token state is let through.
   */
  lemma RedirectSettles(pathname: string, hasToken: bool)
    requires Guard(pathname, hasToken).Redirect?
    ensures Guard(Guard(pathname, hasToken).path, hasToken) == Next
  {
    if hasToken {
      assert !StartsWith(HomePath, AuthPrefix);
    } else {
      assert LoginPath[..6] == AuthPrefix;
    }
  }
}
