/**
 * The body of the username update: one string field checked by `@IsString`,
 * `@MinLength(3)`, `@MaxLength(30)` and the pattern `^[a-z0-9][a-z0-9_]*$`.
 */
module UsernameDto {
  import opened Validation

  const MinUsernameLength: nat := 3
  const MaxUsernameLength: nat := 30

  /** The class `[a-z0-9]` the first character is drawn from. */
  predicate IsLowerAlnum(c: char)
  {
    ('a' <= c <= 'z') || ('0' <= c <= '9')
  }

  /** The class `[a-z0-9_]` every later character is drawn from. */
  predicate IsUsernameChar(c: char)
  {
    IsLowerAlnum(c) || c == '_'
  }

  /** `[a-z0-9_]*$`: the rest of the input, up to its very end, repeats the class. */
  predicate MatchesTail(s: string)
  {
    |s| == 0 || (IsUsernameChar(s[0]) && MatchesTail(s[1..]))
  }

  /** The anchored pattern `^[a-z0-9][a-z0-9_]*$`, consumed one character at a time. */
  predicate MatchesUsernamePattern(s: string)
  {
    |s| >= 1 && IsLowerAlnum(s[0]) && MatchesTail(s[1..])
  }

  /** The four decorators on `username`. */
  function UsernameValid(v: Value): (ok: bool)
    ensures ok ==> v.Str? && |v.s| >= MinUsernameLength && IsLowerAlnum(v.s[0]) && v.s[0] != '_'
  {
    && IsString(v)
    && MinLength(v, MinUsernameLength)
    && MaxLength(v, MaxUsernameLength)
    && MatchesUsernamePattern(v.s)
  }

  /** A non-empty string is made of `[a-z0-9_]` exactly when its head is and its tail is. */
  lemma AllCharsSplit(s: string)
    requires |s| > 0
    ensures (forall i :: 0 <= i < |s| ==> IsUsernameChar(s[i])) <==>
      IsUsernameChar(s[0]) && forall i :: 0 <= i < |s[1..]| ==> IsUsernameChar(s[1..][i])
  {
    if forall i :: 0 <= i < |s| ==> IsUsernameChar(s[i]) {
      forall i | 0 <= i < |s[1..]| ensures IsUsernameChar(s[1..][i]) {
        assert s[1..][i] == s[i + 1];
      }
    }
    if IsUsernameChar(s[0]) && forall i :: 0 <= i < |s[1..]| ==> IsUsernameChar(s[1..][i]) {
      forall i | 0 <= i < |s| ensures IsUsernameChar(s[i]) {
        if i > 0 {
          assert s[i] == s[1..][i - 1];
        }
      }
    }
  }

  /** The tail of the pattern matches exactly the strings made of `[a-z0-9_]`. */
  lemma {:induction false} MatchesTailIff(s: string)
    ensures MatchesTail(s) <==> forall i :: 0 <= i < |s| ==> IsUsernameChar(s[i])
  {
    if |s| > 0 {
      MatchesTailIff(s[1..]);
      AllCharsSplit(s);
    }
  }

  /**
   * A username is accepted exactly when it is a string of 3 to 30 characters
   * from `[a-z0-9_]` whose first character is not an underscore.
   */
  lemma UsernameRule(v: Value)
    ensures UsernameValid(v) <==>
      && v.Str?
      && 3 <= |v.s| <= 30
      && IsLowerAlnum(v.s[0])
      && forall i :: 0 <= i < |v.s| ==> IsUsernameChar(v.s[i])
  {
    if v.Str? && |v.s| > 0 {
      MatchesTailIff(v.s[1..]);
      AllCharsSplit(v.s);
      if forall i :: 0 <= i < |v.s| ==> IsUsernameChar(v.s[i]) {
        assert ValidatorLength(v.s) == |v.s|;
      }
    }
  }

  /** A username may not start with an underscore, however it goes on. */
  lemma LeadingUnderscoreRejected(rest: string)
    ensures !UsernameValid(Str(['_'] + rest))
  {
  }

  /** One character outside `[a-z0-9_]` anywhere (an upper-case letter, a hyphen, a dot) rejects the username. */
  lemma ForeignCharacterRejected(s: string, i: nat)
    requires i < |s| && !IsUsernameChar(s[i])
    ensures !UsernameValid(Str(s))
  {
    UsernameRule(Str(s));
  }

  /** The pattern is anchored at the end: a good username followed by a bad character is refused. */
  lemma AnchoredAtEnd(s: string, c: char)
    requires UsernameValid(Str(s)) && !IsUsernameChar(c)
    ensures !UsernameValid(Str(s + [c]))
  {
    ForeignCharacterRejected(s + [c], |s|);
  }

  /** The length bounds: two characters are too few, thirty-one too many, even from the allowed class. */
  lemma LengthBounds(s: string)
    requires forall i :: 0 <= i < |s| ==> IsLowerAlnum(s[i])
    ensures |s| < 3 || |s| > 30 ==> !UsernameValid(Str(s))
    ensures 3 <= |s| <= 30 ==> UsernameValid(Str(s))
  {
    UsernameRule(Str(s));
  }
}
