/**
 * The request bodies of the authentication endpoints and the field rules
 * their DTO classes declare (`RegisterDto`, `LoginDto`, `VerifyEmailDto`,
 * `ForgotPasswordDto`, `ResetPasswordDto`, `RefreshTokenDto`). The email
 * syntax check is a parameter: its definition lives in the validator library.
 */
module AuthDto {
  import opened Validation

  datatype RegisterBody = RegisterBody(email: Value, password: Value, fullName: Value)
  datatype LoginBody = LoginBody(email: Value, password: Value)
  datatype VerifyEmailBody = VerifyEmailBody(token: Value)
  datatype ForgotPasswordBody = ForgotPasswordBody(email: Value)
  datatype ResetPasswordBody = ResetPasswordBody(password: Value)
  datatype RefreshTokenBody = RefreshTokenBody(refreshToken: Value)

  /** The minimum password length of registration and reset. */
  const MinPasswordLength: nat := 8

  function RegisterValid(b: RegisterBody, isEmail: string -> bool): (ok: bool)
    ensures ok ==> b.email.Str? && isEmail(b.email.s) && b.fullName.Str?
    ensures ok ==> b.password.Str? && |b.password.s| >= MinPasswordLength
  {
    && IsEmail(b.email, isEmail)
    && IsString(b.password) && MinLength(b.password, MinPasswordLength)
    && IsString(b.fullName)
  }

  function LoginValid(b: LoginBody, isEmail: string -> bool): (ok: bool)
    ensures ok ==> b.email.Str? && isEmail(b.email.s) && b.password.Str?
  {
    IsEmail(b.email, isEmail) && IsString(b.password)
  }

  function VerifyEmailValid(b: VerifyEmailBody): (ok: bool)
    ensures ok ==> b.token.Str?
  {
    IsString(b.token)
  }

  function ForgotPasswordValid(b: ForgotPasswordBody, isEmail: string -> bool): (ok: bool)
    ensures ok ==> b.email.Str? && isEmail(b.email.s)
  {
    IsEmail(b.email, isEmail)
  }

  function ResetPasswordValid(b: ResetPasswordBody): (ok: bool)
    ensures ok ==> b.password.Str? && |b.password.s| >= MinPasswordLength
  {
    IsString(b.password) && MinLength(b.password, MinPasswordLength)
  }

  function RefreshTokenValid(b: RefreshTokenBody): (ok: bool)
    ensures ok ==> b.refreshToken.Str?
  {
    IsString(b.refreshToken)
  }

  /**
   * Registration accepts a body exactly when the email passes the email check,
   * the password is a string at least 8 long, and the full name is a string
   * (the empty string included). An accepted password has at least 8 characters.
   */
  lemma RegisterRule(b: RegisterBody, isEmail: string -> bool)
    ensures RegisterValid(b, isEmail) <==>
      && b.email.Str? && isEmail(b.email.s)
      && b.password.Str? && ValidatorLength(b.password.s) >= 8
      && b.fullName.Str?
    ensures RegisterValid(b, isEmail) ==> |b.password.s| >= 8
  {
  }

  /** A password of plain characters is accepted at registration and at reset exactly when it is at least 8 long. */
  lemma PasswordLengthRule(email: string, password: string, fullName: string, isEmail: string -> bool)
    requires isEmail(email)
    requires forall i :: 0 <= i < |password| ==> !IsVariationSelector(password[i])
    ensures RegisterValid(RegisterBody(Str(email), Str(password), Str(fullName)), isEmail) <==> |password| >= 8
    ensures ResetPasswordValid(ResetPasswordBody(Str(password))) <==> |password| >= 8
  {
  }

  /** Login puts no bound on the password: any string, the empty one too, is accepted. */
  lemma LoginPasswordUnbounded(email: string, password: string, isEmail: string -> bool)
    ensures LoginValid(LoginBody(Str(email), Str(password)), isEmail) <==> isEmail(email)
    ensures LoginValid(LoginBody(Str(email), Str("")), isEmail) <==> isEmail(email)
  {
  }

  /** The verification token and the refresh token only need to be strings. */
  lemma TokensOnlyStrings(v: Value)
    ensures VerifyEmailValid(VerifyEmailBody(v)) <==> v.Str?
    ensures RefreshTokenValid(RefreshTokenBody(v)) <==> v.Str?
  {
  }

  /** Every email field must pass the email check; a missing or non-string email never does. */
  lemma EmailFieldsChecked(v: Value, isEmail: string -> bool)
    ensures ForgotPasswordValid(ForgotPasswordBody(v), isEmail) <==> v.Str? && isEmail(v.s)
    ensures !v.Str? ==> !LoginValid(LoginBody(v, Str("")), isEmail)
  {
  }
}
