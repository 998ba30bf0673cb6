# Consultation platform authentication, modelled in Dafny

This project models the account and sign-in core of a consultation booking
platform. The backend is a NestJS service; the web client is a Next.js
application.

On the backend the model covers:

- the authentication service: registration, email verification, login,
  forgotten and reset passwords, refresh-token rotation, and token minting;
- the request-body validators of the authentication, availability and
  username endpoints.

On the web client it covers:

- the sign-in provider's `authorize` function and its `jwt` and `session`
  callbacks;
- the route guard;
- the avatar component.

The service's store is two tables of rows: users and sessions. Each flow is
written twice:

- as a step function on the store (`AuthFlows`), which returns the call's
  result and the store it leaves behind;
- as a method of the `Service.AuthService` class, which updates its `users`
  and `sessions` fields step by step.

Each method is proved to agree with its step function. Each also keeps the
store invariant `AuthStore.Valid`:

- ids, emails and pending tokens are unique;
- a verified account holds no verification token;
- every session belongs to a user and holds a refresh token minted for that
  user.

The properties the flows promise are proved as lemmas (`AuthProperties`):

- verification and reset tokens work once;
- refresh tokens rotate;
- a password reset revokes that user's sessions;
- the register / verify / login / refresh lifecycle runs end to end.

Modules and files:

| file | module | what it holds |
|---|---|---|
| wrappers.dfy | Wrappers | `Option`, `Result` |
| crypto.dfy | Crypto | argon2 digests, signed tokens and their lifetimes |
| auth_store.dfy | AuthStore | rows, lookups, the store invariant |
| auth_flows.dfy | AuthFlows | the flows as step functions |
| auth_invariants.dfy | AuthInvariants | each flow keeps the invariant |
| auth_properties.dfy | AuthProperties | what the flows promise |
| auth_service.dfy | Service | the stateful service class |
| validation.dfy | Validation | request values and the validator checks |
| auth_dto.dfy | AuthDto | authentication request bodies |
| availability_dto.dfy | AvailabilityDto | availability request bodies |
| username_dto.dfy | UsernameDto | the username request body |
| auth_provider.dfy | AuthProvider | client sign-in, token and session callbacks |
| middleware.dfy | Middleware | the client's route guard |
| avatar.dfy | Avatar | the avatar component |

Time is a parameter `now`, in milliseconds since the epoch. The random tokens
and the ids the database assigns are parameters too. The model follows the
code of the service in these points:

- A duplicate email at registration is a BadRequest, not a Conflict.
- Registration returns nothing.
- Emails are compared exactly, not case-insensitively.
- Login checks verification before the password.
- Each login adds a new session rather than replacing one.
- Passwords are hashed with argon2.

## Model

| member | source | states |
|---|---|---|
| Crypto.VerifyPassword | apps/backend/src/modules/auth/auth.service.ts:76-80 | `argon2.verify` accepts a candidate exactly when the digest is the hash of that candidate |
| Crypto.Mint | apps/backend/src/modules/auth/auth.service.ts:244-265 | a minted token is signed with the given subject, email and type, and verifies at exactly the instants before `now + ttl` |
| Crypto.MillisecondIatNeverExpires | apps/backend/src/modules/auth/auth.service.ts:244-265 | as written, with `iat` in milliseconds, the library accepts an access or refresh token at every instant up to a thousand times the minting time |
| Crypto.AccessTokenAcceptedAYearLater | apps/backend/src/modules/auth/auth.service.ts:244-255 | as written, an access token minted in November 2023 is still accepted by the library a year later, while the modelled expiry has refused it |
| Crypto.SecondIatExpiresOnTime | apps/backend/src/modules/auth/auth.service.ts:244-265 | with `iat` in seconds, the library accepts a token exactly until `expiresIn` seconds after minting, and whenever it does the modelled expiry accepts it too |
| Crypto.Verify | apps/backend/src/modules/auth/auth.service.ts:193 | verification yields the claims only of a signed token whose expiry lies after `now`; an unsigned token never verifies |
| AuthStore.UserByEmail | apps/backend/src/modules/auth/auth.service.ts:20-22 | the email lookup returns the first row with exactly that email, and nothing exactly when no row has it |
| AuthStore.UserById | apps/backend/src/modules/auth/auth.service.ts:207-209 | the session's user join returns a row with that id, and nothing exactly when there is none |
| AuthStore.VerificationHolder | apps/backend/src/modules/auth/auth.service.ts:106-114 | the verification lookup returns a row holding the token unexpired and unverified, and nothing exactly when there is none |
| AuthStore.ResetHolder | apps/backend/src/modules/auth/auth.service.ts:160-167 | the reset lookup returns a row holding the token unexpired, and nothing exactly when there is none |
| AuthStore.AnyResetHolder | apps/backend/src/modules/auth/auth.service.ts:160-167 | with no token in the filter, the lookup returns a row with any unexpired reset token, and nothing exactly when no row has one |
| AuthStore.SessionHolder | apps/backend/src/modules/auth/auth.service.ts:200-210 | the session lookup returns a session holding exactly the token and not yet expired, and nothing exactly when there is none |
| AuthFlows.GenerateTokens | apps/backend/src/modules/auth/auth.service.ts:242-269 | both tokens are signed for the user's id and email, one typed access and one refresh, both valid at `now`, and they differ |
| AuthFlows.NewUser | apps/backend/src/modules/auth/auth.service.ts:28-50 | a new account is unverified, consistent, holds the hash of the given password, and has a profile exactly when it is a professional |
| AuthFlows.Register | apps/backend/src/modules/auth/auth.service.ts:18-54 | registration fails with BadRequest `Email already registered` exactly when some row has the email, changing nothing; otherwise it appends one row and leaves the sessions alone |
| AuthFlows.Login | apps/backend/src/modules/auth/auth.service.ts:56-103 | a failed login is Unauthorized and changes nothing; a successful one is for an existing email, keeps the users and appends exactly one session |
| AuthFlows.VerifyEmail | apps/backend/src/modules/auth/auth.service.ts:105-132 | verification succeeds exactly when some row holds the token unexpired and unverified; a failure is BadRequest `Invalid or expired verification token` and changes nothing |
| AuthFlows.ForgotPassword | apps/backend/src/modules/auth/auth.service.ts:134-157 | the call never fails, and for an unknown email it changes nothing |
| AuthFlows.RemoveSessionsOf | apps/backend/src/modules/auth/auth.service.ts:185-187 | the remaining sessions are exactly those of other users |
| AuthFlows.ResetPassword | apps/backend/src/modules/auth/auth.service.ts:159-188 | the reset succeeds exactly when some row holds the token unexpired; a failure is BadRequest `Invalid or expired reset token` and changes nothing |
| AuthFlows.Refresh | apps/backend/src/modules/auth/auth.service.ts:190-240 | every failure is Unauthorized `Invalid refresh token` and changes nothing; success needs a live token of type refresh held by an unexpired session; the users never change |
| AuthInvariants.RegisterPreservesValid | apps/backend/src/modules/auth/auth.service.ts:18-54 | registering keeps unique ids, emails and tokens, consistent accounts and sessions that belong to users |
| AuthInvariants.LoginPreservesValid | apps/backend/src/modules/auth/auth.service.ts:83-92 | the session a login opens belongs to an existing user and holds a refresh token for that user |
| AuthInvariants.VerifyEmailPreservesValid | apps/backend/src/modules/auth/auth.service.ts:120-128 | verifying keeps the store invariant; the verified row carries no pending token |
| AuthInvariants.ForgotPasswordPreservesValid | apps/backend/src/modules/auth/auth.service.ts:144-153 | issuing a fresh reset token keeps the store invariant |
| AuthFlows.ResetAccount | apps/backend/src/modules/auth/auth.service.ts:173-187 | the reset account's hash becomes the new password's, its reset token and expiry are cleared, every other row is unchanged, and exactly that user's sessions are deleted |
| AuthFlows.ResetPasswordAsWritten | apps/backend/src/modules/auth/auth.controller.ts:71-76 | as written, a request without a token succeeds exactly when some row has any unexpired reset token; with a token, exactly when some row holds it; a failure is BadRequest and changes nothing |
| AuthFlows.ResetPasswordRequest | apps/backend/src/modules/auth/auth.controller.ts:71-76 | a reset succeeds exactly when a token is given and some row holds it unexpired; a missing token is refused with BadRequest and changes nothing |
| AuthInvariants.ResetAccountPreservesValid | apps/backend/src/modules/auth/auth.service.ts:173-187 | resetting one account keeps the store invariant; the surviving sessions still belong to users |
| AuthInvariants.ResetPasswordPreservesValid | apps/backend/src/modules/auth/auth.service.ts:159-188 | resetting with a token keeps the store invariant, whether or not the token is held |
| AuthInvariants.ResetPasswordAsWrittenPreservesValid | apps/backend/src/modules/auth/auth.controller.ts:71-76 | the reset as written keeps the store invariant, with or without a token in the query |
| AuthInvariants.RefreshPreservesValid | apps/backend/src/modules/auth/auth.service.ts:216-226 | the rotated session still holds a refresh token for its own user |
| AuthProperties.RegisteredAccount | apps/backend/src/modules/auth/auth.service.ts:29-50 | a new email gets exactly one appended account: the password's hash (verifying that password only), unverified, a verification token valid 24 hours, no reset token, a profile exactly for a professional |
| AuthProperties.RegisterThenLoginNeedsVerification | apps/backend/src/modules/auth/auth.service.ts:71-73 | right after registering, login is refused with `Please verify your email before logging in` whatever the password, and nothing changes |
| AuthProperties.LoginSucceedsIff | apps/backend/src/modules/auth/auth.service.ts:56-80 | login succeeds exactly for a verified account with that exact email whose hash is the password's hash |
| AuthProperties.LoginUnknownEmail | apps/backend/src/modules/auth/auth.service.ts:62-64 | an unknown email is refused with `Invalid credentials`, the same error as a wrong password, and nothing changes |
| AuthProperties.LoginRejections | apps/backend/src/modules/auth/auth.service.ts:66-80 | a missing hash gives invalid credentials; an unverified account is refused before its password is checked; a wrong password on a verified account gives invalid credentials |
| AuthProperties.LoginCreatesOneSession | apps/backend/src/modules/auth/auth.service.ts:83-102 | a successful login appends exactly one session for the user, holding the returned refresh token for 7 days, and returns only id, email, full name and user type with a 15-minute access token and a 7-day refresh token |
| AuthProperties.VerifyEmailEffect | apps/backend/src/modules/auth/auth.service.ts:120-128 | a matching token marks exactly its account verified at `now` and clears its token and expiry |
| AuthProperties.VerifyEmailReplayFails | apps/backend/src/modules/auth/auth.service.ts:106-118 | a verification token works once: replayed at any time it fails and changes nothing |
| AuthProperties.ForgotPasswordEffect | apps/backend/src/modules/auth/auth.service.ts:144-153 | a known email gets a reset token expiring in one hour and nothing else changes |
| AuthProperties.ForgotPasswordTokenUsable | apps/backend/src/modules/auth/auth.service.ts:144-171 | the issued reset token is accepted exactly until its hour is up |
| AuthProperties.ResetPasswordEffect | apps/backend/src/modules/auth/auth.service.ts:173-187 | a matching token replaces that account's hash by the new password's, clears the reset token, and deletes that user's sessions and no others |
| AuthProperties.ResetPasswordReplayFails | apps/backend/src/modules/auth/auth.service.ts:160-171 | a reset token works once: replayed at any time it fails and changes nothing |
| AuthProperties.MissingTokenResetsPendingAccount | apps/backend/src/modules/auth/auth.service.ts:160-187 | as written, while any account has an unexpired reset token, a request without a token resets the password of an account that had one |
| AuthProperties.ResetNeedsHeldToken | apps/backend/src/modules/auth/auth.service.ts:160-187 | a request without a token changes nothing, and an account's hash changes only for a request carrying that account's live reset token |
| AuthProperties.ResetPasswordRevokesRefreshTokens | apps/backend/src/modules/auth/auth.service.ts:184-187 | after a reset, no refresh token of that user is accepted any more |
| AuthProperties.LoginAfterReset | apps/backend/src/modules/auth/auth.service.ts:173-182 | after resetting a verified account, login accepts the new password and only it |
| AuthProperties.AccessTokenRejected | apps/backend/src/modules/auth/auth.service.ts:195-197 | an access token presented for refresh is refused and nothing changes |
| AuthProperties.RefreshSucceedsIff | apps/backend/src/modules/auth/auth.service.ts:190-214 | refresh succeeds exactly for a live refresh-typed token that an unexpired session holds |
| AuthProperties.RefreshRotatesSession | apps/backend/src/modules/auth/auth.service.ts:216-226 | a successful refresh overwrites one matching session with a refresh token minted now for its user, valid 7 days; all else is untouched |
| AuthProperties.RefreshReplayFails | apps/backend/src/modules/auth/auth.service.ts:219-226 | an exchanged refresh token is refused afterwards |
| AuthProperties.RotatedTokenAccepted | apps/backend/src/modules/auth/auth.service.ts:216-236 | the refresh token a refresh returns is accepted by the next refresh within its 7 days |
| AuthProperties.RegistrationLifecycle | apps/backend/src/modules/auth/auth.service.ts:18-240 | from a valid store: register, login refused, verify within 24 hours, login, refresh within 7 days, and the first refresh token is refused afterwards |
| Service.AuthService.Register | apps/backend/src/modules/auth/auth.service.ts:18-54 | the method leaves the fields exactly as `AuthFlows.Register` describes, returns its result, and keeps the store invariant |
| Service.AuthService.Login | apps/backend/src/modules/auth/auth.service.ts:56-103 | the method leaves the fields exactly as `AuthFlows.Login` describes, returns its result, and keeps the store invariant |
| Service.AuthService.VerifyEmail | apps/backend/src/modules/auth/auth.service.ts:105-132 | the method leaves the fields exactly as `AuthFlows.VerifyEmail` describes, returns its result, and keeps the store invariant |
| Service.AuthService.ForgotPassword | apps/backend/src/modules/auth/auth.service.ts:134-157 | the method leaves the fields exactly as `AuthFlows.ForgotPassword` describes, returns its result, and keeps the store invariant |
| Service.AuthService.ResetPassword | apps/backend/src/modules/auth/auth.service.ts:159-188 | the method leaves the fields exactly as `AuthFlows.ResetPasswordRequest` describes, refusing a missing token, returns its result, and keeps the store invariant |
| Service.AuthService.RefreshToken | apps/backend/src/modules/auth/auth.service.ts:190-240 | the method leaves the fields exactly as `AuthFlows.Refresh` describes, returns its result, and keeps the store invariant |
| Validation.ValidatorLength | apps/backend/src/modules/auth/dto/auth.dto.ts:12 | the measured length never exceeds the character count, and equals it exactly when there is no variation selector |
| Validation.AsInteger | apps/backend/src/modules/profile/dto/availability.dto.ts:6 | a value has an integer exactly when `@IsInt` accepts it, and it is that number |
| Validation.IntInRangeIff | apps/backend/src/modules/profile/dto/availability.dto.ts:6-8 | `@IsInt @Min @Max` accept exactly the integers between the bounds |
| AuthDto.RegisterValid | apps/backend/src/modules/auth/dto/auth.dto.ts:5-18 | an accepted registration body has an email passing the check, a password string of at least 8 characters and a full-name string |
| AuthDto.LoginValid | apps/backend/src/modules/auth/dto/auth.dto.ts:20-28 | an accepted login body has an email passing the check and a password string |
| AuthDto.VerifyEmailValid | apps/backend/src/modules/auth/dto/auth.dto.ts:30-34 | an accepted verification body has a token string |
| AuthDto.ForgotPasswordValid | apps/backend/src/modules/auth/dto/auth.dto.ts:36-40 | an accepted forgotten-password body has an email passing the check |
| AuthDto.ResetPasswordValid | apps/backend/src/modules/auth/dto/auth.dto.ts:42-47 | an accepted reset body has a password string of at least 8 characters |
| AuthDto.RefreshTokenValid | apps/backend/src/modules/auth/dto/auth.dto.ts:49-53 | an accepted refresh body has a refresh-token string |
| AuthDto.RegisterRule | apps/backend/src/modules/auth/dto/auth.dto.ts:5-18 | registration accepts exactly an email, a password string of length at least 8, and any full-name string |
| AuthDto.PasswordLengthRule | apps/backend/src/modules/auth/dto/auth.dto.ts:42-47 | a plain password is accepted at registration and at reset exactly when it has at least 8 characters |
| AuthDto.LoginPasswordUnbounded | apps/backend/src/modules/auth/dto/auth.dto.ts:20-28 | login accepts any password string, the empty one included, with a valid email |
| AuthDto.TokensOnlyStrings | apps/backend/src/modules/auth/dto/auth.dto.ts:30-53 | the verification and refresh token bodies accept exactly strings |
| AuthDto.EmailFieldsChecked | apps/backend/src/modules/auth/dto/auth.dto.ts:36-40 | an email field accepts exactly strings passing the email check |
| AvailabilityDto.CreateAvailabilityValid | apps/backend/src/modules/profile/dto/availability.dto.ts:4-34 | an accepted create body has an integer day from 1 to 7, hours from 0 to 23 and minutes from 0 to 59 |
| AvailabilityDto.UpdateAvailabilityValid | apps/backend/src/modules/profile/dto/availability.dto.ts:36-59 | as written, an accepted update body has all four time fields, each an integer in its range |
| AvailabilityDto.UpdateAvailabilityValidOptional | apps/backend/src/modules/profile/dto/availability.dto.ts:36-59 | with the fields optional, every time field present (neither missing nor null) in an accepted update body is an integer in its range |
| AvailabilityDto.FieldRanges | apps/backend/src/modules/profile/dto/availability.dto.ts:4-34 | day of week accepts exactly the integers 1 to 7, hours 0 to 23, minutes 0 to 59 |
| AvailabilityDto.NonIntegersRejected | apps/backend/src/modules/profile/dto/availability.dto.ts:6-33 | fractional and missing values are refused by every field |
| AvailabilityDto.SlotMayEndBeforeStart | apps/backend/src/modules/profile/dto/availability.dto.ts:4-34 | no relation between start and end is checked: a slot ending before it starts is accepted |
| AvailabilityDto.UpdateSameBounds | apps/backend/src/modules/profile/dto/availability.dto.ts:36-59 | the update body accepts exactly what the create body accepts for the four time fields |
| AvailabilityDto.PartialUpdateRejected | apps/backend/src/modules/profile/dto/availability.dto.ts:36-59 | as written, an update carrying only some fields is refused |
| AvailabilityDto.OptionalUpdateRule | apps/backend/src/modules/profile/dto/availability.dto.ts:36-59 | with the fields optional, a body is accepted exactly when each of the four fields is missing, null, or an integer in its range: a partial update is accepted, a present string, boolean or object is refused, and every body accepted as written is still accepted |
| UsernameDto.UsernameValid | apps/backend/src/modules/profile/dto/update-username.dto.ts:11-16 | an accepted username is a string of at least 3 characters whose first is a lower-case letter or digit |
| UsernameDto.MatchesTailIff | apps/backend/src/modules/profile/dto/update-username.dto.ts:14 | the pattern's tail matches exactly the strings drawn from `[a-z0-9_]` |
| UsernameDto.UsernameRule | apps/backend/src/modules/profile/dto/update-username.dto.ts:11-16 | a username is accepted exactly when it is a 3 to 30 character string over `[a-z0-9_]` not starting with an underscore |
| UsernameDto.LeadingUnderscoreRejected | apps/backend/src/modules/profile/dto/update-username.dto.ts:14-16 | a username starting with an underscore is refused |
| UsernameDto.ForeignCharacterRejected | apps/backend/src/modules/profile/dto/update-username.dto.ts:14 | any character outside `[a-z0-9_]`, anywhere, refuses the username |
| UsernameDto.AnchoredAtEnd | apps/backend/src/modules/profile/dto/update-username.dto.ts:14 | the pattern is anchored at the end: a valid name followed by a foreign character is refused |
| UsernameDto.LengthBounds | apps/backend/src/modules/profile/dto/update-username.dto.ts:12-13 | a name over `[a-z0-9]` is accepted exactly when it has 3 to 30 characters |
| AuthProvider.NonEmpty | apps/frontend/src/auth/auth-provider.ts:38 | the image is kept exactly when it is present and non-empty |
| AuthProvider.Authorize | apps/frontend/src/auth/auth-provider.ts:21-47 | missing credentials are refused; the user is signed in exactly when the backend login succeeds; the account is reported unverified exactly when the backend's message is `Please verify your email first` |
| AuthProvider.AuthorizeMatchingBackend | apps/frontend/src/auth/auth-provider.ts:21-47 | the same, with the unverified account recognised by the backend's own message `Please verify your email before logging in` |
| AuthProvider.AuthorizeOn | apps/frontend/src/auth/auth-provider.ts:21-47 | missing credentials are refused; the user is signed in exactly when the backend login succeeds, with its id, email, name and tokens; `Unverified` exactly for the listened-for message |
| AuthProvider.UnverifiedNeverReported | apps/frontend/src/auth/auth-provider.ts:40-46 | against the backend's login, `authorize` as written never reports an unverified account |
| AuthProvider.UnverifiedReportedWhenMatching | apps/frontend/src/auth/auth-provider.ts:40-43 | listening for the backend's message, a login of an unverified account is reported as unverified |
| AuthProvider.JwtCallback | apps/frontend/src/auth/auth-provider.ts:56-89 | sign-in stores the user's tokens with a 15-minute window; a token inside its window is returned as is; after it a refresh replaces both tokens and the window, and a failed one keeps every field and sets `RefreshTokenError` |
| AuthProvider.SessionCallback | apps/frontend/src/auth/auth-provider.ts:91-107 | the session carries the library's `expires` and the token's tokens, expiry and error, and its user is the token's subject, email, name, username, roles and picture |
| AuthProvider.WindowMatchesAccessLifetime | apps/frontend/src/auth/auth-provider.ts:63 | the client's window equals the backend's access-token lifetime |
| AuthProvider.StoredTokenKeptForWindow | apps/frontend/src/auth/auth-provider.ts:63-72 | a token stored at sign-in is returned unchanged exactly until its window closes |
| AuthProvider.StaleWindow | apps/frontend/src/auth/auth-provider.ts:63-72 | a token stored after its minting is still used by the client after its modelled expiry (`Crypto.Verify`) has passed; the library as written accepts it far longer (see Findings) |
| AuthProvider.RefreshFailureMarked | apps/frontend/src/auth/auth-provider.ts:75-88 | a failed refresh keeps the old tokens and sets the error marker, which a later successful refresh does not clear |
| AuthProvider.SignInReachesSession | apps/frontend/src/auth/auth-provider.ts:25-39 | the tokens, username and roles of a successful login reach the client's session, with no error |
| Middleware.Guard | apps/frontend/src/middleware.ts:5-27 | on `/auth/` paths a visitor passes and a signed-in user goes home; elsewhere a signed-in user passes and a visitor goes to login with the path as callback |
| Middleware.GuardCases | apps/frontend/src/middleware.ts:9-26 | the four combinations of path kind and token state and their outcomes |
| Middleware.PrefixNeedsSlash | apps/frontend/src/middleware.ts:9 | `/auth` and `/authors` are guarded while `/auth/register` is public |
| Middleware.RedirectSettles | apps/frontend/src/middleware.ts:13-23 | following a redirect with the same token state is let through: no redirect loop |
| Avatar.Split | apps/frontend/src/components/ui/Avatar.tsx:24 | the pieces contain no space and there is at least one |
| Avatar.SplitJoin | apps/frontend/src/components/ui/Avatar.tsx:24 | joining the pieces with spaces gives the text back |
| Avatar.HeadsAreWordStarts | apps/frontend/src/components/ui/Avatar.tsx:23-26 | the first characters of the pieces are exactly the non-space characters that start the text or follow a space |
| Avatar.Upper | apps/frontend/src/components/ui/Avatar.tsx:26 | a lower-case ASCII letter becomes its capital, any other character is kept, and the result is never a lower-case letter |
| Avatar.UpperAll | apps/frontend/src/components/ui/Avatar.tsx:26 | the result has the text's length, no lower-case ASCII letter, and no space unless the text had one |
| Avatar.Initials | apps/frontend/src/components/ui/Avatar.tsx:23-28 | the initials are at most two characters, none a space or a lower-case letter |
| Avatar.InitialsRule | apps/frontend/src/components/ui/Avatar.tsx:23-28 | the initials are the first two word starts upper-cased, never more than two |
| Avatar.InitialsOfTwoWords | apps/frontend/src/components/ui/Avatar.tsx:23-28 | two words separated by two spaces give their two initials |
| Avatar.TabDoesNotSeparate | apps/frontend/src/components/ui/Avatar.tsx:24 | a tab does not separate words |
| Avatar.LeadingSpaceAndEmpty | apps/frontend/src/components/ui/Avatar.tsx:23-28 | a leading space is skipped and an empty text gives no initials |
| Avatar.Render | apps/frontend/src/components/ui/Avatar.tsx:18-64 | the placeholder is shown exactly when the source is missing or empty, with the initials; otherwise the picture with its source and text; the size classes follow the size, `md` by default |
| Avatar.DefaultSize | apps/frontend/src/components/ui/Avatar.tsx:18-19 | without a size the avatar is the medium one, `h-10 w-10` |
| Avatar.SizesDistinct | apps/frontend/src/components/ui/Avatar.tsx:11-16 | each size has its own classes, and only `xl` uses the large text |

## Left out

- Sending verification and reset emails is I/O. If it fails, the flow fails after the store has changed; that is not modelled.
- The database failure that turns a verification into `Failed to verify email. Please try again.` (auth.service.ts:129-131) is not modelled, nor are database failures in general.
- Concurrent requests, and the gap between a flow's lookup and its update, are not modelled; each flow is one atomic step.
- Prisma's session ids are not modelled: a session is identified by its position.
- Service.AuthService.Register: requires a fresh id and a fresh verification token. The database and `randomBytes(32)` supply these; the model does not generate them.
- Service.AuthService.ForgotPassword: requires a fresh reset token, for the same reason.
- Service.AuthService.ResetPassword: refuses a missing `token` query parameter, the evidently intended behaviour. The code as written passes it on as `undefined`, and Prisma then drops that filter; that behaviour is modelled separately as `AuthFlows.ResetPasswordAsWritten` (see Findings).
- Crypto.Mint: signing is modelled as deterministic and injective, with the claims readable from the token. Secrets, signatures, encodings and argon2 salts are not modelled. Token expiry is modelled as the minting time plus the lifetime in milliseconds, the expiry the service evidently intends. The signing library itself is not part of this model; `Crypto.LibraryExp` states only its rule that the expiry is `iat` plus `expiresIn` seconds. Because the service sets `iat` in milliseconds (auth.service.ts:249, 260), the real expiry lies about a thousand times the epoch time in the future: `verifyAsync` never refuses a token for its age. Only the session row's `expiresAt` bounds a refresh token, and nothing bounds an access token. Everything the model proves about expiry holds of the modelled expiry (`Crypto.Verify`), not of the library as written (see Findings).
- AuthProperties.RefreshReplayFails: requires the presented token to be stamped at a different instant than the refresh, and held by at most one session. Deterministic signing would otherwise mint the same token again.
- Validation.IsEmail: the library's email syntax is a parameter.
- The validation pipe's other options (whitelisting, transformation) are not modelled. Nested object values are one opaque `Composite` value.
- The service reads `userType` and `profession` from the registration body although `RegisterDto` does not declare them. The model takes them as optional inputs.
- The profile service and controllers that use the availability and username bodies are not part of this model.
- The client's HTTP calls are parameters of the provider functions: the backend login and the refresh endpoint. The session library's own behaviour (default token fields, session lifetime, the `unverified` error page) is not modelled. The thrown `unverified` error is the result value `Unverified`, and logging is left out.
- The route guard's `matcher` configuration (middleware.ts:29-42), which decides which paths reach the guard, is not modelled. Whether a request carries a session token is a parameter. Of the redirect URL, only the path and the `callbackUrl` are kept.
- Avatar.UpperAll: upper-cases ASCII letters only. `toUpperCase` also maps other letters, some to two characters.
- Avatar.Split: a string is a sequence of code points. JavaScript indexes UTF-16 code units, so `n[0]` of a piece that starts with a surrogate pair differs.
- The `cn` class merging, the markup and the image loader are not modelled.

## Findings

| source | as written | input that shows it | evidently intended | confidence | as-written member | corrected member |
|---|---|---|---|---|---|---|
| apps/frontend/src/auth/auth-provider.ts:41 | `authorize` reports an unverified account only for the message `Please verify your email first`. The backend refuses an unverified login with `Please verify your email before logging in` (apps/backend/src/modules/auth/auth.service.ts:72). | A registered account not yet verified, signing in with its correct password: the backend answers with its message, and `authorize` returns null instead of throwing `unverified`. | The client recognises the backend's message and reports the unverified account. | high; not executed | AuthProvider.UnverifiedNeverReported | AuthProvider.UnverifiedReportedWhenMatching |
| apps/backend/src/modules/profile/dto/availability.dto.ts:36-59 | The update fields are declared optional (`?`, `required: false`) but carry no `@IsOptional()`. The global validation pipe is built with default options (apps/backend/src/main.ts:11), so a missing field fails `@IsInt()`. | The body `{ "startHour": 9 }`: `startMinute`, `endHour` and `endMinute` are missing and each is refused. | Partial updates are accepted. The service applies a `Partial` availability (apps/backend/src/modules/profile/profile.service.ts:66), and only fields that are present are range-checked. | medium; not executed | AvailabilityDto.PartialUpdateRejected | AvailabilityDto.OptionalUpdateRule |
| apps/backend/src/modules/auth/auth.service.ts:160-167 | `resetPassword` takes the token from the query string without validation (auth.controller.ts:71-76) and filters on `passwordResetToken: token`. A missing token is `undefined`, which Prisma drops from the filter, so the lookup matches any user with an unexpired reset token. | `POST /auth/reset-password` with no `token` query parameter and any valid body, while some user has requested a reset in the last hour: that user's password is replaced and their sessions deleted. | A request without a token is refused with `Invalid or expired reset token`; only the holder of a live reset token can reset. | medium; not executed | AuthProperties.MissingTokenResetsPendingAccount | AuthProperties.ResetNeedsHeldToken |
| apps/backend/src/modules/auth/auth.service.ts:244-265 | The payloads set `iat: Date.now()`, in milliseconds, while the signing library reads `iat` in seconds and sets the expiry to `iat` plus `expiresIn` seconds (`15m`, `7d`). | An access token minted at 1 700 000 000 000 ms and presented a year later: the library puts its expiry at second 1 700 000 000 900 of the epoch, some 50 000 years ahead, so `verifyAsync` accepts it. | Access tokens expire 15 minutes and refresh tokens 7 days after minting (`iat` in seconds, or no `iat` at all). | medium; not executed | Crypto.MillisecondIatNeverExpires | Crypto.SecondIatExpiresOnTime |
