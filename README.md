# Account and authentication model of the FastAPI user service

This project models the account and authentication core of a FastAPI web
service. The core is one `users` table keyed by email and the services that
work on it:

- signup with an activation link;
- account activation by that link or by a six-digit OTP;
- login, re-sending the activation link, and token refresh;
- forgotten password (a fresh OTP with an expiry);
- password change, password change by OTP, and soft delete;
- the profile lookup.

The request-body validators, the row-to-dictionary mapper and the upload
content-type check that these services rely on are modelled as well.

The model has two layers:

- **Semantics.** Pure functions over a table value `map<string, UserRow>`:
  `UserTable` (the queries), `AuthFlow` (the authentication service) and
  `UserFlow` (the account service). Each returns a `Step`: the table
  afterwards, the reply `(content, status)` or the raised error, and the
  e-mail the service asked to send. The lemmas about the behaviour are stated
  over these functions.
- **Store.** The class `UserQueries.UserQuery` holds the table in a field
  `rows`, which its query methods read or reassign. The methods of
  `AuthServices` and `UserServices` follow the service code statement by
  statement against that object. Each is proved to end in the state, reply
  and mail that the matching semantic function gives.
  `AuthServices.CreateAccessToken` stamps the caller's claims object in
  place, as the source stamps the caller's dictionary.

Outcomes are `Http.Result`:

- `HttpError(status, detail)` is a raised `HTTPException`.
- `Crash(error)` is any other exception that reaches the framework (a
  `TypeError`, `AttributeError` or `KeyError`).
- A `(content, status)` return is `Ok(Response(content, status))`, whatever
  the status.

Inputs that cannot be computed in the model are parameters:

- the clock is `now`, in integer seconds;
- the drawn OTP is `otp`, and callers must pass a value in 100000..999999, the
  range of `random.randint`;
- the new row's uuid is `id`.

Three external pieces are idealised:

- The token codec is the identity on a claims map; a token it cannot decode
  is `Malformed`.
- bcrypt is an injective hash with `Verify(p, Hash(q)) <==> p == q` (see "## Left out" for its 72-byte limit).
- E-mail sending is a recorded `Mail` event, a ghost out-parameter of the
  methods.

`account_verification` reads the clock twice, once in the decode and once in
`is_token_expired`. The model gives both readings, as `now` and `later`.

Where the service's documented behaviour and its code differ, the model
follows the code:

- `verify_otp` on an unknown email raises 404 from `get_user_data`; its own
  401 answer is unreachable.
- A token the codec rejects gets 400 ("Oops! Your token has expired.") from
  `decode_access_token`, also in `refresh_token`, not 401.
- An OTP is still accepted at the very second of its expiry; the comparison
  is a strict `<`.
- `verify_account_request` can also answer 400 for an unknown email, from
  `authenticate_user`.

Column nullability follows the migration, where `otp_expiration_time` and
`profiles` may be NULL. The table definition marks them NOT NULL, but signup
inserts no expiry.

## Model

| member | source | states |
|---|---|---|
| TokenCodec.Encode | src/services/auth.py:92 | an encoded token carries exactly the claims it was made from |
| TokenCodec.Decode | src/services/auth.py:97 | decoding succeeds exactly on tokens `Encode` made and gives back their claims; otherwise a codec error |
| TokenCodec.DecodeEncode | src/services/auth.py:92-97 | decode after encode is the identity |
| PasswordHasher.Hash | src/services/auth.py:31-33 | the stored digest verifies against the password it was made from |
| PasswordHasher.VerifyHash | src/services/auth.py:146 | a digest verifies against exactly one password, the one it was made from |
| UserModel.UserRow.Columns | src/models/user.py:9-34 | a row as the 13-tuple `RETURNING` yields, email at index 3 and the password hash at index 4 |
| UserTable.ProjectionColumns | src/queries/users.py:41-49 | the `get_user_data` projection is the first name, last name, email, profiles, otp, OTP expiry and verified flag of the row, in that order, with no id and no password |
| UserTable.Apply | src/queries/users.py:66-70 | an update sets every supplied column to the supplied value and `updated_at` to the update time (the column's `onupdate`), and keeps every other column |
| UserTable.CheckUser | src/queries/users.py:26-31 | true exactly when no row holds the email |
| UserTable.AuthenticateUser | src/queries/users.py:14-21 | the full row of that email, or 400 "Incorrect username or password" exactly when there is none |
| UserTable.GetUserData | src/queries/users.py:41-56 | the seven-column projection of that email's row, or 404 "User not exist" exactly when there is none |
| UserTable.UpdateUserData | src/queries/users.py:66-78 | merges the supplied columns into the matching row and returns it; 400 "User not Updated" and no change when no row matches; other rows and the set of emails unchanged; keying by email preserved |
| UserTable.AddUserToDatabase | src/queries/users.py:88-97 | a new email adds exactly one row (the size grows by one) and returns it; a taken email violates the unique constraint, raises 400 "Could not register user" and changes nothing; keying by email preserved |
| UserQueries.UserQuery.AuthenticateUser | src/queries/users.py:11-21 | returns what `UserTable.AuthenticateUser` gives on the current rows |
| UserQueries.UserQuery.CheckUser | src/queries/users.py:24-31 | returns what `UserTable.CheckUser` gives on the current rows |
| UserQueries.UserQuery.GetUserData | src/queries/users.py:39-56 | returns what `UserTable.GetUserData` gives on the current rows |
| UserQueries.UserQuery.UpdateUserData | src/queries/users.py:64-78 | the new rows and the result are those of `UserTable.UpdateUserData` on the old rows; keying by email is kept |
| UserQueries.UserQuery.AddUserToDatabase | src/queries/users.py:86-97 | the new rows and the result are those of `UserTable.AddUserToDatabase` on the old rows; keying by email is kept |
| MapHelper.BuildUsersDict | src/utils/map_helper.py:1-17 | the result always has the six keys (with "Last_name" capitalised), and every value is copied from one of the row positions the mode reads |
| MapHelper.OtherKindsAreDefault | src/utils/map_helper.py:3-10 | every mode string other than exactly "update" maps like the default |
| MapHelper.ModesAgree | src/utils/map_helper.py:4-16 | "update" mode on the full row (positions 1, 2, 3, 5, 8, 9) and default mode on the `get_user_data` projection (positions 0-5) give the same dictionary of that user |
| MapHelper.NoSecretsOrFlags | src/utils/map_helper.py:4-16 | neither mode outputs the password hash, `is_admin` or `is_verified` |
| UserTypes.LookaheadMeaning | src/types/user.py:30-31 | the lookahead `(?=.*[k])` anchored at 0 succeeds exactly when a character of class k occurs before the first newline |
| UserTypes.PasswordComplexity | src/types/user.py:27-35 | accepts exactly the values with a lowercase letter, an uppercase letter and a digit before the first newline; returns the value unchanged, otherwise the complexity message |
| UserTypes.PasswordField | src/types/user.py:62-73 | a password field is accepted exactly when it has at least 8 characters and passes the complexity rule, and is returned unchanged |
| UserTypes.ValidateEmail | src/types/user.py:76-80 | accepts exactly the addresses that end in "@caesarfamilies.info" (equivalently, that are some local part followed by that domain), returned unchanged, otherwise the domain message |
| UserTypes.SignupErrors | src/types/user.py:58-80 | the reported field set names a field exactly when that field's own checks fail, and no other field |
| UserTypes.ValidateSignup | src/types/user.py:58-80 | a signup body is accepted exactly when both names have 3 to 50 characters, the email is in the company domain and the password is accepted; it is then passed on unchanged; a rejection names exactly the failing fields among first_name, last_name, email and password |
| UserTypes.ValidatePasswordChange | src/types/user.py:21-55 | a password-change body is accepted exactly when each of the three passwords passes the length-and-complexity rule on its own; a rejection names exactly the failing fields |
| UserTypes.UpperCaseAfterNewline | src/types/user.py:30-31 | the scan for an upper-case letter in "abcdefgh\nA1" gives up at the newline |
| UserTypes.AllClassesOnOneLine | src/types/user.py:30-31 | in "abcdefgA1" all three lookaheads succeed |
| UserTypes.SecondLineIgnored | src/types/user.py:30-31 | "abcdefgh\nA1" is rejected because its upper-case letter and digit follow a newline, while "abcdefgA1" is accepted |
| Validate.ImageTypeValidate | src/services/validate.py:4-10 | passes exactly for "image/jpeg", "image/jpg" and "image/png"; any other content type raises 400 with the unsupported-format message |
| Validate.OnlyContentTypeMatters | src/services/validate.py:4-10 | the outcome depends on the content type alone |
| Validate.UpperCaseRejected | src/services/validate.py:6 | the match is case-sensitive: "image/PNG" is rejected, "image/png" accepted |
| AuthFlow.WithExpiry | src/services/auth.py:85-91 | stamping adds `exp` = now + lifetime and leaves every other key and value of the caller's claims as it was |
| AuthFlow.ZeroLifetimeIsDefault | src/services/auth.py:87-90 | a zero lifetime is falsy and gives the same token as no lifetime, expiring after 15 minutes |
| AuthFlow.AccessTokenClaims | src/services/auth.py:176-184 | a login token holds the subject and expires 2 hours 1 minute after issue; the token type is "bearer" |
| AuthFlow.DecodeAccessToken | src/services/auth.py:95-107 | the claims exactly when the expiry is strictly after now; None exactly when the token is at or past its expiry; 400 exactly for a token the codec rejects; a crash exactly for a token without a numeric expiry |
| AuthFlow.TokenLifecycle | src/services/auth.py:85-102 | an issued token decodes to the stamped claims strictly before issue time + lifetime and to None from then on |
| AuthFlow.IsTokenExpired | src/services/auth.py:136-142 | a token counts as expired exactly when its expiry lies strictly before now |
| AuthFlow.CreateToken | src/services/auth.py:176-184 | a "bearer" token holding the email as subject and an expiry 2 hours 1 minute ahead, with no extra note |
| AuthFlow.ExpiryBoundary | src/services/auth.py:136-142 | at the expiry second the decode already gives None while `is_token_expired` is still false; one second later it is true |
| AuthFlow.Signup | src/services/auth.py:28-52 | a taken email leaves the table as it was; a free email gets a row of its own and every other row is kept; an activation mail goes out exactly when the email was free; keying by email is preserved |
| AuthFlow.SignupExisting | src/services/auth.py:37-52 | signing up with a taken email answers 409 "User already exists.", inserts nothing and mails nothing |
| AuthFlow.SignupNew | src/services/auth.py:28-51 | signing up with a free email inserts one row with the password's hash, `is_verified` false and the drawn OTP, keeps every other row, answers 201, and mails a link whose token holds the email, the OTP and a 15-minute expiry |
| AuthFlow.SignupTwice | src/services/auth.py:37-52 | a second signup with the same email answers 409 and leaves the first row in place |
| AuthFlow.SignupNeverRaises | src/services/auth.py:37-40 | the insert's duplicate-email error can never surface from signup, and signup preserves keying by email |
| AuthFlow.AccountVerification | src/services/auth.py:109-134 | as written: nothing is mailed; an error changes nothing; a success answers 202 and is the table with exactly one existing row marked verified (flag and update time), nothing else changed |
| AuthFlow.VerificationUnknownUser | src/services/auth.py:110-111 | a live link naming an email with no row gets the query's 404 and changes nothing |
| AuthFlow.VerificationOrder | src/services/auth.py:109-134 | for a live link: an already verified account gives 400 "Account already verified."; otherwise an expired link (exp < second clock reading) gives 400 "Verification link has expired."; otherwise only `is_verified` (and the update time) changes and the answer is 202 with a fresh bearer token |
| AuthFlow.VerificationDeadBranches | src/services/auth.py:112-127 | "Token not found." is never answered, and with one clock reading "Verification link has expired." is not either |
| AuthFlow.VerificationCrashesAtExpiry | src/services/auth.py:98-111 | an activation link opened at its expiry second decodes to None, which is then subscripted and raises TypeError |
| AuthFlow.AccountVerificationIntended | src/services/auth.py:109-127 | corrected version: a link at or past its expiry answers 400 "Verification link has expired."; a live link behaves as the original |
| AuthFlow.IntendedVerificationNeverCrashes | src/services/auth.py:109-111 | in the corrected version no activation link produced by signup makes the operation raise anything but an HTTP error |
| AuthFlow.Login | src/services/auth.py:144-153 | a token exactly for a known email with the right password, answered 202; otherwise an HTTP error that is 400 exactly for an unknown email |
| AuthFlow.LoginOutcomes | src/services/auth.py:144-153 | an unknown email gets 400 from the store, a wrong password 401, the right password 202 with a bearer token for that email |
| AuthFlow.LoginIgnoresVerification | src/services/auth.py:144-153 | the answer to login does not depend on `is_verified` |
| AuthFlow.VerifyAccountRequest | src/services/auth.py:155-174 | never changes the table; succeeds exactly with good credentials; mails a link exactly on success for an unverified account |
| AuthFlow.VerifyAccountRequestOutcomes | src/services/auth.py:155-174 | never changes the table; unknown email 400, wrong password 401; good credentials give the same 200 body whether verified or not, and a link is mailed exactly when the account is not verified |
| AuthFlow.RefreshToken | src/services/auth.py:186-206 | succeeds only for a live token with a subject, giving 202 and a token with that subject alone and the 15-minute default expiry; its HTTP errors are 400 or 401 |
| AuthFlow.RefreshOutcomes | src/services/auth.py:186-206 | an expired token gets 401 "Invalid token or expired token"; one without a truthy `sub` 401 "Token missing user information"; otherwise 202 with a token holding only the old subject and the 15-minute default lifetime |
| AuthFlow.RefreshAfterLogin | src/services/auth.py:176-206 | a login token refreshed while alive gives a token for the same email |
| AuthFlow.VerifyOtp | src/services/auth.py:208-240 | nothing is mailed; the table is either unchanged or the named existing row marked verified (flag and update time) with nothing else changed; any change comes with a 202 |
| AuthFlow.VerifyOtpOutcomes | src/services/auth.py:224-240 | the expiry is checked before the code (expiry < now gives 400); a wrong code gives 400; the right code sets only `is_verified` (and the update time), keeps the OTP and answers 202 with a bearer token |
| AuthFlow.VerifyOtpUnknownOrUnset | src/services/auth.py:208-226 | an unknown email gets the query's 404, never the service's 401; a NULL OTP expiry makes the comparison raise |
| AuthFlow.OtpReusable | src/services/auth.py:228-235 | a matching OTP is not consumed: it verifies again until its expiry |
| AuthServices.CreateAccessToken | src/services/auth.py:85-93 | the caller's claims object ends up as `WithExpiry` of its old contents, and the token encodes exactly those claims |
| AuthServices.CreateToken | src/services/auth.py:176-184 | returns a "bearer" token holding the email and an expiry 2 hours 1 minute ahead |
| AuthServices.Signup | src/services/auth.py:28-52 | the store's new rows, the reply and the mail are those of `AuthFlow.Signup` on the old rows; keying by email is kept |
| AuthServices.AccountVerification | src/services/auth.py:109-134 | the store's new rows and the reply are those of `AuthFlow.AccountVerification` on the old rows |
| AuthServices.Login | src/services/auth.py:144-153 | the reply is that of `AuthFlow.Login` on the current rows |
| AuthServices.VerifyAccountRequest | src/services/auth.py:155-174 | the reply and the mail are those of `AuthFlow.VerifyAccountRequest`; the store is not modified |
| AuthServices.RefreshToken | src/services/auth.py:186-206 | the reply is that of `AuthFlow.RefreshToken` |
| AuthServices.VerifyOtp | src/services/auth.py:208-240 | the store's new rows and the reply are those of `AuthFlow.VerifyOtp` on the old rows |
| UserFlow.ForgetPassword | src/services/user.py:28-59 | the emails are kept; on a table keyed by email it succeeds exactly for a known email and changes no other row; a reset mail with the drawn OTP goes out exactly on success |
| UserFlow.ForgetPasswordOutcomes | src/services/user.py:28-59 | an unknown email gets the query's 404 with no change and no mail; a known one gets the drawn OTP with an expiry 15 minutes ahead, no other column changes except the update time, a reset mail with that OTP, and 200; the 409 never occurs |
| UserFlow.ForgetThenVerify | src/services/user.py:38-45 | the mailed OTP verifies the account up to and including its expiry second and is refused as expired after it |
| UserFlow.UserInfo | src/services/user.py:92-99 | succeeds exactly for a known email, with 200 and a dictionary of the six keys |
| UserFlow.UserInfoOutcomes | src/services/user.py:92-99 | a known email gets its six-key dictionary with 200; an unknown one the query's 404, so the 406 is unreachable |
| UserFlow.UpdateUserPassword | src/services/user.py:101-114 | the emails are kept, nothing is mailed, other rows are unchanged, and the table changes only when the confirmation matches, with 200 |
| UserFlow.UpdateUserPasswordOutcomes | src/services/user.py:101-114 | a mismatched confirmation gives 400 and no change; a matching one replaces only the password (and the update time) with the hash of the new password and returns the row's dictionary with 200; an unknown email gets the query's 400 |
| UserFlow.OldPasswordIgnored | src/services/user.py:101-109 | the old password plays no part in the outcome |
| UserFlow.UpdateThenLogin | src/services/user.py:105-109 | after a password update, login succeeds exactly with the new password |
| UserFlow.UpdateUserPasswordByOtp | src/services/user.py:116-131 | as written: answers normally exactly when the two passwords differ, and never mails |
| UserFlow.UpdateByOtpNeverWrites | src/services/user.py:116-131 | as written, the table never changes: matching passwords raise AttributeError, mismatched ones get 400 |
| UserFlow.UpdateUserPasswordByOtpIntended | src/services/user.py:116-131 | corrected version: matching passwords set the hash of the new password, the request's OTP and `is_verified` true on the row and return its dictionary with 200; mismatched ones get 400 as written |
| UserFlow.DeleteUser | src/services/user.py:133-147 | succeeds exactly for a known email; the emails are kept, nothing is mailed, and no other row changes |
| UserFlow.DeleteUserOutcomes | src/services/user.py:133-147 | soft delete sets `deleted_at` to now and `is_verified` to false, changes nothing else but the update time, and answers 202; a missing row gets the query's 400, so the service's own 400 is unreachable; the set of emails is unchanged |
| UserFlow.DeletedAccountStillUsable | src/services/user.py:136-140 | a soft-deleted account still logs in, and a live OTP marks it verified again while `deleted_at` stays set |
| UserFlow.UpdateKeepsSixDigitOtps | src/queries/users.py:66-78 | an update that writes no OTP, or a six-digit one, keeps every stored OTP six-digit |
| UserFlow.SignupKeepsSixDigitOtps | src/services/auth.py:34-40 | with a drawn OTP in 100000..999999, signup keeps every stored OTP six-digit |
| UserFlow.VerificationKeepsSixDigitOtps | src/services/auth.py:128-131 | link verification keeps every stored OTP six-digit |
| UserFlow.VerifyOtpKeepsSixDigitOtps | src/services/auth.py:228-232 | OTP verification keeps every stored OTP six-digit |
| UserFlow.ForgetPasswordKeepsSixDigitOtps | src/services/user.py:38-45 | with a drawn OTP in 100000..999999, the forgotten-password flow keeps every stored OTP six-digit |
| UserFlow.AccountWritesKeepSixDigitOtps | src/services/user.py:101-147 | password update, password update by OTP and soft delete keep every stored OTP six-digit |
| UserServices.ForgetPassword | src/services/user.py:28-59 | the store's new rows, the reply and the mail are those of `UserFlow.ForgetPassword` on the old rows |
| UserServices.UserInfo | src/services/user.py:92-99 | the reply is that of `UserFlow.UserInfo` on the current rows |
| UserServices.UpdateUserPassword | src/services/user.py:101-114 | the store's new rows and the reply are those of `UserFlow.UpdateUserPassword` on the old rows |
| UserServices.UpdateUserPasswordByOtp | src/services/user.py:116-131 | the reply is that of `UserFlow.UpdateUserPasswordByOtp`, and the store is not modified |
| UserServices.DeleteUser | src/services/user.py:133-147 | the store's new rows and the reply are those of `UserFlow.DeleteUser` on the old rows |

## Left out

- JWT signing and jose's own claim checks are not modelled: the codec is the identity. The real `jwt.decode` also rejects a token whose `exp` is already in the past, which turns into the 400 "Oops! Your token has expired." That check is absent from the model, so its expired tokens reach the service's own `exp > now` test.
- PasswordHasher.Hash does not model bcrypt's random salt. The hash is deterministic and injective.
- PasswordHasher.VerifyHash and UserFlow.UpdateThenLogin rely on that injectivity. bcrypt reads only the first 72 bytes of a password (newer versions reject longer ones), and the password fields have no maximum length. So two passwords that agree on their first 72 bytes verify against each other, and for such passwords these two lemmas claim more than the real hasher gives.
- UserTypes.PasswordComplexity models `\d` as the ASCII digits and `[a-z]`/`[A-Z]` as ASCII letters; Python's `\d` also matches other Unicode decimal digits.
- The `EmailStr` syntax check and normalisation come from an external library and are not modelled. Only the domain validator is.
- `validate_image_url` decodes base64 and writes a file to disk, so it is not modelled.
- Template rendering and SMTP delivery of the two e-mails are not modelled. A sent e-mail is the recorded `Mail` value, and delivery errors (which the source only prints) are not represented.
- AuthFlow.VerifyAccountRequest mails the link as if `user_data["first_name"]` read the column. Whether the driver's row object allows that subscript depends on the SQLAlchemy version, which is not part of this model.
- `fetch_credit_balance`, the image-preprocessing services, the controllers, `main.py`, and the helpers in `src/helpers/helpers.py` and `src/services/base.py` are not modelled. They are HTTP calls, file handling and routing. One consequence: the controller's JSON serialisation of the Python set that `verify_account_request` returns is not modelled.
- Settings: the configuration is fixed at the loader's defaults. The environment loading and the range checks, which only print warnings, are not modelled.
- Timestamps are whole seconds. Time zones, microseconds and the float timestamp in the decode comparison are not modelled.
- Concurrent requests are not modelled, for example two signups racing between `check_user` and the insert. Each service call is one atomic step.
- A non-text `email` claim, or an `exp` claim that is not a number, is modelled as a crash. For `email` the source raises a type error. For `exp`, jose's own claim check (left out above) rejects a value it cannot read as a number, which the service answers with 400.
- The database's own `IntegrityError` on updates is not modelled ("Could not Update user": no update in the core changes the unique email). Neither are the `IntegrityError` handlers of `check_user` and `get_user_data`, which plain selects do not trigger.

## Findings

| source | as written | input that shows it | evidently intended | confidence | as-written member | corrected member |
|---|---|---|---|---|---|---|
| src/services/auth.py:98-111 | `decode_access_token` returns None for a link at its expiry, and `account_verification` then subscripts `payload["email"]`, raising TypeError (a 500) | an activation link issued at time T and opened at T + 900 (with jose's own check, any instant within the expiry second itself) | answer 400 "Verification link has expired." | not executed | AuthFlow.VerificationCrashesAtExpiry | AuthFlow.AccountVerificationIntended |
| src/services/user.py:121-124 | `user_data` is rebound to an empty dict and then `user_data.otp` is read, raising AttributeError, so the password is never reset | any request whose `re_password` equals its `new_password` | keep the request's OTP before rebuilding the dict, then store the new hash, that OTP and `is_verified = true`, answer 200 | not executed | UserFlow.UpdateByOtpNeverWrites | UserFlow.UpdateUserPasswordByOtpIntended |
