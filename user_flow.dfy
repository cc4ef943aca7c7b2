/** The user-account operations as functions of the user table: forgotten
    password (a new OTP with an expiry), password updates, soft delete and the
    profile lookup. UserServices runs them against the store object. */
module UserFlow {
  import opened Http
  import opened Settings
  import opened PasswordHasher
  import opened UserModel
  import opened UserTypes
  import opened Replies
  import UserTable
  import MapHelper
  import AuthFlow
  import TokenCodec

  const RESET_OTP_SECONDS: int := PASSWORD_REST_OTP_EXPIRE_MINUTES * SECONDS_PER_MINUTE

  /** `forget_password`: the keys stay, a reset mail with the drawn OTP goes
      out exactly when the call succeeds, and only that email's row changes. */
  function ForgetPassword(t: UserTable.Table, email: string, otp: int, now: int): (s: Step)
    ensures s.table.Keys == t.Keys
    ensures UserTable.KeyedByEmail(t) ==> (s.result.Ok? <==> email in t)
    ensures s.mail.Some? <==> s.result.Ok?
    ensures s.mail.Some? ==> s.mail.value.PasswordReset? && s.mail.value.otp == otp
    ensures UserTable.KeyedByEmail(t) ==> forall e | e in t && e != email :: s.table[e] == t[e]
  {
    match UserTable.GetUserData(t, email)
    case Err(f) => Step(t, Err(f), None)
    case Ok(user) =>
      var patch := UserTable.NoChange.(otp := Some(otp), otpExpirationTime := Some(now + RESET_OTP_SECONDS));
      var w := UserTable.UpdateUserData(t, user.email, patch, now);
      if w.result.Err? then Step(w.table, Err(w.result.failure), None)
      else
        Step(w.table, Ok(Response(Detail("OTP sent successfully to your email address."), OK_200)),
             Some(PasswordReset(user.firstName, user.email, otp)))
  }

  /** An unknown email gets the query's 404 (not the service's own message), no
      change and no mail; a known one gets a new OTP expiring fifteen minutes
      from now, nothing else of the row changes but the update time, a reset
      mail with that OTP, and 200; the 409 branch never runs. */
  lemma ForgetPasswordOutcomes(t: UserTable.Table, email: string, otp: int, now: int)
    requires UserTable.KeyedByEmail(t)
    ensures email !in t ==> ForgetPassword(t, email, otp, now) == Step(t, Err(HttpError(NOT_FOUND_404, "User not exist")), None)
    ensures email in t ==>
      var s := ForgetPassword(t, email, otp, now);
      && s.table == t[email := t[email].(otp := otp, otpExpirationTime := Some(now + 900), updatedAt := now)]
      && s.result == Ok(Response(Detail("OTP sent successfully to your email address."), OK_200))
      && s.mail == Some(PasswordReset(t[email].firstName, email, otp))
    ensures ForgetPassword(t, email, otp, now).result.Ok? || ForgetPassword(t, email, otp, now).result.failure.status == NOT_FOUND_404
  {
  }

  /** The OTP a reset mails verifies the account until its expiry instant and
      is refused as expired after it. */
  lemma ForgetThenVerify(t: UserTable.Table, email: string, otp: int, now: int, later: int)
    requires UserTable.KeyedByEmail(t) && email in t
    ensures var reset := ForgetPassword(t, email, otp, now);
      var check := AuthFlow.VerifyOtp(reset.table, email, otp, later);
      && (later <= now + 900 ==> check.result.Ok? && check.result.value.status == ACCEPTED_202 && check.table[email].isVerified)
      && (later > now + 900 ==> check.result == Ok(Response(Detail("Oops! your OTP code has expired."), BAD_REQUEST_400)))
  {
    ForgetPasswordOutcomes(t, email, otp, now);
    var reset := ForgetPassword(t, email, otp, now);
    AuthFlow.VerifyOtpOutcomes(reset.table, email, otp, later);
  }

  /** `UserInfo`: the profile dictionary exactly for a known email. */
  function UserInfo(t: UserTable.Table, email: string): (r: Result<Response>)
    ensures r.Ok? <==> email in t
    ensures r.Ok? ==>
      && r.value.status == OK_200 && r.value.content.Profile?
      && r.value.content.fields.Keys == MapHelper.USER_DICT_KEYS
  {
    match UserTable.GetUserData(t, email)
    case Err(f) => Err(f)
    case Ok(user) => Ok(Response(Profile(MapHelper.BuildUsersDict(user.Columns(), "")), OK_200))
  }

  /** A known email gets its six-key dictionary with 200; an unknown one the
      query's 404, so the service's 406 never happens. */
  lemma UserInfoOutcomes(t: UserTable.Table, email: string)
    ensures email in t ==> UserInfo(t, email) == Ok(Response(Profile(MapHelper.UserDict(t[email])), OK_200))
    ensures email !in t ==> UserInfo(t, email) == Err(HttpError(NOT_FOUND_404, "User not exist"))
    ensures UserInfo(t, email) != Ok(Response(Detail("User doesn't Exist."), NOT_ACCEPTABLE_406))
  {
    if email in t {
      MapHelper.ModesAgree(t[email]);
    }
  }

  const NOT_UPDATED: string := "User doesn't Updated successfully."

  /** `UpdateUserPassword`: only the named row can change, and only when the
      confirmation matches. */
  function UpdateUserPassword(t: UserTable.Table, email: string, form: PasswordChange, now: int): (s: Step)
    ensures s.table.Keys == t.Keys && s.mail.None?
    ensures forall e | e in t && e != email :: s.table[e] == t[e]
    ensures s.table != t ==> form.rePassword == form.newPassword && s.result.Ok? && s.result.value.status == OK_200
  {
    if form.rePassword == form.newPassword then
      var patch := UserTable.NoChange.(password := Some(Hash(form.newPassword)));
      var w := UserTable.UpdateUserData(t, email, patch, now);
      if w.result.Err? then Step(w.table, Err(w.result.failure), None)
      else Step(w.table, Ok(Response(Profile(MapHelper.BuildUsersDict(w.result.value.Columns(), "update")), OK_200)), None)
    else
      Step(t, Ok(Response(Detail(NOT_UPDATED), BAD_REQUEST_400)), None)
  }

  /** Mismatched confirmation: 400 and nothing changes. Matching confirmation:
      only the password (and the update time) changes, to the hash of the new
      password, and the answer is the row's dictionary with 200. */
  lemma UpdateUserPasswordOutcomes(t: UserTable.Table, email: string, form: PasswordChange, now: int)
    ensures form.rePassword != form.newPassword ==>
      UpdateUserPassword(t, email, form, now) == Step(t, Ok(Response(Detail(NOT_UPDATED), BAD_REQUEST_400)), None)
    ensures form.rePassword == form.newPassword && email in t ==>
      var s := UpdateUserPassword(t, email, form, now);
      && s.table == t[email := t[email].(password := Hash(form.newPassword), updatedAt := now)]
      && s.result == Ok(Response(Profile(MapHelper.UserDict(s.table[email])), OK_200))
    ensures form.rePassword == form.newPassword && email !in t ==>
      UpdateUserPassword(t, email, form, now) == Step(t, Err(HttpError(BAD_REQUEST_400, "User not Updated")), None)
  {
    if form.rePassword == form.newPassword && email in t {
      MapHelper.ModesAgree(UpdateUserPassword(t, email, form, now).table[email]);
    }
  }

  /** The old password is never compared with anything. */
  lemma OldPasswordIgnored(t: UserTable.Table, email: string, form: PasswordChange, other: string, now: int)
    ensures UpdateUserPassword(t, email, form.(oldPassword := other), now) == UpdateUserPassword(t, email, form, now)
  {
  }

  /** After a password update the new password logs in and any other is refused. */
  lemma UpdateThenLogin(t: UserTable.Table, email: string, form: PasswordChange, attempt: string, now: int, later: int)
    requires email in t && form.rePassword == form.newPassword
    ensures var s := UpdateUserPassword(t, email, form, now);
      AuthFlow.Login(s.table, email, attempt, later).Ok? <==> attempt == form.newPassword
  {
  }

  /** `UpdateUserPasswordByOTP` as written: with matching passwords it rebinds its
      argument to an empty dict and then reads `.otp` from that dict, which raises
      an AttributeError before the update runs. */
  function UpdateUserPasswordByOtp(t: UserTable.Table, email: string, form: PasswordChange): (s: Step)
    ensures s.result.Ok? <==> form.rePassword != form.newPassword
    ensures s.mail.None?
  {
    if form.rePassword == form.newPassword then
      Step(t, Err(Crash("AttributeError: 'dict' object has no attribute 'otp'")), None)
    else
      Step(t, Ok(Response(Detail(NOT_UPDATED), BAD_REQUEST_400)), None)
  }

  /** As written the operation never changes the table, and it can only ever
      answer 400 or raise. */
  lemma UpdateByOtpNeverWrites(t: UserTable.Table, email: string, form: PasswordChange)
    ensures UpdateUserPasswordByOtp(t, email, form).table == t
    ensures form.rePassword == form.newPassword ==> UpdateUserPasswordByOtp(t, email, form).result.Err?
    ensures UpdateUserPasswordByOtp(t, email, form).result.Ok? ==>
      UpdateUserPasswordByOtp(t, email, form).result.value.status == BAD_REQUEST_400
  {
  }

  /** The evidently intended `UpdateUserPasswordByOTP`: the request's OTP is kept
      before the dict is rebuilt, and the row gets the new password hash, that
      OTP and `is_verified = true`, answered with the row's dictionary and 200. */
  function UpdateUserPasswordByOtpIntended(t: UserTable.Table, email: string, form: PasswordChange, now: int): (s: Step)
    ensures form.rePassword != form.newPassword ==> s == UpdateUserPasswordByOtp(t, email, form)
    ensures form.rePassword == form.newPassword && email in t ==>
      && s.table == t[email := t[email].(password := Hash(form.newPassword), otp := form.otp, isVerified := true, updatedAt := now)]
      && s.result == Ok(Response(Profile(MapHelper.UserDict(s.table[email])), OK_200))
    ensures form.rePassword == form.newPassword && email !in t ==>
      s == Step(t, Err(HttpError(BAD_REQUEST_400, "User not Updated")), None)
  {
    if form.rePassword == form.newPassword then
      var patch := UserTable.NoChange.(password := Some(Hash(form.newPassword)), otp := Some(form.otp), isVerified := Some(true));
      var w := UserTable.UpdateUserData(t, email, patch, now);
      if w.result.Err? then Step(w.table, Err(w.result.failure), None)
      else
        MapHelper.ModesAgree(w.result.value);
        Step(w.table, Ok(Response(Profile(MapHelper.BuildUsersDict(w.result.value.Columns(), "update")), OK_200)), None)
    else
      Step(t, Ok(Response(Detail(NOT_UPDATED), BAD_REQUEST_400)), None)
  }

  /** `DeleteUser`: succeeds exactly for a known email and changes that row only. */
  function DeleteUser(t: UserTable.Table, email: string, now: int): (s: Step)
    ensures s.result.Ok? <==> email in t
    ensures s.table.Keys == t.Keys && s.mail.None?
    ensures forall e | e in t && e != email :: s.table[e] == t[e]
  {
    var patch := UserTable.NoChange.(deletedAt := Some(now), isVerified := Some(false));
    var w := UserTable.UpdateUserData(t, email, patch, now);
    if w.result.Err? then Step(w.table, Err(w.result.failure), None)
    else Step(w.table, Ok(Response(Detail("User Account Deleted Successfully."), ACCEPTED_202)), None)
  }

  /** Soft delete stamps `deleted_at`, clears `is_verified` and touches nothing
      else but the update time, answering 202; a missing row gets the query's
      400 rather than the service's own 400 answer, which never happens. */
  lemma DeleteUserOutcomes(t: UserTable.Table, email: string, now: int)
    ensures email in t ==>
      && DeleteUser(t, email, now).table == t[email := t[email].(deletedAt := Some(now), isVerified := false, updatedAt := now)]
      && DeleteUser(t, email, now).result == Ok(Response(Detail("User Account Deleted Successfully."), ACCEPTED_202))
    ensures email !in t ==> DeleteUser(t, email, now) == Step(t, Err(HttpError(BAD_REQUEST_400, "User not Updated")), None)
    ensures DeleteUser(t, email, now).result != Ok(Response(Detail("User Account doesn't Deleted successfully."), BAD_REQUEST_400))
    ensures DeleteUser(t, email, now).table.Keys == t.Keys
  {
  }

  /** A soft-deleted account still logs in with its password, and a still-valid
      OTP even marks it verified again. */
  lemma DeletedAccountStillUsable(t: UserTable.Table, email: string, password: string, now: int, later: int)
    requires UserTable.KeyedByEmail(t) && email in t && Verify(password, t[email].password)
    requires t[email].otpExpirationTime.Some? && later <= t[email].otpExpirationTime.value
    ensures var d := DeleteUser(t, email, now);
      && d.table[email].deletedAt.Some?
      && AuthFlow.Login(d.table, email, password, later).Ok?
      && AuthFlow.VerifyOtp(d.table, email, t[email].otp, later).table[email].isVerified
      && AuthFlow.VerifyOtp(d.table, email, t[email].otp, later).table[email].deletedAt.Some?
  {
    var d := DeleteUser(t, email, now);
    AuthFlow.VerifyOtpOutcomes(d.table, email, t[email].otp, later);
  }

  /** Every stored OTP is a six-digit code, as drawn by `random.randint(100000, 999999)`. */
  predicate SixDigitOtps(t: UserTable.Table) {
    forall e | e in t :: 100000 <= t[e].otp <= 999999
  }

  /** An update keeps all OTPs six-digit unless it writes some other code. */
  lemma UpdateKeepsSixDigitOtps(t: UserTable.Table, email: string, p: UserTable.Patch, now: int)
    requires SixDigitOtps(t)
    requires p.otp.Some? ==> 100000 <= p.otp.value <= 999999
    ensures SixDigitOtps(UserTable.UpdateUserData(t, email, p, now).table)
  {
  }

  /** Signup stores the drawn code, so a six-digit draw keeps all OTPs six-digit. */
  lemma SignupKeepsSixDigitOtps(t: UserTable.Table, form: SignupForm, otp: int, id: string, now: int)
    requires SixDigitOtps(t) && 100000 <= otp <= 999999
    ensures SixDigitOtps(AuthFlow.Signup(t, form, otp, id, now).table)
  {
  }

  /** Following an activation link only sets the verified flag. */
  lemma VerificationKeepsSixDigitOtps(t: UserTable.Table, token: TokenCodec.Token, now: int, later: int)
    requires SixDigitOtps(t)
    ensures SixDigitOtps(AuthFlow.AccountVerification(t, token, now, later).table)
  {
    var d := AuthFlow.DecodeAccessToken(token, now);
    if d.Ok? && d.value.Some? && "email" in d.value.value && d.value.value["email"].Text? {
      var email := d.value.value["email"].s;
      if email in t {
        UpdateKeepsSixDigitOtps(t, t[email].email, AuthFlow.VERIFIED, later);
      }
    }
  }

  /** Entering the right OTP only sets the verified flag. */
  lemma VerifyOtpKeepsSixDigitOtps(t: UserTable.Table, email: string, userOtp: int, now: int)
    requires SixDigitOtps(t)
    ensures SixDigitOtps(AuthFlow.VerifyOtp(t, email, userOtp, now).table)
  {
    UpdateKeepsSixDigitOtps(t, email, AuthFlow.VERIFIED, now);
  }

  /** The forgotten-password flow stores the drawn code. */
  lemma ForgetPasswordKeepsSixDigitOtps(t: UserTable.Table, email: string, otp: int, now: int)
    requires SixDigitOtps(t) && 100000 <= otp <= 999999
    ensures SixDigitOtps(ForgetPassword(t, email, otp, now).table)
  {
    if email in t {
      UpdateKeepsSixDigitOtps(t, t[email].email, UserTable.NoChange.(otp := Some(otp), otpExpirationTime := Some(now + RESET_OTP_SECONDS)), now);
    }
  }

  /** Password updates, as written and by OTP, and soft delete leave the OTP column alone. */
  lemma AccountWritesKeepSixDigitOtps(t: UserTable.Table, change: PasswordChange, email: string, now: int)
    requires SixDigitOtps(t)
    ensures SixDigitOtps(UpdateUserPassword(t, email, change, now).table)
    ensures SixDigitOtps(UpdateUserPasswordByOtp(t, email, change).table)
    ensures SixDigitOtps(DeleteUser(t, email, now).table)
  {
    if change.rePassword == change.newPassword {
      UpdateKeepsSixDigitOtps(t, email, UserTable.NoChange.(password := Some(Hash(change.newPassword))), now);
    }
    UpdateKeepsSixDigitOtps(t, email, UserTable.NoChange.(deletedAt := Some(now), isVerified := Some(false)), now);
  }
}
