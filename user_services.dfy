/** The user-account service run against the credential store object, each
    method proved to end in the table, reply and mail that UserFlow gives. */
module UserServices {
  import opened Http
  import opened PasswordHasher
  import opened UserModel
  import opened UserTypes
  import opened Replies
  import UserTable
  import MapHelper
  import UserFlow
  import opened UserQueries

  method ForgetPassword(store: UserQuery, email: string, otp: int, now: int)
    returns (r: Result<Response>, ghost mail: Option<Mail>)
    requires store.Valid()
    requires 100000 <= otp <= 999999
    modifies store
    ensures store.Valid()
    ensures Step(store.rows, r, mail) == UserFlow.ForgetPassword(old(store.rows), email, otp, now)
  {
    var user := store.GetUserData(email);
    if user.Err? {
      r, mail := Err(user.failure), None;
      return;
    }
    var patch := UserTable.NoChange;
    patch := patch.(otp := Some(otp));
    patch := patch.(otpExpirationTime := Some(now + UserFlow.RESET_OTP_SECONDS));
    // The row exists, so the update returns it; the 409 for an empty result cannot occur.
    var _ := store.UpdateUserData(user.value.email, patch, now);
    mail := Some(PasswordReset(user.value.firstName, user.value.email, otp));
    r := Ok(Response(Detail("OTP sent successfully to your email address."), OK_200));
  }

  method UserInfo(store: UserQuery, email: string) returns (r: Result<Response>)
    ensures r == UserFlow.UserInfo(store.rows, email)
  {
    var userResult := store.GetUserData(email);
    if userResult.Err? {
      r := Err(userResult.failure);
      return;
    }
    var data := MapHelper.BuildUsersDict(userResult.value.Columns(), "");
    r := Ok(Response(Profile(data), OK_200));
  }

  method UpdateUserPassword(store: UserQuery, email: string, form: PasswordChange, now: int) returns (r: Result<Response>)
    requires store.Valid()
    modifies store
    ensures store.Valid()
    ensures Step(store.rows, r, None) == UserFlow.UpdateUserPassword(old(store.rows), email, form, now)
  {
    if form.rePassword == form.newPassword {
      var hashedPassword := Hash(form.newPassword);
      var patch := UserTable.NoChange.(password := Some(hashedPassword));
      var userResult := store.UpdateUserData(email, patch, now);
      if userResult.Err? {
        r := Err(userResult.failure);
        return;
      }
      r := Ok(Response(Profile(MapHelper.BuildUsersDict(userResult.value.Columns(), "update")), OK_200));
    } else {
      r := Ok(Response(Detail(UserFlow.NOT_UPDATED), BAD_REQUEST_400));
    }
  }

  /** As written: the update is never reached (see UserFlow.UpdateUserPasswordByOtp). */
  method UpdateUserPasswordByOtp(store: UserQuery, email: string, form: PasswordChange) returns (r: Result<Response>)
    ensures Step(store.rows, r, None) == UserFlow.UpdateUserPasswordByOtp(store.rows, email, form)
  {
    if form.rePassword == form.newPassword {
      var _ := Hash(form.newPassword);
      r := Err(Crash("AttributeError: 'dict' object has no attribute 'otp'"));
    } else {
      r := Ok(Response(Detail(UserFlow.NOT_UPDATED), BAD_REQUEST_400));
    }
  }

  method DeleteUser(store: UserQuery, email: string, now: int) returns (r: Result<Response>)
    requires store.Valid()
    modifies store
    ensures store.Valid()
    ensures Step(store.rows, r, None) == UserFlow.DeleteUser(old(store.rows), email, now)
  {
    var patch := UserTable.NoChange;
    patch := patch.(deletedAt := Some(now));
    patch := patch.(isVerified := Some(false));
    var userResult := store.UpdateUserData(email, patch, now);
    if userResult.Err? {
      r := Err(userResult.failure);
      return;
    }
    r := Ok(Response(Detail("User Account Deleted Successfully."), ACCEPTED_202));
  }
}
