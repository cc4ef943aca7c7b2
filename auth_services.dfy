/** The authentication service run against the credential store object. Each
    method follows the source's statements (lookups and writes through
    `UserQuery`, the claims dictionary stamped in place) and is proved to end in
    the table, reply and mail that AuthFlow gives. */
module AuthServices {
  import opened Http
  import opened Settings
  import opened TokenCodec
  import opened PasswordHasher
  import opened UserModel
  import opened UserTypes
  import opened Replies
  import UserTable
  import AuthFlow
  import opened UserQueries

  /** A claims dictionary owned by the caller, which `create_access_token` updates in place. */
  class ClaimSet {
    var entries: Claims

    constructor (initial: Claims)
      ensures entries == initial
    {
      entries := initial;
    }
  }

  method CreateAccessToken(data: ClaimSet, expiresDelta: Option<int>, now: int) returns (token: Token)
    modifies data
    ensures data.entries == AuthFlow.WithExpiry(old(data.entries), expiresDelta, now)
    ensures token == Encode(data.entries)
  {
    var expire: int;
    if expiresDelta.Some? && expiresDelta.value != 0 {
      expire := now + expiresDelta.value;
    } else {
      expire := now + DEFAULT_TOKEN_SECONDS;
    }
    data.entries := data.entries["exp" := Number(expire)];
    token := Encode(data.entries);
  }

  method CreateToken(email: string, now: int) returns (content: Content)
    ensures content == AuthFlow.CreateToken(email, now)
    ensures content.tokenType == "bearer"
      && content.accessToken == Encode(map["sub" := Text(email), "exp" := Number(now + AuthFlow.ACCESS_TOKEN_SECONDS)])
  {
    var expiresDelta := ACCESS_TOKEN_EXPIRE_HOURS * SECONDS_PER_HOUR + ACCESS_TOKEN_EXPIRE_MINUTES * SECONDS_PER_MINUTE;
    var data := new ClaimSet(map["sub" := Text(email)]);
    var accessToken := CreateAccessToken(data, Some(expiresDelta), now);
    content := Bearer(accessToken, "bearer", None);
  }

  method Signup(store: UserQuery, form: SignupForm, otp: int, id: string, now: int)
    returns (r: Result<Response>, ghost mail: Option<Mail>)
    requires store.Valid()
    requires 100000 <= otp <= 999999
    modifies store
    ensures store.Valid()
    ensures Step(store.rows, r, mail) == AuthFlow.Signup(old(store.rows), form, otp, id, now)
  {
    var userData := AuthFlow.NewUserOf(form, otp);
    var absent := store.CheckUser(userData.email);
    if absent {
      var _ := store.AddUserToDatabase(userData, id, now);
      var payload := new ClaimSet(map["email" := Text(userData.email), "otp" := Number(userData.otp)]);
      var token := CreateAccessToken(payload, Some(VERIFY_TOKEN_EXPIRE_MINUTES * SECONDS_PER_MINUTE), now);
      mail := Some(Activation(userData.firstName, userData.email, token));
      r := Ok(Response(Detail("User added successfully."), CREATED_201));
    } else {
      r, mail := Ok(Response(Detail("User already exists."), CONFLICT_409)), None;
    }
  }

  method AccountVerification(store: UserQuery, token: Token, now: int, later: int) returns (r: Result<Response>)
    requires store.Valid()
    modifies store
    ensures store.Valid()
    ensures Step(store.rows, r, None) == AuthFlow.AccountVerification(old(store.rows), token, now, later)
  {
    var decoded := AuthFlow.DecodeAccessToken(token, now);
    if decoded.Err? {
      r := Err(decoded.failure);
      return;
    }
    var payload := decoded.value;
    if payload.None? {
      r := Err(Crash("TypeError: 'NoneType' object is not subscriptable"));
      return;
    }
    var claims := payload.value;
    if "email" !in claims {
      r := Err(Crash("KeyError: 'email'"));
      return;
    }
    if !claims["email"].Text? {
      r := Err(Crash("email claim is not a string"));
      return;
    }
    var user := store.GetUserData(claims["email"].s);
    if user.Err? {
      r := Err(user.failure);
    } else if user.value.isVerified {
      r := Err(HttpError(BAD_REQUEST_400, "Account already verified."));
    } else if AuthFlow.IsTokenExpired(claims["exp"].n, later) {
      r := Err(HttpError(BAD_REQUEST_400, "Verification link has expired."));
    } else {
      var _ := store.UpdateUserData(user.value.email, AuthFlow.VERIFIED, later);
      var content := CreateToken(user.value.email, later);
      content := content.(note := Some("Account verified successfully."));
      r := Ok(Response(content, ACCEPTED_202));
    }
  }

  method Login(store: UserQuery, email: string, password: string, now: int) returns (r: Result<Response>)
    ensures r == AuthFlow.Login(store.rows, email, password, now)
  {
    var userData := store.AuthenticateUser(email);
    if userData.Err? {
      r := Err(userData.failure);
    } else if !Verify(password, userData.value.password) {
      r := Err(HttpError(UNAUTHORIZED_401, "Incorrect username or password"));
    } else {
      var content := CreateToken(email, now);
      r := Ok(Response(content, ACCEPTED_202));
    }
  }

  method VerifyAccountRequest(store: UserQuery, email: string, password: string, now: int)
    returns (r: Result<Response>, ghost mail: Option<Mail>)
    ensures Step(store.rows, r, mail) == AuthFlow.VerifyAccountRequest(store.rows, email, password, now)
  {
    mail := None;
    var userData := store.AuthenticateUser(email);
    if userData.Err? {
      r := Err(userData.failure);
      return;
    }
    var row := userData.value;
    if !Verify(password, row.password) {
      r := Err(HttpError(UNAUTHORIZED_401, "Incorrect username or password"));
      return;
    }
    if !row.isVerified {
      var payload := new ClaimSet(map["email" := Text(row.email), "otp" := Number(row.otp)]);
      var token := CreateAccessToken(payload, Some(VERIFY_TOKEN_EXPIRE_MINUTES * SECONDS_PER_MINUTE), now);
      mail := Some(Activation(row.firstName, row.email, token));
    }
    r := Ok(Response(Note("details: Please Check your Email to Confirm your Account"), OK_200));
  }

  method RefreshToken(token: Token, now: int) returns (r: Result<Response>)
    ensures r == AuthFlow.RefreshToken(token, now)
  {
    var decoded := AuthFlow.DecodeAccessToken(token, now);
    if decoded.Err? {
      r := Err(decoded.failure);
      return;
    }
    var payload := decoded.value;
    if payload.None? {
      r := Err(HttpError(UNAUTHORIZED_401, "Invalid token or expired token"));
      return;
    }
    if "sub" !in payload.value || Falsy(payload.value["sub"]) {
      r := Err(HttpError(UNAUTHORIZED_401, "Token missing user information"));
      return;
    }
    var username := payload.value["sub"];
    var data := new ClaimSet(map["sub" := username]);
    var newToken := CreateAccessToken(data, None, now);
    r := Ok(Response(Bearer(newToken, "bearer", None), ACCEPTED_202));
  }

  method VerifyOtp(store: UserQuery, email: string, userOtp: int, now: int) returns (r: Result<Response>)
    requires store.Valid()
    modifies store
    ensures store.Valid()
    ensures Step(store.rows, r, None) == AuthFlow.VerifyOtp(old(store.rows), email, userOtp, now)
  {
    var user := store.GetUserData(email);
    if user.Err? {
      r := Err(user.failure);
      return;
    }
    var expiry := user.value.otpExpirationTime;
    if expiry.None? {
      r := Err(Crash("TypeError: '<' not supported between 'NoneType' and 'datetime'"));
    } else if expiry.value < now {
      r := Ok(Response(Detail("Oops! your OTP code has expired."), BAD_REQUEST_400));
    } else if user.value.otp == userOtp {
      AuthFlow.ApplyVerified(old(store.rows)[email], now);
      var _ := store.UpdateUserData(email, AuthFlow.VERIFIED, now);
      var content := CreateToken(email, now);
      content := content.(note := Some("Account verified successfully."));
      r := Ok(Response(content, ACCEPTED_202));
    } else {
      r := Ok(Response(Detail("The OTP you entered is invalid. Please check your entry and try again."), BAD_REQUEST_400));
    }
  }
}
