/** The authentication engine as functions of the user table, the request and
    the clock: signup, link-based verification, login, re-sending the activation
    link, token issue/decode/refresh and OTP verification. AuthServices runs the
    same steps against the store object and is proved equal to these functions. */
module AuthFlow {
  import opened Http
  import opened Settings
  import opened TokenCodec
  import opened PasswordHasher
  import opened UserModel
  import opened UserTypes
  import opened Replies
  import UserTable

  // ----- tokens -----

  predicate HasExpiry(c: Claims) {
    "exp" in c && c["exp"].Number?
  }

  function Expiry(c: Claims): int
    requires HasExpiry(c)
  {
    c["exp"].n
  }

  /** The lifetime `create_access_token` uses: a zero or absent delta means fifteen minutes. */
  function Lifetime(expiresDelta: Option<int>): int {
    if expiresDelta.Some? && expiresDelta.value != 0 then expiresDelta.value else DEFAULT_TOKEN_SECONDS
  }

  /** The caller's claims after `create_access_token` has stamped them: `exp` is
      set to now plus the lifetime and every other key is left as it was. */
  function WithExpiry(data: Claims, expiresDelta: Option<int>, now: int): (c: Claims)
    ensures c.Keys == data.Keys + {"exp"}
    ensures forall k | k in data && k != "exp" :: c[k] == data[k]
    ensures HasExpiry(c) && Expiry(c) == now + Lifetime(expiresDelta)
  {
    data["exp" := Number(now + Lifetime(expiresDelta))]
  }

  function IssueToken(data: Claims, expiresDelta: Option<int>, now: int): Token {
    Encode(WithExpiry(data, expiresDelta, now))
  }

  const ACCESS_TOKEN_SECONDS: int :=
    ACCESS_TOKEN_EXPIRE_HOURS * SECONDS_PER_HOUR + ACCESS_TOKEN_EXPIRE_MINUTES * SECONDS_PER_MINUTE

  const VERIFY_TOKEN_SECONDS: int := VERIFY_TOKEN_EXPIRE_MINUTES * SECONDS_PER_MINUTE

  /** The token of `create_token`. */
  function AccessToken(email: string, now: int): Token {
    IssueToken(map["sub" := Text(email)], Some(ACCESS_TOKEN_SECONDS), now)
  }

  /** The content `create_token` returns. */
  function CreateToken(email: string, now: int): (c: Content)
    ensures c.Bearer? && c.tokenType == "bearer" && c.note.None?
    ensures c.accessToken == Encode(map["sub" := Text(email), "exp" := Number(now + ACCESS_TOKEN_SECONDS)])
  {
    Bearer(AccessToken(email, now), "bearer", None)
  }

  /** The token carried by an activation link. */
  function VerificationToken(email: string, otp: int, now: int): Token {
    IssueToken(map["email" := Text(email), "otp" := Number(otp)], Some(VERIFY_TOKEN_SECONDS), now)
  }

  /** A login token carries the subject and an expiry of two hours and one minute. */
  lemma AccessTokenClaims(email: string, now: int)
    ensures AccessToken(email, now) == Encode(map["sub" := Text(email), "exp" := Number(now + 7260)])
    ensures CreateToken(email, now).tokenType == "bearer"
  {
  }

  /** A zero lifetime is falsy and falls back to the fifteen-minute default. */
  lemma ZeroLifetimeIsDefault(data: Claims, now: int)
    ensures IssueToken(data, Some(0), now) == IssueToken(data, None, now)
    ensures Expiry(WithExpiry(data, Some(0), now)) == now + 900
  {
  }

  /** `decode_access_token`: the claims of a token whose expiry lies strictly
      after now; None for a token at or past its expiry; 400 for a token the codec
      rejects; an uncaught TypeError for a token without a numeric expiry. */
  function DecodeAccessToken(token: Token, now: int): (r: Result<Option<Claims>>)
    ensures (r.Err? && r.failure.HttpError?) <==> token.Malformed?
    ensures (r.Err? && r.failure.HttpError?) ==> r.failure == HttpError(BAD_REQUEST_400, "Oops! Your token has expired.")
    ensures (r.Err? && r.failure.Crash?) <==> token.Jwt? && !HasExpiry(token.claims)
    ensures r == Ok(None) <==> token.Jwt? && HasExpiry(token.claims) && Expiry(token.claims) <= now
    ensures r.Ok? && r.value.Some? ==>
      token == Encode(r.value.value) && HasExpiry(r.value.value) && Expiry(r.value.value) > now
  {
    match Decode(token)
    case Err(_) => Err(HttpError(BAD_REQUEST_400, "Oops! Your token has expired."))
    case Ok(decoded) =>
      if !HasExpiry(decoded) then Err(Crash("TypeError: exp claim is not a number"))
      else if Expiry(decoded) > now then Ok(Some(decoded))
      else Ok(None)
  }

  /** `is_token_expired`. */
  predicate IsTokenExpired(expTimestamp: int, now: int)
    ensures IsTokenExpired(expTimestamp, now) <==> expTimestamp < now
  {
    expTimestamp - now < 0
  }

  /** An issued token decodes to the stamped claims while it is alive and to
      None from its expiry on. */
  lemma TokenLifecycle(data: Claims, expiresDelta: Option<int>, issuedAt: int, now: int)
    ensures DecodeAccessToken(IssueToken(data, expiresDelta, issuedAt), now)
      == if now < issuedAt + Lifetime(expiresDelta) then Ok(Some(WithExpiry(data, expiresDelta, issuedAt))) else Ok(None)
  {
  }

  /** At the expiry instant itself decoding already yields None, while the token
      does not count as expired yet; one second later it does. */
  lemma ExpiryBoundary(c: Claims, now: int)
    requires HasExpiry(c) && Expiry(c) == now
    ensures DecodeAccessToken(Encode(c), now) == Ok(None)
    ensures !IsTokenExpired(Expiry(c), now)
    ensures IsTokenExpired(Expiry(c), now + 1)
  {
  }

  // ----- signup -----

  /** The record `signup` inserts: hashed password, the drawn OTP, not verified. */
  function NewUserOf(form: SignupForm, otp: int): UserTable.NewUser {
    UserTable.NewUser(form.firstName, form.lastName, form.email, Hash(form.password), form.profiles, otp, false)
  }

  /** `signup`: every existing row is kept, at most the new email is added,
      and an activation mail goes out exactly when the email was free. */
  function Signup(t: UserTable.Table, form: SignupForm, otp: int, id: string, now: int): (s: Step)
    ensures form.email in t ==> s.table == t
    ensures form.email !in t ==> form.email in s.table && s.table == t[form.email := s.table[form.email]]
    ensures UserTable.KeyedByEmail(t) ==> UserTable.KeyedByEmail(s.table)
    ensures s.mail.Some? <==> form.email !in t
  {
    if UserTable.CheckUser(t, form.email) then
      // The insert's result is discarded, and its error cannot occur: the email was just found free.
      var w := UserTable.AddUserToDatabase(t, NewUserOf(form, otp), id, now);
      assert w.table == t[form.email := UserTable.Inserted(NewUserOf(form, otp), id, now)];
      Step(w.table, Ok(Response(Detail("User added successfully."), CREATED_201)),
           Some(Activation(form.firstName, form.email, VerificationToken(form.email, otp, now))))
    else
      Step(t, Ok(Response(Detail("User already exists."), CONFLICT_409)), None)
  }

  /** Signing up with a taken email answers 409, changes nothing, sends nothing. */
  lemma SignupExisting(t: UserTable.Table, form: SignupForm, otp: int, id: string, now: int)
    requires UserTable.KeyedByEmail(t)
    requires exists e | e in t :: t[e].email == form.email
    ensures Signup(t, form, otp, id, now) == Step(t, Ok(Response(Detail("User already exists."), CONFLICT_409)), None)
  {
  }

  /** Signing up with a free email inserts one unverified row holding the hash
      of the password and the drawn OTP, keeps every other row, answers 201,
      and mails an activation link whose token names the email and the OTP. */
  lemma SignupNew(t: UserTable.Table, form: SignupForm, otp: int, id: string, now: int)
    requires form.email !in t
    ensures var s := Signup(t, form, otp, id, now);
      && s.table.Keys == t.Keys + {form.email}
      && (forall e | e in t :: s.table[e] == t[e])
      && Verify(form.password, s.table[form.email].password)
      && s.table[form.email].password == Hash(form.password)
      && !s.table[form.email].isVerified
      && s.table[form.email].otp == otp
      && s.table[form.email].email == form.email
      && s.result == Ok(Response(Detail("User added successfully."), CREATED_201))
      && s.mail == Some(Activation(form.firstName, form.email,
           Encode(map["email" := Text(form.email), "otp" := Number(otp), "exp" := Number(now + 900)])))
  {
  }

  /** Repeating a successful signup answers 409 and leaves the first row alone. */
  lemma SignupTwice(t: UserTable.Table, form: SignupForm, otp1: int, otp2: int, id1: string, id2: string, now1: int, now2: int)
    requires form.email !in t
    ensures var first := Signup(t, form, otp1, id1, now1);
      && first.result.Ok? && first.result.value.status == CREATED_201
      && Signup(first.table, form, otp2, id2, now2) ==
         Step(first.table, Ok(Response(Detail("User already exists."), CONFLICT_409)), None)
  {
  }

  /** The insert's own 400 cannot surface: the email was checked just before. */
  lemma SignupNeverRaises(t: UserTable.Table, form: SignupForm, otp: int, id: string, now: int)
    ensures Signup(t, form, otp, id, now).result.Ok?
    ensures UserTable.KeyedByEmail(t) ==> UserTable.KeyedByEmail(Signup(t, form, otp, id, now).table)
  {
  }

  // ----- account verification by link -----

  const VERIFIED: UserTable.Patch := UserTable.NoChange.(isVerified := Some(true))

  /** Applying `VERIFIED` sets the flag and the update time, and nothing else. */
  lemma ApplyVerified(row: UserRow, now: int)
    ensures UserTable.Apply(row, VERIFIED, now) == row.(isVerified := true, updatedAt := now)
  {
  }

  /** `account_verification` as written. The clock is read twice: by the decode
      (`now`) and by `is_token_expired` (`later`); the new login token and the
      row's `updated_at` use the second reading. */
  /** `t2` is `t` with the row under `e` marked verified at `at`, every other row and column as it was. */
  predicate VerifiedOnly(t: UserTable.Table, t2: UserTable.Table, e: string, at: int) {
    e in t && t2 == t[e := t[e].(isVerified := true, updatedAt := at)]
  }

  function AccountVerification(t: UserTable.Table, token: Token, now: int, later: int): (s: Step)
    ensures s.mail.None?
    ensures s.result.Err? ==> s.table == t
    ensures s.result.Ok? ==> s.result.value.status == ACCEPTED_202 && exists e :: VerifiedOnly(t, s.table, e, later)
  {
    match DecodeAccessToken(token, now)
    case Err(f) => Step(t, Err(f), None)
    case Ok(payload) =>
      if payload.None? then Step(t, Err(Crash("TypeError: 'NoneType' object is not subscriptable")), None)
      else VerifyPayload(t, payload.value, later)
  }

  /** The steps after a successful decode, shared with the corrected version. */
  function VerifyPayload(t: UserTable.Table, claims: Claims, later: int): (s: Step)
    requires HasExpiry(claims)
    ensures s.mail.None?
    ensures s.result.Err? ==> s.table == t
    ensures s.result.Ok? ==> s.result.value.status == ACCEPTED_202 && exists e :: VerifiedOnly(t, s.table, e, later)
  {
    if "email" !in claims then Step(t, Err(Crash("KeyError: 'email'")), None)
    else if !claims["email"].Text? then Step(t, Err(Crash("email claim is not a string")), None)
    else
      match UserTable.GetUserData(t, claims["email"].s)
      case Err(f) => Step(t, Err(f), None)
      case Ok(user) =>
        if user.isVerified then Step(t, Err(HttpError(BAD_REQUEST_400, "Account already verified.")), None)
        else if IsTokenExpired(Expiry(claims), later) then
          Step(t, Err(HttpError(BAD_REQUEST_400, "Verification link has expired.")), None)
        else
          var w := UserTable.UpdateUserData(t, user.email, VERIFIED, later);
          if w.result.Err? then Step(w.table, Err(w.result.failure), None)
          else
            assert VerifiedOnly(t, w.table, user.email, later);
            Step(w.table, Ok(Response(CreateToken(user.email, later).(note := Some("Account verified successfully.")), ACCEPTED_202)), None)
  }

  /** A live link whose email has no row: the query's 404, nothing changes. */
  lemma VerificationUnknownUser(t: UserTable.Table, c: Claims, now: int, later: int)
    requires HasExpiry(c) && Expiry(c) > now
    requires "email" in c && c["email"].Text? && c["email"].s !in t
    ensures AccountVerification(t, Encode(c), now, later) == Step(t, Err(HttpError(NOT_FOUND_404, "User not exist")), None)
  {
  }

  /** The checks run in order: already verified, then expired, then success,
      where success sets `is_verified` (and the update time) and nothing else and
      answers 202 with a fresh login token for the account. */
  lemma VerificationOrder(t: UserTable.Table, c: Claims, now: int, later: int)
    requires UserTable.KeyedByEmail(t)
    requires HasExpiry(c) && Expiry(c) > now
    requires "email" in c && c["email"].Text? && c["email"].s in t
    ensures var e := c["email"].s;
      var s := AccountVerification(t, Encode(c), now, later);
      && (t[e].isVerified ==> s == Step(t, Err(HttpError(BAD_REQUEST_400, "Account already verified.")), None))
      && (!t[e].isVerified && Expiry(c) < later ==>
            s == Step(t, Err(HttpError(BAD_REQUEST_400, "Verification link has expired.")), None))
      && (!t[e].isVerified && Expiry(c) >= later ==>
            && s.table == t[e := t[e].(isVerified := true, updatedAt := later)]
            && s.result == Ok(Response(Bearer(AccessToken(e, later), "bearer", Some("Account verified successfully.")), ACCEPTED_202)))
  {
  }

  /** With a single clock reading the "link has expired" answer cannot occur, and
      the unreachable "Token not found." answer never occurs at all. */
  lemma VerificationDeadBranches(t: UserTable.Table, token: Token, now: int, later: int)
    ensures AccountVerification(t, token, now, now).result != Err(HttpError(BAD_REQUEST_400, "Verification link has expired."))
    ensures AccountVerification(t, token, now, later).result != Err(HttpError(BAD_REQUEST_400, "Token not found."))
  {
  }

  /** As written, a link decoded at its expiry second is decoded to None and then
      subscripted, which raises a TypeError instead of answering 400. */
  lemma VerificationCrashesAtExpiry(t: UserTable.Table, email: string, otp: int, issuedAt: int)
    ensures AccountVerification(t, VerificationToken(email, otp, issuedAt), issuedAt + 900, issuedAt + 900).result
      == Err(Crash("TypeError: 'NoneType' object is not subscriptable"))
  {
  }

  /** The evidently intended `account_verification`: a link the decode finds
      at or past its expiry is answered with the "link has expired" 400. */
  function AccountVerificationIntended(t: UserTable.Table, token: Token, now: int, later: int): (s: Step)
    ensures token.Jwt? && HasExpiry(token.claims) && Expiry(token.claims) <= now ==>
      s == Step(t, Err(HttpError(BAD_REQUEST_400, "Verification link has expired.")), None)
    ensures DecodeAccessToken(token, now).Ok? && DecodeAccessToken(token, now).value.Some? ==>
      s == AccountVerification(t, token, now, later)
  {
    match DecodeAccessToken(token, now)
    case Err(f) => Step(t, Err(f), None)
    case Ok(payload) =>
      if payload.None? then Step(t, Err(HttpError(BAD_REQUEST_400, "Verification link has expired.")), None)
      else VerifyPayload(t, payload.value, later)
  }

  /** No activation link that signup mails can make the corrected version crash. */
  lemma IntendedVerificationNeverCrashes(t: UserTable.Table, email: string, otp: int, issuedAt: int, now: int, later: int)
    ensures !AccountVerificationIntended(t, VerificationToken(email, otp, issuedAt), now, later).result.Err?
         || AccountVerificationIntended(t, VerificationToken(email, otp, issuedAt), now, later).result.failure.HttpError?
  {
  }

  // ----- login and re-sending the activation link -----

  /** `login`: a token exactly for a known email with the right password. */
  function Login(t: UserTable.Table, email: string, password: string, now: int): (r: Result<Response>)
    ensures r.Ok? <==> email in t && Verify(password, t[email].password)
    ensures r.Ok? ==> r.value == Response(CreateToken(email, now), ACCEPTED_202)
    ensures r.Err? ==> r.failure.HttpError? && (r.failure.status == BAD_REQUEST_400 <==> email !in t)
  {
    match UserTable.AuthenticateUser(t, email)
    case Err(f) => Err(f)
    case Ok(row) =>
      if !Verify(password, row.password) then Err(HttpError(UNAUTHORIZED_401, "Incorrect username or password"))
      else Ok(Response(CreateToken(email, now), ACCEPTED_202))
  }

  /** Unknown email: 400 from the store; wrong password: 401; right password:
      202 with a bearer token for that email, whether or not the account is verified. */
  lemma LoginOutcomes(t: UserTable.Table, email: string, password: string, now: int)
    ensures email !in t ==> Login(t, email, password, now) == Err(HttpError(BAD_REQUEST_400, "Incorrect username or password"))
    ensures email in t && !Verify(password, t[email].password) ==>
      Login(t, email, password, now) == Err(HttpError(UNAUTHORIZED_401, "Incorrect username or password"))
    ensures email in t && Verify(password, t[email].password) ==>
      Login(t, email, password, now) == Ok(Response(Bearer(AccessToken(email, now), "bearer", None), ACCEPTED_202))
  {
  }

  /** Login never looks at `is_verified`. */
  lemma LoginIgnoresVerification(t: UserTable.Table, email: string, password: string, now: int, flag: bool)
    requires email in t
    ensures Login(t[email := t[email].(isVerified := flag)], email, password, now) == Login(t, email, password, now)
  {
  }

  /** `verify_account_request`: read-only, and a link is mailed only to an
      unverified account whose credentials were right. */
  function VerifyAccountRequest(t: UserTable.Table, email: string, password: string, now: int): (s: Step)
    ensures s.table == t
    ensures s.result.Ok? <==> email in t && Verify(password, t[email].password)
    ensures s.mail.Some? <==> s.result.Ok? && !t[email].isVerified
  {
    match UserTable.AuthenticateUser(t, email)
    case Err(f) => Step(t, Err(f), None)
    case Ok(row) =>
      if !Verify(password, row.password) then Step(t, Err(HttpError(UNAUTHORIZED_401, "Incorrect username or password")), None)
      else
        var mail := if !row.isVerified then Some(Activation(row.firstName, row.email, VerificationToken(row.email, row.otp, now))) else None;
        Step(t, Ok(Response(Note("details: Please Check your Email to Confirm your Account"), OK_200)), mail)
  }

  /** Re-sending the link never changes the table; with good credentials the
      answer is the same 200 whatever the verification state, and a link is
      mailed exactly when the account is not verified yet. */
  lemma VerifyAccountRequestOutcomes(t: UserTable.Table, email: string, password: string, now: int)
    ensures VerifyAccountRequest(t, email, password, now).table == t
    ensures email !in t ==> VerifyAccountRequest(t, email, password, now).result == Err(HttpError(BAD_REQUEST_400, "Incorrect username or password"))
    ensures email in t && !Verify(password, t[email].password) ==>
      VerifyAccountRequest(t, email, password, now).result == Err(HttpError(UNAUTHORIZED_401, "Incorrect username or password"))
    ensures email in t && Verify(password, t[email].password) ==>
      && VerifyAccountRequest(t, email, password, now).result == Ok(Response(Note("details: Please Check your Email to Confirm your Account"), OK_200))
      && (VerifyAccountRequest(t, email, password, now).mail.Some? <==> !t[email].isVerified)
  {
  }

  // ----- refresh -----

  /** `refresh_token`: a new token only for a live token with a subject; it
      carries that subject alone and the fifteen-minute default lifetime. */
  function RefreshToken(token: Token, now: int): (r: Result<Response>)
    ensures r.Ok? ==>
      && token.Jwt? && HasExpiry(token.claims) && Expiry(token.claims) > now && "sub" in token.claims
      && r.value == Response(Bearer(Encode(map["sub" := token.claims["sub"], "exp" := Number(now + DEFAULT_TOKEN_SECONDS)]), "bearer", None), ACCEPTED_202)
    ensures r.Err? && r.failure.HttpError? ==> r.failure.status == BAD_REQUEST_400 || r.failure.status == UNAUTHORIZED_401
  {
    match DecodeAccessToken(token, now)
    case Err(f) => Err(f)
    case Ok(payload) =>
      if payload.None? then Err(HttpError(UNAUTHORIZED_401, "Invalid token or expired token"))
      else if "sub" !in payload.value || Falsy(payload.value["sub"]) then
        Err(HttpError(UNAUTHORIZED_401, "Token missing user information"))
      else
        Ok(Response(Bearer(IssueToken(map["sub" := payload.value["sub"]], None, now), "bearer", None), ACCEPTED_202))
  }

  /** A refreshed token keeps only the old subject and lives fifteen minutes,
      not the configured two hours and one minute; an expired token or one
      without a subject gets 401. */
  lemma RefreshOutcomes(c: Claims, now: int)
    requires HasExpiry(c)
    ensures Expiry(c) <= now ==> RefreshToken(Encode(c), now) == Err(HttpError(UNAUTHORIZED_401, "Invalid token or expired token"))
    ensures Expiry(c) > now && ("sub" !in c || Falsy(c["sub"])) ==>
      RefreshToken(Encode(c), now) == Err(HttpError(UNAUTHORIZED_401, "Token missing user information"))
    ensures Expiry(c) > now && "sub" in c && !Falsy(c["sub"]) ==>
      RefreshToken(Encode(c), now) ==
        Ok(Response(Bearer(Encode(map["sub" := c["sub"], "exp" := Number(now + 900)]), "bearer", None), ACCEPTED_202))
  {
  }

  /** A login token refreshed while alive yields a token for the same email. */
  lemma RefreshAfterLogin(email: string, issuedAt: int, now: int)
    requires email != ""
    requires issuedAt <= now < issuedAt + ACCESS_TOKEN_SECONDS
    ensures RefreshToken(AccessToken(email, issuedAt), now) ==
      Ok(Response(Bearer(IssueToken(map["sub" := Text(email)], None, now), "bearer", None), ACCEPTED_202))
  {
    assert WithExpiry(map["sub" := Text(email)], Some(ACCESS_TOKEN_SECONDS), issuedAt)["sub"] == Text(email);
  }

  // ----- OTP verification -----

  /** `verify_otp`: only the named row can change, and only its verified flag
      (and update time), and only when the answer is 202. */
  function VerifyOtp(t: UserTable.Table, email: string, userOtp: int, now: int): (s: Step)
    ensures s.mail.None?
    ensures s.table == t || VerifiedOnly(t, s.table, email, now)
    ensures s.table != t ==> s.result.Ok? && s.result.value.status == ACCEPTED_202
  {
    match UserTable.GetUserData(t, email)
    case Err(f) => Step(t, Err(f), None)
    case Ok(user) =>
      match user.otpExpirationTime
      case None => Step(t, Err(Crash("TypeError: '<' not supported between 'NoneType' and 'datetime'")), None)
      case Some(expiry) =>
        if expiry < now then Step(t, Ok(Response(Detail("Oops! your OTP code has expired."), BAD_REQUEST_400)), None)
        else if user.otp == userOtp then
          // The update's result is discarded, and its error cannot occur: the row was just read.
          var w := UserTable.UpdateUserData(t, email, VERIFIED, now);
          Step(w.table, Ok(Response(CreateToken(email, now).(note := Some("Account verified successfully.")), ACCEPTED_202)), None)
        else
          Step(t, Ok(Response(Detail("The OTP you entered is invalid. Please check your entry and try again."), BAD_REQUEST_400)), None)
  }

  /** Expiry is checked before the code is compared (the instant of expiry still
      counts as valid); a wrong code is 400; the right code sets `is_verified`
      (and the update time) only, keeps the OTP, and answers 202 with a token. */
  lemma VerifyOtpOutcomes(t: UserTable.Table, email: string, userOtp: int, now: int)
    requires email in t && t[email].otpExpirationTime.Some?
    ensures var row := t[email];
      var s := VerifyOtp(t, email, userOtp, now);
      && (row.otpExpirationTime.value < now ==>
            s == Step(t, Ok(Response(Detail("Oops! your OTP code has expired."), BAD_REQUEST_400)), None))
      && (row.otpExpirationTime.value >= now && row.otp != userOtp ==>
            s == Step(t, Ok(Response(Detail("The OTP you entered is invalid. Please check your entry and try again."), BAD_REQUEST_400)), None))
      && (row.otpExpirationTime.value >= now && row.otp == userOtp ==>
            && s.table == t[email := row.(isVerified := true, updatedAt := now)]
            && s.table[email].otp == row.otp
            && s.result == Ok(Response(Bearer(AccessToken(email, now), "bearer", Some("Account verified successfully.")), ACCEPTED_202)))
  {
    ApplyVerified(t[email], now);
  }

  /** An unknown email gets the query's 404, never the service's unreachable 401;
      a row whose OTP expiry is still NULL makes the comparison raise. */
  lemma VerifyOtpUnknownOrUnset(t: UserTable.Table, email: string, userOtp: int, now: int)
    ensures email !in t ==> VerifyOtp(t, email, userOtp, now) == Step(t, Err(HttpError(NOT_FOUND_404, "User not exist")), None)
    ensures VerifyOtp(t, email, userOtp, now).result != Ok(Response(Detail("Incorrect username or password."), UNAUTHORIZED_401))
    ensures email in t && t[email].otpExpirationTime.None? ==> VerifyOtp(t, email, userOtp, now).result.Err?
  {
  }

  /** The OTP is not consumed: the same code verifies again until it expires. */
  lemma OtpReusable(t: UserTable.Table, email: string, userOtp: int, now1: int, now2: int)
    requires email in t && t[email].otpExpirationTime.Some?
    requires t[email].otp == userOtp && now1 <= now2 <= t[email].otpExpirationTime.value
    ensures var first := VerifyOtp(t, email, userOtp, now1);
      && first.result.Ok? && first.result.value.status == ACCEPTED_202
      && VerifyOtp(first.table, email, userOtp, now2).result.Ok?
      && VerifyOtp(first.table, email, userOtp, now2).result.value.status == ACCEPTED_202
  {
    VerifyOtpOutcomes(t, email, userOtp, now1);
    var first := VerifyOtp(t, email, userOtp, now1);
    VerifyOtpOutcomes(first.table, email, userOtp, now2);
  }
}
