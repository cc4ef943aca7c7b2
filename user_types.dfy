/** The request bodies of the user endpoints and the field rules the request
    parser applies to them before any service runs. Each field is checked on its
    own (length bounds first, then the field's validator) and every failing field
    is reported; an accepted value is passed on unchanged. */
module UserTypes {
  import opened Http

  datatype SignupForm = SignupForm(
    firstName: string,
    lastName: string,
    email: string,
    password: string,
    profiles: Option<string>)

  datatype PasswordChange = PasswordChange(
    rePassword: string,
    oldPassword: string,
    newPassword: string,
    otp: int)

  /** The outcome of one field's checks. */
  datatype FieldCheck = Valid(value: string) | Invalid(message: string)

  /** The outcome of parsing a whole body: the body itself, or the failing field names. */
  datatype Checked<T> = Accepted(value: T) | Rejected(fields: set<string>)

  const COMPLEXITY_MESSAGE: string :=
    "Password must contain at least one digit, one uppercase and one lowercase character"
  const DOMAIN_MESSAGE: string := "Email must belong to caesar domain"
  const EMAIL_DOMAIN: string := "@caesarfamilies.info"
  const PASSWORD_MIN_LENGTH: int := 8
  const NAME_MIN_LENGTH: int := 3
  const NAME_MAX_LENGTH: int := 50

  // ----- the complexity pattern ^(?=.*[a-z])(?=.*[A-Z])(?=.*\d) -----

  datatype CharClass = Lower | Upper | Digit

  predicate InClass(c: char, k: CharClass) {
    match k
    case Lower => 'a' <= c <= 'z'
    case Upper => 'A' <= c <= 'Z'
    case Digit => '0' <= c <= '9'
  }

  /** Whether the lookahead `(?=.*[k])` succeeds at position 0: `.` never
      matches a newline, so the scan gives up at the first one. */
  function Lookahead(s: string, k: CharClass): bool {
    if s == [] then false
    else if InClass(s[0], k) then true
    else if s[0] == '\n' then false
    else Lookahead(s[1..], k)
  }

  /** A character of class `k` occurs before the first newline. */
  ghost predicate OnFirstLine(s: string, k: CharClass) {
    exists i | 0 <= i < |s| :: InClass(s[i], k) && '\n' !in s[..i]
  }

  lemma {:induction false} LookaheadMeaning(s: string, k: CharClass)
    ensures Lookahead(s, k) <==> OnFirstLine(s, k)
  {
    if s == [] {
    } else if InClass(s[0], k) {
      assert '\n' !in s[..0];
    } else if s[0] == '\n' {
      forall i | 0 <= i < |s| && InClass(s[i], k)
        ensures '\n' in s[..i]
      {
        assert i != 0;
        assert s[..i][0] == '\n';
      }
    } else {
      LookaheadMeaning(s[1..], k);
      if OnFirstLine(s[1..], k) {
        var i :| 0 <= i < |s[1..]| && InClass(s[1..][i], k) && '\n' !in s[1..][..i];
        assert s[..i + 1] == [s[0]] + s[1..][..i];
        assert InClass(s[i + 1], k) && '\n' !in s[..i + 1];
      }
      if OnFirstLine(s, k) {
        var i :| 0 <= i < |s| && InClass(s[i], k) && '\n' !in s[..i];
        assert i != 0;
        assert s[1..][..i - 1] == s[1..i];
        assert s[..i] == [s[0]] + s[1..i];
        assert InClass(s[1..][i - 1], k) && '\n' !in s[1..][..i - 1];
      }
    }
  }

  ghost predicate Complex(s: string) {
    OnFirstLine(s, Lower) && OnFirstLine(s, Upper) && OnFirstLine(s, Digit)
  }

  /** The validator shared by `Signup.password` and the three `UpdatePassword`
      fields (`password_complexity`, `password`, `new_password_c`): it accepts a
      value exactly when a lowercase letter, an uppercase letter and a digit each
      occur before its first newline, and returns the value unchanged. */
  function PasswordComplexity(value: string): (r: FieldCheck)
    ensures r.Valid? <==> Complex(value)
    ensures r.Valid? ==> r.value == value
    ensures r.Invalid? ==> r.message == COMPLEXITY_MESSAGE
  {
    LookaheadMeaning(value, Lower);
    LookaheadMeaning(value, Upper);
    LookaheadMeaning(value, Digit);
    if Lookahead(value, Lower) && Lookahead(value, Upper) && Lookahead(value, Digit) then Valid(value)
    else Invalid(COMPLEXITY_MESSAGE)
  }

  /** A password field: at least eight characters, then the complexity validator. */
  function PasswordField(value: string): (r: FieldCheck)
    ensures r.Valid? <==> |value| >= PASSWORD_MIN_LENGTH && Complex(value)
    ensures r.Valid? ==> r.value == value
  {
    if |value| < PASSWORD_MIN_LENGTH then Invalid("String should have at least 8 characters")
    else PasswordComplexity(value)
  }

  predicate EndsWith(s: string, suffix: string) {
    |suffix| <= |s| && s[|s| - |suffix|..] == suffix
  }

  lemma SuffixOfConcat(prefix: string, suffix: string)
    ensures EndsWith(prefix + suffix, suffix)
  {
    assert (prefix + suffix)[|prefix|..] == suffix;
  }

  /** `validate_email`: only addresses in the company domain are accepted. */
  function ValidateEmail(value: string): (r: FieldCheck)
    ensures r.Valid? <==> exists local: string | |local| <= |value| :: value == local + EMAIL_DOMAIN
    ensures r.Valid? <==> EndsWith(value, EMAIL_DOMAIN)
    ensures r.Valid? ==> r.value == value
    ensures r.Invalid? ==> r.message == DOMAIN_MESSAGE
  {
    if EndsWith(value, EMAIL_DOMAIN) then
      assert value == value[..|value| - |EMAIL_DOMAIN|] + EMAIL_DOMAIN;
      Valid(value)
    else
      assert forall local: string | |local| <= |value| :: value != local + EMAIL_DOMAIN by {
        forall local: string | |local| <= |value|
          ensures value != local + EMAIL_DOMAIN
        {
          SuffixOfConcat(local, EMAIL_DOMAIN);
        }
      }
      Invalid(DOMAIN_MESSAGE)
  }

  predicate NameOk(s: string) {
    NAME_MIN_LENGTH <= |s| <= NAME_MAX_LENGTH
  }

  /** The fields of a signup body that carry a validator. */
  const SIGNUP_FIELDS: set<string> := {"first_name", "last_name", "email", "password"}

  /** The fields whose validator fails; pydantic reports each of them in one error. */
  function SignupErrors(f: SignupForm): (e: set<string>)
    ensures e <= SIGNUP_FIELDS
    ensures "first_name" in e <==> !NameOk(f.firstName)
    ensures "last_name" in e <==> !NameOk(f.lastName)
    ensures "email" in e <==> !EndsWith(f.email, EMAIL_DOMAIN)
    ensures "password" in e <==> !StrongPassword(f.password)
  {
    set n | n in SIGNUP_FIELDS && !FieldOk(f, n)
  }

  /** Whether the validator of the field named `n` accepts its value. */
  predicate FieldOk(f: SignupForm, n: string) {
    if n == "first_name" then NameOk(f.firstName)
    else if n == "last_name" then NameOk(f.lastName)
    else if n == "email" then ValidateEmail(f.email).Valid?
    else PasswordField(f.password).Valid?
  }

  /** Parsing a `Signup` body: names of 3 to 50 characters, an address in the
      company domain, a password of at least 8 characters that passes the
      complexity rule; the profile is not checked here. */
  function ValidateSignup(f: SignupForm): (r: Checked<SignupForm>)
    ensures r.Accepted? <==>
      && NameOk(f.firstName) && NameOk(f.lastName)
      && EndsWith(f.email, EMAIL_DOMAIN)
      && StrongPassword(f.password)
    ensures r.Accepted? ==> r.value == f
    ensures r.Rejected? ==> r.fields != {} && r.fields <= {"first_name", "last_name", "email", "password"}
    ensures r.Rejected? ==>
      && ("first_name" in r.fields <==> !NameOk(f.firstName))
      && ("last_name" in r.fields <==> !NameOk(f.lastName))
      && ("email" in r.fields <==> !EndsWith(f.email, EMAIL_DOMAIN))
      && ("password" in r.fields <==> !StrongPassword(f.password))
  {
    var errors := SignupErrors(f);
    if errors == {} then Accepted(f) else Rejected(errors)
  }

  function PasswordChangeErrors(f: PasswordChange): set<string> {
    (if PasswordField(f.rePassword).Invalid? then {"re_password"} else {})
    + (if PasswordField(f.oldPassword).Invalid? then {"old_password"} else {})
    + (if PasswordField(f.newPassword).Invalid? then {"new_password"} else {})
  }

  ghost predicate StrongPassword(s: string) {
    |s| >= PASSWORD_MIN_LENGTH && Complex(s)
  }

  /** Parsing an `UpdatePassword` body: each of the three passwords must pass the
      length and complexity rule on its own; nothing relates them to each other. */
  function ValidatePasswordChange(f: PasswordChange): (r: Checked<PasswordChange>)
    ensures r.Accepted? <==> StrongPassword(f.rePassword) && StrongPassword(f.oldPassword) && StrongPassword(f.newPassword)
    ensures r.Accepted? ==> r.value == f
    ensures r.Rejected? ==> r.fields != {}
    ensures r.Rejected? ==>
      && ("re_password" in r.fields <==> !StrongPassword(f.rePassword))
      && ("old_password" in r.fields <==> !StrongPassword(f.oldPassword))
      && ("new_password" in r.fields <==> !StrongPassword(f.newPassword))
  {
    var errors := PasswordChangeErrors(f);
    if errors == {} then Accepted(f) else Rejected(errors)
  }

  /** The scan for an upper-case letter stops at the newline. */
  lemma UpperCaseAfterNewline()
    ensures !Lookahead("abcdefgh\nA1", Upper)
  {
    assert !Lookahead("\nA1", Upper);
    assert !Lookahead("h\nA1", Upper);
    assert !Lookahead("gh\nA1", Upper);
    assert !Lookahead("fgh\nA1", Upper);
    assert !Lookahead("efgh\nA1", Upper);
    assert !Lookahead("defgh\nA1", Upper);
    assert !Lookahead("cdefgh\nA1", Upper);
    assert !Lookahead("bcdefgh\nA1", Upper);
  }

  /** On a single line every class is found. */
  lemma AllClassesOnOneLine()
    ensures Lookahead("abcdefgA1", Lower) && Lookahead("abcdefgA1", Upper) && Lookahead("abcdefgA1", Digit)
  {
    assert Lookahead("A1", Upper);
    assert Lookahead("gA1", Upper);
    assert Lookahead("fgA1", Upper);
    assert Lookahead("efgA1", Upper);
    assert Lookahead("defgA1", Upper);
    assert Lookahead("cdefgA1", Upper);
    assert Lookahead("bcdefgA1", Upper);
    assert Lookahead("abcdefgA1", Upper);
    assert Lookahead("1", Digit);
    assert Lookahead("A1", Digit);
    assert Lookahead("gA1", Digit);
    assert Lookahead("fgA1", Digit);
    assert Lookahead("efgA1", Digit);
    assert Lookahead("defgA1", Digit);
    assert Lookahead("cdefgA1", Digit);
    assert Lookahead("bcdefgA1", Digit);
    assert Lookahead("abcdefgA1", Digit);
  }

  /** A required character that only appears after a newline is not seen. */
  lemma SecondLineIgnored()
    ensures PasswordField("abcdefgh\nA1").Invalid?
    ensures PasswordField("abcdefgA1").Valid?
  {
    UpperCaseAfterNewline();
    AllClassesOnOneLine();
  }


}
