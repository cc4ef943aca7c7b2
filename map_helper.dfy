/** `build_users_dict`: turns a positional row into the six-key dictionary that
    the user endpoints return. Two row shapes reach it: the seven-column
    projection of `get_user_data` (default mode) and the full row that
    `update_user_data` returns ("update" mode). */
module MapHelper {
  import opened UserModel
  import UserTable

  const USER_DICT_KEYS: set<string> :=
    {"first_name", "Last_name", "email", "profiles", "otp", "otp_expiration_time"}

  /** The row positions each mode reads. */
  function Consulted(kind: string): set<int> {
    if kind == "update" then {FIRST_NAME, LAST_NAME, EMAIL, PROFILES, OTP, OTP_EXPIRATION_TIME}
    else {0, 1, 2, 3, 4, 5}
  }

  function BuildUsersDict(row: seq<Value>, kind: string): (d: map<string, Value>)
    requires kind == "update" ==> |row| >= 10
    requires kind != "update" ==> |row| >= 6
    ensures d.Keys == USER_DICT_KEYS
    ensures forall k | k in d :: exists i | i in Consulted(kind) && 0 <= i < |row| :: d[k] == row[i]
  {
    if kind == "update" then
      map["first_name" := row[1], "Last_name" := row[2], "email" := row[3],
          "profiles" := row[5], "otp" := row[8], "otp_expiration_time" := row[9]]
    else
      map["first_name" := row[0], "Last_name" := row[1], "email" := row[2],
          "profiles" := row[3], "otp" := row[4], "otp_expiration_time" := row[5]]
  }

  /** Only the exact string "update" selects the full-row mapping. */
  lemma OtherKindsAreDefault(row: seq<Value>, kind: string)
    requires |row| >= 6 && kind != "update"
    ensures BuildUsersDict(row, kind) == BuildUsersDict(row, "")
  {
  }

  /** The dictionary for a user, by column name. */
  function UserDict(r: UserRow): map<string, Value> {
    map["first_name" := Str(r.firstName), "Last_name" := Str(r.lastName), "email" := Str(r.email),
        "profiles" := OptionalText(r.profiles), "otp" := Int(r.otp),
        "otp_expiration_time" := OptionalTime(r.otpExpirationTime)]
  }

  /** Both modes name the same columns of the same user: "update" mode on the full
      row agrees with default mode on that row's projection. */
  lemma ModesAgree(r: UserRow)
    ensures BuildUsersDict(r.Columns(), "update") == UserDict(r)
    ensures BuildUsersDict(UserTable.Project(r).Columns(), "") == UserDict(r)
  {
  }

  /** The dictionary holds only text, numbers, times and missing values. */
  lemma UserDictPlain(r: UserRow)
    ensures var d := UserDict(r); forall k | k in d :: !d[k].Secret? && !d[k].Flag?
  {
  }

  /** Neither mode leaks the password hash or a boolean flag (`is_admin`, `is_verified`). */
  lemma NoSecretsOrFlags(r: UserRow)
    ensures var d := BuildUsersDict(r.Columns(), "update"); forall k | k in d :: !d[k].Secret? && !d[k].Flag?
    ensures var d := BuildUsersDict(UserTable.Project(r).Columns(), ""); forall k | k in d :: !d[k].Secret? && !d[k].Flag?
  {
    ModesAgree(r);
    UserDictPlain(r);
  }
}
