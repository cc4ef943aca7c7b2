/** The queries on the `users` table, as functions of the table's contents. The
    table is a map from email to row; its invariant is that every row sits under
    its own email, which is the unique constraint on that column. */
module UserTable {
  import opened Http
  import opened PasswordHasher
  import opened UserModel

  type Table = map<string, UserRow>

  predicate KeyedByEmail(t: Table) {
    forall e | e in t :: t[e].email == e
  }

  /** The seven columns `get_user_data` selects: no id, no password. */
  datatype UserData = UserData(
    firstName: string,
    lastName: string,
    email: string,
    profiles: Option<string>,
    otp: int,
    otpExpirationTime: Option<int>,
    isVerified: bool)
  {
    function Columns(): (c: seq<Value>)
      ensures |c| == 7
    {
      [Str(firstName), Str(lastName), Str(email), OptionalText(profiles), Int(otp),
       OptionalTime(otpExpirationTime), Flag(isVerified)]
    }
  }

  function Project(r: UserRow): UserData {
    UserData(r.firstName, r.lastName, r.email, r.profiles, r.otp, r.otpExpirationTime, r.isVerified)
  }

  /** The projection picks the named columns of the full row, in select order,
      and leaves out the id and the password. */
  lemma ProjectionColumns(r: UserRow)
    ensures var c := r.Columns();
      Project(r).Columns() == [c[FIRST_NAME], c[LAST_NAME], c[EMAIL], c[PROFILES], c[OTP],
                               c[OTP_EXPIRATION_TIME], c[IS_VERIFIED]]
    ensures forall v | v in Project(r).Columns() :: !v.Secret?
  {
  }

  /** The columns a caller may supply to `update_user_data`, besides the email it matches on. */
  datatype Patch = Patch(
    password: Option<Digest>,
    otp: Option<int>,
    otpExpirationTime: Option<int>,
    isVerified: Option<bool>,
    deletedAt: Option<int>)
  {
    /** The column indices this patch writes. */
    function Assigned(): set<int> {
      (if password.Some? then {PASSWORD} else {})
      + (if otp.Some? then {OTP} else {})
      + (if otpExpirationTime.Some? then {OTP_EXPIRATION_TIME} else {})
      + (if isVerified.Some? then {IS_VERIFIED} else {})
      + (if deletedAt.Some? then {DELETED_AT} else {})
    }
  }

  const NoChange: Patch := Patch(None, None, None, None, None)

  function Pick<T>(supplied: Option<T>, current: T): T {
    if supplied.Some? then supplied.value else current
  }

  /** The row after an update: the supplied columns take the supplied values, the
      `updated_at` column takes the update time, everything else is kept. */
  function Apply(row: UserRow, p: Patch, now: int): (r: UserRow)
    ensures forall i | 0 <= i < COLUMN_COUNT && i !in p.Assigned() && i != UPDATED_AT ::
      r.Columns()[i] == row.Columns()[i]
    ensures r.updatedAt == now
    ensures p.password.Some? ==> r.password == p.password.value
    ensures p.otp.Some? ==> r.otp == p.otp.value
    ensures p.otpExpirationTime.Some? ==> r.otpExpirationTime == Some(p.otpExpirationTime.value)
    ensures p.isVerified.Some? ==> r.isVerified == p.isVerified.value
    ensures p.deletedAt.Some? ==> r.deletedAt == Some(p.deletedAt.value)
  {
    row.(password := Pick(p.password, row.password),
         otp := Pick(p.otp, row.otp),
         otpExpirationTime := if p.otpExpirationTime.Some? then Some(p.otpExpirationTime.value) else row.otpExpirationTime,
         isVerified := Pick(p.isVerified, row.isVerified),
         deletedAt := if p.deletedAt.Some? then Some(p.deletedAt.value) else row.deletedAt,
         updatedAt := now)
  }

  /** The dictionary `signup` hands to `add_user_to_database`. */
  datatype NewUser = NewUser(
    firstName: string,
    lastName: string,
    email: string,
    password: Digest,
    profiles: Option<string>,
    otp: int,
    isVerified: bool)

  /** The row the database stores for an insert: the id comes from the column
      default, `is_admin` from the server default, both bookkeeping timestamps are
      the insert time, and the OTP expiry and deletion time are NULL. */
  function Inserted(u: NewUser, id: string, now: int): UserRow {
    UserRow(id, u.firstName, u.lastName, u.email, u.password, u.profiles,
            false, u.isVerified, u.otp, None, now, None, now)
  }

  /** The table after a write and what the query returned or raised. */
  datatype Write = Write(table: Table, result: Result<UserRow>)

  /** `check_user`: true when the email is still free. */
  function CheckUser(t: Table, email: string): (absent: bool)
    ensures KeyedByEmail(t) ==> (absent <==> forall e | e in t :: t[e].email != email)
  {
    email !in t
  }

  /** `authenticate_user`: the full row, or 400 when no row has the email. */
  function AuthenticateUser(t: Table, email: string): (r: Result<UserRow>)
    ensures r.Ok? <==> email in t
    ensures r.Ok? ==> r.value == t[email] && (KeyedByEmail(t) ==> r.value.email == email)
    ensures r.Err? ==> r.failure == HttpError(BAD_REQUEST_400, "Incorrect username or password")
  {
    if email in t then Ok(t[email])
    else Err(HttpError(BAD_REQUEST_400, "Incorrect username or password"))
  }

  /** `get_user_data`: the seven-column projection, or 404 when no row has the email. */
  function GetUserData(t: Table, email: string): (r: Result<UserData>)
    ensures r.Ok? <==> email in t
    ensures r.Ok? ==> r.value == Project(t[email]) && (KeyedByEmail(t) ==> r.value.email == email)
    ensures r.Err? ==> r.failure == HttpError(NOT_FOUND_404, "User not exist")
  {
    if email in t then Ok(Project(t[email]))
    else Err(HttpError(NOT_FOUND_404, "User not exist"))
  }

  /** `update_user_data`: merges the supplied columns into the row with the given
      email and returns the whole updated row, or raises 400 when no row matches.
      The email written back is the one matched on, so the table's keys never change. */
  function UpdateUserData(t: Table, email: string, p: Patch, now: int): (w: Write)
    ensures w.table.Keys == t.Keys
    ensures email in t ==> w.table == t[email := Apply(t[email], p, now)] && w.result == Ok(w.table[email])
    ensures email !in t ==> w.table == t && w.result == Err(HttpError(BAD_REQUEST_400, "User not Updated"))
    ensures forall e | e in t && e != email :: w.table[e] == t[e]
    ensures KeyedByEmail(t) ==> KeyedByEmail(w.table)
  {
    if email in t then
      var row := Apply(t[email], p, now);
      Write(t[email := row], Ok(row))
    else
      Write(t, Err(HttpError(BAD_REQUEST_400, "User not Updated")))
  }

  /** `add_user_to_database`: inserts exactly one row; a second row with the same
      email violates the unique constraint and raises 400. */
  function AddUserToDatabase(t: Table, u: NewUser, id: string, now: int): (w: Write)
    ensures u.email in t ==> w == Write(t, Err(HttpError(BAD_REQUEST_400, "Could not register user")))
    ensures u.email !in t ==>
      && w.table == t[u.email := Inserted(u, id, now)]
      && |w.table| == |t| + 1
      && w.result == Ok(Inserted(u, id, now))
    ensures KeyedByEmail(t) ==> KeyedByEmail(w.table)
  {
    if u.email in t then Write(t, Err(HttpError(BAD_REQUEST_400, "Could not register user")))
    else Write(t[u.email := Inserted(u, id, now)], Ok(Inserted(u, id, now)))
  }
}
