/** One row of the `users` table, with its columns in declaration order. The
    email column is unique, so the table is keyed by it (see UserTable). */
module UserModel {
  import opened Http
  import opened PasswordHasher

  /** A column value as the database driver hands it back; timestamps are whole seconds. */
  datatype Value = Str(s: string) | Int(i: int) | Flag(b: bool) | Secret(d: Digest) | Null

  datatype UserRow = UserRow(
    id: string,
    firstName: string,
    lastName: string,
    email: string,
    password: Digest,
    profiles: Option<string>,
    isAdmin: bool,
    isVerified: bool,
    otp: int,
    otpExpirationTime: Option<int>,
    createdAt: int,
    deletedAt: Option<int>,
    updatedAt: int)
  {
    /** The row as the positional tuple `RETURNING` gives back. */
    function Columns(): (c: seq<Value>)
      ensures |c| == COLUMN_COUNT
      ensures c[EMAIL] == Str(email) && c[PASSWORD] == Secret(password)
    {
      [Str(id), Str(firstName), Str(lastName), Str(email), Secret(password),
       OptionalText(profiles), Flag(isAdmin), Flag(isVerified), Int(otp),
       OptionalTime(otpExpirationTime), Int(createdAt), OptionalTime(deletedAt), Int(updatedAt)]
    }
  }

  const COLUMN_COUNT: int := 13
  const ID: int := 0
  const FIRST_NAME: int := 1
  const LAST_NAME: int := 2
  const EMAIL: int := 3
  const PASSWORD: int := 4
  const PROFILES: int := 5
  const IS_ADMIN: int := 6
  const IS_VERIFIED: int := 7
  const OTP: int := 8
  const OTP_EXPIRATION_TIME: int := 9
  const CREATED_AT: int := 10
  const DELETED_AT: int := 11
  const UPDATED_AT: int := 12

  function OptionalText(o: Option<string>): Value {
    match o
    case Some(s) => Str(s)
    case None => Null
  }

  function OptionalTime(o: Option<int>): Value {
    match o
    case Some(t) => Int(t)
    case None => Null
  }
}
