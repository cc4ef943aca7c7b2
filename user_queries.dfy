/** The credential store: the `users` table held in one object whose query
    methods read or rewrite it, each proved against its function in UserTable. */
module UserQueries {
  import opened Http
  import opened UserModel
  import UserTable

  class UserQuery {
    var rows: UserTable.Table

    ghost predicate Valid()
      reads this
    {
      UserTable.KeyedByEmail(rows)
    }

    constructor ()
      ensures Valid() && rows == map[]
    {
      rows := map[];
    }

    method AuthenticateUser(email: string) returns (r: Result<UserRow>)
      ensures r == UserTable.AuthenticateUser(rows, email)
    {
      if email in rows {
        r := Ok(rows[email]);
      } else {
        r := Err(HttpError(BAD_REQUEST_400, "Incorrect username or password"));
      }
    }

    method CheckUser(email: string) returns (absent: bool)
      ensures absent == UserTable.CheckUser(rows, email)
    {
      absent := email !in rows;
    }

    method GetUserData(email: string) returns (r: Result<UserTable.UserData>)
      ensures r == UserTable.GetUserData(rows, email)
    {
      if email in rows {
        r := Ok(UserTable.Project(rows[email]));
      } else {
        r := Err(HttpError(NOT_FOUND_404, "User not exist"));
      }
    }

    method UpdateUserData(email: string, patch: UserTable.Patch, now: int) returns (r: Result<UserRow>)
      requires Valid()
      modifies this
      ensures Valid()
      ensures rows == UserTable.UpdateUserData(old(rows), email, patch, now).table
      ensures r == UserTable.UpdateUserData(old(rows), email, patch, now).result
    {
      if email in rows {
        var row := UserTable.Apply(rows[email], patch, now);
        rows := rows[email := row];
        r := Ok(row);
      } else {
        r := Err(HttpError(BAD_REQUEST_400, "User not Updated"));
      }
    }

    method AddUserToDatabase(user: UserTable.NewUser, id: string, now: int) returns (r: Result<UserRow>)
      requires Valid()
      modifies this
      ensures Valid()
      ensures rows == UserTable.AddUserToDatabase(old(rows), user, id, now).table
      ensures r == UserTable.AddUserToDatabase(old(rows), user, id, now).result
    {
      if user.email in rows {
        r := Err(HttpError(BAD_REQUEST_400, "Could not register user"));
      } else {
        var row := UserTable.Inserted(user, id, now);
        rows := rows[user.email := row];
        r := Ok(row);
      }
    }
  }
}
