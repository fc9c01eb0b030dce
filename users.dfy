/** backend/api/users.php: list, create, update and delete rows of `users`.
    E-mails are unique (a clash answers 409) and only the MD5 digest of a
    password is ever stored. */
module UsersApi {
  import opened Common
  import opened Store

  /** The JSON body of a POST or PUT. */
  datatype UserInput = UserInput(
    id: Option<int>,
    name: Option<string>,
    email: Option<string>,
    password: Option<string>,
    role: Option<string>)

  /** A row of the listing: `SELECT id, name, email, role` leaves the digest out. */
  datatype UserRow = UserRow(id: int, name: string, email: string, role: Option<string>)

  /** getUsers: every user, without the password column. */
  function ListUsers(users: map<int, User>): (rows: set<UserRow>)
    ensures forall id :: id in users ==> UserRow(id, users[id].name, users[id].email, users[id].role) in rows
    ensures forall row :: row in rows ==>
      && row.id in users
      && row == UserRow(row.id, users[row.id].name, users[row.id].email, users[row.id].role)
  {
    set id | id in users :: UserRow(id, users[id].name, users[id].email, users[id].role)
  }

  /** createUser's guard: name, email and password all non-empty. */
  predicate CreateComplete(input: UserInput) {
    !Blank(input.name) && !Blank(input.email) && !Blank(input.password)
  }

  /** The row createUser inserts: cleaned name and e-mail, the digest of the
      password, and the role as sent or 'view_only' when absent. */
  function NewUser(php: Runtime, input: UserInput): (u: User)
    requires CreateComplete(input)
    ensures u.password == php.md5(input.password.value)
    ensures u.email == php.clean(input.email.value)
    ensures u.role == Some(input.role.GetOr("view_only"))
    ensures input.role.None? ==> u.role == Some("view_only")
  {
    User(php.clean(input.name.value), php.clean(input.email.value),
         php.md5(input.password.value), Some(input.role.GetOr("view_only")))
  }

  /** createUser: an e-mail that is taken violates the unique key (SQLSTATE
      23000), which answers 409. */
  function CreateUserOutcome(t: Tables, php: Runtime, input: UserInput, exec: Exec): (r: Outcome)
    ensures Integrity(t) ==> Integrity(r.tables)
    ensures !CreateComplete(input) ==> r == Outcome(StatusBadRequest, t)
    ensures r.code != StatusCreated ==> r.tables == t
    ensures r.code == StatusConflict <==>
      CreateComplete(input) && exec != Throws && EmailHeldByOther(t.users, php.clean(input.email.value), t.nextUserId)
    ensures r.code == StatusCreated <==>
      CreateComplete(input) && exec.Runs? && !EmailHeldByOther(t.users, php.clean(input.email.value), t.nextUserId)
    // a success adds exactly one row, under the next id, and stores no clear-text password
    ensures r.code == StatusCreated ==>
      && r.tables.users == t.users[t.nextUserId := NewUser(php, input)]
      && r.tables.users[t.nextUserId].password == php.md5(input.password.value)
      && r.tables == t.(users := r.tables.users, nextUserId := t.nextUserId + 1)
  {
    if !CreateComplete(input) then
      Outcome(StatusBadRequest, t)
    else
      var user := NewUser(php, input);
      if exec == Throws then Outcome(StatusServerError, t)
      else if EmailHeldByOther(t.users, user.email, t.nextUserId) then Outcome(StatusConflict, t)
      else if exec == ReturnsFalse then Outcome(StatusUnavailable, t)
      else Outcome(StatusCreated, t.(users := t.users[t.nextUserId := user], nextUserId := t.nextUserId + 1))
  }

  /** The row updateUser writes over the `stored` row: name, e-mail and role are always
      overwritten (an absent role becomes null), the digest only when a
      non-empty password is sent. */
  function UpdatedUser(php: Runtime, input: UserInput, stored: User): (u: User)
    ensures Blank(input.password) ==> u.password == stored.password
    ensures !Blank(input.password) ==> u.password == php.md5(input.password.value)
    ensures u.role == input.role
    ensures u.email == CleanOr(php, input.email)
  {
    User(CleanOr(php, input.name), CleanOr(php, input.email),
         if Blank(input.password) then stored.password else php.md5(input.password.value),
         input.role)
  }

  /** updateUser: an id that matches no row changes nothing and still answers 200. */
  function UpdateUserOutcome(t: Tables, php: Runtime, input: UserInput, exec: Exec): (r: Outcome)
    ensures Integrity(t) ==> Integrity(r.tables)
    ensures BlankInt(input.id) ==> r == Outcome(StatusBadRequest, t)
    ensures r.code != StatusOk ==> r.tables == t
    ensures r.code == StatusConflict <==>
      && !BlankInt(input.id) && exec != Throws && input.id.value in t.users
      && EmailHeldByOther(t.users, CleanOr(php, input.email), input.id.value)
    // an update whose statement runs succeeds unless the e-mail belongs to another user
    ensures r.code == StatusOk <==>
      && !BlankInt(input.id) && exec.Runs?
      && !(input.id.value in t.users && EmailHeldByOther(t.users, CleanOr(php, input.email), input.id.value))
    // only the named row can change
    ensures r.tables == t.(users := r.tables.users)
    ensures r.tables.users.Keys == t.users.Keys
    ensures forall id :: id in t.users && (input.id.None? || id != input.id.value) ==>
      r.tables.users[id] == t.users[id]
    ensures r.code == StatusOk && input.id.value in t.users ==>
      r.tables.users[input.id.value] == UpdatedUser(php, input, t.users[input.id.value])
    // an update without a password keeps the stored digest
    ensures Blank(input.password) && !BlankInt(input.id) && input.id.value in t.users ==>
      r.tables.users[input.id.value].password == t.users[input.id.value].password
  {
    if BlankInt(input.id) then
      Outcome(StatusBadRequest, t)
    else
      var id := input.id.value;
      if exec == Throws then Outcome(StatusServerError, t)
      else if id in t.users && EmailHeldByOther(t.users, CleanOr(php, input.email), id) then Outcome(StatusConflict, t)
      else if exec == ReturnsFalse then Outcome(StatusUnavailable, t)
      else if id in t.users then Outcome(StatusOk, t.(users := t.users[id := UpdatedUser(php, input, t.users[id])]))
      else Outcome(StatusOk, t)
  }

  /** deleteUser: no table references users, so a statement that runs removes the row. */
  function DeleteUserOutcome(t: Tables, id: int, exec: Exec): (r: Outcome)
    ensures Integrity(t) ==> Integrity(r.tables)
    ensures r.code != StatusOk ==> r.tables == t
    ensures r.code == StatusOk <==> exec.Runs?
    ensures r.tables == t.(users := r.tables.users)
    ensures r.code == StatusOk ==> r.tables.users == t.users - {id}
  {
    if exec == Throws then Outcome(StatusServerError, t)
    else if exec == ReturnsFalse then Outcome(StatusUnavailable, t)
    else Outcome(StatusOk, t.(users := t.users - {id}))
  }

  /** getUsers as a read: 500 when the query throws; otherwise 200 with the
      listing, which is empty when `execute()` returns false (nothing to fetch). */
  method GetUsers(db: Database, exec: Exec) returns (code: int, rows: set<UserRow>)
    ensures exec == Throws ==> code == StatusServerError && rows == {}
    ensures exec == ReturnsFalse ==> code == StatusOk && rows == {}
    ensures exec.Runs? ==> code == StatusOk && rows == ListUsers(db.users)
    // no digest leaves the handler: every listed row is some user's public columns
    ensures forall row :: row in rows ==> row.id in db.users && row.email == db.users[row.id].email
  {
    if exec == Throws {
      code, rows := StatusServerError, {};
    } else if exec == ReturnsFalse {
      code, rows := StatusOk, {};
    } else {
      code, rows := StatusOk, ListUsers(db.users);
    }
  }

  method CreateUser(db: Database, php: Runtime, input: UserInput, exec: Exec) returns (code: int)
    requires db.Valid()
    modifies db
    ensures db.Valid()
    ensures Outcome(code, db.Snapshot()) == CreateUserOutcome(old(db.Snapshot()), php, input, exec)
  {
    ghost var before := db.Snapshot();
    if !CreateComplete(input) {
      code := StatusBadRequest;
    } else {
      var user := NewUser(php, input);
      if exec == Throws {
        code := StatusServerError;
      } else if EmailHeldByOther(db.users, user.email, db.nextUserId) {
        code := StatusConflict;
      } else if exec == ReturnsFalse {
        code := StatusUnavailable;
      } else {
        db.users := db.users[db.nextUserId := user];
        db.nextUserId := db.nextUserId + 1;
        code := StatusCreated;
      }
    }
    ghost var expected := CreateUserOutcome(before, php, input, exec);
    assert Outcome(code, db.Snapshot()) == expected;
    assert Integrity(expected.tables);
  }

  method UpdateUser(db: Database, php: Runtime, input: UserInput, exec: Exec) returns (code: int)
    requires db.Valid()
    modifies db
    ensures db.Valid()
    ensures Outcome(code, db.Snapshot()) == UpdateUserOutcome(old(db.Snapshot()), php, input, exec)
  {
    ghost var before := db.Snapshot();
    if BlankInt(input.id) {
      code := StatusBadRequest;
    } else {
      var id := input.id.value;
      if exec == Throws {
        code := StatusServerError;
      } else if id in db.users && EmailHeldByOther(db.users, CleanOr(php, input.email), id) {
        code := StatusConflict;
      } else if exec == ReturnsFalse {
        code := StatusUnavailable;
      } else {
        if id in db.users {
          db.users := db.users[id := UpdatedUser(php, input, db.users[id])];
        }
        code := StatusOk;
      }
    }
    ghost var expected := UpdateUserOutcome(before, php, input, exec);
    assert Outcome(code, db.Snapshot()) == expected;
    assert Integrity(expected.tables);
  }

  method DeleteUser(db: Database, id: int, exec: Exec) returns (code: int)
    requires db.Valid()
    modifies db
    ensures db.Valid()
    ensures Outcome(code, db.Snapshot()) == DeleteUserOutcome(old(db.Snapshot()), id, exec)
  {
    ghost var before := db.Snapshot();
    if exec == Throws {
      code := StatusServerError;
    } else if exec == ReturnsFalse {
      code := StatusUnavailable;
    } else {
      db.users := db.users - {id};
      code := StatusOk;
    }
    ghost var expected := DeleteUserOutcome(before, id, exec);
    assert Outcome(code, db.Snapshot()) == expected;
    assert Integrity(expected.tables);
  }

  /** The request dispatch: OPTIONS exits at once, GET lists, POST creates, PUT
      updates, DELETE needs `?id=`, anything else is 405. */
  method HandleUsers(db: Database, php: Runtime, verb: Method, input: UserInput, queryId: Option<int>, exec: Exec)
    returns (code: int, rows: set<UserRow>)
    requires db.Valid()
    modifies db
    ensures db.Valid()
    ensures !verb.Get? ==> rows == {}
    ensures verb.Options? || verb.Get? || verb.OtherMethod? || (verb.Delete? && queryId.None?) ==> unchanged(db)
    ensures verb.Options? ==> code == StatusOk
    ensures verb.Get? && exec.Runs? ==> code == StatusOk && rows == ListUsers(db.users)
    ensures verb.Get? && exec == Throws ==> code == StatusServerError
    ensures verb.Post? ==>
      Outcome(code, db.Snapshot()) == CreateUserOutcome(old(db.Snapshot()), php, input, exec)
    ensures verb.Put? ==>
      Outcome(code, db.Snapshot()) == UpdateUserOutcome(old(db.Snapshot()), php, input, exec)
    ensures verb.Delete? && queryId.None? ==> code == StatusBadRequest
    ensures verb.Delete? && queryId.Some? ==>
      Outcome(code, db.Snapshot()) == DeleteUserOutcome(old(db.Snapshot()), queryId.value, exec)
    ensures verb.OtherMethod? ==> code == StatusMethodNotAllowed
  {
    rows := {};
    match verb
    case Options => code := StatusOk;
    case Get => code, rows := GetUsers(db, exec);
    case Post => code := CreateUser(db, php, input, exec);
    case Put => code := UpdateUser(db, php, input, exec);
    case Delete =>
      if queryId.Some? {
        code := DeleteUser(db, queryId.value, exec);
      } else {
        code := StatusBadRequest;
      }
    case OtherMethod(_) => code := StatusMethodNotAllowed;
  }
}
