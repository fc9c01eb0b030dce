/** backend/api/auth.php: the login endpoint. A user is let in iff some row
    holds the cleaned e-mail and the digest of the sent password; the answer
    carries that user's public columns and never the digest. */
module AuthApi {
  import opened Common
  import opened Store

  /** The JSON body of a login request. */
  datatype Credentials = Credentials(email: Option<string>, password: Option<string>)

  /** The `user` member of a successful answer. */
  datatype PublicUser = PublicUser(id: int, name: string, email: string, role: Option<string>)

  datatype LoginReply = LoginReply(code: int, user: Option<PublicUser>)

  /** What an endpoint request produces: an HTTP answer, or nothing at all
      (the script ends with no status set and no body). */
  datatype AuthReply = Answer(reply: LoginReply) | Silent

  /** True iff user `id` matches the e-mail and digest the query binds. */
  predicate Matches(users: map<int, User>, id: int, email: string, digest: string) {
    id in users && users[id].email == email && users[id].password == digest
  }

  /** login: `SELECT id, name, email, role FROM users WHERE email = :email AND
      password = :password`, answered 200 with the matching row, 401 with no row,
      and 400 when either member is empty. `query` is how the statement fares:
      the handler has no try/catch, so a throwing query is an uncaught exception
      and PHP answers 500; one whose `execute()` returns false counts no rows.
      The unique key on e-mails makes the matching row unique. */
  function Login(users: map<int, User>, php: Runtime, creds: Credentials, query: Exec): (r: LoginReply)
    requires UniqueEmails(users)
    ensures r.code in {StatusOk, StatusUnauthorized, StatusBadRequest, StatusServerError}
    ensures r.user.Some? <==> r.code == StatusOk
    // 400 exactly when a member is empty, before any lookup
    ensures r.code == StatusBadRequest <==> Blank(creds.email) || Blank(creds.password)
    ensures r.code == StatusServerError <==> !Blank(creds.email) && !Blank(creds.password) && query == Throws
    // 200 exactly when the query runs and some user has that e-mail and md5 of the password as digest
    ensures r.code == StatusOk <==>
      && !Blank(creds.email) && !Blank(creds.password) && query.Runs?
      && exists id :: Matches(users, id, php.clean(creds.email.value), php.md5(creds.password.value))
    // the answer describes a matching user, without the digest
    ensures r.code == StatusOk ==>
      var u := r.user.value;
      && Matches(users, u.id, php.clean(creds.email.value), php.md5(creds.password.value))
      && u == PublicUser(u.id, users[u.id].name, users[u.id].email, users[u.id].role)
  {
    if Blank(creds.email) || Blank(creds.password) then
      LoginReply(StatusBadRequest, None)
    else if query == Throws then
      LoginReply(StatusServerError, None)
    else
      var email, digest := php.clean(creds.email.value), php.md5(creds.password.value);
      if query.Runs? && exists id | id in users :: Matches(users, id, email, digest) then
        var id :| id in users && Matches(users, id, email, digest);
        LoginReply(StatusOk, Some(PublicUser(id, users[id].name, users[id].email, users[id].role)))
      else
        LoginReply(StatusUnauthorized, None)
  }

  /** With unique e-mails (the schema's unique key) a successful login names the
      one user whose e-mail was sent. */
  lemma LoginIdentifiesUser(users: map<int, User>, php: Runtime, id: int, creds: Credentials, query: Exec)
    requires UniqueEmails(users) && id in users
    requires !Blank(creds.email) && php.clean(creds.email.value) == users[id].email
    requires Login(users, php, creds, query).code == StatusOk
    ensures Login(users, php, creds, query).user.value.id == id
  {
    var u := Login(users, php, creds, query).user.value;
    assert users[u.id].email == users[id].email;
  }

  /** After a user's digest is replaced by the digest of a new password, the new
      password logs that user in, and (e-mails being unique) any password with a
      different digest is refused. */
  lemma LoginAfterPasswordChange(users: map<int, User>, php: Runtime, id: int, newPassword: string, creds: Credentials)
    requires UniqueEmails(users) && id in users
    requires !Blank(creds.email) && !Blank(creds.password)
    requires php.clean(creds.email.value) == users[id].email
    ensures var changed := users[id := users[id].(password := php.md5(newPassword))];
      && (creds.password.value == newPassword ==>
            Login(changed, php, creds, Runs).code == StatusOk && Login(changed, php, creds, Runs).user.value.id == id)
      && (php.md5(creds.password.value) != php.md5(newPassword) ==>
            Login(changed, php, creds, Runs).code == StatusUnauthorized)
  {
    var changed := users[id := users[id].(password := php.md5(newPassword))];
    assert UniqueEmails(changed) by {
      forall a, b | a in changed && b in changed && changed[a].email == changed[b].email
        ensures a == b
      {
        assert users[a].email == changed[a].email && users[b].email == changed[b].email;
      }
    }
    if creds.password.value == newPassword {
      assert Matches(changed, id, php.clean(creds.email.value), php.md5(creds.password.value));
      LoginIdentifiesUser(changed, php, id, creds, Runs);
    }
  }

  /** The request dispatch: OPTIONS exits at once, POST with `?action=login`
      logs in, POST without it falls through the switch silently, and any
      other method answers 405. */
  function HandleAuth(users: map<int, User>, php: Runtime, verb: Method, action: Option<string>, creds: Credentials, query: Exec): (r: AuthReply)
    requires UniqueEmails(users)
    ensures verb.Options? ==> r == Silent
    ensures verb.Post? && action != Some("login") ==> r == Silent
    ensures verb.Post? && action == Some("login") ==> r == Answer(Login(users, php, creds, query))
    ensures !verb.Post? && !verb.Options? ==> r == Answer(LoginReply(StatusMethodNotAllowed, None))
  {
    match verb
    case Options => Silent
    case Post => if action == Some("login") then Answer(Login(users, php, creds, query)) else Silent
    case _ => Answer(LoginReply(StatusMethodNotAllowed, None))
  }
}
