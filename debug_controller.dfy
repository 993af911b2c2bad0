/** backend/controllers/debug_controller.go: the two debugging endpoints,
    reachable without a token: resetting any user's password by username,
    and creating a fixed manager account. */
module DebugController {
  import opened Wrappers
  import opened Models
  import opened Http
  import opened Store
  import opened UserController

  // ---------------------------------------------------- ResetUserPassword

  datatype PasswordReset = PasswordReset(username: string, newPassword: string)

  /** Both fields are required, the new password at least 6 characters. */
  predicate PasswordResetBinds(req: PasswordReset)
  {
    req.username != "" && |req.newPassword| >= 6
  }

  /** The lookup by username only (an email does not match). */
  function FindByUsername(users: map<nat, User>, n: nat, username: string): (k: Option<nat>)
    ensures k.Some? ==> k.value in users && !users[k.value].deleted && users[k.value].username == username
    ensures k.None? <==> forall j :: j < n && j in users && !users[j].deleted ==> users[j].username != username
  {
    FirstKey(users, n, (u: User) => !u.deleted && u.username == username)
  }

  /** The failure `ResetUserPassword` answers with, in check order: the
      body, the user, the hashing. */
  function ResetFailure(users: map<nat, User>, n: nat, body: Option<PasswordReset>, hashed: Option<string>): Option<Status>
  {
    if body.None? || !PasswordResetBinds(body.value) then Some(BadRequest)
    else if FindByUsername(users, n, body.value.username).None? then Some(NotFound)
    else if hashed.None? then Some(InternalServerError)
    else None
  }

  /** A reset goes through exactly when both fields are given, the new
      password has at least 6 characters, a live user has that username
      (an email does not count), and hashing succeeds. */
  lemma ResetFailureMeaning(users: map<nat, User>, n: nat, req: PasswordReset, hashed: Option<string>)
    requires UsersKeyed(users, n)
    ensures ResetFailure(users, n, Some(req), hashed).None? <==>
              && req.username != "" && |req.newPassword| >= 6 && hashed.Some?
              && exists k :: k in users && !users[k].deleted && users[k].username == req.username
    ensures PasswordResetBinds(req) &&
            (forall k :: k in users && !users[k].deleted ==> users[k].username != req.username)
            ==> ResetFailure(users, n, Some(req), hashed) == Some(NotFound)
  {
    if exists k :: k in users && !users[k].deleted && users[k].username == req.username {
      var k :| k in users && !users[k].deleted && users[k].username == req.username;
      assert k < n;
    }
  }

  /** `ResetUserPassword`: replaces the password hash of the live user with
      that username, and nothing else; on a failure nothing is stored. */
  method ResetUserPassword(db: Database, body: Option<PasswordReset>, hashed: Option<string>) returns (r: Reply<UserView>)
    requires db.Valid()
    modifies db
    ensures db.Valid()
    ensures var failure := ResetFailure(old(db.users), old(db.nextUserId), body, hashed);
            && (failure.Some? ==> r == Fail(failure.value) && unchanged(db))
            && (failure.None? ==>
                  var id := FindByUsername(old(db.users), old(db.nextUserId), body.value.username).value;
                  var u := old(db.users)[id].(passwordHash := hashed.value);
                  && r == Ok(OK, View(old(db.users)[id]))
                  && db.State() == old(db.State()).(users := old(db.users)[id := u]))
  {
    if body.None? || !PasswordResetBinds(body.value) {
      return Fail(BadRequest);
    }
    var req := body.value;
    var found := FindByUsername(db.users, db.nextUserId, req.username);
    if found.None? {
      return Fail(NotFound);
    }
    if hashed.None? {
      return Fail(InternalServerError);
    }
    var u := db.users[found.value].(passwordHash := hashed.value);
    SaveKeepsCredentialsUnique(db.users, u);
    db.users := db.users[u.id := u];
    ViewHidesPasswordHash(old(db.users)[u.id], hashed.value);
    return Ok(OK, View(u));
  }

  // ------------------------------------------------------- CreateTestUser

  const TestUsername: string := "testuser"
  const TestEmail: string := "test@example.com"
  const TestPassword: string := "test123"
  const TestFullName: string := "Тестовый Пользователь"

  /** The account `CreateTestUser` inserts: a manager. */
  function TestUser(id: nat, hash: string): (u: User)
    ensures u.id == id && u.username == TestUsername && u.email == TestEmail
    ensures u.role == Manager && !u.deleted
  {
    User(id, TestUsername, TestEmail, hash, TestFullName, Manager, false)
  }

  /** The answer: the user, and the plain password when it was just
      created. */
  datatype TestUserReply = TestUserReply(user: UserView, password: Option<string>)

  /** `CreateTestUser`: answers 200 with the existing account when a live
      user holds the test username or email, changing nothing; otherwise
      inserts the manager account and answers 201 with it and its
      password. */
  method CreateTestUser(db: Database, hashed: Option<string>) returns (r: Reply<TestUserReply>)
    requires db.Valid()
    modifies db
    ensures db.Valid()
    ensures var existing := FindByUsernameOrEmail(old(db.users), old(db.nextUserId), TestUsername, TestEmail);
            && (existing.Some? ==>
                  r == Ok(OK, TestUserReply(View(old(db.users)[existing.value]), None)) && unchanged(db))
            && (existing.None? && (hashed.None? || Collides(old(db.users), TestUsername, TestEmail)) ==>
                  r == Fail(InternalServerError) && unchanged(db))
            && (existing.None? && hashed.Some? && !Collides(old(db.users), TestUsername, TestEmail) ==>
                  var u := TestUser(old(db.nextUserId), hashed.value);
                  && r == Ok(Created, TestUserReply(View(u), Some(TestPassword)))
                  && db.State() == old(db.State()).(users := old(db.users)[u.id := u],
                                                    nextUserId := old(db.nextUserId) + 1))
  {
    var existing := FindByUsernameOrEmail(db.users, db.nextUserId, TestUsername, TestEmail);
    if existing.Some? {
      return Ok(OK, TestUserReply(View(db.users[existing.value]), None));
    }
    if hashed.None? {
      return Fail(InternalServerError);
    }
    if Collides(db.users, TestUsername, TestEmail) {
      return Fail(InternalServerError);
    }
    var u := TestUser(db.nextUserId, hashed.value);
    InsertKeepsCredentialsUnique(db.users, u);
    db.users := db.users[u.id := u];
    db.nextUserId := db.nextUserId + 1;
    return Ok(Created, TestUserReply(View(u), Some(TestPassword)));
  }

  /** Once the test account is inserted, the lookup `CreateTestUser` starts
      with finds it, so a second call creates nothing. */
  lemma TestUserCreationIsIdempotent(users: map<nat, User>, n: nat, hash: string)
    requires UsersKeyed(users, n)
    ensures FindByUsernameOrEmail(users[n := TestUser(n, hash)], n + 1, TestUsername, TestEmail).Some?
  {
    var after := users[n := TestUser(n, hash)];
    assert n in after && !after[n].deleted && after[n].username == TestUsername;
  }
}
