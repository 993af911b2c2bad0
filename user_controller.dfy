/** backend/controllers/user_controller.go: registration, login, the
    caller's profile, the user lists and the manager's role change. Each
    handler is a method on the store; the request body arrives already
    decoded (`None` is a body that is not JSON of the expected shape), and
    bcrypt is replaced by its results: the hash `Register` would store
    (`None` when hashing fails) and a password check `verify(hash, pw)`. */
module UserController {
  import opened Wrappers
  import opened Models
  import opened Http
  import opened Strconv
  import opened Store
  import opened Auth

  // ------------------------------------------------------------- lookups

  /** The lookup `Register` and `CreateTestUser` make: the first live user
      holding the username, or holding the email. */
  function FindByUsernameOrEmail(users: map<nat, User>, n: nat, username: string, email: string): (k: Option<nat>)
    ensures k.None? <==>
              forall j :: j < n && j in users && !users[j].deleted ==>
                users[j].username != username && users[j].email != email
    ensures k.Some? ==> k.value in users && !users[k.value].deleted
  {
    FirstKey(users, n, (u: User) => !u.deleted && (u.username == username || u.email == email))
  }

  /** The lookup `Login` makes: the first live user whose username or whose
      email is the identifier. */
  function LoginLookup(users: map<nat, User>, n: nat, ident: string): (k: Option<nat>)
    ensures k.Some? ==> k.value < n && k.value in users && !users[k.value].deleted
                        && (users[k.value].username == ident || users[k.value].email == ident)
    ensures k.Some? ==> forall j :: (j < n && j in users && !users[j].deleted
                                     && (users[j].username == ident || users[j].email == ident)) ==> k.value <= j
    ensures k.None? <==> forall j :: j < n && j in users && !users[j].deleted ==>
                           users[j].username != ident && users[j].email != ident
  {
    FindByUsernameOrEmail(users, n, ident, ident)
  }

  // ------------------------------------------------------------ Register

  /** The row `Register` inserts: the role is the column default, since the
      registration payload has no role. */
  function NewUser(id: nat, reg: UserRegistration, hash: string): (u: User)
    ensures u.id == id && u.username == reg.username && u.email == reg.email
    ensures u.role == Observer && !u.deleted && u.passwordHash == hash
  {
    User(id, reg.username, reg.email, hash, reg.fullName, DefaultRole, false)
  }

  /** The failure `Register` answers with, in the order its checks run, or
      none when the row is inserted. */
  function RegisterFailure(users: map<nat, User>, n: nat, body: Option<UserRegistration>,
                           emailFormatOk: bool, hashed: Option<string>): Option<Status>
  {
    if body.None? || !RegistrationBinds(body.value, emailFormatOk) then Some(BadRequest)
    else if FindByUsernameOrEmail(users, n, body.value.username, body.value.email).Some? then Some(BadRequest)
    else if hashed.None? then Some(InternalServerError)
    else if Collides(users, body.value.username, body.value.email) then Some(InternalServerError)
    else None
  }

  /** Registration is refused with 400 when a live user already has the
      username or the email; with 500 when only a deleted row does, which
      the unique index still sees; and it goes through only for a valid
      payload whose username and email no row holds. */
  lemma RegisterFailureMeaning(users: map<nat, User>, n: nat, reg: UserRegistration,
                               emailFormatOk: bool, hashed: Option<string>)
    requires UsersKeyed(users, n)
    requires RegistrationBinds(reg, emailFormatOk)
    ensures (exists k :: k in users && !users[k].deleted &&
               (users[k].username == reg.username || users[k].email == reg.email))
            ==> RegisterFailure(users, n, Some(reg), emailFormatOk, hashed) == Some(BadRequest)
    ensures RegisterFailure(users, n, Some(reg), emailFormatOk, hashed).None?
            <==> hashed.Some? && !Collides(users, reg.username, reg.email)
  {
    if exists k :: k in users && !users[k].deleted &&
                   (users[k].username == reg.username || users[k].email == reg.email) {
      var k :| k in users && !users[k].deleted &&
               (users[k].username == reg.username || users[k].email == reg.email);
      assert k < n;
    }
    if hashed.Some? && !Collides(users, reg.username, reg.email) {
      assert FindByUsernameOrEmail(users, n, reg.username, reg.email).None?;
    }
  }

  /** A payload that breaks a binding rule is refused with 400 before the
      table is consulted, whatever it holds. */
  lemma RegisterValidatesPayload(users: map<nat, User>, n: nat, reg: UserRegistration,
                                 emailFormatOk: bool, hashed: Option<string>)
    requires |reg.username| < 3 || |reg.username| > 50 || reg.email == "" || !emailFormatOk
             || |reg.password| < 6 || reg.fullName == ""
    ensures RegisterFailure(users, n, Some(reg), emailFormatOk, hashed) == Some(BadRequest)
    ensures RegisterFailure(users, n, Some(reg), emailFormatOk, hashed)
            == RegisterFailure(map[], 0, Some(reg), emailFormatOk, hashed)
  {
  }

  /** `Register`: inserts an observer with the given username, email, full
      name and hash, and answers 201 with the new user; on any failure
      nothing is stored. */
  method Register(db: Database, body: Option<UserRegistration>, emailFormatOk: bool, hashed: Option<string>)
    returns (r: Reply<UserView>)
    requires db.Valid()
    modifies db
    ensures db.Valid()
    ensures var failure := RegisterFailure(old(db.users), old(db.nextUserId), body, emailFormatOk, hashed);
            && (failure.Some? ==> r == Fail(failure.value) && unchanged(db))
            && (failure.None? ==>
                  var u := NewUser(old(db.nextUserId), body.value, hashed.value);
                  && r == Ok(Created, View(u))
                  && db.State() == old(db.State()).(users := old(db.users)[u.id := u],
                                                    nextUserId := old(db.nextUserId) + 1))
  {
    if body.None? || !RegistrationBinds(body.value, emailFormatOk) {
      return Fail(BadRequest);
    }
    var reg := body.value;
    var existing := FindByUsernameOrEmail(db.users, db.nextUserId, reg.username, reg.email);
    if existing.Some? {
      return Fail(BadRequest);
    }
    if hashed.None? {
      return Fail(InternalServerError);
    }
    if Collides(db.users, reg.username, reg.email) {
      return Fail(InternalServerError);
    }
    var u := NewUser(db.nextUserId, reg, hashed.value);
    InsertKeepsCredentialsUnique(db.users, u);
    db.users := db.users[u.id := u];
    db.nextUserId := db.nextUserId + 1;
    return Ok(Created, View(u));
  }

  // --------------------------------------------------------------- Login

  /** A successful login: the claims signed into the token and the user. */
  datatype Session = Session(claims: Claims, user: UserView)

  /** `Login`: the identifier is matched against usernames and emails of
      live users, the first match's hash is checked, and an unknown
      identifier and a wrong password get the same 401. */
  method Login(db: Database, body: Option<UserLogin>, verify: (string, string) -> bool,
               expirationHrs: int, now: int)
    returns (r: Reply<Session>)
    requires db.Valid()
    ensures body.None? || !LoginBinds(body.value) ==> r == Fail(BadRequest)
    ensures body.Some? && LoginBinds(body.value) && LoginLookup(db.users, db.nextUserId, body.value.username).None?
            ==> r == Fail(Unauthorized)
    ensures body.Some? && LoginBinds(body.value) && LoginLookup(db.users, db.nextUserId, body.value.username).Some?
            ==> var u := db.users[LoginLookup(db.users, db.nextUserId, body.value.username).value];
                r == (if verify(u.passwordHash, body.value.password)
                      then Ok(OK, Session(IssueClaims(u, expirationHrs, now), View(u)))
                      else Fail(Unauthorized))
    ensures r.Ok? ==> r.body.claims.userId == r.body.user.id && r.body.claims.role == r.body.user.role
  {
    if body.None? || !LoginBinds(body.value) {
      return Fail(BadRequest);
    }
    var login := body.value;
    var found := LoginLookup(db.users, db.nextUserId, login.username);
    if found.None? {
      return Fail(Unauthorized);
    }
    var u := db.users[found.value];
    if !verify(u.passwordHash, login.password) {
      return Fail(Unauthorized);
    }
    var claims := IssueClaims(u, expirationHrs, now);
    return Ok(OK, Session(claims, View(u)));
  }

  // ---------------------------------------------------------- GetProfile

  /** `GetProfile`: the live user whose id is the caller's own, 401 when
      the context has no user id, 404 when that user is gone. */
  method GetProfile(db: Database, values: ContextValues) returns (r: Reply<UserView>)
    requires db.Valid()
    ensures values.userID.None? ==> r == Fail(Unauthorized)
    ensures values.userID.Some? ==>
              if values.userID.value in db.users && !db.users[values.userID.value].deleted
              then r == Ok(OK, View(db.users[values.userID.value]))
              else r == Fail(NotFound)
    ensures r.Ok? ==> Some(r.body.id) == values.userID
  {
    if values.userID.None? {
      return Fail(Unauthorized);
    }
    var found := LiveUser(db.users, values.userID.value);
    if found.None? {
      return Fail(NotFound);
    }
    return Ok(OK, View(found.value));
  }

  // --------------------------------------------------- user listings

  /** The loop that builds the response list: each user with its password
      hash left out, in the order read. */
  method SafeUsers(rows: seq<User>) returns (views: seq<UserView>)
    ensures |views| == |rows|
    ensures forall i :: 0 <= i < |rows| ==> views[i] == View(rows[i])
  {
    views := [];
    var i := 0;
    while i < |rows|
      invariant 0 <= i <= |rows|
      invariant |views| == i
      invariant forall j :: 0 <= j < i ==> views[j] == View(rows[j])
    {
      views := views + [View(rows[i])];
      i := i + 1;
    }
  }

  /** `GetAllUsers`: every live user (listed in ascending key order). */
  method GetAllUsers(db: Database) returns (r: Reply<seq<UserView>>)
    requires db.Valid()
    ensures r.Ok? && r.status == OK
    ensures forall i :: 0 <= i < |r.body| ==>
              r.body[i].id in db.users && !db.users[r.body[i].id].deleted
              && r.body[i] == View(db.users[r.body[i].id])
    ensures forall k :: k in db.users && !db.users[k].deleted ==>
              exists i :: 0 <= i < |r.body| && r.body[i].id == k
    ensures forall i, j :: 0 <= i < j < |r.body| ==> r.body[i].id < r.body[j].id
  {
    var ks := KeysBelow(db.users, db.nextUserId, (u: User) => !u.deleted);
    var rows := RowsAt(db.users, ks);
    var views := SafeUsers(rows);
    forall k | k in db.users && !db.users[k].deleted
      ensures exists i :: 0 <= i < |views| && views[i].id == k
    {
      assert k in ks;
      var i :| 0 <= i < |ks| && ks[i] == k;
      assert views[i].id == k;
    }
    return Ok(OK, views);
  }

  /** Which users `GetEngineers` lists: live engineers, the caller left out
      when the caller is an engineer. */
  predicate ListedAsEngineer(u: User, values: ContextValues)
  {
    !u.deleted && u.role == Engineer
    && !(values.role == Some(Engineer) && values.userID == Some(u.id))
  }

  /** `GetEngineers`: the live engineers, without the calling engineer. */
  method GetEngineers(db: Database, values: ContextValues) returns (r: Reply<seq<UserView>>)
    requires db.Valid()
    ensures r.Ok? && r.status == OK
    ensures forall i :: 0 <= i < |r.body| ==>
              r.body[i].id in db.users && ListedAsEngineer(db.users[r.body[i].id], values)
              && r.body[i] == View(db.users[r.body[i].id])
    ensures forall k :: k in db.users && ListedAsEngineer(db.users[k], values) ==>
              exists i :: 0 <= i < |r.body| && r.body[i].id == k
    ensures forall i :: 0 <= i < |r.body| ==> r.body[i].role == Engineer
    ensures values.role == Some(Engineer) && values.userID.Some? ==>
              forall i :: 0 <= i < |r.body| ==> r.body[i].id != values.userID.value
  {
    var ks := KeysBelow(db.users, db.nextUserId, (u: User) => ListedAsEngineer(u, values));
    var rows := RowsAt(db.users, ks);
    var views := SafeUsers(rows);
    forall k | k in db.users && ListedAsEngineer(db.users[k], values)
      ensures exists i :: 0 <= i < |views| && views[i].id == k
    {
      assert k in ks;
      var i :| 0 <= i < |ks| && ks[i] == k;
      assert views[i].id == k;
    }
    return Ok(OK, views);
  }

  // ------------------------------------------------------ UpdateUserRole

  const TwoTo64: int := 0x1_0000_0000_0000_0000

  /** The self-change ban: the caller's id compared with `uint(targetID)`,
      the target converted to a 64-bit unsigned value (a negative target
      wraps). Without a user id in the context the ban does not apply. */
  predicate IsOwnAccount(actor: Option<nat>, targetID: int)
  {
    actor.Some? && actor.value == targetID % TwoTo64
  }

  /** The failure `UpdateUserRole` answers with, in the order its checks
      run: the id text, the self-change ban (before the body is read), the
      body, the role name, the target's existence. */
  function RoleChangeFailure(users: map<nat, User>, actor: Option<nat>, idText: string, body: Option<string>): Option<Status>
  {
    if Atoi(idText).None? then Some(BadRequest)
    else if IsOwnAccount(actor, Atoi(idText).value) then Some(Forbidden)
    else if body.None? || body.value == "" then Some(BadRequest)
    else if ParseRole(body.value).None? then Some(BadRequest)
    else if LiveUser(users, Atoi(idText).value).None? then Some(NotFound)
    else None
  }

  /** A caller can never change their own role, whatever the body says;
      and a change goes through exactly for a decimal id of another live
      user and one of the three role names. */
  lemma RoleChangeFailureMeaning(users: map<nat, User>, actor: nat, idText: string, body: Option<string>)
    ensures Atoi(idText) == Some(actor as int) ==>
              RoleChangeFailure(users, Some(actor), idText, body) == Some(Forbidden)
    ensures RoleChangeFailure(users, Some(actor), idText, body).None? <==>
              && Atoi(idText).Some? && 0 <= Atoi(idText).value && Atoi(idText).value != actor
              && Atoi(idText).value in users && !users[Atoi(idText).value].deleted
              && body.Some? && ParseRole(body.value).Some?
  {
    if Atoi(idText).Some? && 0 <= Atoi(idText).value {
      var t := Atoi(idText).value;
      assert InInt64(t);
      assert t % TwoTo64 == t;
    }
  }

  /** `UpdateUserRole`: sets the target's role and nothing else; on any
      failure nothing is stored. */
  method UpdateUserRole(db: Database, values: ContextValues, idText: string, body: Option<string>)
    returns (r: Reply<UserView>)
    requires db.Valid()
    modifies db
    ensures db.Valid()
    ensures var failure := RoleChangeFailure(old(db.users), values.userID, idText, body);
            && (failure.Some? ==> r == Fail(failure.value) && unchanged(db))
            && (failure.None? ==>
                  var id := Atoi(idText).value as nat;
                  var u := old(db.users)[id].(role := ParseRole(body.value).value);
                  && r == Ok(OK, View(u))
                  && db.State() == old(db.State()).(users := old(db.users)[id := u]))
  {
    var targetID := Atoi(idText);
    if targetID.None? {
      return Fail(BadRequest);
    }
    if IsOwnAccount(values.userID, targetID.value) {
      return Fail(Forbidden);
    }
    if body.None? || body.value == "" {
      return Fail(BadRequest);
    }
    var role := ParseRole(body.value);
    if role.None? {
      return Fail(BadRequest);
    }
    var found := LiveUser(db.users, targetID.value);
    if found.None? {
      return Fail(NotFound);
    }
    var u := found.value.(role := role.value);
    SaveKeepsCredentialsUnique(db.users, u);
    db.users := db.users[u.id := u];
    return Ok(OK, View(u));
  }

  // ----------------------------------------- registering, then logging in

  /** The check `Register` would need for the new user to be found again by
      `Login`: besides the same username or email, no live user's email may
      equal the new username and no live user's username the new email. */
  predicate CredentialsClash(users: map<nat, User>, n: nat, username: string, email: string)
  {
    exists j :: j < n && j in users && !users[j].deleted &&
      (users[j].username == username || users[j].email == email
       || users[j].email == username || users[j].username == email)
  }

  /** With that check passed, a newly inserted user is the one `Login`
      finds, by username and by email alike. */
  lemma LoginFindsRegisteredUser(users: map<nat, User>, n: nat, reg: UserRegistration, hash: string)
    requires UsersKeyed(users, n)
    requires !CredentialsClash(users, n, reg.username, reg.email)
    ensures LoginLookup(users[n := NewUser(n, reg, hash)], n + 1, reg.username) == Some(n)
    ensures LoginLookup(users[n := NewUser(n, reg, hash)], n + 1, reg.email) == Some(n)
  {
    var u := NewUser(n, reg, hash);
    var after := users[n := u];
    assert n !in users;
    assert n in after && !after[n].deleted && after[n].username == reg.username && after[n].email == reg.email;
  }

  /** The registration check with the duplicate test widened to
      `CredentialsClash`; the other checks and their order are unchanged. */
  function RegisterFailureCorrected(users: map<nat, User>, n: nat, body: Option<UserRegistration>,
                                    emailFormatOk: bool, hashed: Option<string>): Option<Status>
  {
    if body.None? || !RegistrationBinds(body.value, emailFormatOk) then Some(BadRequest)
    else if CredentialsClash(users, n, body.value.username, body.value.email) then Some(BadRequest)
    else if hashed.None? then Some(InternalServerError)
    else if Collides(users, body.value.username, body.value.email) then Some(InternalServerError)
    else None
  }

  /** The corrected check refuses everything the original refuses, and a
      user it lets through can log in by username and by email. */
  lemma CorrectedRegistrationCanLogIn(users: map<nat, User>, n: nat, reg: UserRegistration,
                                      emailFormatOk: bool, hashed: Option<string>)
    requires UsersKeyed(users, n)
    requires RegisterFailureCorrected(users, n, Some(reg), emailFormatOk, hashed).None?
    ensures RegisterFailure(users, n, Some(reg), emailFormatOk, hashed).None?
    ensures LoginLookup(users[n := NewUser(n, reg, hashed.value)], n + 1, reg.username) == Some(n)
    ensures LoginLookup(users[n := NewUser(n, reg, hashed.value)], n + 1, reg.email) == Some(n)
  {
    LoginFindsRegisteredUser(users, n, reg, hashed.value);
    assert FindByUsernameOrEmail(users, n, reg.username, reg.email).None?;
  }

  /** As written, `Register` lets a username equal to another live user's
      email through, and `Login` with that username then finds the older
      user: the new account cannot log in by its username. */
  lemma RegisteredUsernameShadowedByEmail()
    ensures var alice := User(1, "alice", "x@y.z", "h1", "Alice", Observer, false);
            var users := map[1 := alice];
            var reg := UserRegistration("x@y.z", "b@y.z", "secret", "Bob");
            && RegisterFailure(users, 2, Some(reg), true, Some("h2")).None?
            && LoginLookup(users[2 := NewUser(2, reg, "h2")], 3, reg.username) == Some(1)
  {
    var alice := User(1, "alice", "x@y.z", "h1", "Alice", Observer, false);
    var users := map[1 := alice];
    var reg := UserRegistration("x@y.z", "b@y.z", "secret", "Bob");
    assert "alice" != "x@y.z" && "x@y.z" != "b@y.z" && "alice" != "b@y.z" by {
      assert "alice"[0] != "x@y.z"[0];
      assert "x@y.z"[0] != "b@y.z"[0];
      assert "alice"[0] != "b@y.z"[0];
    }
    assert !Collides(users, reg.username, reg.email);
    assert FindByUsernameOrEmail(users, 2, reg.username, reg.email).None?;
    var after := users[2 := NewUser(2, reg, "h2")];
    var k := LoginLookup(after, 3, reg.username);
    assert 1 in after && !after[1].deleted && after[1].email == reg.username;
    assert k.Some? && k.value <= 1;
  }
}
