/** How the authentication handlers and the middleware work together:
    a login opens a session the middleware accepts for 24 hours, logout and
    a password change close sessions for good, a registered user can log
    in, and the users table keeps its keys unique. */
module AuthProps {
  import opened Options
  import opened JsText
  import opened Model
  import opened SessionExpiry
  import opened AuthMiddleware
  import opened AuthController

  // ---------------------------------------------------------------------
  // Lookups in a well-formed users table

  lemma FindUserUnique(users: seq<User>, next: int, u: User)
    requires UsersWellFormed(users, next) && u in users
    ensures FindUser(users, u.id) == Some(u)
  {
    var f := FindUser(users, u.id).value;
    var k :| 0 <= k < |users| && users[k] == u;
    var l :| 0 <= l < |users| && users[l] == f;
    assert k == l;
  }

  lemma FindUsernameUnique(users: seq<User>, next: int, u: User)
    requires UsersWellFormed(users, next) && u in users
    ensures FindUsername(users, u.username) == Some(u)
  {
    var f := FindUsername(users, u.username).value;
    var k :| 0 <= k < |users| && users[k] == u;
    var l :| 0 <= l < |users| && users[l] == f;
    assert k == l;
  }

  // ---------------------------------------------------------------------
  // Login and the session it opens

  /** For an existing user, login decides on the password alone. */
  lemma LoginDecidesOnPassword(db: Db, crypto: Crypto, body: JsonBody, clock: Clock, u: User, password: string)
    requires UsersWellFormed(db.users, db.nextUserId) && u in db.users
    requires SqlText(Field(body, "username")) == Some(u.username)
    requires Field(body, "password") == Str(password)
    ensures Login(db, crypto, body, [], clock) ==
              if crypto.matches(password, u.password) then LoggedIn(db, crypto, u, clock)
              else Outcome(db, Error(401, "Invalid credentials"))
  {
    FindUsernameUnique(db.users, db.nextUserId, u);
  }

  /** The token a login hands out authenticates its user, as that user, at
      every moment up to 24 hours later at which the signature still
      verifies. */
  lemma LoginThenAuthenticate(db: Db, crypto: Crypto, u: User, clock: Clock, later: Clock, header: Option<string>)
    requires UsersWellFormed(db.users, db.nextUserId) && u in db.users
    requires var token := crypto.sign(Claims(u.id, u.username, u.role), Seconds(clock));
             && BearerToken(header) == Some(token)
             && crypto.verify(token, Seconds(later)).Some?
             && crypto.verify(token, Seconds(later)).value.userId == u.id
    requires later.ms < clock.ms + MsPerDay
    ensures Authenticate(LoggedIn(db, crypto, u, clock).db, crypto, header, later) == Authenticated(IdentityOf(u))
  {
    var after := LoggedIn(db, crypto, u, clock).db;
    var k := |after.sessions| - 1;
    assert after.sessions[k].token == BearerToken(header).value;
    assert Unexpired(after.sessions[k].expiresAt, later.ms);
    FindUserUnique(after.users, after.nextUserId, u);
  }

  /** A login's session ends 24 hours after it: once no older session
      shares the token, the token is refused from then on. */
  lemma LoginSessionEnds(db: Db, crypto: Crypto, u: User, clock: Clock, later: Clock, header: Option<string>)
    requires var token := crypto.sign(Claims(u.id, u.username, u.role), Seconds(clock));
             && BearerToken(header) == Some(token)
             && forall k :: 0 <= k < |db.sessions| ==> db.sessions[k].token != token
    requires later.ms >= clock.ms + MsPerDay
    ensures Authenticate(LoggedIn(db, crypto, u, clock).db, crypto, header, later).Rejected?
  {
    var after := LoggedIn(db, crypto, u, clock).db;
    var token := BearerToken(header).value;
    forall k | 0 <= k < |after.sessions| && after.sessions[k].token == token
      ensures after.sessions[k].expiresAt <= later.ms
    {
    }
    NoSessionRejected(after, crypto, header, later, token);
  }

  // ---------------------------------------------------------------------
  // Revocation

  /** After logout, the token that was presented is refused, whoever
      presents it. */
  lemma LogoutRevokes(db: Db, crypto: Crypto, header: Option<string>, again: Option<string>, later: Clock)
    requires BearerToken(header).Some? && BearerToken(again) == BearerToken(header)
    ensures Authenticate(Logout(db, header).db, crypto, again, later).Rejected?
  {
    var after := Logout(db, header).db;
    var token := BearerToken(header).value;
    forall k | 0 <= k < |after.sessions|
      ensures after.sessions[k].token != token
    {
      assert after.sessions[k] in after.sessions;
    }
    NoSessionRejected(after, crypto, again, later, token);
  }

  /** After a password change, every token whose sessions were all the
      caller's is refused. */
  lemma ChangePasswordRevokes(db: Db, crypto: Crypto, who: Identity, body: JsonBody, clock: Clock,
                              header: Option<string>, later: Clock)
    requires ChangePassword(db, crypto, who, body, [], clock).response.status == 200
    requires BearerToken(header).Some?
    requires forall k :: 0 <= k < |db.sessions| && db.sessions[k].token == BearerToken(header).value ==>
               db.sessions[k].userId == who.id
    ensures Authenticate(ChangePassword(db, crypto, who, body, [], clock).db, crypto, header, later).Rejected?
  {
    var after := ChangePassword(db, crypto, who, body, [], clock).db;
    var token := BearerToken(header).value;
    forall k | 0 <= k < |after.sessions|
      ensures after.sessions[k].token != token
    {
      var s := after.sessions[k];
      assert s in after.sessions;
      var j :| 0 <= j < |db.sessions| && db.sessions[j] == s;
    }
    NoSessionRejected(after, crypto, header, later, token);
  }

  // ---------------------------------------------------------------------
  // Passwords

  /** With a hash that accepts its own password, the new password logs in
      after a change, and an old one that the new hash refuses does not. */
  lemma NewPasswordLogsIn(db: Db, crypto: Crypto, who: Identity, body: JsonBody, clock: Clock,
                          login: JsonBody, later: Clock, u: User)
    requires UsersWellFormed(db.users, db.nextUserId)
    requires u in db.users && u.id == who.id
    requires ChangePassword(db, crypto, who, body, [], clock).response.status == 200
    requires var next := Field(body, "newPassword").s; crypto.matches(next, crypto.hash(next))
    requires SqlText(Field(login, "username")) == Some(u.username)
    ensures Field(login, "password") == Field(body, "newPassword") ==>
              Login(ChangePassword(db, crypto, who, body, [], clock).db, crypto, login, [], later).response.status == 200
    ensures Field(login, "password") == Field(body, "currentPassword")
            && !crypto.matches(Field(body, "currentPassword").s, crypto.hash(Field(body, "newPassword").s)) ==>
              Login(ChangePassword(db, crypto, who, body, [], clock).db, crypto, login, [], later)
                == Outcome(ChangePassword(db, crypto, who, body, [], clock).db, Error(401, "Invalid credentials"))
  {
    var after := ChangePassword(db, crypto, who, body, [], clock).db;
    ChangePasswordKeepsUsersWellFormed(db, crypto, who, body, clock);
    var k :| 0 <= k < |db.users| && db.users[k] == u;
    var v := after.users[k];
    assert v == u.(password := crypto.hash(Field(body, "newPassword").s), updatedAt := Seconds(clock));
    assert v in after.users;
    if Field(login, "password") == Field(body, "newPassword") {
      LoginDecidesOnPassword(after, crypto, login, later, v, Field(body, "newPassword").s);
    }
    if Field(login, "password") == Field(body, "currentPassword") {
      LoginDecidesOnPassword(after, crypto, login, later, v, Field(body, "currentPassword").s);
    }
  }

  /** A student who has just registered can log in with the same username
      and password, and is logged in as a student. */
  lemma RegisteredStudentLogsIn(db: Db, crypto: Crypto, body: JsonBody, clock: Clock, login: JsonBody, later: Clock)
    requires UsersWellFormed(db.users, db.nextUserId)
    requires RegisterStudent(db, crypto, body, [], clock).response.status == 201
    requires var p := Field(body, "password").s; crypto.matches(p, crypto.hash(p))
    requires SqlText(Field(login, "username")) == SqlText(Field(body, "username"))
    requires Field(login, "password") == Field(body, "password")
    ensures var r := Login(RegisterStudent(db, crypto, body, [], clock).db, crypto, login, [], later);
            r.response.status == 200 && r.response.body.user.role == Student
  {
    var after := RegisterStudent(db, crypto, body, [], clock).db;
    RegisterStudentKeepsUsersWellFormed(db, crypto, body, clock);
    var u := after.users[|db.users|];
    assert u in after.users;
    LoginDecidesOnPassword(after, crypto, login, later, u, Field(body, "password").s);
  }

  // ---------------------------------------------------------------------
  // The users table stays well formed

  /** A new row with the next id, a username and a student id no row has,
      keeps the table well formed. */
  lemma AppendKeepsUsersWellFormed(users: seq<User>, next: int, u: User)
    requires UsersWellFormed(users, next)
    requires u.id == next
    requires forall k :: 0 <= k < |users| ==> users[k].username != u.username
    requires u.studentId.None? || !StudentIdTaken(users, u.studentId.value)
    ensures UsersWellFormed(users + [u], next + 1)
  {
    var all := users + [u];
    forall k, l | 0 <= k < l < |all| && all[k].studentId.Some?
      ensures all[k].studentId != all[l].studentId
    {
      if l == |users| && u.studentId.Some? {
        assert all[k] == users[k];
        assert users[k].studentId != Some(u.studentId.value);
      }
    }
  }

  lemma RegisterStudentKeepsUsersWellFormed(db: Db, crypto: Crypto, body: JsonBody, clock: Clock)
    requires UsersWellFormed(db.users, db.nextUserId)
    ensures var after := RegisterStudent(db, crypto, body, [], clock).db;
            UsersWellFormed(after.users, after.nextUserId)
  {
    var r := RegisterStudent(db, crypto, body, [], clock);
    if r.response.status == 201 {
      var u := r.db.users[|db.users|];
      assert r.db.users == db.users + [u];
      AppendKeepsUsersWellFormed(db.users, db.nextUserId, u);
    }
  }

  lemma RegisterAdminKeepsUsersWellFormed(db: Db, crypto: Crypto, body: JsonBody, clock: Clock)
    requires UsersWellFormed(db.users, db.nextUserId)
    ensures var after := RegisterAdmin(db, crypto, body, [], clock).db;
            UsersWellFormed(after.users, after.nextUserId)
  {
    var r := RegisterAdmin(db, crypto, body, [], clock);
    if r.response.status == 201 {
      var u := r.db.users[|db.users|];
      assert r.db.users == db.users + [u];
      AppendKeepsUsersWellFormed(db.users, db.nextUserId, u);
    }
  }

  /** A profile update writes only display fields: ids, usernames, password
      hashes, roles and student ids stay as they were. */
  lemma UpdateProfileKeepsCredentials(db: Db, who: Identity, body: JsonBody, errors: seq<Detail>, clock: Clock)
    ensures var after := UpdateProfile(db, who, body, errors, clock).db;
            && |after.users| == |db.users|
            && after.sessions == db.sessions && after.nextUserId == db.nextUserId && SameTasks(after, db)
            && forall k :: 0 <= k < |db.users| ==>
                 && after.users[k].id == db.users[k].id
                 && after.users[k].username == db.users[k].username
                 && after.users[k].password == db.users[k].password
                 && after.users[k].role == db.users[k].role
                 && after.users[k].studentId == db.users[k].studentId
  {
    var r := UpdateProfile(db, who, body, errors, clock);
    if r.response.status == 200 {
      var users := UpdateProfileRows(db.users, who.id, body, Seconds(clock));
      assert r.db == db.(users := users);
      forall k | 0 <= k < |db.users|
        ensures && users[k].id == db.users[k].id && users[k].username == db.users[k].username
                && users[k].password == db.users[k].password && users[k].role == db.users[k].role
                && users[k].studentId == db.users[k].studentId
      {
        if db.users[k].id == who.id {
          assert users[k] == ApplyProfile(db.users[k], body, Seconds(clock));
        }
      }
    }
  }

  lemma UpdateProfileKeepsUsersWellFormed(db: Db, who: Identity, body: JsonBody, errors: seq<Detail>, clock: Clock)
    requires UsersWellFormed(db.users, db.nextUserId)
    ensures var after := UpdateProfile(db, who, body, errors, clock).db;
            UsersWellFormed(after.users, after.nextUserId)
  {
    UpdateProfileKeepsCredentials(db, who, body, errors, clock);
  }

  lemma ChangePasswordKeepsUsersWellFormed(db: Db, crypto: Crypto, who: Identity, body: JsonBody, clock: Clock)
    requires UsersWellFormed(db.users, db.nextUserId)
    ensures var after := ChangePassword(db, crypto, who, body, [], clock).db;
            UsersWellFormed(after.users, after.nextUserId)
  {
  }

  /** What a successful profile update writes into the caller's row: each
      field of the body that is a string with something besides white space,
      trimmed; every other field keeps its value. */
  lemma ProfileFieldsWritten(db: Db, who: Identity, body: JsonBody, clock: Clock, k: nat)
    requires UpdateProfile(db, who, body, [], clock).response.status == 200
    requires k < |db.users| && db.users[k].id == who.id
    ensures var v, u := UpdateProfile(db, who, body, [], clock).db.users[k], db.users[k];
            && (Qualifies(Field(body, "name")) ==> v.name == Trim(Field(body, "name").s))
            && (!Qualifies(Field(body, "name")) ==> v.name == u.name)
            && (Qualifies(Field(body, "department")) ==> v.department == Some(Trim(Field(body, "department").s)))
            && (!Qualifies(Field(body, "department")) ==> v.department == u.department)
            && (Qualifies(Field(body, "division")) ==> v.division == Some(Trim(Field(body, "division").s)))
            && (!Qualifies(Field(body, "division")) ==> v.division == u.division)
            && (Qualifies(Field(body, "semester")) ==> v.semester == Some(Trim(Field(body, "semester").s)))
            && (!Qualifies(Field(body, "semester")) ==> v.semester == u.semester)
            && (Qualifies(Field(body, "emergency_contact_name")) ==>
                  v.emergencyName == Some(Trim(Field(body, "emergency_contact_name").s)))
            && (!Qualifies(Field(body, "emergency_contact_name")) ==> v.emergencyName == u.emergencyName)
            && (Qualifies(Field(body, "emergency_contact_relationship")) ==>
                  v.emergencyRelationship == Some(Trim(Field(body, "emergency_contact_relationship").s)))
            && (!Qualifies(Field(body, "emergency_contact_relationship")) ==>
                  v.emergencyRelationship == u.emergencyRelationship)
            && (Qualifies(Field(body, "emergency_contact_phone")) ==>
                  v.emergencyPhone == Some(Trim(Field(body, "emergency_contact_phone").s)))
            && (!Qualifies(Field(body, "emergency_contact_phone")) ==> v.emergencyPhone == u.emergencyPhone)
            && v.updatedAt == Seconds(clock)
  {
  }
}
