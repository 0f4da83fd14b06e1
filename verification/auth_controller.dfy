/** The handlers of `authController`: login, logout, the caller's profile,
    the password change and the two registrations. Each takes the database
    and the request and gives the database afterwards and the response. A
    handler runs after its route's validators, and `errors` is what they
    reported. */
module AuthController {
  import opened Options
  import opened JsText
  import opened Model
  import opened SessionExpiry
  import opened AuthMiddleware

  datatype Outcome = Outcome(db: Db, response: Response)

  function Message(text: string): Response {
    Response(200, MessageBody(text))
  }

  /** The task tables are outside these handlers' reach. */
  predicate SameTasks(a: Db, b: Db) {
    a.homework == b.homework && a.assignments == b.assignments
  }

  // ---------------------------------------------------------------------
  // Table edits

  /** `DELETE FROM sessions WHERE ...`: the sessions `hit` does not select,
      in their order. */
  function DeleteSessions(sessions: seq<Session>, hit: Session -> bool): (r: seq<Session>)
    ensures forall s :: s in r <==> s in sessions && !hit(s)
  {
    if sessions == [] then []
    else (if hit(sessions[0]) then [] else [sessions[0]]) + DeleteSessions(sessions[1..], hit)
  }

  /** `DELETE FROM sessions WHERE token = ?`. */
  function WithoutToken(sessions: seq<Session>, token: string): (r: seq<Session>)
    ensures forall s :: s in r <==> s in sessions && s.token != token
  {
    DeleteSessions(sessions, (s: Session) => s.token == token)
  }

  /** `SELECT ... FROM users WHERE username = ?` with a body value bound: a
      number compares as its decimal text, `undefined` and `null` find
      nothing. */
  function LookupUsername(users: seq<User>, v: Value): (r: Option<User>)
    ensures r.Some? ==> r.value in users && SqlText(v) == Some(r.value.username)
    ensures r.None? <==> SqlText(v).None? || forall k :: 0 <= k < |users| ==> users[k].username != SqlText(v).value
  {
    match SqlText(v)
    case None => None
    case Some(t) => FindUsername(users, t)
  }

  // ---------------------------------------------------------------------
  // login

  /** A successful login: a token for the user's id, username and role, a
      session row for it expiring 24 hours on, and the user without the
      password. */
  function LoggedIn(db: Db, crypto: Crypto, u: User, clock: Clock): (r: Outcome)
    ensures r.response.status == 200 && r.db == db.(sessions := r.db.sessions)
    ensures var t := crypto.sign(Claims(u.id, u.username, u.role), Seconds(clock));
            && r.response.body == LoginSucceeded(ViewOf(u), t)
            && r.db.sessions == db.sessions + [Session(u.id, t, clock.ms + MsPerDay, Seconds(clock))]
  {
    var token := crypto.sign(Claims(u.id, u.username, u.role), Seconds(clock));
    var session := Session(u.id, token, clock.ms + MsPerDay, Seconds(clock));
    Outcome(db.(sessions := db.sessions + [session]), Response(200, LoginSucceeded(ViewOf(u), token)))
  }

  /** `login`. An unknown username and a wrong password get the same 401; a
      password that is not a string makes `bcrypt.compare` throw. */
  function Login(db: Db, crypto: Crypto, body: JsonBody, errors: seq<Detail>, clock: Clock): (r: Outcome)
    ensures errors != [] ==> r == Outcome(db, Invalid(errors))
    ensures r.response.status != 200 ==> r.db == db
    ensures errors == [] && LookupUsername(db.users, Field(body, "username")).None? ==>
              r == Outcome(db, Error(401, "Invalid credentials"))
    ensures r.response.status == 200 ==>
              exists u :: && u in db.users
                          && SqlText(Field(body, "username")) == Some(u.username)
                          && Field(body, "password").Str?
                          && crypto.matches(Field(body, "password").s, u.password)
                          && r == LoggedIn(db, crypto, u, clock)
  {
    if errors != [] then Outcome(db, Invalid(errors))
    else
      match LookupUsername(db.users, Field(body, "username"))
      case None => Outcome(db, Error(401, "Invalid credentials"))
      case Some(u) =>
        var password := Field(body, "password");
        if !password.Str? then Outcome(db, Internal())
        else if !crypto.matches(password.s, u.password) then Outcome(db, Error(401, "Invalid credentials"))
        else LoggedIn(db, crypto, u, clock)
  }

  // ---------------------------------------------------------------------
  // logout

  /** `logout`: the sessions of the presented token are deleted, and the
      answer is the same whether there were any. */
  function Logout(db: Db, header: Option<string>): (r: Outcome)
    ensures r.response == Message("Logout successful")
    ensures r.db == db.(sessions := r.db.sessions)
    ensures BearerToken(header).None? ==> r.db == db
    ensures BearerToken(header).Some? ==>
              forall s :: s in r.db.sessions <==> s in db.sessions && s.token != BearerToken(header).value
  {
    match BearerToken(header)
    case None => Outcome(db, Message("Logout successful"))
    case Some(token) => Outcome(db.(sessions := WithoutToken(db.sessions, token)), Message("Logout successful"))
  }

  // ---------------------------------------------------------------------
  // getProfile

  /** `getProfile`: the caller's row, read again from the table. */
  function GetProfile(db: Db, who: Identity): (r: Response)
    ensures r.status == 200 <==> IsUserId(db.users, who.id)
    ensures r.status == 200 ==> exists u :: u in db.users && u.id == who.id && r.body == ProfileBody(ProfileOf(u))
    ensures r.status != 200 ==> r == Error(404, "User not found")
  {
    match FindUser(db.users, who.id)
    case None => Error(404, "User not found")
    case Some(u) => Response(200, ProfileBody(ProfileOf(u)))
  }

  // ---------------------------------------------------------------------
  // updateProfile

  const ProfileFields: seq<string> := [
    "name", "department", "division", "semester",
    "emergency_contact_name", "emergency_contact_relationship", "emergency_contact_phone"]

  /** `v && v.trim()` throws: a truthy value that is not a string has no
      `trim`. */
  predicate TrimThrows(v: Value) {
    Truthy(v) && !v.Str?
  }

  /** `v && v.trim() !== ''`: a field that is written, trimmed. */
  predicate Qualifies(v: Value) {
    v.Str? && Trim(v.s) != ""
  }

  function Revised(body: JsonBody, field: string, current: Option<string>): Option<string> {
    var v := Field(body, field);
    if Qualifies(v) then Some(Trim(v.s)) else current
  }

  /** The caller's row after the update: each qualifying field trimmed, the
      rest as before, and `updated_at` set. */
  function ApplyProfile(u: User, body: JsonBody, now: int): (r: User)
    ensures r == u.(name := r.name, department := r.department, division := r.division, semester := r.semester,
                    emergencyName := r.emergencyName, emergencyRelationship := r.emergencyRelationship,
                    emergencyPhone := r.emergencyPhone, updatedAt := now)
  {
    var name := Field(body, "name");
    u.(name := if Qualifies(name) then Trim(name.s) else u.name,
       department := Revised(body, "department", u.department),
       division := Revised(body, "division", u.division),
       semester := Revised(body, "semester", u.semester),
       emergencyName := Revised(body, "emergency_contact_name", u.emergencyName),
       emergencyRelationship := Revised(body, "emergency_contact_relationship", u.emergencyRelationship),
       emergencyPhone := Revised(body, "emergency_contact_phone", u.emergencyPhone),
       updatedAt := now)
  }

  /** `UPDATE users SET <the qualifying fields>, updated_at = ... WHERE id = ?`. */
  function UpdateProfileRows(users: seq<User>, id: int, body: JsonBody, now: int): (r: seq<User>)
    ensures |r| == |users|
    ensures forall k :: 0 <= k < |users| ==>
              r[k] == if users[k].id == id then ApplyProfile(users[k], body, now) else users[k]
  {
    seq(|users|, k requires 0 <= k < |users| => if users[k].id == id then ApplyProfile(users[k], body, now) else users[k])
  }

  /** `updateProfile`. */
  function UpdateProfile(db: Db, who: Identity, body: JsonBody, errors: seq<Detail>, clock: Clock): (r: Outcome)
    ensures errors != [] ==> r == Outcome(db, Invalid(errors))
    ensures r.response.status != 200 ==> r.db == db
    ensures errors == [] && (exists f :: f in ProfileFields && TrimThrows(Field(body, f))) ==>
              r == Outcome(db, Internal())
    ensures errors == [] && (forall f :: f in ProfileFields ==> !TrimThrows(Field(body, f)) && !Qualifies(Field(body, f))) ==>
              r == Outcome(db, Error(400, "No valid fields to update"))
    ensures errors == [] && (forall f :: f in ProfileFields ==> !TrimThrows(Field(body, f))) &&
            (exists f :: f in ProfileFields && Qualifies(Field(body, f))) ==>
              r.response.status == 200
    ensures r.response.status == 200 ==>
              && r.response == Message("Profile updated successfully")
              && (exists f :: f in ProfileFields && Qualifies(Field(body, f)))
              && r.db == db.(users := UpdateProfileRows(db.users, who.id, body, Seconds(clock)))
  {
    if errors != [] then Outcome(db, Invalid(errors))
    else if exists f :: f in ProfileFields && TrimThrows(Field(body, f)) then Outcome(db, Internal())
    else if forall f :: f in ProfileFields ==> !Qualifies(Field(body, f)) then
      Outcome(db, Error(400, "No valid fields to update"))
    else
      var users := UpdateProfileRows(db.users, who.id, body, Seconds(clock));
      Outcome(db.(users := users), Message("Profile updated successfully"))
  }

  // ---------------------------------------------------------------------
  // changePassword

  /** `UPDATE users SET password = ?, updated_at = ... WHERE id = ?`. */
  function SetPassword(users: seq<User>, id: int, hash: string, now: int): (r: seq<User>)
    ensures |r| == |users|
    ensures forall k :: 0 <= k < |users| ==>
              r[k] == if users[k].id == id then users[k].(password := hash, updatedAt := now) else users[k]
  {
    seq(|users|, k requires 0 <= k < |users| =>
      if users[k].id == id then users[k].(password := hash, updatedAt := now) else users[k])
  }

  /** `changePassword`. On success the new hash is stored and every session
      of the caller is deleted. */
  function ChangePassword(db: Db, crypto: Crypto, who: Identity, body: JsonBody, errors: seq<Detail>, clock: Clock)
    : (r: Outcome)
    ensures errors != [] ==> r == Outcome(db, Invalid(errors))
    ensures r.response.status != 200 ==> r.db == db
    ensures errors == [] && !IsUserId(db.users, who.id) ==> r == Outcome(db, Error(404, "User not found"))
    ensures errors == [] && FindUser(db.users, who.id).Some? && !Field(body, "currentPassword").Str? ==>
              r == Outcome(db, Internal())
    ensures errors == [] && FindUser(db.users, who.id).Some? && Field(body, "currentPassword").Str? &&
            !crypto.matches(Field(body, "currentPassword").s, FindUser(db.users, who.id).value.password) ==>
              r == Outcome(db, Error(400, "Current password is incorrect"))
    ensures errors == [] && FindUser(db.users, who.id).Some? && Field(body, "currentPassword").Str? &&
            crypto.matches(Field(body, "currentPassword").s, FindUser(db.users, who.id).value.password) ==>
              r.response.status == (if Field(body, "newPassword").Str? then 200 else 500)
    ensures r.response.status == 200 ==>
              && r.response == Message("Password changed successfully. Please login again.")
              && Field(body, "currentPassword").Str? && Field(body, "newPassword").Str?
              && (exists u :: u in db.users && u.id == who.id && crypto.matches(Field(body, "currentPassword").s, u.password))
              && SameTasks(r.db, db) && r.db.nextUserId == db.nextUserId
              && r.db.users == SetPassword(db.users, who.id, crypto.hash(Field(body, "newPassword").s), Seconds(clock))
              && forall s :: s in r.db.sessions <==> s in db.sessions && s.userId != who.id
  {
    if errors != [] then Outcome(db, Invalid(errors))
    else
      match FindUser(db.users, who.id)
      case None => Outcome(db, Error(404, "User not found"))
      case Some(u) =>
        var current, next := Field(body, "currentPassword"), Field(body, "newPassword");
        if !current.Str? then Outcome(db, Internal())
        else if !crypto.matches(current.s, u.password) then Outcome(db, Error(400, "Current password is incorrect"))
        else if !next.Str? then Outcome(db, Internal())
        else
          var hashed := crypto.hash(next.s);
          var users := SetPassword(db.users, who.id, hashed, Seconds(clock));
          Outcome(db.(users := users, sessions := DeleteSessions(db.sessions, (s: Session) => s.userId == who.id)),
                  Message("Password changed successfully. Please login again."))
  }

  // ---------------------------------------------------------------------
  // registerStudent and registerAdmin

  /** `String.prototype.slice(-8)`. */
  function LastEight(s: string): (r: string)
    ensures |r| == if |s| < 8 then |s| else 8
    ensures s == s[..|s| - |r|] + r
  {
    if |s| <= 8 then s else s[|s| - 8..]
  }

  /** `` `STU-${Date.now().toString().slice(-8)}` ``. */
  function GeneratedStudentId(ms: nat): (r: string)
    ensures 5 <= |r| <= 12 && r[..4] == "STU-" && AllDigits(r[4..])
  {
    "STU-" + LastEight(NatToDecimal(ms))
  }

  /** Once `Date.now()` has eight digits or more (from three hours into
      1970), the generated id is `STU-` and exactly eight digits. */
  lemma GeneratedStudentIdWidth(ms: nat)
    requires ms >= 10_000_000
    ensures |GeneratedStudentId(ms)| == 12
  {
    assert Pow10(7) == 10_000_000;
    DecimalWidth(ms, 7);
  }

  /** `v || fallback` for a column that stores text. */
  function OrDefault(v: Value, fallback: string): (r: string)
    ensures Truthy(v) ==> r == ToText(v)
    ensures !Truthy(v) ==> r == fallback
  {
    if Truthy(v) then ToText(v) else fallback
  }

  /** The insertion both registrations end in. `bcrypt.hash` throws on a
      password that is not a string and `name.charAt` on a name that is not
      one; a username that binds as `NULL` fails NOT NULL, and a student id
      already stored fails UNIQUE. Emergency contacts stay empty. */
  function InsertUser(db: Db, crypto: Crypto, body: JsonBody, clock: Clock, role: Role,
                      studentId: Option<string>, department: string, division: string, semester: string,
                      echoedStudentId: Value): (r: Outcome)
    ensures r.response.status != 201 ==> r == Outcome(db, Internal())
    ensures Field(body, "password").Str? && Field(body, "name").Str? && SqlText(Field(body, "username")).Some? &&
            (studentId.None? || !StudentIdTaken(db.users, studentId.value)) ==>
              r.response.status == 201
    ensures r.response.status == 201 ==>
              && Field(body, "password").Str? && Field(body, "name").Str? && SqlText(Field(body, "username")).Some?
              && (studentId.None? || !StudentIdTaken(db.users, studentId.value))
              && r.db == db.(users := r.db.users, nextUserId := db.nextUserId + 1)
              && r.db.users == db.users + [User(db.nextUserId, Field(body, "name").s, SqlText(Field(body, "username")).value,
                                                crypto.hash(Field(body, "password").s), role, studentId,
                                                Some(department), Some(division), Some(semester), None, None, None,
                                                Seconds(clock), Seconds(clock))]
              && r.response.body == Registered(db.nextUserId, Field(body, "name"), Field(body, "username"), role, echoedStudentId)
  {
    var password, name, username := Field(body, "password"), Field(body, "name"), SqlText(Field(body, "username"));
    if !password.Str? || !name.Str? || username.None? then Outcome(db, Internal())
    else if studentId.Some? && StudentIdTaken(db.users, studentId.value) then Outcome(db, Internal())
    else
      var u := User(db.nextUserId, name.s, username.value, crypto.hash(password.s), role, studentId,
                    Some(department), Some(division), Some(semester), None, None, None,
                    Seconds(clock), Seconds(clock));
      Outcome(db.(users := db.users + [u], nextUserId := db.nextUserId + 1),
              Response(201, Registered(db.nextUserId, name, Field(body, "username"), role, echoedStudentId)))
  }

  /** `registerStudent`. A student id that is given and truthy must be new;
      one that is not given is generated from the clock, and the defaults
      'General Studies', 'A' and '1st' fill the other empty columns. */
  function RegisterStudent(db: Db, crypto: Crypto, body: JsonBody, errors: seq<Detail>, clock: Clock): (r: Outcome)
    ensures errors != [] ==> r == Outcome(db, Invalid(errors))
    ensures r.response.status != 201 ==> r.db == db
    ensures errors == [] && LookupUsername(db.users, Field(body, "username")).Some? ==>
              r == Outcome(db, Error(400, "Username already exists"))
    ensures errors == [] && LookupUsername(db.users, Field(body, "username")).None?
            && Truthy(Field(body, "student_id")) && StudentIdTaken(db.users, ToText(Field(body, "student_id"))) ==>
              r == Outcome(db, Error(400, "Student ID already exists"))
    ensures errors == [] && SqlText(Field(body, "username")).Some? && LookupUsername(db.users, Field(body, "username")).None? &&
            Field(body, "password").Str? && Field(body, "name").Str? &&
            !StudentIdTaken(db.users, if Truthy(Field(body, "student_id")) then ToText(Field(body, "student_id"))
                                      else GeneratedStudentId(clock.ms)) ==>
              r.response.status == 201
    ensures r.response.status == 201 ==>
              && LookupUsername(db.users, Field(body, "username")).None?
              && |r.db.users| == |db.users| + 1 && r.db.users[..|db.users|] == db.users
              && var u := r.db.users[|db.users|];
                 && u.role == Student && u.studentId.Some?
                 && (Truthy(Field(body, "student_id")) ==> u.studentId == Some(ToText(Field(body, "student_id"))))
                 && (!Truthy(Field(body, "student_id")) ==> u.studentId == Some(GeneratedStudentId(clock.ms)))
                 && u.department == Some(OrDefault(Field(body, "department"), "General Studies"))
                 && u.division == Some(OrDefault(Field(body, "division"), "A"))
                 && u.semester == Some(OrDefault(Field(body, "semester"), "1st"))
  {
    if errors != [] then Outcome(db, Invalid(errors))
    else if LookupUsername(db.users, Field(body, "username")).Some? then Outcome(db, Error(400, "Username already exists"))
    else
      var given := Field(body, "student_id");
      if Truthy(given) && StudentIdTaken(db.users, ToText(given)) then Outcome(db, Error(400, "Student ID already exists"))
      else
        var final := if Truthy(given) then given else Str(GeneratedStudentId(clock.ms));
        InsertUser(db, crypto, body, clock, Student, Some(ToText(final)),
                   OrDefault(Field(body, "department"), "General Studies"),
                   OrDefault(Field(body, "division"), "A"),
                   OrDefault(Field(body, "semester"), "1st"),
                   final)
  }

  /** `registerAdmin`: no student id, the defaults 'Administration' and
      'Admin', and the semester 'N/A'. */
  function RegisterAdmin(db: Db, crypto: Crypto, body: JsonBody, errors: seq<Detail>, clock: Clock): (r: Outcome)
    ensures errors != [] ==> r == Outcome(db, Invalid(errors))
    ensures r.response.status != 201 ==> r.db == db
    ensures errors == [] && LookupUsername(db.users, Field(body, "username")).Some? ==>
              r == Outcome(db, Error(400, "Username already exists"))
    ensures errors == [] && SqlText(Field(body, "username")).Some? && LookupUsername(db.users, Field(body, "username")).None? &&
            Field(body, "password").Str? && Field(body, "name").Str? ==>
              r.response.status == 201
    ensures r.response.status == 201 ==>
              && LookupUsername(db.users, Field(body, "username")).None?
              && |r.db.users| == |db.users| + 1 && r.db.users[..|db.users|] == db.users
              && var u := r.db.users[|db.users|];
                 && u.role == Admin && u.studentId.None?
                 && u.department == Some(OrDefault(Field(body, "department"), "Administration"))
                 && u.division == Some(OrDefault(Field(body, "division"), "Admin"))
                 && u.semester == Some("N/A")
  {
    if errors != [] then Outcome(db, Invalid(errors))
    else if LookupUsername(db.users, Field(body, "username")).Some? then Outcome(db, Error(400, "Username already exists"))
    else
      InsertUser(db, crypto, body, clock, Admin, None,
                 OrDefault(Field(body, "department"), "Administration"),
                 OrDefault(Field(body, "division"), "Admin"),
                 "N/A",
                 Undefined)
  }
}
