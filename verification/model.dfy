/** The state of the portal's database and the shapes of its HTTP responses.
    The SQLite tables become immutable values: a sequence of users, a sequence
    of sessions and two task tables of one shape (homework and assignments).
    Password hashing, token signing and the clock are parameters. */
module Model {
  import opened Options
  import opened JsText

  /** The `role` column: CHECK(role IN ('student', 'admin')). */
  datatype Role = Student | Admin

  /** The `status` column of a task: CHECK(status IN ('Pending', 'Completed',
      'Overdue')), defaulting to 'Pending'. */
  datatype Status = Pending | Completed | Overdue

  function StatusName(s: Status): string {
    match s
    case Pending => "Pending"
    case Completed => "Completed"
    case Overdue => "Overdue"
  }

  /** Whether a text passes the status CHECK constraint, and which status it
      names. */
  function ParseStatus(t: string): (r: Option<Status>)
    ensures r.Some? <==> t in ["Pending", "Completed", "Overdue"]
    ensures r.Some? ==> StatusName(r.value) == t
  {
    if t == "Pending" then Some(Pending)
    else if t == "Completed" then Some(Completed)
    else if t == "Overdue" then Some(Overdue)
    else None
  }

  lemma StatusNameRoundTrip(s: Status)
    ensures ParseStatus(StatusName(s)) == Some(s)
  {
  }

  /** A row of `users`; `password` holds the stored hash. The avatar URL is
      not modelled. Times are seconds since the epoch. */
  datatype User = User(
    id: int,
    name: string,
    username: string,
    password: string,
    role: Role,
    studentId: Option<string>,
    department: Option<string>,
    division: Option<string>,
    semester: Option<string>,
    emergencyName: Option<string>,
    emergencyRelationship: Option<string>,
    emergencyPhone: Option<string>,
    createdAt: int,
    updatedAt: int)

  /** A row of `sessions`. `expiresAt` is the moment written by
      `toISOString()`, in milliseconds since the epoch; `createdAt` is
      `CURRENT_TIMESTAMP`, in seconds. */
  datatype Session = Session(userId: int, token: string, expiresAt: nat, createdAt: int)

  /** A row of `homework` or `assignments`; `assignedTo == None` is a global
      task, visible to every student. */
  datatype Task = Task(
    id: int,
    subject: string,
    title: string,
    description: string,
    dueDate: string,
    status: Status,
    createdBy: int,
    assignedTo: Option<int>,
    createdAt: int,
    updatedAt: int)

  /** A task table with its AUTOINCREMENT counter. */
  datatype Table = Table(rows: seq<Task>, nextId: int)

  datatype Db = Db(
    users: seq<User>,
    nextUserId: int,
    sessions: seq<Session>,
    homework: Table,
    assignments: Table)

  /** The claims a token carries. */
  datatype Claims = Claims(userId: int, username: string, role: Role)

  /** The foreign cryptography: `sign(claims, iat)` issues a token for claims
      at a second `iat`, `verify(token, now)` returns the claims of a token
      whose signature and own `exp` are good at second `now` (and `None` where
      `jwt.verify` throws), `hash` is `bcrypt.hash` and `matches(plain, hash)`
      is `bcrypt.compare`. */
  datatype Crypto = Crypto(
    sign: (Claims, int) -> string,
    verify: (string, int) -> Option<Claims>,
    hash: string -> string,
    matches: (string, string) -> bool)

  /** The clock: `ms` is `Date.now()`; `localDay` is the number of the current
      local calendar day, as `today.setHours(0, 0, 0, 0)` sees it. */
  datatype Clock = Clock(ms: nat, localDay: int)

  /** `CURRENT_TIMESTAMP` and `datetime('now')` have whole seconds. */
  function Seconds(c: Clock): nat {
    c.ms / 1000
  }

  /** What `authenticateToken` attaches as `req.user`. */
  datatype Identity = Identity(id: int, username: string, role: Role, name: string)

  function IdentityOf(u: User): (r: Identity)
    ensures r.id == u.id && r.role == u.role
  {
    Identity(u.id, u.username, u.role, u.name)
  }

  /** A user row without its password column, as login returns it. */
  datatype UserView = UserView(
    id: int,
    name: string,
    username: string,
    role: Role,
    studentId: Option<string>,
    department: Option<string>,
    division: Option<string>,
    semester: Option<string>,
    emergencyName: Option<string>,
    emergencyRelationship: Option<string>,
    emergencyPhone: Option<string>,
    createdAt: int,
    updatedAt: int)

  function ViewOf(u: User): UserView {
    UserView(u.id, u.name, u.username, u.role, u.studentId, u.department, u.division,
             u.semester, u.emergencyName, u.emergencyRelationship, u.emergencyPhone,
             u.createdAt, u.updatedAt)
  }

  /** The columns `getProfile` selects: no password and no `updated_at`. */
  datatype Profile = Profile(
    id: int,
    name: string,
    username: string,
    role: Role,
    studentId: Option<string>,
    department: Option<string>,
    division: Option<string>,
    semester: Option<string>,
    emergencyName: Option<string>,
    emergencyRelationship: Option<string>,
    emergencyPhone: Option<string>,
    createdAt: int)

  function ProfileOf(u: User): Profile {
    Profile(u.id, u.name, u.username, u.role, u.studentId, u.department, u.division,
            u.semester, u.emergencyName, u.emergencyRelationship, u.emergencyPhone, u.createdAt)
  }

  /** One entry of a validation failure's `details`. */
  datatype Detail = Detail(path: string, msg: string)

  datatype Body =
    | ErrorBody(error: string)
    | ValidationFailed(details: seq<Detail>)
    | MessageBody(message: string)
    | LoginSucceeded(user: UserView, token: string)
    | ProfileBody(profile: Profile)
    | Registered(id: int, name: Value, username: Value, role: Role, studentId: Value)
    | TaskList(key: string, tasks: seq<Task>)
    | TaskItem(key: string, note: Option<string>, task: Task)

  datatype Response = Response(status: int, body: Body)

  function Error(status: int, error: string): Response {
    Response(status, ErrorBody(error))
  }

  /** The 400 every handler returns when `validationResult` is not empty. */
  function Invalid(details: seq<Detail>): Response {
    Response(400, ValidationFailed(details))
  }

  /** The 500 of a thrown error: a failed constraint, or a method called on a
      value of the wrong type. */
  function Internal(): Response {
    Error(500, "Internal server error")
  }

  // ---------------------------------------------------------------------
  // Lookups

  /** `SELECT ... FROM users WHERE id = ?`. */
  function FindUser(users: seq<User>, id: int): (r: Option<User>)
    ensures r.Some? ==> r.value in users && r.value.id == id
    ensures r.None? <==> forall k :: 0 <= k < |users| ==> users[k].id != id
  {
    if users == [] then None
    else if users[0].id == id then Some(users[0])
    else FindUser(users[1..], id)
  }

  /** `SELECT ... FROM users WHERE username = ?`. */
  function FindUsername(users: seq<User>, name: string): (r: Option<User>)
    ensures r.Some? ==> r.value in users && r.value.username == name
    ensures r.None? <==> forall k :: 0 <= k < |users| ==> users[k].username != name
  {
    if users == [] then None
    else if users[0].username == name then Some(users[0])
    else FindUsername(users[1..], name)
  }

  /** `SELECT id FROM users WHERE student_id = ?`. */
  predicate StudentIdTaken(users: seq<User>, sid: string) {
    exists k :: 0 <= k < |users| && users[k].studentId == Some(sid)
  }

  /** `SELECT id FROM users WHERE id = ? AND role = 'student'` finds a row. */
  predicate IsStudentId(users: seq<User>, id: int) {
    exists k :: 0 <= k < |users| && users[k].id == id && users[k].role == Student
  }

  /** A FOREIGN KEY into `users(id)` is satisfied. */
  predicate IsUserId(users: seq<User>, id: int) {
    exists k :: 0 <= k < |users| && users[k].id == id
  }

  // ---------------------------------------------------------------------
  // Table invariants

  /** The users table as its schema constrains it: AUTOINCREMENT ids from 1
      below the counter, UNIQUE ids, usernames and student ids. */
  ghost predicate UsersWellFormed(users: seq<User>, nextUserId: int) {
    && nextUserId >= 1
    && (forall k :: 0 <= k < |users| ==> 1 <= users[k].id < nextUserId)
    && (forall k, l :: 0 <= k < l < |users| ==> users[k].id != users[l].id)
    && (forall k, l :: 0 <= k < l < |users| ==> users[k].username != users[l].username)
    && (forall k, l :: 0 <= k < l < |users| && users[k].studentId.Some? ==>
          users[k].studentId != users[l].studentId)
  }

  /** A task table with AUTOINCREMENT ids below its counter, each id once. */
  ghost predicate TableWellFormed(t: Table) {
    && t.nextId >= 1
    && (forall k :: 0 <= k < |t.rows| ==> 1 <= t.rows[k].id < t.nextId)
    && (forall k, l :: 0 <= k < l < |t.rows| ==> t.rows[k].id != t.rows[l].id)
  }

  /** Every assigned task names an existing student. */
  ghost predicate AssigneesAreStudents(users: seq<User>, t: Table) {
    forall k :: 0 <= k < |t.rows| && t.rows[k].assignedTo.Some? ==>
      IsStudentId(users, t.rows[k].assignedTo.value)
  }
}
