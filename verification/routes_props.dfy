/** What the route table guarantees over all requests: who gets past the
    middleware, what the task routes leave to their handlers, and that no
    request breaks the database invariants. */
module RoutesProps {
  import opened Options
  import opened JsText
  import opened Model
  import opened Validation
  import opened AuthMiddleware
  import opened AuthController
  import opened TaskService
  import opened TaskProps
  import opened AuthProps
  import opened Routes

  /** The route needs `authenticateToken` before anything else. */
  predicate NeedsToken(r: Route) {
    r.Protected? || r.AuthenticatedNoRoute?
  }

  /** Whenever `authenticateToken` turns a request away, it is turned away
      with that response and nothing is written. */
  lemma RejectedRequestWritesNothing(db: Db, env: Env, req: Request)
    requires NeedsToken(Resolve(req.verb, req.path))
    requires Authenticate(db, env.crypto, req.header, env.clock).Rejected?
    ensures Run(db, env, req) == Outcome(db, Authenticate(db, env.crypto, req.header, env.clock).response)
    ensures BearerToken(req.header).None? ==> Run(db, env, req) == Outcome(db, Error(401, "Access token required"))
  {
  }

  /** Every path below `/homework` and `/assignments` is authenticated, the
      ones no route matches included. */
  lemma TaskPathsAuthenticated(m: Method, path: seq<string>)
    requires path != [] && TaskKind(path[0]).Some?
    ensures NeedsToken(Resolve(m, path))
  {
  }

  /** A public route answers alike whatever the `Authorization` header. */
  lemma PublicIgnoresHeader(db: Db, env: Env, req: Request, header: Option<string>)
    requires Resolve(req.verb, req.path).Public?
    ensures Run(db, env, req) == Run(db, env, req.(header := header))
  {
  }

  /** A task path names its kind's router. */
  lemma TaskRouteOf(m: Method, path: seq<string>)
    requires path != [] && TaskKind(path[0]).Some?
    ensures Resolve(m, path) == TaskRoute(TaskKind(path[0]).value, m, path[1..])
  {
    assert path[0] != "auth";
  }

  /** A student cannot create, update or delete a task: whatever the body,
      the answer is the 403 of `authorizeAdmin` (or the 404 of a path no
      route has) and nothing is written. */
  lemma StudentsCannotWriteTasks(db: Db, env: Env, req: Request, who: Identity)
    requires req.path != [] && TaskKind(req.path[0]).Some?
    requires req.verb in {Post, Put, Delete}
    requires Authenticate(db, env.crypto, req.header, env.clock) == Authenticated(who)
    requires who.role == Student
    ensures Run(db, env, req).db == db
    ensures Run(db, env, req).response in {Error(403, "Insufficient permissions"), NotFoundResponse}
  {
    TaskRouteOf(req.verb, req.path);
    TaskWritesAdminOnly(TaskKind(req.path[0]).value, req.verb, req.path[1..]);
    var route := Resolve(req.verb, req.path);
    if route.Protected? {
      AdminGateRefusesStudents(db, env, req, who);
    } else {
      assert route == AuthenticatedNoRoute;
      UnknownPathAfterToken(db, env, req, who);
    }
  }

  /** A task router answers a write either behind `authorizeAdmin` or with
      no route at all. */
  lemma TaskWritesAdminOnly(k: Kind, m: Method, rest: seq<string>)
    requires m in {Post, Put, Delete}
    ensures TaskRoute(k, m, rest) == AuthenticatedNoRoute
            || (TaskRoute(k, m, rest).Protected? && TaskRoute(k, m, rest).roles == Some(AdminOnly))
  {
  }

  /** `authorizeAdmin` turns a student away before the route's validators
      and handler run. */
  lemma AdminGateRefusesStudents(db: Db, env: Env, req: Request, who: Identity)
    requires Resolve(req.verb, req.path).Protected? && Resolve(req.verb, req.path).roles == Some(AdminOnly)
    requires Authenticate(db, env.crypto, req.header, env.clock) == Authenticated(who)
    requires who.role == Student
    ensures Run(db, env, req) == Outcome(db, Error(403, "Insufficient permissions"))
  {
    RoleGates(who);
  }

  /** A path inside a task router that no route matches gets, once the token
      is accepted, the 404 for unknown API paths. */
  lemma UnknownPathAfterToken(db: Db, env: Env, req: Request, who: Identity)
    requires Resolve(req.verb, req.path) == AuthenticatedNoRoute
    requires Authenticate(db, env.crypto, req.header, env.clock) == Authenticated(who)
    ensures Run(db, env, req) == Outcome(db, NotFoundResponse)
  {
  }

  /** Past `authenticateToken` and the role gate, a protected route runs
      its handler with what its validators found. */
  lemma ProtectedRunsHandler(db: Db, env: Env, req: Request, who: Identity)
    requires Resolve(req.verb, req.path).Protected?
    requires Authenticate(db, env.crypto, req.header, env.clock) == Authenticated(who)
    requires var roles := Resolve(req.verb, req.path).roles; roles.Some? ==> who.role in roles.value
    ensures var p := Resolve(req.verb, req.path);
            Run(db, env, req) == RunUser(p.handler, db, env, req, who, Errors(p.rules, req.body, env.dates, env.clock.localDay))
  {
  }

  /** `PUT /:id` of a task router. */
  lemma UpdateRouteResolves(path: seq<string>, k: Kind, id: string)
    requires |path| == 2 && TaskKind(path[0]) == Some(k) && path[1] == id
    ensures Resolve(Put, path) == Protected(Some(AdminOnly), [], UpdateHandler(k, id))
  {
    TaskRouteOf(Put, path);
    assert path[1..] == [id];
  }

  /** The update route has no validators: the handler always sees an empty
      list of errors, so its own validation branch never answers. */
  lemma UpdateRouteUnvalidated(db: Db, env: Env, req: Request, who: Identity, k: Kind, id: string)
    requires |req.path| == 2 && TaskKind(req.path[0]) == Some(k) && req.path[1] == id && req.verb == Put
    requires Authenticate(db, env.crypto, req.header, env.clock) == Authenticated(who)
    requires who.role == Admin
    ensures Run(db, env, req) == FromTable(db, k, UpdateTask(k, db.users, TaskTable(db, k), who, id, req.body, [], env.clock))
  {
    UpdateRouteResolves(req.path, k, id);
    ProtectedRunsHandler(db, env, req, who);
    NoRulesNoErrors(req.body, env.dates, env.clock.localDay);
    RunUpdateHandler(db, env, req, who, k, id, []);
  }

  lemma RunUpdateHandler(db: Db, env: Env, req: Request, who: Identity, k: Kind, id: string, errors: seq<Detail>)
    ensures RunUser(UpdateHandler(k, id), db, env, req, who, errors)
              == FromTable(db, k, UpdateTask(k, db.users, TaskTable(db, k), who, id, req.body, errors, env.clock))
  {
  }

  lemma NoRulesNoErrors(body: JsonBody, dates: Dates, today: int)
    ensures Errors([], body, dates, today) == []
  {
  }

  /** `register-admin` authenticates, then authorises, then validates: a
      student is refused with 403 whatever the body, before any validation
      error could be reported. */
  lemma RegisterAdminGatesFirst(db: Db, env: Env, req: Request, who: Identity)
    requires req.verb == Post && req.path == ["auth", "register-admin"]
    requires Authenticate(db, env.crypto, req.header, env.clock) == Authenticated(who)
    requires who.role == Student
    ensures Run(db, env, req) == Outcome(db, Error(403, "Insufficient permissions"))
  {
    RegisterAdminRoute(req.path);
    AdminGateRefusesStudents(db, env, req, who);
  }

  /** `POST /auth/register-admin`. */
  lemma RegisterAdminRoute(path: seq<string>)
    requires path == ["auth", "register-admin"]
    ensures Resolve(Post, path) == Protected(Some(AdminOnly), AdminRegistrationRules, RegisterAdminHandler)
  {
    assert path[1..] == ["register-admin"];
  }

  // ---------------------------------------------------------------------
  // Only admins write tasks

  /** The handlers of `authController` leave both task tables alone. */
  lemma AccountHandlersKeepTasks(h: UserHandler, db: Db, env: Env, req: Request, who: Identity, errors: seq<Detail>)
    requires AccountHandler(h)
    ensures SameTasks(RunUser(h, db, env, req, who, errors).db, db)
  {
    if h == UpdateProfileHandler {
      UpdateProfileKeepsCredentials(db, who, req.body, errors, env.clock);
    }
  }

  /** The handlers that write a task table. */
  predicate WritesTasks(h: UserHandler) {
    h.UpdateHandler? || h.CreateHandler? || h.DeleteHandler?
  }

  predicate AccountHandler(h: UserHandler) {
    h in {LogoutHandler, ProfileHandler, UpdateProfileHandler, ChangePasswordHandler, RegisterAdminHandler}
  }

  /** Every route to a task-writing handler is behind `authorizeAdmin`. */
  lemma TaskWritesGated(m: Method, path: seq<string>)
    requires Resolve(m, path).Protected? && WritesTasks(Resolve(m, path).handler)
    ensures Resolve(m, path).roles == Some(AdminOnly)
  {
    if path[0] != "auth" {
      TaskRouteOf(m, path);
    }
  }

  /** Reading handlers write nothing. */
  lemma ReadersKeepTasks(h: UserHandler, db: Db, env: Env, req: Request, who: Identity, errors: seq<Detail>)
    requires h.ListHandler? || h.ReadHandler?
    ensures RunUser(h, db, env, req, who, errors).db == db
  {
  }

  /** A request that no handler answers writes nothing. */
  lemma UnhandledKeepsDb(db: Db, env: Env, req: Request)
    requires !Resolve(req.verb, req.path).Public?
    requires !(Resolve(req.verb, req.path).Protected? && Authenticate(db, env.crypto, req.header, env.clock).Authenticated?
               && (Resolve(req.verb, req.path).roles.Some? ==>
                     Authenticate(db, env.crypto, req.header, env.clock).who.role in Resolve(req.verb, req.path).roles.value))
    ensures Run(db, env, req).db == db
  {
  }

  lemma PublicKeepsTasks(db: Db, env: Env, req: Request)
    requires Resolve(req.verb, req.path).Public?
    ensures SameTasks(Run(db, env, req).db, db)
  {
    var p := Resolve(req.verb, req.path);
    PublicHandlersKeepTasks(p.open, db, env, req, Errors(p.rules, req.body, env.dates, env.clock.localDay));
  }

  /** Login and student registration write sessions and users only. */
  lemma PublicHandlersKeepTasks(h: PublicHandler, db: Db, env: Env, req: Request, errors: seq<Detail>)
    ensures SameTasks(RunPublic(h, db, env, req, errors).db, db)
  {
  }

  /** A request that changes a task table was made by an authenticated
      admin. */
  lemma OnlyAdminsWriteTasks(db: Db, env: Env, req: Request)
    requires !SameTasks(Run(db, env, req).db, db)
    ensures exists who :: Authenticate(db, env.crypto, req.header, env.clock) == Authenticated(who) && who.role == Admin
  {
    var route := Resolve(req.verb, req.path);
    var auth := Authenticate(db, env.crypto, req.header, env.clock);
    if route.Public? {
      PublicKeepsTasks(db, env, req);
    } else if route.Protected? && auth.Authenticated? && (route.roles.Some? ==> auth.who.role in route.roles.value) {
      var errors := Errors(route.rules, req.body, env.dates, env.clock.localDay);
      ProtectedRunsHandler(db, env, req, auth.who);
      if AccountHandler(route.handler) {
        AccountHandlersKeepTasks(route.handler, db, env, req, auth.who, errors);
      } else if route.handler.ListHandler? || route.handler.ReadHandler? {
        ReadersKeepTasks(route.handler, db, env, req, auth.who, errors);
      } else {
        TaskWritesGated(req.verb, req.path);
      }
    } else {
      UnhandledKeepsDb(db, env, req);
    }
  }

  // ---------------------------------------------------------------------
  // The database invariants

  /** The invariants the schema and the handlers keep together. */
  ghost predicate DbWellFormed(db: Db) {
    && UsersWellFormed(db.users, db.nextUserId)
    && TableWellFormed(db.homework) && TableWellFormed(db.assignments)
    && AssigneesAreStudents(db.users, db.homework) && AssigneesAreStudents(db.users, db.assignments)
  }

  /** Every student of `a` is still a student in `b`. */
  ghost predicate KeepsStudents(a: seq<User>, b: seq<User>) {
    forall n :: IsStudentId(a, n) ==> IsStudentId(b, n)
  }

  lemma AssigneesCarry(a: seq<User>, b: seq<User>, t: Table)
    requires AssigneesAreStudents(a, t) && KeepsStudents(a, b)
    ensures AssigneesAreStudents(b, t)
  {
    forall k | 0 <= k < |t.rows| && t.rows[k].assignedTo.Some?
      ensures IsStudentId(b, t.rows[k].assignedTo.value)
    {
      assert IsStudentId(a, t.rows[k].assignedTo.value);
    }
  }

  /** Rows that keep their ids and roles, or rows appended after them, keep
      the students. */
  lemma SameRolesKeepStudents(a: seq<User>, b: seq<User>)
    requires |a| <= |b|
    requires forall k :: 0 <= k < |a| ==> b[k].id == a[k].id && b[k].role == a[k].role
    ensures KeepsStudents(a, b)
  {
    forall n | IsStudentId(a, n)
      ensures IsStudentId(b, n)
    {
      var k :| 0 <= k < |a| && a[k].id == n && a[k].role == Student;
      assert b[k].id == n && b[k].role == Student;
    }
  }

  /** An account handler that keeps the task tables, the users invariant and
      the students keeps the whole database invariant. */
  lemma AccountStepKeepsWellFormed(db: Db, after: Db)
    requires DbWellFormed(db) && SameTasks(after, db) && UsersWellFormed(after.users, after.nextUserId)
    requires |db.users| <= |after.users|
    requires forall k :: 0 <= k < |db.users| ==> after.users[k].id == db.users[k].id && after.users[k].role == db.users[k].role
    ensures DbWellFormed(after)
  {
    SameRolesKeepStudents(db.users, after.users);
    AssigneesCarry(db.users, after.users, db.homework);
    AssigneesCarry(db.users, after.users, db.assignments);
  }

  lemma PublicKeepsWellFormed(h: PublicHandler, db: Db, env: Env, req: Request, errors: seq<Detail>)
    requires DbWellFormed(db)
    ensures DbWellFormed(RunPublic(h, db, env, req, errors).db)
  {
    var after := RunPublic(h, db, env, req, errors).db;
    if h == RegisterStudentHandler && errors == [] {
      RegisterStudentKeepsUsersWellFormed(db, env.crypto, req.body, env.clock);
      AccountStepKeepsWellFormed(db, after);
    }
  }

  lemma AccountKeepsWellFormed(h: UserHandler, db: Db, env: Env, req: Request, who: Identity, errors: seq<Detail>)
    requires DbWellFormed(db)
    requires AccountHandler(h)
    ensures DbWellFormed(RunUser(h, db, env, req, who, errors).db)
  {
    match h
    case UpdateProfileHandler => UpdateProfileKeepsWellFormed(db, who, req.body, errors, env.clock);
    case ChangePasswordHandler => ChangePasswordKeepsWellFormed(db, env.crypto, who, req.body, errors, env.clock);
    case RegisterAdminHandler => RegisterAdminKeepsWellFormed(db, env.crypto, req.body, errors, env.clock);
    case LogoutHandler => LogoutKeepsWellFormed(db, req.header);
    case ProfileHandler =>
  }

  lemma LogoutKeepsWellFormed(db: Db, header: Option<string>)
    requires DbWellFormed(db)
    ensures DbWellFormed(Logout(db, header).db)
  {
  }

  lemma UpdateProfileKeepsWellFormed(db: Db, who: Identity, body: JsonBody, errors: seq<Detail>, clock: Clock)
    requires DbWellFormed(db)
    ensures DbWellFormed(UpdateProfile(db, who, body, errors, clock).db)
  {
    var after := UpdateProfile(db, who, body, errors, clock).db;
    UpdateProfileKeepsCredentials(db, who, body, errors, clock);
    UpdateProfileKeepsUsersWellFormed(db, who, body, errors, clock);
    AccountStepKeepsWellFormed(db, after);
  }

  lemma ChangePasswordKeepsWellFormed(db: Db, crypto: Crypto, who: Identity, body: JsonBody, errors: seq<Detail>, clock: Clock)
    requires DbWellFormed(db)
    ensures DbWellFormed(ChangePassword(db, crypto, who, body, errors, clock).db)
  {
    if errors == [] && ChangePassword(db, crypto, who, body, errors, clock).response.status == 200 {
      var after := ChangePassword(db, crypto, who, body, errors, clock).db;
      ChangePasswordKeepsUsersWellFormed(db, crypto, who, body, clock);
      AccountStepKeepsWellFormed(db, after);
    }
  }

  lemma RegisterAdminKeepsWellFormed(db: Db, crypto: Crypto, body: JsonBody, errors: seq<Detail>, clock: Clock)
    requires DbWellFormed(db)
    ensures DbWellFormed(RegisterAdmin(db, crypto, body, errors, clock).db)
  {
    if errors == [] && RegisterAdmin(db, crypto, body, errors, clock).response.status == 201 {
      var after := RegisterAdmin(db, crypto, body, errors, clock).db;
      RegisterAdminKeepsUsersWellFormed(db, crypto, body, clock);
      AccountStepKeepsWellFormed(db, after);
    }
  }

  lemma TaskKeepsWellFormed(h: UserHandler, db: Db, env: Env, req: Request, who: Identity, errors: seq<Detail>)
    requires DbWellFormed(db)
    requires !AccountHandler(h)
    ensures DbWellFormed(RunUser(h, db, env, req, who, errors).db)
  {
    var k := h.kind;
    var t := TaskTable(db, k);
    match h
    case UpdateHandler(_, id) =>
      UpdateKeepsInvariants(k, db.users, db.nextUserId, t, who, id, req.body, errors, env.clock);
    case CreateHandler(_) =>
      CreateKeepsInvariants(k, db.users, t, who, req.body, errors, env.clock);
    case DeleteHandler(_, id) =>
      if DeleteTask(k, t, id).response.status == 200 {
        DeleteRemovesOne(k, db.users, t, id);
      }
    case _ =>
  }

  /** No request breaks the invariants: user ids, usernames and student ids
      stay unique, task ids stay unique below their counters, and every
      assigned task names a student. */
  lemma RunKeepsWellFormed(db: Db, env: Env, req: Request)
    requires DbWellFormed(db)
    ensures DbWellFormed(Run(db, env, req).db)
  {
    var route := Resolve(req.verb, req.path);
    var auth := Authenticate(db, env.crypto, req.header, env.clock);
    if route.Public? {
      PublicKeepsWellFormed(route.open, db, env, req, Errors(route.rules, req.body, env.dates, env.clock.localDay));
    } else if route.Protected? && auth.Authenticated? && (route.roles.Some? ==> auth.who.role in route.roles.value) {
      var errors := Errors(route.rules, req.body, env.dates, env.clock.localDay);
      ProtectedRunsHandler(db, env, req, auth.who);
      if AccountHandler(route.handler) {
        AccountKeepsWellFormed(route.handler, db, env, req, auth.who, errors);
      } else {
        TaskKeepsWellFormed(route.handler, db, env, req, auth.who, errors);
      }
    } else {
      UnhandledKeepsDb(db, env, req);
    }
  }
}
