/** The routers mounted under `/api`: which middleware runs for a request,
    in which order, and which handler answers it. A route is public (its
    validators, then its handler), or protected (`authenticateToken`, then
    perhaps `authorizeRole`, then its validators, then its handler). The task
    routers run `authenticateToken` for every request that enters them, so a
    request for a task path that no route matches is authenticated before it
    reaches the 404 handler for unknown API paths. */
module Routes {
  import opened Options
  import opened JsText
  import opened Model
  import opened Validation
  import opened AuthMiddleware
  import opened AuthController
  import opened TaskService

  datatype Method = Get | Head | Post | Put | Delete | OtherMethod

  /** Express answers `HEAD` with the route registered for `GET`. */
  predicate Reads(m: Method) {
    m == Get || m == Head
  }

  /** A request: the method, the path below `/api` as its segments, the
      `Authorization` header and the parsed JSON body. */
  datatype Request = Request(verb: Method, path: seq<string>, header: Option<string>, body: JsonBody)

  /** What the handlers read besides the request and the database. */
  datatype Env = Env(crypto: Crypto, dates: Dates, clock: Clock)

  datatype PublicHandler = LoginHandler | RegisterStudentHandler

  datatype UserHandler =
    | LogoutHandler
    | ProfileHandler
    | UpdateProfileHandler
    | ChangePasswordHandler
    | RegisterAdminHandler
    | ListHandler(kind: Kind)
    | ReadHandler(kind: Kind, id: string)
    | UpdateHandler(kind: Kind, id: string)
    | CreateHandler(kind: Kind)
    | DeleteHandler(kind: Kind, id: string)

  datatype Route =
    | Public(rules: seq<Chain>, open: PublicHandler)
    | Protected(roles: Option<seq<Role>>, rules: seq<Chain>, handler: UserHandler)
    | AuthenticatedNoRoute
    | NoRoute

  /** The router a first path segment names. */
  function TaskKind(segment: string): Option<Kind> {
    if segment == "homework" then Some(Homework)
    else if segment == "assignments" then Some(Assignment)
    else None
  }

  /** `routes/auth.js`. */
  function AuthRoute(m: Method, rest: seq<string>): Route {
    if |rest| != 1 then NoRoute
    else
      var p := rest[0];
      if m == Post && p == "login" then Public(LoginRules, LoginHandler)
      else if m == Post && p == "register-student" then Public(StudentRegistrationRules, RegisterStudentHandler)
      else if m == Post && p == "logout" then Protected(None, [], LogoutHandler)
      else if Reads(m) && p == "profile" then Protected(None, [], ProfileHandler)
      else if m == Put && p == "profile" then Protected(None, ProfileUpdateRules, UpdateProfileHandler)
      else if m == Put && p == "change-password" then Protected(None, PasswordChangeRules, ChangePasswordHandler)
      else if m == Post && p == "register-admin" then Protected(Some(AdminOnly), AdminRegistrationRules, RegisterAdminHandler)
      else NoRoute
  }

  /** `routes/homework.js` and `routes/assignments.js`, which are the same
      router over the two controllers. */
  function TaskRoute(k: Kind, m: Method, rest: seq<string>): Route {
    if rest == [] then
      if Reads(m) then Protected(Some(AnyUser), [], ListHandler(k))
      else if m == Post then Protected(Some(AdminOnly), TaskRules, CreateHandler(k))
      else AuthenticatedNoRoute
    else if |rest| == 1 then
      if Reads(m) then Protected(Some(AnyUser), [], ReadHandler(k, rest[0]))
      else if m == Put then Protected(Some(AdminOnly), [], UpdateHandler(k, rest[0]))
      else if m == Delete then Protected(Some(AdminOnly), [], DeleteHandler(k, rest[0]))
      else AuthenticatedNoRoute
    else AuthenticatedNoRoute
  }

  /** The route a request reaches. */
  function Resolve(m: Method, path: seq<string>): Route {
    if path == [] then NoRoute
    else if path[0] == "auth" then AuthRoute(m, path[1..])
    else match TaskKind(path[0])
      case Some(k) => TaskRoute(k, m, path[1..])
      case None => NoRoute
  }

  const NotFoundResponse: Response := Error(404, "API endpoint not found")

  function TaskTable(db: Db, k: Kind): Table {
    match k
    case Homework => db.homework
    case Assignment => db.assignments
  }

  function WithTaskTable(db: Db, k: Kind, t: Table): (r: Db)
    ensures TaskTable(r, k) == t
    ensures r.users == db.users && r.nextUserId == db.nextUserId && r.sessions == db.sessions
    ensures TaskTable(r, if k == Homework then Assignment else Homework)
              == TaskTable(db, if k == Homework then Assignment else Homework)
  {
    match k
    case Homework => db.(homework := t)
    case Assignment => db.(assignments := t)
  }

  function FromTable(db: Db, k: Kind, o: TableOutcome): Outcome {
    Outcome(WithTaskTable(db, k, o.table), o.response)
  }

  function RunPublic(h: PublicHandler, db: Db, env: Env, req: Request, errors: seq<Detail>): Outcome {
    match h
    case LoginHandler => Login(db, env.crypto, req.body, errors, env.clock)
    case RegisterStudentHandler => RegisterStudent(db, env.crypto, req.body, errors, env.clock)
  }

  function RunUser(h: UserHandler, db: Db, env: Env, req: Request, who: Identity, errors: seq<Detail>): Outcome {
    match h
    case LogoutHandler => Logout(db, req.header)
    case ProfileHandler => Outcome(db, GetProfile(db, who))
    case UpdateProfileHandler => UpdateProfile(db, who, req.body, errors, env.clock)
    case ChangePasswordHandler => ChangePassword(db, env.crypto, who, req.body, errors, env.clock)
    case RegisterAdminHandler => RegisterAdmin(db, env.crypto, req.body, errors, env.clock)
    case ListHandler(k) => Outcome(db, ListTasks(k, TaskTable(db, k), who))
    case ReadHandler(k, id) => Outcome(db, GetTask(k, TaskTable(db, k), who, id))
    case UpdateHandler(k, id) =>
      FromTable(db, k, UpdateTask(k, db.users, TaskTable(db, k), who, id, req.body, errors, env.clock))
    case CreateHandler(k) =>
      FromTable(db, k, CreateTask(k, db.users, TaskTable(db, k), who, req.body, errors, env.clock))
    case DeleteHandler(k, id) => FromTable(db, k, DeleteTask(k, TaskTable(db, k), id))
  }

  /** The middleware chain of the route and then its handler; the first
      middleware that answers ends the request, and a validator only
      records its findings for the handler. */
  function Run(db: Db, env: Env, req: Request): (r: Outcome)
    ensures Resolve(req.verb, req.path) == NoRoute ==> r == Outcome(db, NotFoundResponse)
    ensures Resolve(req.verb, req.path).Public? ==>
              var p := Resolve(req.verb, req.path);
              r == RunPublic(p.open, db, env, req, Errors(p.rules, req.body, env.dates, env.clock.localDay))
  {
    match Resolve(req.verb, req.path)
    case NoRoute => Outcome(db, NotFoundResponse)
    case AuthenticatedNoRoute =>
      (match Authenticate(db, env.crypto, req.header, env.clock)
       case Rejected(response) => Outcome(db, response)
       case Authenticated(_) => Outcome(db, NotFoundResponse))
    case Public(rules, h) => RunPublic(h, db, env, req, Errors(rules, req.body, env.dates, env.clock.localDay))
    case Protected(roles, rules, h) =>
      match Authenticate(db, env.crypto, req.header, env.clock)
      case Rejected(response) => Outcome(db, response)
      case Authenticated(who) =>
        if roles.Some? && AuthorizeRole(roles.value, who).Some? then Outcome(db, AuthorizeRole(roles.value, who).value)
        else RunUser(h, db, env, req, who, Errors(rules, req.body, env.dates, env.clock.localDay))
  }
}
