/** The homework and assignment controllers. The two files are the same
    program over two tables of one schema, differing only in the table, the
    JSON keys and the wording of their messages, so both are one service
    parameterised by a `Kind`. Every operation takes one table and returns
    it with the response. */
module TaskService {
  import opened Options
  import opened JsText
  import opened Model
  import opened TaskOrder

  datatype Kind = Homework | Assignment

  /** The key of the list in `res.json({ homework })` / `{ assignments }`. */
  function ListKey(k: Kind): string {
    match k
    case Homework => "homework"
    case Assignment => "assignments"
  }

  /** The key of the single row in a response. */
  function ItemKey(k: Kind): string {
    match k
    case Homework => "homework"
    case Assignment => "assignment"
  }

  function NotFound(k: Kind): string {
    match k
    case Homework => "Homework not found"
    case Assignment => "Assignment not found"
  }

  function OnlyAdmins(k: Kind): string {
    match k
    case Homework => "Only administrators can update homework"
    case Assignment => "Only administrators can update assignments"
  }

  function Noun(k: Kind): string {
    match k
    case Homework => "Homework"
    case Assignment => "Assignment"
  }

  function Created(k: Kind): string { Noun(k) + " created successfully" }
  function Updated(k: Kind): string { Noun(k) + " updated successfully" }
  function Deleted(k: Kind): string { Noun(k) + " deleted successfully" }

  const InvalidAssignee: string := "Invalid student ID for assignment"

  datatype TableOutcome = TableOutcome(table: Table, response: Response)

  // ---------------------------------------------------------------------
  // Reading

  /** `h.assigned_to = ? OR h.assigned_to IS NULL` for the caller's id. */
  predicate VisibleTo(who: Identity, t: Task) {
    t.assignedTo.None? || t.assignedTo == Some(who.id)
  }

  /** The rows a caller may read: all of them for an admin, their own and
      the global ones for a student. */
  predicate Readable(who: Identity, t: Task) {
    who.role == Admin || VisibleTo(who, t)
  }

  /** The rows of `rows` the caller may read, in table order. */
  function ReadableRows(who: Identity, rows: seq<Task>): (r: seq<Task>)
    ensures forall t :: t in r <==> t in rows && Readable(who, t)
    ensures who.role == Admin ==> r == rows
  {
    if rows == [] then []
    else if Readable(who, rows[0]) then [rows[0]] + ReadableRows(who, rows[1..])
    else ReadableRows(who, rows[1..])
  }

  /** `getHomework` / `getAssignments`: the readable rows, ordered. */
  function ListTasks(k: Kind, t: Table, who: Identity): (r: Response)
    ensures r.status == 200 && r.body.TaskList? && r.body.key == ListKey(k)
    ensures Sorted(r.body.tasks)
    ensures multiset(r.body.tasks) == multiset(ReadableRows(who, t.rows))
  {
    Response(200, TaskList(ListKey(k), SortTasks(ReadableRows(who, t.rows))))
  }

  /** Whether `viewer`, when given, may read the row. */
  predicate ReadableBy(viewer: Option<Identity>, t: Task) {
    viewer.None? || Readable(viewer.value, t)
  }

  /** `db.get(... WHERE id = ? ...)`: the first row with the given key,
      among the rows `viewer` may read when one is given. A key that is not
      an integer matches nothing. */
  function FindTask(rows: seq<Task>, key: Option<int>, viewer: Option<Identity>): (r: Option<Task>)
    ensures r.Some? ==> r.value in rows && key == Some(r.value.id) && ReadableBy(viewer, r.value)
    ensures r.None? <==> forall j :: 0 <= j < |rows| ==> !(key == Some(rows[j].id) && ReadableBy(viewer, rows[j]))
  {
    if rows == [] then None
    else if key == Some(rows[0].id) && ReadableBy(viewer, rows[0]) then Some(rows[0])
    else FindTask(rows[1..], key, viewer)
  }

  /** The key a route parameter `:id` selects by. */
  function IdKey(idParam: string): Option<int> {
    SqlIntKey(Str(idParam))
  }

  /** `getHomeworkById` / `getAssignmentById`: a student gets 404 for a row
      assigned to someone else, as for a missing one. */
  function GetTask(k: Kind, t: Table, who: Identity, idParam: string): (r: Response)
    ensures r.status in {200, 404}
    ensures r.status == 404 <==> forall j :: 0 <= j < |t.rows| ==>
              !(IdKey(idParam) == Some(t.rows[j].id) && Readable(who, t.rows[j]))
    ensures r.status == 404 ==> r == Error(404, NotFound(k))
    ensures r.status == 200 ==>
              && r.body.TaskItem? && r.body.key == ItemKey(k) && r.body.note == None
              && r.body.task in t.rows && IdKey(idParam) == Some(r.body.task.id) && Readable(who, r.body.task)
  {
    match FindTask(t.rows, IdKey(idParam), Some(who))
    case None => Error(404, NotFound(k))
    case Some(row) => Response(200, TaskItem(ItemKey(k), None, row))
  }

  // ---------------------------------------------------------------------
  // Creating

  /** The four text columns of a new task bind to values, not `NULL`. */
  predicate TextColumnsBind(body: JsonBody) {
    && SqlText(Field(body, "subject")).Some? && SqlText(Field(body, "title")).Some?
    && SqlText(Field(body, "description")).Some? && SqlText(Field(body, "due_date")).Some?
  }

  /** An assignee the handler accepts: none given, or the key of a student. */
  predicate AcceptedAssignee(users: seq<User>, a: Value) {
    a in {Undefined, Null} || (SqlIntKey(a).Some? && IsStudentId(users, SqlIntKey(a).value))
  }

  /** `INSERT INTO ... (subject, title, description, due_date, created_by,
      assigned_to)`: the NOT NULL columns refuse a missing value and the
      foreign key on `created_by` needs the caller's row; the id is the next
      AUTOINCREMENT value and the status the column default. */
  function InsertTask(k: Kind, users: seq<User>, t: Table, who: Identity, body: JsonBody, assignee: Option<int>, clock: Clock): (r: TableOutcome)
    ensures r.response.status in {201, 500}
    ensures r.response.status == 500 ==> r == TableOutcome(t, Internal())
    ensures r.response.status == 201 <==> TextColumnsBind(body) && IsUserId(users, who.id)
    ensures r.response.status == 201 ==>
              r.response.body.TaskItem? && (
              var row := r.response.body.task;
              && r.response.body == TaskItem(ItemKey(k), Some(Created(k)), row)
              && r.table == Table(t.rows + [row], t.nextId + 1)
              && row.id == t.nextId && row.status == Pending && row.createdBy == who.id
              && row.assignedTo == assignee
              && row.subject == ToText(Field(body, "subject")) && row.title == ToText(Field(body, "title"))
              && row.description == ToText(Field(body, "description")) && row.dueDate == ToText(Field(body, "due_date"))
              && row.createdAt == Seconds(clock) && row.updatedAt == Seconds(clock))
  {
    var subject, title := SqlText(Field(body, "subject")), SqlText(Field(body, "title"));
    var description, dueDate := SqlText(Field(body, "description")), SqlText(Field(body, "due_date"));
    if subject.None? || title.None? || description.None? || dueDate.None? || !IsUserId(users, who.id) then
      TableOutcome(t, Internal())
    else
      var row := Task(t.nextId, subject.value, title.value, description.value, dueDate.value, Pending,
                      who.id, assignee, Seconds(clock), Seconds(clock));
      TableOutcome(Table(t.rows + [row], t.nextId + 1), Response(201, TaskItem(ItemKey(k), Some(Created(k)), row)))
  }

  /** `createHomework` / `createAssignment`. `assigned_to ?? null`: a missing
      or null assignee makes a global task; any other value has to name a
      student. */
  function CreateTask(k: Kind, users: seq<User>, t: Table, who: Identity, body: JsonBody, errors: seq<Detail>, clock: Clock): (r: TableOutcome)
    ensures r.response.status in {201, 400, 500}
    ensures r.response.status != 201 ==> r.table == t
    ensures errors != [] ==> r.response == Invalid(errors)
    ensures errors == [] && !AcceptedAssignee(users, Field(body, "assigned_to")) ==>
              r.response == Error(400, InvalidAssignee)
    ensures r.response.status == 201 <==>
              errors == [] && AcceptedAssignee(users, Field(body, "assigned_to"))
              && TextColumnsBind(body) && IsUserId(users, who.id)
    ensures r.response.status == 201 ==>
              && errors == [] && r.response.body.TaskItem?
              && var row := r.response.body.task;
              && r.table == Table(t.rows + [row], t.nextId + 1)
              && row.id == t.nextId && row.status == Pending && row.createdBy == who.id
              && (row.assignedTo.None? <==> Field(body, "assigned_to") in {Undefined, Null})
              && (row.assignedTo.Some? ==> row.assignedTo == SqlIntKey(Field(body, "assigned_to"))
                                           && IsStudentId(users, row.assignedTo.value))
  {
    if errors != [] then TableOutcome(t, Invalid(errors))
    else
      var a := Field(body, "assigned_to");
      if a == Undefined || a == Null then InsertTask(k, users, t, who, body, None, clock)
      else
        match SqlIntKey(a)
        case None => TableOutcome(t, Error(400, InvalidAssignee))
        case Some(n) =>
          if !IsStudentId(users, n) then TableOutcome(t, Error(400, InvalidAssignee))
          else InsertTask(k, users, t, who, body, Some(n), clock)
  }

  // ---------------------------------------------------------------------
  // Updating

  /** `assigned_to !== homework.assigned_to` between a request value and the
      stored integer or null: only a number equal to the stored id is the
      same value. */
  predicate SameAssignee(v: Value, stored: Option<int>) {
    v.Num? && stored == Some(v.n)
  }

  /** `if (assigned_to && assigned_to !== homework.assigned_to)` and the
      lookup finds no student with that id. */
  predicate AssigneeRejected(users: seq<User>, v: Value, stored: Option<int>) {
    Truthy(v) && !SameAssignee(v, stored) && !(SqlIntKey(v).Some? && IsStudentId(users, SqlIntKey(v).value))
  }

  /** `field || homework.field`: a truthy request value replaces the stored
      text. */
  function Merge(body: JsonBody, name: string, stored: string): (r: string)
    ensures Truthy(Field(body, name)) ==> r == ToText(Field(body, name))
    ensures !Truthy(Field(body, name)) ==> r == stored
  {
    if Truthy(Field(body, name)) then ToText(Field(body, name)) else stored
  }

  /** The stored status after `status || homework.status`, or `None` where
      the CHECK constraint refuses the text. */
  function MergeStatus(body: JsonBody, stored: Status): (r: Option<Status>)
    ensures !Truthy(Field(body, "status")) ==> r == Some(stored)
    ensures Truthy(Field(body, "status")) ==> r == ParseStatus(ToText(Field(body, "status")))
  {
    if Truthy(Field(body, "status")) then ParseStatus(ToText(Field(body, "status"))) else Some(stored)
  }

  /** The assignee `assigned_to !== undefined ? assigned_to :
      homework.assigned_to` writes, or `None` for a value that is not an
      integer. */
  function NewAssignee(body: JsonBody, stored: Option<int>): Option<Option<int>> {
    match Field(body, "assigned_to")
    case Undefined => Some(stored)
    case Null => Some(None)
    case v => if SqlIntKey(v).Some? then Some(SqlIntKey(v)) else None
  }

  /** The stored assignee after the update, or `None` where the foreign key
      on `assigned_to` refuses it: a value that is not an integer matches no
      user id. */
  function MergeAssignee(users: seq<User>, body: JsonBody, stored: Option<int>): (r: Option<Option<int>>)
    ensures r.Some? && r.value.Some? ==> IsUserId(users, r.value.value)
    ensures Field(body, "assigned_to") == Undefined ==>
              (r.Some? <==> stored.None? || IsUserId(users, stored.value)) && (r.Some? ==> r.value == stored)
    ensures Field(body, "assigned_to") == Null ==> r == Some(None)
    ensures Field(body, "assigned_to") !in {Undefined, Null} ==>
              (r.Some? <==> SqlIntKey(Field(body, "assigned_to")).Some? && IsUserId(users, SqlIntKey(Field(body, "assigned_to")).value))
              && (r.Some? ==> r.value == SqlIntKey(Field(body, "assigned_to")))
  {
    match NewAssignee(body, stored)
    case None => None
    case Some(a) => if a.Some? && !IsUserId(users, a.value) then None else Some(a)
  }

  /** Every row with the given id replaced by `row`: `UPDATE ... WHERE id = ?`. */
  function ReplaceRows(rows: seq<Task>, id: int, row: Task): (r: seq<Task>)
    ensures |r| == |rows|
    ensures forall j :: 0 <= j < |rows| ==> r[j] == if rows[j].id == id then row else rows[j]
  {
    seq(|rows|, j requires 0 <= j < |rows| => if rows[j].id == id then row else rows[j])
  }

  /** `updateHomework` / `updateAssignment`. */
  function UpdateTask(k: Kind, users: seq<User>, t: Table, who: Identity, idParam: string, body: JsonBody, errors: seq<Detail>, clock: Clock): (r: TableOutcome)
    ensures r.response.status in {200, 400, 403, 404, 500}
    ensures r.response.status != 200 ==> r.table == t
    ensures errors != [] ==> r.response == Invalid(errors)
    ensures errors == [] && FindTask(t.rows, IdKey(idParam), None).None? ==> r.response == Error(404, NotFound(k))
    ensures errors == [] && FindTask(t.rows, IdKey(idParam), None).Some? && who.role == Student ==>
              r.response == Error(403, OnlyAdmins(k))
    ensures errors == [] && FindTask(t.rows, IdKey(idParam), None).Some? && who.role == Admin
            && AssigneeRejected(users, Field(body, "assigned_to"), FindTask(t.rows, IdKey(idParam), None).value.assignedTo) ==>
              r.response == Error(400, InvalidAssignee)
    ensures r.response.status == 500 ==> r.response == Internal()
    ensures r.response.status == 200 <==>
              && errors == [] && FindTask(t.rows, IdKey(idParam), None).Some? && who.role == Admin
              && var old_ := FindTask(t.rows, IdKey(idParam), None).value;
              && !AssigneeRejected(users, Field(body, "assigned_to"), old_.assignedTo)
              && MergeStatus(body, old_.status).Some? && MergeAssignee(users, body, old_.assignedTo).Some?
    ensures r.response.status == 200 ==>
              r.response.body.TaskItem? && (
              var old_ := FindTask(t.rows, IdKey(idParam), None).value;
              var row := r.response.body.task;
              && r.response.body == TaskItem(ItemKey(k), Some(Updated(k)), row)
              && r.table == Table(ReplaceRows(t.rows, old_.id, row), t.nextId)
              && row.id == old_.id && row.createdBy == old_.createdBy && row.createdAt == old_.createdAt
              && row.updatedAt == Seconds(clock)
              && row.subject == Merge(body, "subject", old_.subject)
              && row.title == Merge(body, "title", old_.title)
              && row.description == Merge(body, "description", old_.description)
              && row.dueDate == Merge(body, "due_date", old_.dueDate)
              && Some(row.status) == MergeStatus(body, old_.status)
              && Some(row.assignedTo) == MergeAssignee(users, body, old_.assignedTo))
  {
    if errors != [] then TableOutcome(t, Invalid(errors))
    else
      match FindTask(t.rows, IdKey(idParam), None)
      case None => TableOutcome(t, Error(404, NotFound(k)))
      case Some(old_) =>
        if who.role == Student then TableOutcome(t, Error(403, OnlyAdmins(k)))
        else
          var a := Field(body, "assigned_to");
          if AssigneeRejected(users, a, old_.assignedTo) then
            TableOutcome(t, Error(400, InvalidAssignee))
          else
            match (MergeStatus(body, old_.status), MergeAssignee(users, body, old_.assignedTo))
            case (Some(status), Some(assignee)) =>
              var row := old_.(subject := Merge(body, "subject", old_.subject),
                               title := Merge(body, "title", old_.title),
                               description := Merge(body, "description", old_.description),
                               dueDate := Merge(body, "due_date", old_.dueDate),
                               status := status, assignedTo := assignee, updatedAt := Seconds(clock));
              // students were answered with 403 above
              assert who.role == Admin;
              TableOutcome(Table(ReplaceRows(t.rows, old_.id, row), t.nextId),
                           Response(200, TaskItem(ItemKey(k), Some(Updated(k)), row)))
            case _ => TableOutcome(t, Internal())
  }

  // ---------------------------------------------------------------------
  // Deleting

  /** `DELETE FROM ... WHERE id = ?`. */
  function RemoveRows(rows: seq<Task>, id: int): (r: seq<Task>)
    ensures |r| <= |rows|
  {
    if rows == [] then []
    else if rows[0].id == id then RemoveRows(rows[1..], id)
    else [rows[0]] + RemoveRows(rows[1..], id)
  }

  /** `deleteHomework` / `deleteAssignment`; the role is checked by the
      route alone. */
  function DeleteTask(k: Kind, t: Table, idParam: string): (r: TableOutcome)
    ensures r.response.status in {200, 404}
    ensures r.response.status == 404 <==> FindTask(t.rows, IdKey(idParam), None).None?
    ensures r.response.status == 404 ==> r == TableOutcome(t, Error(404, NotFound(k)))
    ensures r.response.status == 200 ==>
              && r.response.body == MessageBody(Deleted(k))
              && r.table == Table(RemoveRows(t.rows, IdKey(idParam).value), t.nextId)
  {
    match FindTask(t.rows, IdKey(idParam), None)
    case None => TableOutcome(t, Error(404, NotFound(k)))
    case Some(row) => TableOutcome(Table(RemoveRows(t.rows, row.id), t.nextId), Response(200, MessageBody(Deleted(k))))
  }
}
