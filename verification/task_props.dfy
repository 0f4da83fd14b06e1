/** What the task service keeps and how its operations fit together: listing
    and reading by id agree, a created or updated row is read back, a delete
    removes exactly one row, and the table invariants survive every write. */
module TaskProps {
  import opened Options
  import opened JsText
  import opened Model
  import opened TaskOrder
  import opened TaskService

  // ---------------------------------------------------------------------
  // Listing and reading

  /** A list holds exactly the rows its caller may read: for a student their
      own and the global ones, for an admin every row, each as often as it is
      stored. */
  lemma {:induction false} ListShowsReadable(k: Kind, t: Table, who: Identity)
    ensures forall x :: x in ListTasks(k, t, who).body.tasks <==> x in t.rows && Readable(who, x)
    ensures who.role == Student ==>
              forall x :: x in ListTasks(k, t, who).body.tasks <==> x in t.rows && VisibleTo(who, x)
    ensures who.role == Admin ==> multiset(ListTasks(k, t, who).body.tasks) == multiset(t.rows)
  {
    var l := ListTasks(k, t, who).body.tasks;
    var readable := ReadableRows(who, t.rows);
    forall x
      ensures x in l <==> x in readable
    {
      assert x in l <==> x in multiset(l);
      assert x in readable <==> x in multiset(readable);
    }
  }

  /** Two rows of a well-formed table with the same id are the same row. */
  lemma SameIdSameRow(t: Table, x: Task, y: Task)
    requires TableWellFormed(t)
    requires x in t.rows && y in t.rows && x.id == y.id
    ensures x == y
  {
    var i :| 0 <= i < |t.rows| && t.rows[i] == x;
    var j :| 0 <= j < |t.rows| && t.rows[j] == y;
  }

  /** The decimal text of an id selects that id. */
  lemma IdKeyOfDecimal(n: int)
    ensures IdKey(IntToDecimal(n)) == Some(n)
  {
    IntTextRoundTrip(n);
  }

  /** Reading a listed row by its id returns that row. */
  lemma ListedRowFound(k: Kind, t: Table, who: Identity, x: Task)
    requires TableWellFormed(t)
    requires x in ListTasks(k, t, who).body.tasks
    ensures GetTask(k, t, who, IntToDecimal(x.id)) == Response(200, TaskItem(ItemKey(k), None, x))
  {
    ListShowsReadable(k, t, who);
    IdKeyOfDecimal(x.id);
    var j :| 0 <= j < |t.rows| && t.rows[j] == x;
    var r := GetTask(k, t, who, IntToDecimal(x.id));
    assert r.status == 200;
    SameIdSameRow(t, r.body.task, x);
  }

  /** A row read by id is one the caller's list shows. */
  lemma FoundRowListed(k: Kind, t: Table, who: Identity, idParam: string)
    requires GetTask(k, t, who, idParam).status == 200
    ensures GetTask(k, t, who, idParam).body.task in ListTasks(k, t, who).body.tasks
  {
    ListShowsReadable(k, t, who);
  }

  // ---------------------------------------------------------------------
  // Creating

  /** A create keeps the ids unique and below the counter, and assigns only
      students. */
  lemma CreateKeepsInvariants(k: Kind, users: seq<User>, t: Table, who: Identity, body: JsonBody, errors: seq<Detail>, clock: Clock)
    requires TableWellFormed(t) && AssigneesAreStudents(users, t)
    ensures TableWellFormed(CreateTask(k, users, t, who, body, errors, clock).table)
    ensures AssigneesAreStudents(users, CreateTask(k, users, t, who, body, errors, clock).table)
  {
    var r := CreateTask(k, users, t, who, body, errors, clock);
    if r.response.status == 201 {
      var rows := r.table.rows;
      assert rows == t.rows + [r.response.body.task];
      forall i | 0 <= i < |rows| && rows[i].assignedTo.Some?
        ensures IsStudentId(users, rows[i].assignedTo.value)
      {
        if i < |t.rows| {
          assert rows[i] == t.rows[i];
        }
      }
    }
  }

  /** An admin reads a created row back by its new id. */
  lemma CreateThenGet(k: Kind, users: seq<User>, t: Table, who: Identity, body: JsonBody, errors: seq<Detail>, clock: Clock, reader: Identity)
    requires TableWellFormed(t)
    requires CreateTask(k, users, t, who, body, errors, clock).response.status == 201
    requires reader.role == Admin
    ensures var r := CreateTask(k, users, t, who, body, errors, clock);
            GetTask(k, r.table, reader, IntToDecimal(t.nextId)) == Response(200, TaskItem(ItemKey(k), None, r.response.body.task))
  {
    var r := CreateTask(k, users, t, who, body, errors, clock);
    var row := r.response.body.task;
    IdKeyOfDecimal(t.nextId);
    assert r.table.rows == t.rows + [row];
    var g := GetTask(k, r.table, reader, IntToDecimal(t.nextId));
    assert r.table.rows[|t.rows|] == row;
    assert g.status == 200;
    var j :| 0 <= j < |r.table.rows| && r.table.rows[j] == g.body.task;
    if j < |t.rows| {
      assert t.rows[j].id < t.nextId;
    }
  }

  // ---------------------------------------------------------------------
  // Updating

  /** Of the falsy values only `undefined` and `null` name no id once bound:
      `0` and `''` select no existing user. */
  lemma FalsyAssigneeNamesNoUser(users: seq<User>, nextUserId: int, v: Value)
    requires UsersWellFormed(users, nextUserId)
    requires !Truthy(v) && v != Undefined && v != Null
    ensures !(SqlIntKey(v).Some? && IsUserId(users, SqlIntKey(v).value))
  {
    if v.Num? {
      assert forall u :: 0 <= u < |users| ==> users[u].id != v.n;
    } else {
      assert v == Str("");
      assert !IsIntText("");
    }
  }

  /** The assignee an accepted update writes is a student: a truthy new
      value is checked unless it is the stored one, which the invariant
      covers, and a falsy one other than `null` is refused by the foreign
      key. */
  lemma MergedAssigneeIsStudent(users: seq<User>, nextUserId: int, body: JsonBody, stored: Option<int>)
    requires UsersWellFormed(users, nextUserId)
    requires stored.Some? ==> IsStudentId(users, stored.value)
    requires !AssigneeRejected(users, Field(body, "assigned_to"), stored)
    requires MergeAssignee(users, body, stored).Some?
    ensures var a := MergeAssignee(users, body, stored).value;
            a.Some? ==> IsStudentId(users, a.value)
  {
    var v := Field(body, "assigned_to");
    if v != Undefined && v != Null && !Truthy(v) {
      FalsyAssigneeNamesNoUser(users, nextUserId, v);
    }
  }

  /** Replacing the rows with one id by a row with that id keeps a table
      well formed, and keeps it assigning only students when the row does. */
  lemma ReplaceKeepsInvariants(users: seq<User>, t: Table, row: Task)
    requires TableWellFormed(t) && AssigneesAreStudents(users, t)
    requires exists j :: 0 <= j < |t.rows| && t.rows[j].id == row.id
    requires row.assignedTo.Some? ==> IsStudentId(users, row.assignedTo.value)
    ensures var after := Table(ReplaceRows(t.rows, row.id, row), t.nextId);
            TableWellFormed(after) && AssigneesAreStudents(users, after)
  {
    var rows := ReplaceRows(t.rows, row.id, row);
    forall j | 0 <= j < |rows|
      ensures rows[j].id == t.rows[j].id
      ensures rows[j] == row || rows[j] == t.rows[j]
    {
    }
    forall j, l | 0 <= j < l < |rows|
      ensures rows[j].id != rows[l].id
    {
      assert t.rows[j].id != t.rows[l].id;
    }
    forall j | 0 <= j < |rows| && rows[j].assignedTo.Some?
      ensures IsStudentId(users, rows[j].assignedTo.value)
    {
      if rows[j] != row {
        assert rows[j] == t.rows[j];
      }
    }
  }

  /** An update keeps the ids and the counter, and assigns only students.
      Rows with another id are left alone. */
  lemma UpdateKeepsInvariants(k: Kind, users: seq<User>, nextUserId: int, t: Table, who: Identity, idParam: string,
                              body: JsonBody, errors: seq<Detail>, clock: Clock)
    requires UsersWellFormed(users, nextUserId)
    requires TableWellFormed(t) && AssigneesAreStudents(users, t)
    ensures var r := UpdateTask(k, users, t, who, idParam, body, errors, clock);
            && TableWellFormed(r.table) && AssigneesAreStudents(users, r.table)
            && |r.table.rows| == |t.rows|
            && forall j :: 0 <= j < |t.rows| && IdKey(idParam) != Some(t.rows[j].id) ==> r.table.rows[j] == t.rows[j]
  {
    var r := UpdateTask(k, users, t, who, idParam, body, errors, clock);
    if r.response.status == 200 {
      var old_ := FindTask(t.rows, IdKey(idParam), None).value;
      var row := r.response.body.task;
      assert IdKey(idParam) == Some(old_.id) && row.id == old_.id;
      assert r.table == Table(ReplaceRows(t.rows, old_.id, row), t.nextId);
      var i :| 0 <= i < |t.rows| && t.rows[i] == old_;
      MergedAssigneeIsStudent(users, nextUserId, body, old_.assignedTo);
      ReplaceKeepsInvariants(users, t, row);
    } else {
      assert r.table == t;
    }
  }

  /** Among rows whose matching ones were all replaced by `row`, the first
      match is `row`. */
  lemma {:induction false} FindReplaced(rows: seq<Task>, id: int, row: Task, viewer: Option<Identity>)
    requires row.id == id && ReadableBy(viewer, row)
    requires exists j :: 0 <= j < |rows| && rows[j].id == id
    ensures FindTask(ReplaceRows(rows, id, row), Some(id), viewer) == Some(row)
  {
    if rows[0].id != id {
      var j :| 0 <= j < |rows| && rows[j].id == id;
      assert rows[1..][j - 1].id == id;
      FindReplaced(rows[1..], id, row, viewer);
      assert ReplaceRows(rows, id, row)[1..] == ReplaceRows(rows[1..], id, row);
    }
  }

  /** An admin reads an updated row back as the update returned it. */
  lemma UpdateThenGet(k: Kind, users: seq<User>, t: Table, who: Identity, idParam: string,
                      body: JsonBody, errors: seq<Detail>, clock: Clock)
    requires UpdateTask(k, users, t, who, idParam, body, errors, clock).response.status == 200
    ensures var r := UpdateTask(k, users, t, who, idParam, body, errors, clock);
            GetTask(k, r.table, who, idParam) == Response(200, TaskItem(ItemKey(k), None, r.response.body.task))
  {
    var r := UpdateTask(k, users, t, who, idParam, body, errors, clock);
    var old_ := FindTask(t.rows, IdKey(idParam), None).value;
    var i :| 0 <= i < |t.rows| && t.rows[i] == old_;
    FindReplaced(t.rows, old_.id, r.response.body.task, Some(who));
  }

  // ---------------------------------------------------------------------
  // Deleting

  /** With a unique match, `DELETE ... WHERE id = ?` cuts out that one row. */
  lemma {:induction false} RemoveUnique(rows: seq<Task>, id: int, i: int)
    requires 0 <= i < |rows| && rows[i].id == id
    requires forall j :: 0 <= j < |rows| && j != i ==> rows[j].id != id
    ensures RemoveRows(rows, id) == rows[..i] + rows[i + 1..]
  {
    var before, after := rows[..i], rows[i + 1..];
    forall j | 0 <= j < |before|
      ensures before[j].id != id
    {
      assert before[j] == rows[j];
    }
    forall j | 0 <= j < |after|
      ensures after[j].id != id
    {
      assert after[j] == rows[i + 1 + j];
    }
    RemoveNone(before, id);
    RemoveNone(after, id);
    assert RemoveRows([rows[i]], id) == [];
    assert rows == before + ([rows[i]] + after);
    RemoveConcat([rows[i]], after, id);
    RemoveConcat(before, [rows[i]] + after, id);
  }

  /** `DELETE ... WHERE id = ?` works row by row. */
  lemma {:induction false} RemoveConcat(a: seq<Task>, b: seq<Task>, id: int)
    ensures RemoveRows(a + b, id) == RemoveRows(a, id) + RemoveRows(b, id)
  {
    if a == [] {
      assert a + b == b;
    } else {
      assert (a + b)[0] == a[0];
      assert (a + b)[1..] == a[1..] + b;
      RemoveConcat(a[1..], b, id);
    }
  }

  /** `DELETE ... WHERE id = ?` keeps exactly the rows with another id. */
  lemma {:induction false} RemoveRowsMembers(rows: seq<Task>, id: int)
    ensures forall x :: x in RemoveRows(rows, id) <==> x in rows && x.id != id
  {
    if rows != [] {
      RemoveRowsMembers(rows[1..], id);
      assert rows == [rows[0]] + rows[1..];
    }
  }

  lemma {:induction false} RemoveNone(rows: seq<Task>, id: int)
    requires forall j :: 0 <= j < |rows| ==> rows[j].id != id
    ensures RemoveRows(rows, id) == rows
  {
    if rows != [] {
      RemoveNone(rows[1..], id);
      assert rows == [rows[0]] + rows[1..];
    }
  }

  /** Ids are unique, so the row at `i` is the only one with its id. */
  lemma OnlyRowWithId(t: Table, i: int)
    requires TableWellFormed(t) && 0 <= i < |t.rows|
    ensures forall j :: 0 <= j < |t.rows| && j != i ==> t.rows[j].id != t.rows[i].id
  {
    forall j | 0 <= j < |t.rows| && j != i
      ensures t.rows[j].id != t.rows[i].id
    {
      if j < i {
        assert t.rows[j].id != t.rows[i].id;
      } else {
        assert t.rows[i].id != t.rows[j].id;
      }
    }
  }

  /** Cutting a row out keeps a table well formed and assigning only
      students. */
  lemma CutKeepsInvariants(users: seq<User>, t: Table, i: int)
    requires TableWellFormed(t) && AssigneesAreStudents(users, t) && 0 <= i < |t.rows|
    ensures var after := Table(t.rows[..i] + t.rows[i + 1..], t.nextId);
            TableWellFormed(after) && AssigneesAreStudents(users, after)
  {
    var rows := t.rows[..i] + t.rows[i + 1..];
    forall a | 0 <= a < |rows|
      ensures rows[a] == t.rows[if a < i then a else a + 1]
    {
    }
    forall a, b | 0 <= a < b < |rows|
      ensures rows[a].id != rows[b].id
    {
      var a', b' := if a < i then a else a + 1, if b < i then b else b + 1;
      assert t.rows[a'].id != t.rows[b'].id;
    }
  }

  /** A delete of a well-formed table removes exactly the one row with the
      id and keeps the invariants. */
  lemma DeleteRemovesOne(k: Kind, users: seq<User>, t: Table, idParam: string)
    requires TableWellFormed(t) && AssigneesAreStudents(users, t)
    requires DeleteTask(k, t, idParam).response.status == 200
    ensures var after := DeleteTask(k, t, idParam).table;
            && (exists i :: 0 <= i < |t.rows| && IdKey(idParam) == Some(t.rows[i].id)
                 && after.rows == t.rows[..i] + t.rows[i + 1..])
            && TableWellFormed(after) && AssigneesAreStudents(users, after)
  {
    var row := FindTask(t.rows, IdKey(idParam), None).value;
    var i :| 0 <= i < |t.rows| && t.rows[i] == row;
    OnlyRowWithId(t, i);
    RemoveUnique(t.rows, row.id, i);
    CutKeepsInvariants(users, t, i);
  }

  /** After a delete the id reads as missing, for every caller. */
  lemma DeleteThenGet(k: Kind, t: Table, idParam: string, reader: Identity)
    requires DeleteTask(k, t, idParam).response.status == 200
    ensures GetTask(k, DeleteTask(k, t, idParam).table, reader, idParam) == Error(404, NotFound(k))
  {
    var after := DeleteTask(k, t, idParam).table;
    RemoveRowsMembers(t.rows, IdKey(idParam).value);
    forall j | 0 <= j < |after.rows|
      ensures IdKey(idParam) != Some(after.rows[j].id)
    {
      assert after.rows[j] in after.rows;
    }
  }

  // ---------------------------------------------------------------------
  // The two tables

  /** Homework and assignments behave alike: on the same table and request
      the two kinds list the same rows, write the same table and answer with
      the same status. */
  lemma ReadKindsAgree(t: Table, who: Identity, idParam: string)
    ensures ListTasks(Homework, t, who).body.tasks == ListTasks(Assignment, t, who).body.tasks
    ensures GetTask(Homework, t, who, idParam).status == GetTask(Assignment, t, who, idParam).status
  {
  }

  lemma CreateKindsAgree(users: seq<User>, t: Table, who: Identity, body: JsonBody, errors: seq<Detail>, clock: Clock)
    ensures var h, a := CreateTask(Homework, users, t, who, body, errors, clock), CreateTask(Assignment, users, t, who, body, errors, clock);
            h.table == a.table && h.response.status == a.response.status
  {
  }

  lemma UpdateKindsAgree(users: seq<User>, t: Table, who: Identity, idParam: string, body: JsonBody, errors: seq<Detail>, clock: Clock)
    ensures var h, a := UpdateTask(Homework, users, t, who, idParam, body, errors, clock),
                        UpdateTask(Assignment, users, t, who, idParam, body, errors, clock);
            h.table == a.table && h.response.status == a.response.status
  {
  }

  lemma DeleteKindsAgree(t: Table, idParam: string)
    ensures DeleteTask(Homework, t, idParam).table == DeleteTask(Assignment, t, idParam).table
    ensures DeleteTask(Homework, t, idParam).response.status == DeleteTask(Assignment, t, idParam).response.status
  {
  }
}
