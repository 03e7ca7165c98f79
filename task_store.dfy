/**
 * The task status store (app/models/task.py): one table `tasks` keyed by the
 * task ID, with the columns status, result_url, error and created_at.
 *
 * The SQLite file is a map field of a `TaskTable` object; `save_task_status`
 * updates it in place and `get_task_status` reads it. `CURRENT_TIMESTAMP` is the
 * parameter `now` of the call that inserts the row.
 */
module TaskStore {
  import opened Common

  /** The enum `TaskStatus`: exactly three members. */
  datatype TaskStatus = Processing | Completed | Failed

  /** `TaskStatus.X.value`, the text stored in the status column. */
  function Value(s: TaskStatus): string
  {
    match s
    case Processing => "processing"
    case Completed => "completed"
    case Failed => "failed"
  }

  /** What looking up `TaskStatus.CANCELLED` raises: the enum has no such member. */
  const CancelledLookupError: Exc := AttributeError("type object 'TaskStatus' has no attribute 'CANCELLED'")

  /** The attribute access `TaskStatus.<name>`: a member, or AttributeError. */
  function Member(name: string): (r: Outcome<TaskStatus>)
    ensures r.Returned? ==> Value(r.value) == Lower(name)
    ensures r.Raised? ==> r.exc == AttributeError("type object 'TaskStatus' has no attribute '" + name + "'")
  {
    if name == "PROCESSING" then Returned(Processing)
    else if name == "COMPLETED" then Returned(Completed)
    else if name == "FAILED" then Returned(Failed)
    else Raised(AttributeError("type object 'TaskStatus' has no attribute '" + name + "'"))
  }

  /** Only the three declared names are members; in particular CANCELLED is not. */
  lemma MembersAreExactlyThree(name: string)
    ensures Member(name).Returned? <==> name == "PROCESSING" || name == "COMPLETED" || name == "FAILED"
    ensures Member("CANCELLED") == Raised(CancelledLookupError)
  {
    assert "CANCELLED" != "PROCESSING" && "CANCELLED" != "COMPLETED" && "CANCELLED" != "FAILED";
    assert "type object 'TaskStatus' has no attribute '" + "CANCELLED" + "'"
        == "type object 'TaskStatus' has no attribute 'CANCELLED'";
  }

  /** A stored row; a None field is SQL NULL. */
  datatype Row = Row(status: string, resultUrl: Option<string>, error: Option<string>, createdAt: nat)

  /** The dict `get_task_status` returns for a row. */
  datatype TaskInfo = TaskInfo(id: string, status: string, resultUrl: Option<string>, error: Option<string>, createdAt: nat)

  /** The table after `save_task_status(id, status, url, error)`: an update keeps created_at, an insert stamps `now`. */
  function Upsert(rows: map<string, Row>, id: string, status: string, url: Option<string>, error: Option<string>, now: nat): map<string, Row>
  {
    if id in rows then rows[id := Row(status, url, error, rows[id].createdAt)]
    else rows[id := Row(status, url, error, now)]
  }

  /** `get_task_status(id)` on a table: the row's fields with its ID, or None. */
  function Lookup(rows: map<string, Row>, id: string): (r: Option<TaskInfo>)
    ensures r.Some? <==> id in rows
    ensures r.Some? ==>
      r.value.id == id && r.value.status == rows[id].status &&
      r.value.resultUrl == rows[id].resultUrl && r.value.error == rows[id].error
  {
    if id in rows then
      var row := rows[id];
      Some(TaskInfo(id, row.status, row.resultUrl, row.error, row.createdAt))
    else None
  }

  class TaskTable {
    var rows: map<string, Row>

    /** A fresh database: `init_db` creates the table empty. */
    constructor()
      ensures rows == map[]
    {
      rows := map[];
    }

    /** save_task_status: update the row when the ID exists, insert it otherwise. */
    method SaveTaskStatus(id: string, status: string, url: Option<string>, error: Option<string>, now: nat)
      modifies this
      ensures rows == Upsert(old(rows), id, status, url, error, now)
    {
      var found := id in rows;
      if found {
        rows := rows[id := Row(status, url, error, rows[id].createdAt)];
      } else {
        rows := rows[id := Row(status, url, error, now)];
      }
    }

    /** get_task_status: the row as a record, or None for an unknown ID. */
    method GetTaskStatus(id: string) returns (r: Option<TaskInfo>)
      ensures r == Lookup(rows, id)
    {
      if id in rows {
        var row := rows[id];
        r := Some(TaskInfo(id, row.status, row.resultUrl, row.error, row.createdAt));
      } else {
        r := None;
      }
    }
  }

  /**
   * Reading an ID back after saving it gives the saved status, URL and error,
   * whatever the row held before (no guard on status transitions); created_at
   * is the first insert's.
   */
  lemma GetAfterSave(rows: map<string, Row>, id: string, status: string, url: Option<string>, error: Option<string>, now: nat)
    ensures Lookup(Upsert(rows, id, status, url, error, now), id)
         == Some(TaskInfo(id, status, url, error, if id in rows then rows[id].createdAt else now))
  {
  }

  /** Saving one ID leaves what every other ID reads unchanged. */
  lemma SaveLeavesOthers(rows: map<string, Row>, id: string, status: string, url: Option<string>, error: Option<string>, now: nat, other: string)
    requires other != id
    ensures Lookup(Upsert(rows, id, status, url, error, now), other) == Lookup(rows, other)
  {
  }

  /** A new ID adds exactly one row; an existing ID adds none. */
  lemma SaveRowCount(rows: map<string, Row>, id: string, status: string, url: Option<string>, error: Option<string>, now: nat)
    ensures Upsert(rows, id, status, url, error, now).Keys == rows.Keys + {id}
    ensures |Upsert(rows, id, status, url, error, now)| == if id in rows then |rows| else |rows| + 1
  {
    var r := Upsert(rows, id, status, url, error, now);
    assert r.Keys == rows.Keys + {id};
    if id !in rows {
      assert |rows.Keys + {id}| == |rows.Keys| + 1;
    } else {
      assert rows.Keys + {id} == rows.Keys;
    }
  }

  /** A terminal status can be overwritten: "completed" followed by "processing" reads back as processing with a NULL URL. */
  lemma NoTransitionGuard(rows: map<string, Row>, id: string, url: string, now: nat, later: nat)
    ensures Lookup(Upsert(Upsert(rows, id, Value(Completed), Some(url), None, now), id, Value(Processing), None, None, later), id).value.status
         == "processing"
    ensures Lookup(Upsert(Upsert(rows, id, Value(Completed), Some(url), None, now), id, Value(Processing), None, None, later), id).value.resultUrl
         == None
  {
  }

  /** Nothing is found for an ID that was never saved. */
  lemma UnknownIdIsNone(id: string)
    ensures Lookup(map[], id) == None
  {
  }
}
