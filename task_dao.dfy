/** The task store behind the view-model, reduced to the contract the Derby
    DAO shows its callers: rows keyed by id and listed in id order, fresh ids
    from a counter, `getTask` answering null for an absent id, `updateTask`
    failing on an absent id, `deleteTask` removing unconditionally, and
    `addTask` ignoring the id it is handed. */
module TaskDao {
  import opened Wrappers
  import opened Tasks

  /** The rows in id order, and the id the next insert receives. */
  datatype Table = Table(rows: seq<Task>, nextId: int)

  /** Ids strictly increase along the rows and stay below the counter. */
  ghost predicate WellFormed(t: Table) {
    && (forall i, j :: 0 <= i < j < |t.rows| ==> t.rows[i].Id() < t.rows[j].Id())
    && (forall i :: 0 <= i < |t.rows| ==> t.rows[i].Id() < t.nextId)
  }

  /** A store state; identity columns start at 1. */
  type Store = t: Table | WellFormed(t) witness Table([], 1)

  /** The first row with the given id, or null; also the view-model's
      `filter(x -> x.getId() == id).findFirst().orElse(null)` over its items. */
  function Find(rows: seq<Task>, id: int): (r: Nullable<Task>)
    ensures r.NonNull? ==> r.value in rows && r.value.Id() == id
    ensures r.Null? <==> forall i :: 0 <= i < |rows| ==> rows[i].Id() != id
  {
    if rows == [] then Null
    else if rows[0].Id() == id then NonNull(rows[0])
    else Find(rows[1..], id)
  }

  /** What `Find` answers is the FIRST element with that id: every element
      before it has another id. */
  lemma {:induction false} FindIsFirst(rows: seq<Task>, id: int)
    ensures Find(rows, id).NonNull? ==>
              exists i :: 0 <= i < |rows| && rows[i] == Find(rows, id).value
                          && forall j :: 0 <= j < i ==> rows[j].Id() != id
  {
    if rows != [] && rows[0].Id() != id && Find(rows, id).NonNull? {
      FindIsFirst(rows[1..], id);
      var i :| 0 <= i < |rows[1..]| && rows[1..][i] == Find(rows, id).value
               && forall j :: 0 <= j < i ==> rows[1..][j].Id() != id;
      assert rows[i + 1] == Find(rows, id).value;
    }
  }

  /** `getTasks()`: every row, ordered by id. */
  function GetTasks(s: Store): (r: seq<Task>)
    ensures forall i, j :: 0 <= i < j < |r| ==> r[i].Id() < r[j].Id()
    ensures forall t :: t in r <==> GetTask(s, t.Id()) == NonNull(t)
  {
    FindInOrderedRows(s.rows);
    s.rows
  }

  /** `getTask(id)`: the row with that id, or null when there is none. */
  function GetTask(s: Store, id: int): Nullable<Task> {
    Find(s.rows, id)
  }

  /** `getTask` answers a stored row carrying the id asked for, and null
      exactly when no row has that id. */
  lemma GetTaskFindsTheRow(s: Store, id: int)
    ensures GetTask(s, id).NonNull? ==> GetTask(s, id).value in s.rows && GetTask(s, id).value.Id() == id
    ensures GetTask(s, id).Null? <==> forall i :: 0 <= i < |s.rows| ==> s.rows[i].Id() != id
  {
  }

  /** What a row stores of a task: the Derby DAO reads a `TaskRecord` back
      whatever kind of task was written. */
  function Normalize(id: int, t: Task): Task {
    Record(TaskRecord(id, t.Title(), t.Description(), t.State(), t.PriorityOrNone()))
  }

  /** `addTask(t)`: the row gets the counter's id, whatever `t.getId()` says. */
  function AddTask(s: Store, t: Task): (r: Store)
    ensures GetTask(s, s.nextId).Null?
    ensures r.nextId == s.nextId + 1
    ensures forall k :: GetTask(r, k) == if k == s.nextId then NonNull(Normalize(s.nextId, t)) else GetTask(s, k)
  {
    var row := Normalize(s.nextId, t);
    FindAppend(s.rows, row);
    Table(s.rows + [row], s.nextId + 1)
  }

  /** `updateTask(t)`: overwrites the row with `t`'s id, or fails when there is
      no such row. */
  function UpdateTask(s: Store, t: Task): (r: Result<Store>)
    ensures r.Err? <==> GetTask(s, t.Id()).Null?
    ensures r.Err? ==> r.error == NotFound(t.Id())
    ensures r.Ok? ==> r.value.nextId == s.nextId
    ensures r.Ok? ==> forall k :: GetTask(r.value, k) == if k == t.Id() then NonNull(Normalize(k, t)) else GetTask(s, k)
  {
    if GetTask(s, t.Id()).Null? then Err(NotFound(t.Id()))
    else
      var row := Normalize(t.Id(), t);
      ReplaceKeepsWellFormed(s, row);
      FindReplace(s.rows, row);
      Ok(Table(Replace(s.rows, row), s.nextId))
  }

  /** `deleteTask(id)`: removes the row with that id; an absent id is not an error. */
  function DeleteTask(s: Store, id: int): (r: Store)
    ensures r.nextId == s.nextId
    ensures forall k :: GetTask(r, k) == if k == id then Null else GetTask(s, k)
  {
    WithoutIsSubset(s.rows, id);
    WithoutKeepsOrder(s.rows, id);
    FindWithout(s.rows, id);
    Table(Without(s.rows, id), s.nextId)
  }

  /** The rows with every row of id `id` left out. */
  function Without(rows: seq<Task>, id: int): seq<Task> {
    if rows == [] then []
    else if rows[0].Id() == id then Without(rows[1..], id)
    else [rows[0]] + Without(rows[1..], id)
  }

  /** The rows with every row of `row`'s id replaced by `row`. */
  function Replace(rows: seq<Task>, row: Task): seq<Task> {
    if rows == [] then []
    else [if rows[0].Id() == row.Id() then row else rows[0]] + Replace(rows[1..], row)
  }

  /** In rows ordered by id, a task is listed exactly when looking its id up finds it. */
  lemma {:induction false} FindInOrderedRows(rows: seq<Task>)
    requires forall i, j :: 0 <= i < j < |rows| ==> rows[i].Id() < rows[j].Id()
    ensures forall t :: t in rows <==> Find(rows, t.Id()) == NonNull(t)
  {
    if rows != [] {
      FindInOrderedRows(rows[1..]);
      forall t | t in rows ensures Find(rows, t.Id()) == NonNull(t) {
        if t != rows[0] {
          assert t in rows[1..];
          assert t.Id() != rows[0].Id();
        }
      }
    }
  }

  lemma {:induction false} FindAppend(rows: seq<Task>, row: Task)
    ensures forall k :: Find(rows + [row], k) ==
                        if Find(rows, k).NonNull? then Find(rows, k) else if row.Id() == k then NonNull(row) else Null
  {
    if rows != [] {
      assert (rows + [row])[1..] == rows[1..] + [row];
      FindAppend(rows[1..], row);
    }
  }

  lemma {:induction false} WithoutIsSubset(rows: seq<Task>, id: int)
    ensures forall t :: t in Without(rows, id) ==> t in rows && t.Id() != id
  {
    if rows != [] {
      WithoutIsSubset(rows[1..], id);
    }
  }

  lemma {:induction false} WithoutKeepsOrder(rows: seq<Task>, id: int)
    requires forall i, j :: 0 <= i < j < |rows| ==> rows[i].Id() < rows[j].Id()
    ensures forall i, j :: 0 <= i < j < |Without(rows, id)| ==> Without(rows, id)[i].Id() < Without(rows, id)[j].Id()
  {
    if rows != [] {
      WithoutKeepsOrder(rows[1..], id);
      WithoutIsSubset(rows[1..], id);
      var rest := Without(rows[1..], id);
      if rows[0].Id() != id {
        forall j | 0 <= j < |rest| ensures rows[0].Id() < rest[j].Id() {
          assert rest[j] in rows[1..];
        }
      }
    }
  }

  lemma {:induction false} FindWithout(rows: seq<Task>, id: int)
    ensures forall k :: Find(Without(rows, id), k) == if k == id then Null else Find(rows, k)
  {
    if rows != [] {
      FindWithout(rows[1..], id);
      WithoutIsSubset(rows, id);
    }
  }

  lemma {:induction false} ReplaceKeepsIds(rows: seq<Task>, row: Task)
    ensures |Replace(rows, row)| == |rows|
    ensures forall i :: 0 <= i < |rows| ==> Replace(rows, row)[i].Id() == rows[i].Id()
  {
    if rows != [] {
      ReplaceKeepsIds(rows[1..], row);
    }
  }

  /** Replacing rows keeps every id in place, so the table stays well formed. */
  lemma ReplaceKeepsWellFormed(s: Store, row: Task)
    ensures WellFormed(Table(Replace(s.rows, row), s.nextId))
  {
    ReplaceKeepsIds(s.rows, row);
  }

  lemma {:induction false} FindReplace(rows: seq<Task>, row: Task)
    ensures forall k :: Find(Replace(rows, row), k) ==
                        if k == row.Id() && Find(rows, k).NonNull? then NonNull(row) else Find(rows, k)
  {
    if rows != [] {
      FindReplace(rows[1..], row);
    }
  }
}
