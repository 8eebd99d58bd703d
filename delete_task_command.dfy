/** `DeleteTaskCommand`: snapshots a table row, deletes its task, and on undo
    re-adds from the snapshot, reading slot 3 as the state name although the
    snapshot holds the priority name there. */
module DeleteCommand {
  import opened Wrappers
  import Priorities
  import TaskStates
  import opened Tasks
  import opened Panel

  /** A priority name never names a state, so the re-add in `undo` always
      fails on `TaskState.valueOf`. */
  lemma PriorityNameIsNoStateName(name: string)
    requires Priorities.ValueOf(name).Ok?
    ensures TaskStates.ValueOf(name).Err?
  {
    var p := Priorities.ValueOf(name).value;
    assert Priorities.Name(p) == name;
  }

  /** Whether the four casts in `undo` succeed: an `int` and three `String`s. */
  predicate CastsSucceed(s: Snapshot) {
    s.c0.IntCell? && s.c1.StrCell? && s.c2.StrCell? && s.c3.StrCell?
  }

  class DeleteTaskCommand {
    const panel: TasksPanel
    const id: int
    var deletedRow: Nullable<Snapshot>
    var originalModelIndex: int

    constructor (panel: TasksPanel, id: int)
      ensures this.panel == panel && this.id == id
      ensures deletedRow.Null? && originalModelIndex == -1
    {
      this.panel := panel;
      this.id := id;
      deletedRow := Null;
      originalModelIndex := -1;
    }

    /** The effect of `execute()`: the snapshot and row index of the
        constructor's id are recorded, taken before anything is removed, and
        the task is deleted only when a row was found. The snapshot's slot 3
        holds a priority name. */
    twostate predicate Executed()
      reads this, panel, panel.VmObjects()
    {
      && panel.vm == old(panel.vm)
      && originalModelIndex == IndexOf(panel.rows, id)
      && deletedRow == (if originalModelIndex < 0 then Null else NonNull(SnapshotOf(panel.rows[originalModelIndex])))
      && (panel.vm != null && deletedRow.Null? ==> panel.vm.Untouched())
      && (panel.vm != null && deletedRow.NonNull? ==> panel.vm.Deleted(id))
      && (panel.Valid() && deletedRow.NonNull? ==>
            deletedRow.value.c3.StrCell? && Priorities.ValueOf(deletedRow.value.c3.s).Ok?)
    }

    /** The effect of `undo()`: nothing without a snapshot; a failed cast is a
        `ClassCastException`; otherwise a re-add with slots 0-3 as id, title,
        description and state name, the add's own failures being swallowed.
        Since slot 3 of a snapshot taken from a valid table is a priority
        name, that re-add never happens. */
    twostate predicate Undone(o: Outcome)
      reads this, panel, panel.VmObjects()
    {
      && panel.vm == old(panel.vm)
      && (deletedRow.Null? || !CastsSucceed(deletedRow.value) ==> panel.vm != null ==> panel.vm.Untouched())
      && (o.Failed? <==> deletedRow.NonNull? && !CastsSucceed(deletedRow.value))
      && (o.Failed? ==> o.error == ClassCast)
      && (deletedRow.NonNull? && CastsSucceed(deletedRow.value) && panel.vm != null ==>
            var s := deletedRow.value;
            if TaskStates.ValueOf(s.c3.s).Err? then panel.vm.Untouched()
            else panel.vm.Added(Record(TaskRecord(s.c0.n, s.c1.s, s.c2.s, TaskStates.ValueOf(s.c3.s).value, Priorities.None))))
      && (deletedRow.NonNull? && deletedRow.value.c3.StrCell? && Priorities.ValueOf(deletedRow.value.c3.s).Ok? ==>
            panel.vm != null ==> panel.vm.Untouched())
    }

    /** `execute()`. */
    method Execute()
      modifies this`deletedRow, this`originalModelIndex, panel.VmObjects()
      ensures Executed()
    {
      deletedRow := panel.SnapshotById(id);
      originalModelIndex := panel.ModelIndexById(id);
      if deletedRow.NonNull? {
        panel.RemoveRowById(id);
      }
    }

    /** `undo()`. */
    method Undo() returns (o: Outcome)
      modifies panel.VmObjects()
      ensures Undone(o)
    {
      if deletedRow.Null? {
        return Done;
      }
      var s := deletedRow.value;
      if !CastsSucceed(s) {
        return Failed(ClassCast);
      }
      if s.c3.StrCell? && Priorities.ValueOf(s.c3.s).Ok? {
        PriorityNameIsNoStateName(s.c3.s);
      }
      panel.AddRowWithIdAt(originalModelIndex, s.c0.n, s.c1.s, s.c2.s, s.c3.s);
      o := Done;
    }
  }
}
