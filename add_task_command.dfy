/** `AddTaskCommand`: adds a task through the panel, remembering the id the
    first add produced; later executions re-add with that id, which the store
    cannot honour. */
module AddCommand {
  import opened Wrappers
  import Priorities
  import TaskStates
  import opened Tasks
  import opened TaskDao
  import opened Panel

  class AddTaskCommand {
    const panel: TasksPanel
    const title: string
    const desc: string
    const state: string
    /** Null until the first `execute`; afterwards never null again. */
    var generatedId: Nullable<int>

    constructor (panel: TasksPanel, title: string, desc: string, state: string)
      ensures this.panel == panel && this.title == title && this.desc == desc && this.state == state
      ensures generatedId.Null?
    {
      this.panel := panel;
      this.title := title;
      this.desc := desc;
      this.state := state;
      generatedId := Null;
    }

    /** The effect of `execute()`: the first run adds and records the id
        reported (-1 when the add failed); every later run re-adds with the
        recorded id and leaves it as it is. */
    twostate predicate Executed()
      reads this, panel, panel.VmObjects()
    {
      && panel.vm == old(panel.vm)
      && (old(generatedId).NonNull? ==> generatedId == old(generatedId))
      && (old(generatedId).Null? ==> generatedId.NonNull?)
      && (old(generatedId).Null? && (panel.vm == null || TaskStates.ValueOf(state).Err?) ==> generatedId == NonNull(-1))
      && (panel.vm != null && TaskStates.ValueOf(state).Err? ==> panel.vm.Untouched())
      && (panel.vm != null && TaskStates.ValueOf(state).Ok? ==>
            var requested := if old(generatedId).Null? then 0 else old(generatedId).value;
            panel.vm.Added(Record(TaskRecord(requested, title, desc, TaskStates.ValueOf(state).value, Priorities.None))))
      && (old(generatedId).Null? && panel.vm != null && TaskStates.ValueOf(state).Ok? ==>
            old(panel.vm.cache) == GetTasks(old(panel.vm.dao)) ==> generatedId == NonNull(old(panel.vm.dao.nextId)))
    }

    /** The effect of `undo()`: nothing before the first `execute`; otherwise
        the recorded id is deleted. */
    twostate predicate Undone()
      reads this, panel, panel.VmObjects()
    {
      && panel.vm == old(panel.vm)
      && (panel.vm != null && generatedId.Null? ==> panel.vm.Untouched())
      && (panel.vm != null && generatedId.NonNull? ==> panel.vm.Deleted(generatedId.value))
    }

    /** `execute()`. */
    method Execute()
      modifies this`generatedId, panel.VmObjects()
      ensures Executed()
    {
      if generatedId.Null? {
        var id := panel.AddRowReturningId(title, desc, state);
        generatedId := NonNull(id);
      } else {
        panel.AddRowWithId(generatedId.value, title, desc, state);
      }
    }

    /** `undo()`. */
    method Undo()
      modifies panel.VmObjects()
      ensures Undone()
    {
      if generatedId.NonNull? {
        panel.RemoveRowById(generatedId.value);
      }
    }
  }

  /** Execute, undo, execute again: the second add gets a new id, so the id
      the command recorded is gone and the re-added task lives elsewhere. */
  lemma RedoGetsAnotherId(s: Store, t: Task)
    ensures var first := AddTask(s, t);
            var undone := DeleteTask(first, s.nextId);
            var redone := AddTask(undone, t);
            && GetTask(redone, s.nextId).Null?
            && GetTask(redone, s.nextId + 1) == NonNull(Normalize(s.nextId + 1, t))
  {
  }

  /** So a second undo deletes the stale id and leaves the re-added task in
      the store. */
  lemma SecondUndoMissesTheTask(s: Store, t: Task)
    ensures var redone := AddTask(DeleteTask(AddTask(s, t), s.nextId), t);
            GetTask(DeleteTask(redone, s.nextId), s.nextId + 1) == NonNull(Normalize(s.nextId + 1, t))
  {
  }
}
