/** `UpdateTaskCommand`: rewrites a task through the view-model, capturing
    the task before and the wanted task after on the first run that finds it,
    and restoring the captured task on undo. */
module UpdateCommand {
  import opened Wrappers
  import opened Priorities
  import TaskStates
  import opened Tasks
  import opened TaskDao
  import opened ViewModel

  /** The `before` snapshot: a record as it is, any other task copied into a
      record with priority NONE. */
  function RecordOf(t: Task): (r: TaskRecord)
    ensures r.id == t.Id() && r.title == t.Title() && r.description == t.Description() && r.state == t.State()
    ensures r.priority == t.PriorityOrNone()
    ensures t.Record? ==> Record(r) == t
  {
    if t.Record? then t.rec else TaskRecord(t.Id(), t.Title(), t.Description(), t.State(), t.PriorityOrNone())
  }

  /** A failure inside the command, as the `RuntimeException` it rethrows. */
  function Wrapped(o: Outcome): (r: Outcome)
    ensures r.Done? <==> o.Done?
    ensures o.Failed? ==> r.error == Runtime(o.error)
  {
    if o.Failed? then Failed(Runtime(o.error)) else o
  }

  class UpdateTaskCommand {
    const vm: TasksViewModel
    const id: int
    const newTitle: string
    const newDesc: string
    const newStateName: string
    var before: Nullable<TaskRecord>
    var after: Nullable<TaskRecord>

    constructor (vm: TasksViewModel, id: int, newTitle: string, newDesc: string, newStateName: string)
      ensures this.vm == vm && this.id == id
      ensures this.newTitle == newTitle && this.newDesc == newDesc && this.newStateName == newStateName
      ensures before.Null? && after.Null?
    {
      this.vm := vm;
      this.id := id;
      this.newTitle := newTitle;
      this.newDesc := newDesc;
      this.newStateName := newStateName;
      before := Null;
      after := Null;
    }

    /** Applying the `after` snapshot: `vm.update(id, ...)` with its fields,
        any failure rethrown wrapped. */
    twostate predicate Applied(a: TaskRecord, o: Outcome)
      reads vm, vm.observers
    {
      && o == Wrapped(UpdateVerdict(vm.lifecycle, GetTask(old(vm.dao), id), a.state))
      && vm.UpdateApplied(id, a.title, a.description, a.state)
    }

    /** The effect of `execute()`. While a snapshot is missing, the task is
        looked up in the cache: if it is absent nothing happens; otherwise
        `before` is taken, then the state name is parsed (an unknown name
        fails, wrapped, with `after` still missing) and `after` is built with
        the task's priority. Once both snapshots exist they are reused as
        they are. */
    twostate predicate Executed(o: Outcome)
      reads this, vm, vm.observers
    {
      && (old(before).NonNull? && old(after).NonNull? ==>
            before == old(before) && after == old(after) && Applied(old(after).value, o))
      && ((old(before).Null? || old(after).Null?) && Find(old(vm.cache), id).Null? ==>
            o == Done && before == old(before) && after == old(after) && vm.Untouched())
      && ((old(before).Null? || old(after).Null?) && Find(old(vm.cache), id).NonNull? ==>
            before == NonNull(RecordOf(Find(old(vm.cache), id).value)))
      && ((old(before).Null? || old(after).Null?) && Find(old(vm.cache), id).NonNull?
          && TaskStates.ValueOf(newStateName).Err? ==>
            o == Failed(Runtime(IllegalArgument)) && after == old(after) && vm.Untouched())
      && ((old(before).Null? || old(after).Null?) && Find(old(vm.cache), id).NonNull?
          && TaskStates.ValueOf(newStateName).Ok? ==>
            && after == NonNull(TaskRecord(id, newTitle, newDesc, TaskStates.ValueOf(newStateName).value,
                                           Find(old(vm.cache), id).value.PriorityOrNone()))
            && Applied(after.value, o))
    }

    /** The effect of `undo()`: nothing without a `before` snapshot; otherwise
        the task is updated back to `before`'s fields and then given
        `before`'s priority. A refused transition fails, wrapped, before the
        priority is touched. */
    twostate predicate Undone(o: Outcome)
      reads this, vm, vm.observers
    {
      && (before.Null? ==> o == Done && vm.Untouched())
      && (before.NonNull? ==>
            var b := before.value;
            var verdict := UpdateVerdict(vm.lifecycle, GetTask(old(vm.dao), b.id), b.state);
            && o == Wrapped(verdict)
            && (verdict.Failed? || GetTask(old(vm.dao), b.id).Null? ==> vm.Untouched())
            && (verdict.Done? && GetTask(old(vm.dao), b.id).NonNull? ==>
                  && vm.cache == GetTasks(vm.dao)
                  && vm.observers.listeners == old(vm.observers.listeners)
                  && vm.dao.nextId == old(vm.dao.nextId)
                  && (forall k :: k != b.id ==> GetTask(vm.dao, k) == GetTask(old(vm.dao), k))
                  && GetTask(vm.dao, b.id) == NonNull(Record(b))))
    }

    /** `execute()`. */
    method Execute() returns (o: Outcome)
      modifies this`before, this`after, vm, vm.observers
      ensures Executed(o)
    {
      if before.Null? || after.Null? {
        var cur := Find(vm.Items(), id);
        if cur.Null? {
          return Done;
        }
        before := NonNull(RecordOf(cur.value));
        match TaskStates.ValueOf(newStateName)
        case Err(e) =>
          return Failed(Runtime(e));
        case Ok(target) =>
          after := NonNull(TaskRecord(id, newTitle, newDesc, target, cur.value.PriorityOrNone()));
      }
      o := Apply(after.value);
    }

    /** Applying a snapshot: `vm.update` with its title, description and
        state, any failure wrapped. */
    method Apply(a: TaskRecord) returns (o: Outcome)
      modifies vm, vm.observers
      ensures Applied(a, o)
    {
      var u := vm.Update(id, a.title, a.description, a.state);
      o := Wrapped(u);
    }

    /** `undo()`. */
    method Undo() returns (o: Outcome)
      modifies vm, vm.observers
      ensures Undone(o)
    {
      if before.Null? {
        return Done;
      }
      var b := before.value;
      var u := vm.Update(b.id, b.title, b.description, b.state);
      if u.Failed? {
        return Wrapped(u);
      }
      vm.SetPriority(b.id, b.priority);
      assert b == TaskRecord(b.id, b.title, b.description, b.state, b.priority);
      o := Done;
    }
  }
}
