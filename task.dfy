/** The task values: the immutable `TaskRecord` and the `ITask` interface,
    whose implementations are the record itself and `PriorityDecorator`. */
module Tasks {
  import opened Wrappers
  import opened TaskStates
  import opened Priorities

  /** The record: all five components are fixed at construction. */
  datatype TaskRecord = TaskRecord(
    id: int,
    title: string,
    description: string,
    state: TaskState,
    priority: Priority)
  {
    /** `allowedNextStates()`: the successors the lifecycle gives the state. */
    function AllowedNextStates(lc: Lifecycle): (r: set<TaskState>)
      ensures forall t :: t in r <==> t in lc.nextStates(state)
    {
      lc.nextStates(state)
    }

    /** `withState(next)`: a copy in state `next`, or IllegalStateException
        when the lifecycle does not allow the move. */
    function WithState(lc: Lifecycle, next: TaskState): (r: Result<TaskRecord>)
      ensures r.Err? <==> !lc.canTransitionTo(state, next)
      ensures r.Err? ==> r.error == IllegalState
      ensures r.Ok? ==> r.value.state == next && r.value.id == id && r.value.title == title
                        && r.value.description == description && r.value.priority == priority
    {
      if !lc.canTransitionTo(state, next) then Err(IllegalState)
      else Ok(TaskRecord(id, title, description, next, priority))
    }
  }

  /** An `ITask`: a record, or a `PriorityDecorator` wrapped around another task. */
  datatype Task =
    | Record(rec: TaskRecord)
    | PriorityDecorated(inner: Task, priority: Priority)
  {
    /** `getId()`: a record's own id; a decorator asks the task it wraps. */
    function Id(): int {
      match this
      case Record(r) => r.id
      case PriorityDecorated(t, _) => t.Id()
    }

    function Title(): string {
      match this
      case Record(r) => r.title
      case PriorityDecorated(t, _) => t.Title()
    }

    function Description(): string {
      match this
      case Record(r) => r.description
      case PriorityDecorated(t, _) => t.Description()
    }

    function State(): TaskState {
      match this
      case Record(r) => r.state
      case PriorityDecorated(t, _) => t.State()
    }

    /** `(t instanceof TaskRecord r) ? r.priority() : Priority.NONE`, the test the
        view-model, the table, the sort and the update command all repeat: only
        a record has a priority; any other task counts as NONE. */
    function PriorityOrNone(): Priority {
      match this
      case Record(r) => r.priority
      case PriorityDecorated(_, _) => None
    }
  }

  /** A record seen as an `ITask` answers with its own components. */
  lemma RecordGetters(r: TaskRecord)
    ensures Record(r).Id() == r.id && Record(r).Title() == r.title
    ensures Record(r).Description() == r.description && Record(r).State() == r.state
    ensures Record(r).PriorityOrNone() == r.priority
  {
  }
}
