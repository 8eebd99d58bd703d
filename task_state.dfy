/** The task lifecycle states: the `TaskState` enum with its display names,
    and the transition relation the enum is called for but does not define. */
module TaskStates {
  import opened Wrappers

  /** The three constants, in declaration order. */
  datatype TaskState = ToDo | InProgress | Completed

  /** `TaskState.values()`. */
  const Values: seq<TaskState> := [ToDo, InProgress, Completed]

  /** The constant names, as `name()` returns them and as the table and the
      CSV export print them: Java identifiers of upper-case letters and
      underscores, so no name holds a comma, a quote or a space. */
  function Name(s: TaskState): (r: string)
    ensures |r| > 0 && forall i :: 0 <= i < |r| ==> 'A' <= r[i] <= 'Z' || r[i] == '_'
  {
    match s
    case ToDo => "TO_DO"
    case InProgress => "IN_PROGRESS"
    case Completed => "COMPLETED"
  }

  /** `displayName()`: the label given to each constant. No label is a
      constant name, so `TaskState.valueOf` refuses every label. */
  function DisplayName(s: TaskState): (r: string)
    ensures |r| > 0 && ValueOf(r).Err?
  {
    match s
    case ToDo => "To Do"
    case InProgress => "In Progress"
    case Completed => "Completed"
  }

  /** `fromDisplay(s)`: the state whose display name is `s`, or
      IllegalArgumentException for any other string. */
  function FromDisplay(s: string): (r: Result<TaskState>)
    ensures r.Ok? ==> DisplayName(r.value) == s
    ensures r.Err? ==> r.error == IllegalArgument && forall t :: DisplayName(t) != s
  {
    if s == "To Do" then Ok(ToDo)
    else if s == "In Progress" then Ok(InProgress)
    else if s == "Completed" then Ok(Completed)
    else Err(IllegalArgument)
  }

  /** `TaskState.valueOf(name)`: the state with that constant name, or
      IllegalArgumentException. */
  function ValueOf(name: string): (r: Result<TaskState>)
    ensures r.Ok? ==> Name(r.value) == name
    ensures r.Err? ==> r.error == IllegalArgument && forall t :: Name(t) != name
  {
    if name == "TO_DO" then Ok(ToDo)
    else if name == "IN_PROGRESS" then Ok(InProgress)
    else if name == "COMPLETED" then Ok(Completed)
    else Err(IllegalArgument)
  }

  /** Every state is one of the three constants listed by `values()`. */
  lemma ValuesListsEveryState(s: TaskState)
    ensures s in Values
  {
  }

  lemma DisplayNameRoundTrip(s: TaskState)
    ensures FromDisplay(DisplayName(s)) == Ok(s)
  {
  }

  lemma DisplayNameInjective(s: TaskState, t: TaskState)
    ensures DisplayName(s) == DisplayName(t) <==> s == t
  {
  }

  lemma NameRoundTrip(s: TaskState)
    ensures ValueOf(Name(s)) == Ok(s)
  {
  }

  /** `canTransitionTo` and `nextStates` are called on the enum but are not
      defined in it, so the lifecycle is a parameter of the model: any pair
      of a transition test and a successor-set function. */
  datatype Lifecycle = Lifecycle(
    canTransitionTo: (TaskState, TaskState) -> bool,
    nextStates: TaskState -> set<TaskState>)
}
