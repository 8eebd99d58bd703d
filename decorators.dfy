/** `AbstractTaskDecorator` and its one subclass `PriorityDecorator`: a task
    wrapped with a priority, every getter delegating to the wrapped task. */
module Decorators {
  import opened Wrappers
  import opened Priorities
  import opened Tasks

  /** `new PriorityDecorator(inner, priority)`: a null priority becomes NONE. */
  function NewPriorityDecorator(inner: Task, priority: Nullable<Priority>): (t: Task)
    ensures t.PriorityDecorated? && t.inner == inner
    ensures priority.Null? ==> t.priority == None
    ensures priority.NonNull? ==> t.priority == priority.value
  {
    PriorityDecorated(inner, if priority.Null? then None else priority.value)
  }

  /** `getPriority()`: the priority given at construction, so that wrapping
      the same task with it again rebuilds the same decorator. */
  function GetPriority(t: Task): (r: Priority)
    requires t.PriorityDecorated?
    ensures NewPriorityDecorator(t.inner, NonNull(r)) == t
  {
    t.priority
  }

  /** The decorator changes no getter: id, title (no badge prefix), description
      and state are the wrapped task's. */
  lemma DecoratorDelegates(inner: Task, priority: Nullable<Priority>)
    ensures NewPriorityDecorator(inner, priority).Id() == inner.Id()
    ensures NewPriorityDecorator(inner, priority).Title() == inner.Title()
    ensures NewPriorityDecorator(inner, priority).Description() == inner.Description()
    ensures NewPriorityDecorator(inner, priority).State() == inner.State()
  {
  }

  /** A decorator is not a `TaskRecord`, so the `instanceof TaskRecord` tests
      elsewhere read its priority as NONE, whatever it was given. */
  lemma DecoratedPriorityIsNotSeen(inner: Task, priority: Nullable<Priority>)
    ensures NewPriorityDecorator(inner, priority).PriorityOrNone() == None
  {
  }
}
