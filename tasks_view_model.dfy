/** `TasksViewModel`: a cache of the store's rows, rebuilt after every write,
    with the observer hub told of each rebuild. */
module ViewModel {
  import opened Wrappers
  import opened TaskStates
  import opened Priorities
  import opened Tasks
  import opened TaskDao
  import opened Observable

  /** A cached task `t` is what the id-inference loop looks for: new since the
      `before` snapshot, with the title and description just added. */
  predicate IsNewMatch(t: Task, before: set<int>, title: string, desc: string) {
    t.Id() !in before && t.Title() == title && t.Description() == desc
  }

  /** The index of the first new match, or -1 when there is none. */
  function FirstNewMatch(rows: seq<Task>, before: set<int>, title: string, desc: string): (r: int)
    ensures -1 <= r < |rows|
    ensures r >= 0 ==> IsNewMatch(rows[r], before, title, desc)
    ensures forall j :: 0 <= j < |rows| && (r < 0 || j < r) ==> !IsNewMatch(rows[j], before, title, desc)
  {
    if rows == [] then -1
    else if IsNewMatch(rows[0], before, title, desc) then 0
    else
      var k := FirstNewMatch(rows[1..], before, title, desc);
      if k < 0 then -1 else k + 1
  }

  /** `max` over the ids, starting from -1. */
  function MaxId(rows: seq<Task>): (r: int)
    ensures r >= -1
    ensures forall i :: 0 <= i < |rows| ==> rows[i].Id() <= r
    ensures r == -1 || exists i :: 0 <= i < |rows| && rows[i].Id() == r
  {
    if rows == [] then -1
    else
      var m := MaxId(rows[..|rows| - 1]);
      var last := rows[|rows| - 1].Id();
      if m < last then last else m
  }

  /** What `findNewIdAfterAdd` answers: the id of the first new match, or else
      the largest id, or -1 for an empty cache. */
  function NewIdAfterAdd(rows: seq<Task>, before: set<int>, title: string, desc: string): int {
    var k := FirstNewMatch(rows, before, title, desc);
    if k >= 0 then rows[k].Id() else MaxId(rows)
  }

  /** The states `allowedNextStatesOf` offers for a task the store returned. */
  function NextStatesFor(lc: Lifecycle, t: Nullable<Task>): (r: set<TaskState>)
    ensures t.NonNull? && t.value.Record? ==> r == lc.nextStates(t.value.rec.state)
    ensures !(t.NonNull? && t.value.Record?) ==> ToDo in r && InProgress in r && Completed in r
  {
    if t.NonNull? && t.value.Record? then t.value.rec.AllowedNextStates(lc)
    else {ToDo, InProgress, Completed}
  }

  /** `update` refuses a change only when the state changes, the stored task
      is a record, and the lifecycle forbids the step. */
  predicate UpdateAllowed(lc: Lifecycle, current: Task, newState: TaskState) {
    !(current.State() != newState && current.Record? && !lc.canTransitionTo(current.rec.state, newState))
  }

  /** What `update` answers, given what the store held under the id. */
  function UpdateVerdict(lc: Lifecycle, current: Nullable<Task>, newState: TaskState): (o: Outcome)
    ensures o.Failed? <==> current.NonNull? && current.value.Record? && current.value.State() != newState
                           && !lc.canTransitionTo(current.value.rec.state, newState)
    ensures o.Failed? ==> o.error == IllegalState
  {
    if current.NonNull? && !UpdateAllowed(lc, current.value, newState) then Failed(IllegalState) else Done
  }

  /** Re-saving a task in its own state is never refused, whatever the lifecycle says. */
  lemma SameStateNeedsNoTransition(lc: Lifecycle, current: Task)
    ensures UpdateAllowed(lc, current, current.State())
  {
  }

  /** Only records are checked: a task of another kind may move to any state. */
  lemma NonRecordsAreNotChecked(lc: Lifecycle, current: Task, newState: TaskState)
    requires !current.Record?
    ensures UpdateAllowed(lc, current, newState)
  {
  }

  /** When `before` holds exactly the ids of the store's rows, the row just
      added is the first new match, so the id inferred is the counter's. */
  lemma AddedRowIsTheNewMatch(s: Store, t: Task, before: set<int>)
    requires forall u :: u in s.rows ==> u.Id() in before
    requires forall k :: k in before ==> exists i :: 0 <= i < |s.rows| && s.rows[i].Id() == k
    ensures NewIdAfterAdd(GetTasks(AddTask(s, t)), before, t.Title(), t.Description()) == s.nextId
  {
    var rows := GetTasks(AddTask(s, t));
    var k := |s.rows|;
    assert rows == s.rows + [Normalize(s.nextId, t)];
    forall j | 0 <= j < k ensures !IsNewMatch(rows[j], before, t.Title(), t.Description()) {
      assert rows[j] == s.rows[j];
    }
    forall b | b in before ensures b < s.nextId {
      var i :| 0 <= i < |s.rows| && s.rows[i].Id() == b;
    }
    assert IsNewMatch(rows[k], before, t.Title(), t.Description());
  }

  class TasksViewModel {
    /** The store behind the view-model. */
    var dao: Store
    /** The last rows read from the store. */
    var cache: seq<Task>
    const observers: TasksRepository
    /** The transition rule of `TaskState`, which is not part of this model. */
    const lifecycle: Lifecycle

    /** The cache mirrors the store, and the listener list has no duplicates. */
    ghost predicate Valid()
      reads this, observers
    {
      cache == GetTasks(dao) && observers.Valid()
    }

    /** Everything a view-model method may change. */
    twostate predicate Reloaded()
      reads this, observers
    {
      && cache == GetTasks(dao)
      && observers.listeners == old(observers.listeners)
      && observers.deliveries == old(observers.deliveries) + Deliveries(observers.listeners, cache)
    }

    twostate predicate Untouched()
      reads this, observers
    {
      && dao == old(dao)
      && cache == old(cache)
      && observers.listeners == old(observers.listeners)
      && observers.deliveries == old(observers.deliveries)
    }

    /** The store now holds `t` under `id`, every other id is as it was, and
        the cache has been reloaded. */
    twostate predicate Rewritten(id: int, t: Task)
      reads this, observers
    {
      && Reloaded()
      && dao.nextId == old(dao).nextId
      && GetTask(dao, id) == NonNull(t)
      && forall k :: k != id ==> GetTask(dao, k) == GetTask(old(dao), k)
    }

    /** `t` was added to the store, and the cache reloaded. */
    twostate predicate Added(t: Task)
      reads this, observers
    {
      dao == AddTask(old(dao), t) && Reloaded()
    }

    /** The row `id` was deleted, and the cache reloaded. */
    twostate predicate Deleted(id: int)
      reads this, observers
    {
      dao == DeleteTask(old(dao), id) && Reloaded()
    }

    /** The effect of `update(id, title, desc, newState)`: none for an absent
        id or a refused transition; otherwise the row becomes a record with
        the new fields and the stored priority. */
    twostate predicate UpdateApplied(id: int, title: string, desc: string, newState: TaskState)
      reads this, observers
    {
      var cur := GetTask(old(dao), id);
      if cur.Null? || !UpdateAllowed(lifecycle, cur.value, newState) then Untouched()
      else Rewritten(id, Record(TaskRecord(id, title, desc, newState, cur.value.PriorityOrNone())))
    }

    /** The effect of `setPriority(id, p)`: none for an absent id; otherwise
        the row becomes a record equal to the old task but for its priority. */
    twostate predicate PriorityApplied(id: int, p: Priority)
      reads this, observers
    {
      var cur := GetTask(old(dao), id);
      if cur.Null? then Untouched()
      else Rewritten(id, Record(TaskRecord(id, cur.value.Title(), cur.value.Description(), cur.value.State(), p)))
    }

    /** `new TasksViewModel(dao)` loads at once; the load cannot fail here. */
    constructor (dao: Store, lifecycle: Lifecycle)
      ensures Valid() && fresh(observers)
      ensures this.dao == dao && this.lifecycle == lifecycle
      ensures observers.listeners == [] && observers.deliveries == []
    {
      this.dao := dao;
      this.lifecycle := lifecycle;
      this.cache := GetTasks(dao);
      this.observers := new TasksRepository();
    }

    method AddTasksListener(l: Nullable<Listener>)
      requires Valid()
      modifies observers`listeners
      ensures Valid()
      ensures observers.listeners == if l.Null? || l.value in old(observers.listeners) then old(observers.listeners)
                                     else old(observers.listeners) + [l.value]
    {
      observers.AddListener(l);
    }

    method RemoveTasksListener(l: Nullable<Listener>)
      requires Valid()
      modifies observers`listeners
      ensures Valid()
      ensures l.Null? ==> observers.listeners == old(observers.listeners)
      ensures l.NonNull? ==> observers.listeners == RemoveFirst(old(observers.listeners), l.value)
    {
      observers.RemoveListener(l);
    }

    /** `items()`: a read-only view of the cache, which mirrors the store. */
    function Items(): (r: seq<Task>)
      reads this, observers
      ensures Valid() ==> forall i, j :: 0 <= i < j < |r| ==> r[i].Id() < r[j].Id()
      ensures Valid() ==> forall t :: t in r <==> GetTask(dao, t.Id()) == NonNull(t)
    {
      cache
    }

    /** `getById(id)`: the store's row, or null. */
    function GetById(id: int): (r: Nullable<Task>)
      reads this, observers
      ensures r.NonNull? ==> r.value.Id() == id
      ensures Valid() ==> (r.NonNull? ==> r.value in Items())
      ensures Valid() ==> forall t :: t in Items() && t.Id() == id ==> r == NonNull(t)
    {
      GetTask(dao, id)
    }

    /** `load()`: the cache becomes the store's rows, and listeners hear of it once. */
    method Load()
      modifies this`cache, observers`deliveries
      ensures Reloaded()
    {
      cache := GetTasks(dao);
      observers.NotifyListeners(cache);
    }

    /** `currentIds()`. */
    method CurrentIds() returns (s: set<int>)
      ensures forall t :: t in cache ==> t.Id() in s
      ensures forall k :: k in s ==> exists i :: 0 <= i < |cache| && cache[i].Id() == k
    {
      s := {};
      for i := 0 to |cache|
        invariant forall j :: 0 <= j < i ==> cache[j].Id() in s
        invariant forall k :: k in s ==> exists j :: 0 <= j < i && cache[j].Id() == k
      {
        s := s + {cache[i].Id()};
      }
    }

    /** `findNewIdAfterAdd(before, title, desc)`. */
    method FindNewIdAfterAdd(before: set<int>, title: string, desc: string) returns (id: int)
      ensures id == NewIdAfterAdd(cache, before, title, desc)
    {
      for i := 0 to |cache|
        invariant forall j :: 0 <= j < i ==> !IsNewMatch(cache[j], before, title, desc)
      {
        if IsNewMatch(cache[i], before, title, desc) {
          return cache[i].Id();
        }
      }
      var max := -1;
      for i := 0 to |cache|
        invariant max == MaxId(cache[..i])
      {
        assert cache[..i + 1][..i] == cache[..i];
        if max < cache[i].Id() {
          max := cache[i].Id();
        }
      }
      assert cache[..|cache|] == cache;
      return max;
    }

    /** The add-and-infer sequence shared by `addReturningId` and
        `addWithPriorityReturningId`: the row is stored under the counter's
        id, and, the cache having mirrored the store, that is the id found. */
    method AddAndFindId(title: string, desc: string, state: TaskState, priority: Priority) returns (id: int)
      modifies this, observers
      ensures Added(Record(TaskRecord(0, title, desc, state, priority)))
      ensures GetTask(dao, old(dao).nextId) == NonNull(Record(TaskRecord(old(dao).nextId, title, desc, state, priority)))
      ensures old(cache) == GetTasks(old(dao)) ==> id == old(dao).nextId
    {
      var tr := Record(TaskRecord(0, title, desc, state, priority));
      var before := CurrentIds();
      if cache == GetTasks(dao) {
        AddedRowIsTheNewMatch(dao, tr, before);
      }
      dao := AddTask(dao, tr);
      Load();
      id := FindNewIdAfterAdd(before, title, desc);
    }

    /** `addReturningId(title, desc, state)`: stores a record with priority
        NONE under a fresh id and returns that id. */
    method AddReturningId(title: string, desc: string, state: TaskState) returns (id: int)
      modifies this, observers
      ensures Added(Record(TaskRecord(0, title, desc, state, None)))
      ensures GetTask(dao, old(dao).nextId) == NonNull(Record(TaskRecord(old(dao).nextId, title, desc, state, None)))
      ensures old(cache) == GetTasks(old(dao)) ==> id == old(dao).nextId
    {
      id := AddAndFindId(title, desc, state, None);
    }

    /** `addWithPriorityReturningId(title, desc, state, priority)`. */
    method AddWithPriorityReturningId(title: string, desc: string, state: TaskState, priority: Priority) returns (id: int)
      modifies this, observers
      ensures Added(Record(TaskRecord(0, title, desc, state, priority)))
      ensures GetTask(dao, old(dao).nextId) == NonNull(Record(TaskRecord(old(dao).nextId, title, desc, state, priority)))
      ensures old(cache) == GetTasks(old(dao)) ==> id == old(dao).nextId
    {
      id := AddAndFindId(title, desc, state, priority);
    }

    /** `addWithId(id, ...)`: the store cannot be made to use `id`; the row
        gets the counter's id, and the requested id is left as it was. */
    method AddWithId(id: int, title: string, desc: string, state: TaskState)
      modifies this, observers
      ensures Added(Record(TaskRecord(id, title, desc, state, None)))
      ensures GetTask(dao, old(dao).nextId) == NonNull(Record(TaskRecord(old(dao).nextId, title, desc, state, None)))
      ensures id != old(dao).nextId ==> GetTask(dao, id) == GetTask(old(dao), id)
    {
      var tr := Record(TaskRecord(id, title, desc, state, None));
      dao := AddTask(dao, tr);
      Load();
    }

    /** `update(id, title, desc, newState)`: an absent id is ignored; a refused
        transition fails before any write; otherwise the row is rewritten as a
        record with the new fields and its stored priority. */
    method Update(id: int, title: string, desc: string, newState: TaskState) returns (o: Outcome)
      modifies this, observers
      ensures o == UpdateVerdict(lifecycle, GetTask(old(dao), id), newState)
      ensures UpdateApplied(id, title, desc, newState)
    {
      var current := GetTask(dao, id);
      if current.Null? {
        return Done;
      }
      var pr := current.value.PriorityOrNone();
      if !UpdateAllowed(lifecycle, current.value, newState) {
        return Failed(IllegalState);
      }
      var written := UpdateTask(dao, Record(TaskRecord(id, title, desc, newState, pr)));
      dao := written.value;
      Load();
      o := Done;
    }

    /** `delete(id)`: removes the row, present or not, and reloads. */
    method Delete(id: int)
      modifies this, observers
      ensures Deleted(id)
      ensures GetTask(dao, id).Null?
      ensures forall k :: k != id ==> GetTask(dao, k) == GetTask(old(dao), k)
    {
      dao := DeleteTask(dao, id);
      Load();
    }

    /** `setPriority(id, p)`: an absent id is ignored; otherwise the row is
        rewritten as a record equal to the old task but for its priority. */
    method SetPriority(id: int, p: Priority)
      modifies this, observers
      ensures PriorityApplied(id, p)
    {
      var current := GetTask(dao, id);
      if current.Null? {
        return;
      }
      var t := current.value;
      var written := UpdateTask(dao, Record(TaskRecord(t.Id(), t.Title(), t.Description(), t.State(), p)));
      dao := written.value;
      Load();
    }

    /** `allowedNextStatesOf(id)`: a record's next states; every state for a
        task of another kind or an absent id. */
    function AllowedNextStatesOf(id: int): (r: set<TaskState>)
      reads this
      ensures GetTask(dao, id).NonNull? && GetTask(dao, id).value.Record? ==>
                r == lifecycle.nextStates(GetTask(dao, id).value.State())
      ensures GetTask(dao, id).Null? || !GetTask(dao, id).value.Record? ==> r == {ToDo, InProgress, Completed}
    {
      NextStatesFor(lifecycle, GetTask(dao, id))
    }
  }
}
