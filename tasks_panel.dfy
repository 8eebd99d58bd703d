/** `TasksPanel` without its Swing widgets: the table model's rows, the sort
    and filter that choose what is shown, and the error-swallowing wrappers
    through which the commands reach the view-model. */
module Panel {
  import opened Wrappers
  import Priorities
  import TaskStates
  import opened Tasks
  import opened TaskDao
  import opened Filters
  import ByPriority
  import opened ViewModel

  /** A table cell as an `Object`: a boxed `Integer` or a `String`. */
  datatype Cell = IntCell(n: int) | StrCell(s: string)

  /** A table row: ID, Title, Description, Priority, State. */
  datatype Row = Row(id: int, title: string, description: string, priority: string, state: string)

  /** The five-slot `Object[]` that `snapshotById` returns. */
  datatype Snapshot = Snapshot(c0: Cell, c1: Cell, c2: Cell, c3: Cell, c4: Cell)

  /** The one `TaskSortStrategy` there is. */
  datatype SortStrategy = ByPriorityStrategy

  /** The row `render` adds for a task; a task that is not a record shows NONE. */
  function RowOf(t: Task): (r: Row)
    ensures r.id == t.Id() && r.title == t.Title() && r.description == t.Description()
    ensures Priorities.ValueOf(r.priority) == Ok(t.PriorityOrNone())
    ensures TaskStates.ValueOf(r.state) == Ok(t.State())
    ensures !t.Record? ==> r.priority == "NONE"
  {
    Priorities.NameRoundTrip(t.PriorityOrNone());
    TaskStates.NameRoundTrip(t.State());
    Row(t.Id(), t.Title(), t.Description(), Priorities.Name(t.PriorityOrNone()), TaskStates.Name(t.State()))
  }

  /** The slots of a row's snapshot, in column order. */
  function SnapshotOf(r: Row): Snapshot {
    Snapshot(IntCell(r.id), StrCell(r.title), StrCell(r.description), StrCell(r.priority), StrCell(r.state))
  }

  /** The first row index holding `id`, or -1. */
  function IndexOf(rows: seq<Row>, id: int): (r: int)
    ensures -1 <= r < |rows|
    ensures r >= 0 ==> rows[r].id == id
    ensures forall j :: 0 <= j < |rows| && (r < 0 || j < r) ==> rows[j].id != id
  {
    if rows == [] then -1
    else if rows[0].id == id then 0
    else
      var k := IndexOf(rows[1..], id);
      if k < 0 then -1 else k + 1
  }

  /* ---------------- sorting ---------------- */

  /** Every earlier task compares at most equal to every later one. */
  ghost predicate SortedBy(s: seq<Task>) {
    forall i, j :: 0 <= i < j < |s| ==> ByPriority.Compare(s[i], s[j]) <= 0
  }

  /** Inserts `x` after the tasks that do not compare above it. */
  function Insert(x: Task, s: seq<Task>): (r: seq<Task>)
    ensures |r| == |s| + 1
    ensures multiset(r) == multiset(s) + multiset{x}
  {
    if s == [] then [x]
    else if ByPriority.Compare(x, s[0]) < 0 then [x] + s
    else
      assert s == [s[0]] + s[1..];
      [s[0]] + Insert(x, s[1..])
  }

  lemma {:induction false} InsertKeepsSorted(x: Task, s: seq<Task>)
    requires SortedBy(s)
    ensures SortedBy(Insert(x, s))
  {
    if s == [] {
    } else if ByPriority.Compare(x, s[0]) < 0 {
      var r := Insert(x, s);
      forall j | 1 < j < |r| ensures ByPriority.Compare(x, r[j]) <= 0 {
        ByPriority.CompareTransitive(x, s[0], s[j - 1]);
      }
    } else {
      ByPriority.CompareAntisymmetric(x, s[0]);
      InsertKeepsSorted(x, s[1..]);
      var rest := Insert(x, s[1..]);
      forall j | 0 <= j < |rest| ensures ByPriority.Compare(s[0], rest[j]) <= 0 {
        assert rest[j] in multiset(rest);
        if rest[j] != x {
          assert rest[j] in s[1..];
        }
      }
    }
  }

  /** Insertion sort under the `ByPriority` comparator. */
  function Sort(s: seq<Task>): (r: seq<Task>)
    ensures |r| == |s|
    ensures multiset(r) == multiset(s)
    ensures SortedBy(r)
  {
    if s == [] then []
    else
      var init := s[..|s| - 1];
      assert s == init + [s[|s| - 1]];
      var sorted := Sort(init);
      InsertKeepsSorted(s[|s| - 1], sorted);
      Insert(s[|s| - 1], sorted)
  }

  /** `applySort(list)`: unchanged with no strategy, otherwise a permutation
      of the list ordered by the strategy's comparator. */
  function ApplySort(strategy: Nullable<SortStrategy>, list: seq<Task>): (r: seq<Task>)
    ensures strategy.Null? ==> r == list
    ensures multiset(r) == multiset(list)
    ensures strategy.NonNull? ==> SortedBy(r)
  {
    if strategy.Null? then list else Sort(list)
  }

  /* ---------------- filtering ---------------- */

  /** `a` is `b` with some elements left out, order kept. */
  ghost predicate IsSubsequence(a: seq<Task>, b: seq<Task>) {
    a == [] || (b != [] && ((a[0] == b[0] && IsSubsequence(a[1..], b[1..])) || IsSubsequence(a, b[1..])))
  }

  /** What the stream filter tests: title, description and state name. */
  predicate Accepts(f: TaskFilter, t: Task) {
    f(t.Title(), t.Description(), TaskStates.Name(t.State()))
  }

  /** `stream().filter(f).collect(toList())`: every accepted item as often
      as it occurs, in order, and nothing else. */
  function Keep(items: seq<Task>, f: TaskFilter): (r: seq<Task>)
    ensures forall t :: multiset(r)[t] == if Accepts(f, t) then multiset(items)[t] else 0
    ensures forall t :: t in r <==> t in items && Accepts(f, t)
    ensures IsSubsequence(r, items)
  {
    if items == [] then []
    else
      assert items == [items[0]] + items[1..];
      if Accepts(f, items[0]) then [items[0]] + Keep(items[1..], f)
      else Keep(items[1..], f)
  }

  /** The items `applyFilter` keeps, before sorting. */
  function FilterItems(all: seq<Task>, query: Nullable<string>, state: Nullable<string>): (r: seq<Task>)
    ensures IsSubsequence(r, all)
    ensures forall t :: multiset(r)[t] ==
                        if Accepts(TextContains(query), t) && Accepts(StateIs(state), t) then multiset(all)[t] else 0
    ensures forall t :: t in r <==> t in all && Accepts(TextContains(query), t) && Accepts(StateIs(state), t)
  {
    Keep(all, And(TextContains(query), StateIs(state)))
  }

  /* ---------------- the panel ---------------- */

  class TasksPanel {
    /** The table model's rows. */
    var rows: seq<Row>
    var vm: TasksViewModel?
    var sortStrategy: Nullable<SortStrategy>
    /** The tasks last chosen for display. */
    var currentView: seq<Task>

    /** What the wrappers may change: the view-model and its observer hub. */
    ghost function VmObjects(): set<object>
      reads this
    {
      if vm == null then {} else {vm, vm.observers}
    }

    /** Every row shows a priority name and a state name. */
    ghost predicate Valid()
      reads this
    {
      forall i :: 0 <= i < |rows| ==>
        Priorities.ValueOf(rows[i].priority).Ok? && TaskStates.ValueOf(rows[i].state).Ok?
    }

    constructor ()
      ensures Valid()
      ensures rows == [] && vm == null && sortStrategy.Null? && currentView == []
    {
      rows := [];
      vm := null;
      sortStrategy := Null;
      currentView := [];
    }

    /** `setViewModel(vm)`: attaches the view-model and refreshes. */
    method SetViewModel(vm: TasksViewModel)
      modifies this`vm, this`rows, this`currentView
      ensures this.vm == vm
      ensures currentView == ApplySort(sortStrategy, vm.cache)
      ensures |rows| == |currentView| && forall i :: 0 <= i < |rows| ==> rows[i] == RowOf(currentView[i])
      ensures Valid()
    {
      this.vm := vm;
      RefreshFromVM();
    }

    /** `refreshFromVM()`: with a view-model, shows its items, sorted. */
    method RefreshFromVM()
      modifies this`rows, this`currentView
      ensures vm == null ==> rows == old(rows) && currentView == old(currentView)
      ensures vm != null ==> currentView == ApplySort(sortStrategy, vm.cache)
      ensures vm != null ==> |rows| == |currentView| && forall i :: 0 <= i < |rows| ==> rows[i] == RowOf(currentView[i])
      ensures old(Valid()) ==> Valid()
    {
      if vm == null {
        return;
      }
      Show(vm.Items());
    }

    /** Makes the sorted `list` the current view and renders it. */
    method Show(list: seq<Task>)
      modifies this`rows, this`currentView
      ensures currentView == ApplySort(sortStrategy, list)
      ensures |rows| == |currentView| && forall i :: 0 <= i < |rows| ==> rows[i] == RowOf(currentView[i])
      ensures Valid()
    {
      currentView := ApplySort(sortStrategy, list);
      Render(currentView);
    }

    /** `render(list)`: one row per task, in list order. */
    method Render(list: seq<Task>)
      modifies this`rows
      ensures |rows| == |list|
      ensures forall i :: 0 <= i < |list| ==> rows[i] == RowOf(list[i])
      ensures Valid()
    {
      rows := [];
      for i := 0 to |list|
        invariant |rows| == i
        invariant forall j :: 0 <= j < i ==> rows[j] == RowOf(list[j])
      {
        rows := rows + [RowOf(list[i])];
      }
    }

    /** `applyFilter(query, state)`: shows, sorted, the items both filters accept. */
    method ApplyFilter(query: Nullable<string>, state: Nullable<string>)
      modifies this`rows, this`currentView
      ensures vm == null ==> rows == old(rows) && currentView == old(currentView)
      ensures vm != null ==> currentView == ApplySort(sortStrategy, FilterItems(vm.cache, query, state))
      ensures vm != null ==> |rows| == |currentView| && forall i :: 0 <= i < |rows| ==> rows[i] == RowOf(currentView[i])
      ensures old(Valid()) ==> Valid()
    {
      if vm == null {
        return;
      }
      Show(FilterItems(vm.Items(), query, state));
    }

    /** `addRowReturningId(title, desc, stateName)`: -1 when there is no
        view-model or the state name is unknown; otherwise the id the
        view-model reports. */
    method AddRowReturningId(title: string, desc: string, stateName: string) returns (id: int)
      modifies VmObjects()
      ensures vm == null || TaskStates.ValueOf(stateName).Err? ==> id == -1
      ensures vm != null && TaskStates.ValueOf(stateName).Err? ==> vm.Untouched()
      ensures vm != null && TaskStates.ValueOf(stateName).Ok? ==>
                && vm.Added(Record(TaskRecord(0, title, desc, TaskStates.ValueOf(stateName).value, Priorities.None)))
                && (old(vm.cache) == GetTasks(old(vm.dao)) ==> id == old(vm.dao.nextId))
    {
      if vm == null {
        return -1;
      }
      match TaskStates.ValueOf(stateName)
      case Err(_) =>
        id := -1;
      case Ok(st) =>
        id := vm.AddReturningId(title, desc, st);
    }

    /** `addRowWithId(id, t, d, stateName)`: failures are swallowed. */
    method AddRowWithId(id: int, title: string, desc: string, stateName: string)
      modifies VmObjects()
      ensures vm != null && TaskStates.ValueOf(stateName).Err? ==> vm.Untouched()
      ensures vm != null && TaskStates.ValueOf(stateName).Ok? ==>
                vm.Added(Record(TaskRecord(id, title, desc, TaskStates.ValueOf(stateName).value, Priorities.None)))
    {
      if vm == null {
        return;
      }
      match TaskStates.ValueOf(stateName)
      case Err(_) =>
      case Ok(st) =>
        vm.AddWithId(id, title, desc, st);
    }

    /** `removeRowById(id)`. */
    method RemoveRowById(id: int)
      modifies VmObjects()
      ensures vm != null ==> vm.Deleted(id)
    {
      if vm == null {
        return;
      }
      vm.Delete(id);
    }

    /** `setRowValuesById(id, t, d, stateName)`: an unknown state name and a
        refused transition are swallowed. */
    method SetRowValuesById(id: int, title: string, desc: string, stateName: string)
      modifies VmObjects()
      ensures vm != null && TaskStates.ValueOf(stateName).Err? ==> vm.Untouched()
      ensures vm != null && TaskStates.ValueOf(stateName).Ok? ==>
                vm.UpdateApplied(id, title, desc, TaskStates.ValueOf(stateName).value)
    {
      if vm == null {
        return;
      }
      match TaskStates.ValueOf(stateName)
      case Err(_) =>
      case Ok(st) =>
        var _ := vm.Update(id, title, desc, st);
    }

    /** `modelIndexById(id)`: the first row holding `id`, or -1. */
    method ModelIndexById(id: int) returns (idx: int)
      ensures idx == IndexOf(rows, id)
    {
      for i := 0 to |rows|
        invariant forall j :: 0 <= j < i ==> rows[j].id != id
      {
        if rows[i].id == id {
          return i;
        }
      }
      return -1;
    }

    /** `snapshotById(id)`: null for an absent id, otherwise the first such
        row's cells in column order (priority in slot 3, state in slot 4). */
    method SnapshotById(id: int) returns (r: Nullable<Snapshot>)
      ensures r.Null? <==> forall i :: 0 <= i < |rows| ==> rows[i].id != id
      ensures r.NonNull? ==> r.value == SnapshotOf(rows[IndexOf(rows, id)])
    {
      var idx := ModelIndexById(id);
      if idx < 0 {
        return Null;
      }
      return NonNull(SnapshotOf(rows[idx]));
    }

    /** `addRowWithPriorityReturningId(...)`: -1 when there is no view-model
        or either name is unknown. */
    method AddRowWithPriorityReturningId(title: string, desc: string, stateName: string, priorityName: string)
      returns (id: int)
      modifies VmObjects()
      ensures vm == null || TaskStates.ValueOf(stateName).Err? || Priorities.ValueOf(priorityName).Err? ==> id == -1
      ensures vm != null && (TaskStates.ValueOf(stateName).Err? || Priorities.ValueOf(priorityName).Err?) ==> vm.Untouched()
      ensures vm != null && TaskStates.ValueOf(stateName).Ok? && Priorities.ValueOf(priorityName).Ok? ==>
                && vm.Added(Record(TaskRecord(0, title, desc, TaskStates.ValueOf(stateName).value,
                                              Priorities.ValueOf(priorityName).value)))
                && (old(vm.cache) == GetTasks(old(vm.dao)) ==> id == old(vm.dao.nextId))
    {
      if vm == null {
        return -1;
      }
      match (TaskStates.ValueOf(stateName), Priorities.ValueOf(priorityName))
      case (Ok(st), Ok(p)) =>
        id := vm.AddWithPriorityReturningId(title, desc, st, p);
      case _ =>
        id := -1;
    }

    /** `addRowWithIdAt(index, id, ...)`: the index is ignored. */
    method AddRowWithIdAt(index: int, id: int, title: string, desc: string, stateName: string)
      modifies VmObjects()
      ensures vm != null && TaskStates.ValueOf(stateName).Err? ==> vm.Untouched()
      ensures vm != null && TaskStates.ValueOf(stateName).Ok? ==>
                vm.Added(Record(TaskRecord(id, title, desc, TaskStates.ValueOf(stateName).value, Priorities.None)))
    {
      AddRowWithId(id, title, desc, stateName);
    }

    /** `sortByPriorityHighToLow()`: re-renders the current view sorted;
        `currentView` itself keeps its order. */
    method SortByPriorityHighToLow()
      modifies this`sortStrategy, this`rows
      ensures sortStrategy == NonNull(ByPriorityStrategy)
      ensures |rows| == |currentView|
      ensures forall i :: 0 <= i < |rows| ==> rows[i] == RowOf(Sort(currentView)[i])
      ensures Valid()
    {
      sortStrategy := NonNull(ByPriorityStrategy);
      Render(ApplySort(sortStrategy, currentView));
    }

    /** `clearSort()`: drops the strategy and renders the current view as it is. */
    method ClearSort()
      modifies this`sortStrategy, this`rows
      ensures sortStrategy.Null?
      ensures |rows| == |currentView| && forall i :: 0 <= i < |rows| ==> rows[i] == RowOf(currentView[i])
      ensures Valid()
    {
      sortStrategy := Null;
      Render(currentView);
    }
  }
}
