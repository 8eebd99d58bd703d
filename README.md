# To-do list core, modelled in Dafny

This project models the core of a Java Swing to-do application built around
design patterns. It covers:

- **Commands.** A command manager keeps an undo stack and a redo stack. It runs
  three commands: add, delete and update a task.
- **View-model.** `TasksViewModel` reloads a cache of tasks from a store after
  every write and tells an observer hub (`TasksRepository`) about each reload.
- **Panel.** `TasksPanel` renders the cache as table rows, sorts and filters
  them, and offers the error-swallowing wrappers the commands call.
- **Pure policies.** The `TaskState` and `Priority` enums, the `TaskRecord`
  record, the priority decorator, the `ByPriority` comparator, and the
  `TaskFilter`/`Filters` combinators.
- **Reports.** Two visitors: a CSV export and a combined count report.

The store behind the view-model is a value. It maps ids to tasks and has a
counter for fresh ids. It follows what the Derby DAO shows its callers:

- `getTask` answers null for an absent id.
- `getTasks` lists rows in id order.
- `updateTask` fails on an absent id.
- `deleteTask` never fails.
- `addTask` ignores the id it is handed.

Java `null` is `Nullable`. A thrown exception is an `Err`/`Failed` value that
names the exception class (`Wrappers.Error`). Text is ASCII, as `seq<char>`.

## How the code behaves, as written

The model follows the Java code, including where it does not do what its
comments suggest. Each of these is stated in a contract or a lemma:

- **Delete-undo reads the wrong slot.** The delete command re-adds from slot 3
  of the row snapshot as if it were the state name, but slot 3 holds the
  priority name. `TaskState.valueOf` therefore always fails, the panel
  swallows the failure, and undoing a delete changes nothing
  (`DeleteCommand.PriorityNameIsNoStateName`,
  `DeleteCommand.DeleteTaskCommand.Undo`).
- **Redo does not track new ids.** Re-adding cannot force the old id. A redone
  add lands under a new id while the add command keeps the old one, so a
  second undo misses it (`AddCommand.RedoGetsAnotherId`,
  `AddCommand.SecondUndoMissesTheTask`).
- **A failing command is lost.** The manager pops a command and only then
  undoes or redoes it. If the command throws, the command is on neither
  stack afterwards
  (`Commands.CommandManager.Undo`, `Commands.FailureDropsTheCommand`).
- **A failing first add records -1.** `-1` is not null, so later runs of the
  add command take the replay branch (`AddCommand.AddTaskCommand.Execute`).
- **"ALL" is not a wildcard.** The filter panel offers `"ALL"`, but only
  `"ANY"` is one (`Filters.AllIsNotAWildcard`).
- **Only records carry a priority.** The view-model, the table, the sort and
  the update command all test for a `TaskRecord`. A priority decorator's
  priority is therefore never seen (`Decorators.DecoratedPriorityIsNotSeen`).
- **The transition rule is a parameter.** `TaskState.canTransitionTo` and
  `nextStates` are called but not defined in the enum, so the lifecycle is a
  parameter (`TaskStates.Lifecycle`). No transition graph is assumed.

## Model

| member | source | states |
|---|---|---|
| TaskStates.FromDisplay | src/model/TaskState.java:12-19 | the state whose display name is the input; IllegalArgumentException exactly when no state has that display name |
| TaskStates.ValueOf | src/model/TaskState.java:3-6 | the constant with that name; IllegalArgumentException exactly when no constant has it |
| TaskStates.Name | src/model/TaskState.java:3-6 | each constant name is a non-empty Java identifier of upper-case letters and underscores, so it holds no comma, quote or space |
| TaskStates.DisplayName | src/model/TaskState.java:4-10 | each constant's label is non-empty and is no constant name, so `valueOf` refuses every label |
| TaskStates.ValuesListsEveryState | src/model/TaskState.java:3-6 | every state is among the three constants of `values()` |
| TaskStates.DisplayNameRoundTrip | src/model/TaskState.java:10-19 | `fromDisplay(s.displayName()) == s` for every state |
| TaskStates.DisplayNameInjective | src/model/TaskState.java:4-10 | two states share a display name if and only if they are the same state |
| TaskStates.NameRoundTrip | src/model/TaskState.java:3-6 | `valueOf(s.name()) == s` for every state |
| Priorities.Ordinal | src/model/entity/Priority.java:4 | the ordinal is the constant's position in the declaration NONE, LOW, MEDIUM, HIGH |
| Priorities.ValueOf | src/model/entity/Priority.java:3-4 | the constant with that name; IllegalArgumentException exactly when there is none |
| Priorities.Name | src/model/entity/Priority.java:3-4 | each constant name is non-empty and made of upper-case letters only, so it holds no comma, quote or space |
| Priorities.Badge | src/model/entity/Priority.java:6-13 | the badge is empty if and only if the priority is NONE |
| Priorities.BadgeValues | src/model/entity/Priority.java:8-11 | HIGH `"[HIGH] "`, MEDIUM `"[MED] "`, LOW `"[LOW] "`, NONE `""` |
| Priorities.BadgeInjective | src/model/entity/Priority.java:6-13 | distinct priorities have distinct badges, and equal badges mean equal priorities |
| Priorities.DeclarationOrder | src/model/entity/Priority.java:4 | `values()` is NONE, LOW, MEDIUM, HIGH and lists every priority |
| Priorities.NameRoundTrip | src/model/entity/Priority.java:3-4 | `valueOf(p.name()) == p` for every priority |
| Tasks.TaskRecord.AllowedNextStates | src/model/TaskRecord.java:19 | exactly the lifecycle's successor states of the record's state |
| Tasks.TaskRecord.WithState | src/model/TaskRecord.java:21-25 | IllegalStateException if and only if the lifecycle forbids the move; otherwise the same record in the new state, every other component unchanged |
| Tasks.RecordGetters | src/model/TaskRecord.java:14-17 | a record's getters return its own components |
| Decorators.NewPriorityDecorator | src/model/decorator/PriorityDecorator.java:15-18 | wraps the given task; a null priority becomes NONE, any other is kept, and `getPriority` returns it |
| Decorators.GetPriority | src/model/decorator/PriorityDecorator.java:27-29 | the priority the decorator holds: wrapping the same inner task with it again rebuilds the same decorator |
| Decorators.DecoratorDelegates | src/model/decorator/AbstractTaskDecorator.java:11-16 | id, title (with no prefix), description and state are the wrapped task's |
| Decorators.DecoratedPriorityIsNotSeen | src/model/sort/ByPriority.java:20-22 | a decorator is not a record, so the `instanceof TaskRecord` tests read its priority as NONE |
| ByPriority.Rank | src/model/sort/ByPriority.java:24-32 | null ranks 1, any priority ranks its ordinal plus one, so the rank lies in 1..4 |
| ByPriority.PriorityOf | src/model/sort/ByPriority.java:20-22 | a `TaskRecord`'s own priority; NONE for every other kind of task |
| ByPriority.Compare | src/model/sort/ByPriority.java:13-18 | negative when the first task has the higher rank, positive when it has the lower; at equal rank the case-insensitive title order decides |
| ByPriority.CompareZeroIff | src/model/sort/ByPriority.java:14-17 | compare is 0 if and only if the ranks are equal and the titles are equal ignoring case |
| ByPriority.CompareAntisymmetric | src/model/sort/ByPriority.java:14-17 | `compare(a, b) == -compare(b, a)` |
| ByPriority.CompareTransitive | src/model/sort/ByPriority.java:14-17 | `compare(a, b) <= 0` and `compare(b, c) <= 0` give `compare(a, c) <= 0` |
| Filters.And | src/model/combinator/TaskFilter.java:7 | accepts exactly what both filters accept |
| Filters.Or | src/model/combinator/TaskFilter.java:8 | accepts exactly what either filter accepts |
| Filters.Not | src/model/combinator/TaskFilter.java:9 | accepts exactly what the filter rejects |
| Filters.DoubleNegation | src/model/combinator/TaskFilter.java:9 | `f.not().not()` is equivalent to `f` |
| Filters.DeMorgan | src/model/combinator/TaskFilter.java:7-9 | `f.and(g).not()` is equivalent to `f.not().or(g.not())`, and dually for `or` |
| Filters.Any | src/model/combinator/Filters.java:6 | accepts every input |
| Filters.TextContains | src/model/combinator/Filters.java:8-12 | a null or blank query accepts everything; otherwise the filter accepts exactly when the lower-cased title or description contains the trimmed, lower-cased query |
| Filters.NeedleEmptyIffBlank | src/model/combinator/Filters.java:9-10 | the trimmed, lower-cased query is empty if and only if the query is blank |
| Filters.StateIs | src/model/combinator/Filters.java:14-17 | null and "ANY" accept everything; any other value accepts exactly the state name equal to it |
| Filters.AllIsNotAWildcard | src/model/combinator/Filters.java:15 | `stateIs("ALL")` rejects every state name other than "ALL" |
| TaskDao.GetTasks | src/dao/TasksDAODerby.java:25-26 | the rows are in strictly increasing id order, and a task is listed if and only if `getTask` of its id returns it |
| TaskDao.GetTaskFindsTheRow | src/dao/TasksDAODerby.java:44-61 | `getTask(id)` answers a stored row carrying that id, and null if and only if no row has it |
| TaskDao.FindIsFirst | src/model/command/UpdateTaskCommand.java:34 | the lookup answers the FIRST item with that id: every item before it has another id (the null case is in `Find`'s own contract) |
| TaskDao.AddTask | src/dao/TasksDAODerby.java:64-70 | the new row gets the counter's id, which was free, whatever id the task carried; every other id reads as before |
| TaskDao.UpdateTask | src/dao/TasksDAODerby.java:84-93 | fails with not-found if and only if the id is absent; otherwise only that id's row changes |
| TaskDao.DeleteTask | src/dao/TasksDAODerby.java:110-114 | the id reads as null afterwards, present before or not; every other id reads as before |
| Observable.RemoveFirstFromDistinct | src/model/observable/TasksRepository.java:22-24 | removing from a list without duplicates takes out that element, keeps every other one, and leaves no duplicates |
| Observable.Deliveries | src/model/observable/TasksRepository.java:29-33 | one delivery per registered listener |
| Observable.DeliveriesReachEveryListener | src/model/observable/TasksRepository.java:28-33 | the i-th delivery goes to the i-th listener with the same snapshot, whether or not an earlier listener threw |
| Observable.TasksRepository.constructor | src/model/observable/TasksRepository.java:16 | no listeners and no deliveries |
| Observable.TasksRepository.AddListener | src/model/observable/TasksRepository.java:18-20 | null and already-registered listeners change nothing; any other listener is appended; the list stays free of duplicates |
| Observable.TasksRepository.RemoveListener | src/model/observable/TasksRepository.java:22-24 | null changes nothing; otherwise the listener is gone and every other listener stays |
| Observable.TasksRepository.NotifyListeners | src/model/observable/TasksRepository.java:27-36 | the delivery log grows by one delivery per listener, in list order, each with a copy of the list passed in |
| ViewModel.FirstNewMatch | src/viewModel/TasksViewModel.java:129-135 | the first cache index whose id is not in `before` and whose title and description match, or -1 when there is none |
| ViewModel.MaxId | src/viewModel/TasksViewModel.java:136-138 | -1 for no rows; otherwise the largest id, which is the id of some row |
| ViewModel.NextStatesFor | src/viewModel/TasksViewModel.java:114-118 | a record's successor states; all three states for any other task or for null |
| ViewModel.UpdateVerdict | src/viewModel/TasksViewModel.java:84-89 | IllegalStateException if and only if the stored task is a record, the state changes, and the lifecycle forbids the move |
| ViewModel.SameStateNeedsNoTransition | src/viewModel/TasksViewModel.java:85 | re-saving a task in its own state is never refused |
| ViewModel.NonRecordsAreNotChecked | src/viewModel/TasksViewModel.java:85 | a task that is not a record may move to any state |
| ViewModel.AddedRowIsTheNewMatch | src/viewModel/TasksViewModel.java:128-139 | when `before` holds exactly the stored ids, the id inferred after an add is the id the store assigned |
| ViewModel.TasksViewModel.constructor | src/viewModel/TasksViewModel.java:22-25 | the cache mirrors the store; the observer hub is new and empty |
| ViewModel.TasksViewModel.AddTasksListener | src/viewModel/TasksViewModel.java:29 | registers as `addListener` does |
| ViewModel.TasksViewModel.RemoveTasksListener | src/viewModel/TasksViewModel.java:30 | unregisters as `removeListener` does |
| ViewModel.TasksViewModel.Items | src/viewModel/TasksViewModel.java:37 | with the cache mirroring the store: in id order, and listing exactly the stored tasks |
| ViewModel.TasksViewModel.GetById | src/viewModel/TasksViewModel.java:39-41 | a task with that id or null; with the cache mirroring the store, it is the cached task with that id |
| ViewModel.TasksViewModel.Load | src/viewModel/TasksViewModel.java:43-47 | the cache equals the store's rows in order; listeners are unchanged and each hears of the reload once |
| ViewModel.TasksViewModel.CurrentIds | src/viewModel/TasksViewModel.java:122-126 | exactly the ids of the cached tasks |
| ViewModel.TasksViewModel.FindNewIdAfterAdd | src/viewModel/TasksViewModel.java:128-139 | the id of the first new match, otherwise the largest cached id, otherwise -1 |
| ViewModel.TasksViewModel.AddReturningId | src/viewModel/TasksViewModel.java:51-57 | stores a NONE-priority record under the counter's id and reloads; returns that id when the cache mirrored the store |
| ViewModel.TasksViewModel.AddWithPriorityReturningId | src/viewModel/TasksViewModel.java:59-66 | like `addReturningId`, with the given priority |
| ViewModel.TasksViewModel.AddWithId | src/viewModel/TasksViewModel.java:68-73 | stores a NONE-priority record under the counter's id, not the requested one, which is left as it was |
| ViewModel.TasksViewModel.Update | src/viewModel/TasksViewModel.java:77-93 | an absent id changes nothing; a refused transition fails before any write; otherwise only that row becomes a record with the new fields and the stored priority, and the cache is reloaded |
| ViewModel.TasksViewModel.Delete | src/viewModel/TasksViewModel.java:95-98 | the id is gone, every other row is unchanged, and the cache is reloaded |
| ViewModel.TasksViewModel.SetPriority | src/viewModel/TasksViewModel.java:102-112 | an absent id changes nothing; otherwise only that row becomes a record equal to the old task except for its priority |
| ViewModel.TasksViewModel.AllowedNextStatesOf | src/viewModel/TasksViewModel.java:114-118 | a stored record's successor states; all three states for an absent id or a non-record |
| Panel.RowOf | src/view/TasksPanel.java:62-73 | id, title, description, priority name and state name in column order; the names parse back to the task's priority and state; a non-record shows NONE |
| Panel.IndexOf | src/view/TasksPanel.java:146-153 | the first row index holding the id, or -1 when no row holds it |
| Panel.ApplySort | src/view/TasksPanel.java:57-60 | unchanged with no strategy; otherwise a permutation sorted by the `ByPriority` comparator |
| Panel.Keep | src/view/TasksPanel.java:86-92 | keeps every accepted item as many times as it occurs and no other item, in the original order |
| Panel.FilterItems | src/view/TasksPanel.java:79-92 | in original order, every item that both `textContains(query)` and `stateIs(state)` accept on title, description and state name, as many times as it occurs, and no other item |
| Panel.TasksPanel.constructor | src/view/TasksPanel.java:35-43 | no rows, no view-model, no sort strategy, empty view |
| Panel.TasksPanel.SetViewModel | src/view/TasksPanel.java:45-49 | attaches the view-model and shows its items, sorted |
| Panel.TasksPanel.RefreshFromVM | src/view/TasksPanel.java:51-55 | without a view-model nothing changes; otherwise the view is the sorted items and the rows render it |
| Panel.TasksPanel.Render | src/view/TasksPanel.java:62-74 | one row per task, in list order |
| Panel.TasksPanel.ApplyFilter | src/view/TasksPanel.java:76-96 | without a view-model nothing changes; otherwise the view is the filtered items, sorted, and the rows render it |
| Panel.TasksPanel.AddRowReturningId | src/view/TasksPanel.java:101-108 | -1, with no store change, for a missing view-model or an unknown state name; otherwise the view-model's add, returning the new id when the cache mirrored the store |
| Panel.TasksPanel.AddRowWithId | src/view/TasksPanel.java:110-113 | an unknown state name changes nothing; otherwise `addWithId` |
| Panel.TasksPanel.RemoveRowById | src/view/TasksPanel.java:115-117 | the view-model's delete |
| Panel.TasksPanel.SetRowValuesById | src/view/TasksPanel.java:119-122 | an unknown state name changes nothing; otherwise the view-model's update, a refused transition swallowed |
| Panel.TasksPanel.SnapshotById | src/view/TasksPanel.java:124-134 | null if and only if no row holds the id; otherwise the first such row's cells, with priority in slot 3 and state in slot 4 |
| Panel.TasksPanel.AddRowWithPriorityReturningId | src/view/TasksPanel.java:136-144 | -1, with no store change, when a name is unknown or the view-model is missing; otherwise the add with that priority |
| Panel.TasksPanel.ModelIndexById | src/view/TasksPanel.java:146-153 | the first row index holding the id, or -1 |
| Panel.TasksPanel.AddRowWithIdAt | src/view/TasksPanel.java:155-158 | ignores the index and acts as `addRowWithId` |
| Panel.TasksPanel.SortByPriorityHighToLow | src/view/TasksPanel.java:193-196 | sets the strategy and renders the current view sorted; the current view keeps its order |
| Panel.TasksPanel.ClearSort | src/view/TasksPanel.java:198-201 | drops the strategy and renders the current view as it is |
| AddCommand.AddTaskCommand.constructor | src/model/command/AddTaskCommand.java:11-16 | keeps the panel, title, description and state name; no id yet |
| AddCommand.AddTaskCommand.Execute | src/model/command/AddTaskCommand.java:18-26 | its effect `Executed`: the first run adds and records the reported id (-1 on failure); later runs re-add with the recorded id and keep it; the add is the view-model's |
| AddCommand.AddTaskCommand.Undo | src/model/command/AddTaskCommand.java:28-32 | its effect `Undone`: nothing before the first run; otherwise deletes the recorded id |
| AddCommand.RedoGetsAnotherId | src/viewModel/TasksViewModel.java:68-73 | add, delete, add again: the recorded id is gone and the task sits under the next id |
| AddCommand.SecondUndoMissesTheTask | src/model/command/AddTaskCommand.java:28-32 | undoing the redone add deletes the stale id and leaves the re-added task stored |
| DeleteCommand.PriorityNameIsNoStateName | src/model/command/DeleteTaskCommand.java:29-34 | a priority name never parses as a state name |
| DeleteCommand.DeleteTaskCommand.constructor | src/model/command/DeleteTaskCommand.java:13-16 | keeps the panel and id; no snapshot, index -1 |
| DeleteCommand.DeleteTaskCommand.Execute | src/model/command/DeleteTaskCommand.java:18-25 | its effect `Executed`: the snapshot and index of the constructor's id are taken before any removal; only a found row is deleted; slot 3 holds a priority name |
| DeleteCommand.DeleteTaskCommand.Undo | src/model/command/DeleteTaskCommand.java:27-36 | its effect `Undone`: nothing without a snapshot; ClassCastException if and only if a cast fails; otherwise a re-add whose state is slot 3, which changes nothing when slot 3 is a priority name |
| UpdateCommand.RecordOf | src/model/command/UpdateTaskCommand.java:37-43 | a record as it is; any other task copied with its priority as NONE |
| UpdateCommand.Wrapped | src/model/command/UpdateTaskCommand.java:52-53 | success stays success; a failure becomes a RuntimeException around it |
| UpdateCommand.UpdateTaskCommand.constructor | src/model/command/UpdateTaskCommand.java:21-27 | keeps the arguments; both snapshots null |
| UpdateCommand.UpdateTaskCommand.Execute | src/model/command/UpdateTaskCommand.java:29-55 | its effect `Executed`: with both snapshots set, reuses them; otherwise an absent id does nothing, `before` is captured, an unknown state name fails wrapped, and `after` gets the new fields with the task's priority; then `update` is applied with `after` |
| UpdateCommand.UpdateTaskCommand.Undo | src/model/command/UpdateTaskCommand.java:57-67 | its effect `Undone`: nothing without `before`; a refused transition fails wrapped and changes nothing; otherwise the store holds `before` exactly and every other id is unchanged |
| Commands.Run | src/model/command/CommandManager.java:12 | `Ran`: the command's class-specific `Executed` effect holds, and only an update can fail |
| Commands.Revert | src/model/command/CommandManager.java:23 | `Reverted`: the command's class-specific `Undone` effect holds, and an add cannot fail |
| Commands.UndoThenRedo | src/model/command/CommandManager.java:20-34 | a successful undo followed by a successful redo restores both stacks |
| Commands.RedoThenUndo | src/model/command/CommandManager.java:20-34 | a successful redo followed by a successful undo restores both stacks |
| Commands.Totals | src/model/command/CommandManager.java:11-34 | undo and redo keep the number of stacked commands; execute makes it the undo depth plus one; a failure loses one |
| Commands.ExecutePushesOnTop | src/model/command/CommandManager.java:11-15 | after execute the command is on top, the rest of the undo stack unchanged, and the redo stack empty |
| Commands.FailureDropsTheCommand | src/model/command/CommandManager.java:20-34 | a command that fails on undo or redo is on neither stack afterwards |
| Commands.CommandManager.constructor | src/model/command/CommandManager.java:8-9 | both stacks empty |
| Commands.CommandManager.Execute | src/model/command/CommandManager.java:11-15 | the command has `Ran`; on success the command is pushed and the redo stack cleared; a failure leaves both stacks as they were |
| Commands.CommandManager.CanUndo | src/model/command/CommandManager.java:17 | true if and only if the undo stack is non-empty |
| Commands.CommandManager.CanRedo | src/model/command/CommandManager.java:18 | true if and only if the redo stack is non-empty |
| Commands.CommandManager.Undo | src/model/command/CommandManager.java:20-26 | an empty stack changes nothing; otherwise the top has been `Reverted`, and it moves to the redo stack on success and is dropped on failure |
| Commands.CommandManager.UndoTop | src/model/command/CommandManager.java:22-24 | the top of the undo stack has been `Reverted`; it moves to the redo stack on success and is dropped on failure |
| Commands.CommandManager.Redo | src/model/command/CommandManager.java:28-34 | an empty stack changes nothing; otherwise the top has `Ran` again, and it moves to the undo stack on success and is dropped on failure |
| Commands.CommandManager.RedoTop | src/model/command/CommandManager.java:30-32 | the top of the redo stack has `Ran`; it moves to the undo stack on success and is dropped on failure |
| CsvExport.DoubleQuotes | src/model/report/CSVExportVisitor.java:22 | every character other than a quote is kept |
| CsvExport.Escape | src/model/report/CSVExportVisitor.java:20-25 | null gives ""; quotes are doubled; the result is enclosed in quotes if and only if the input holds a comma or a line feed |
| CsvExport.UndoubleDoubleQuotes | src/model/report/CSVExportVisitor.java:22 | halving doubled quotes undoes the doubling |
| CsvExport.EscapeRoundTrip | src/model/report/CSVExportVisitor.java:20-25 | an RFC 4180 reader gets the field back when it was enclosed or held no quote |
| CsvExport.UnenclosedQuoteIsNotReadBack | src/model/report/CSVExportVisitor.java:22-24 | `a"b` is written as `a""b`, unenclosed, and read back differently |
| CsvExport.IdFieldIsPlain | src/model/report/CSVExportVisitor.java:11 | the id field holds no comma, quote or line feed |
| CsvExport.LineOfPlainRecord | src/model/report/CSVExportVisitor.java:10-16 | with nothing to escape, the line is the five plain fields joined by commas and ended by a line feed |
| CsvExport.LineReadsBack | src/model/report/CSVExportVisitor.java:7-16 | such a line splits back at its commas into id, title, description, state name and priority name, in header order |
| CsvExport.CsvExportVisitor.constructor | src/model/report/CSVExportVisitor.java:7 | `csv()` is exactly the header |
| CsvExport.CsvExportVisitor.Visit | src/model/report/CSVExportVisitor.java:10-16 | appends the record's line after everything written so far |
| CombinedReport.PriorityCountsSum | src/model/report/CombinedReportVisitor.java:18-23 | the four priority counts of any records add up to their number |
| CombinedReport.StateCountsSum | src/model/report/CombinedReportVisitor.java:18-23 | the three state counts of any records add up to their number |
| CombinedReport.CombinedReportVisitor.constructor | src/model/report/CombinedReportVisitor.java:13-16 | total 0 and every priority and state bucket present at 0 |
| CombinedReport.CombinedReportVisitor.Visit | src/model/report/CombinedReportVisitor.java:18-23 | the total and the record's priority and state buckets grow by one; every other bucket is unchanged; the counts still match the visited records |
| CombinedReport.CombinedReportVisitor.CountsAddUp | src/model/report/CombinedReportVisitor.java:9-23 | the total equals the sum of the priority counts and the sum of the state counts |
| CombinedReport.CombinedReportVisitor.AsText | src/model/report/CombinedReportVisitor.java:25-51 | the report block with the total, then HIGH, MEDIUM, LOW, NONE, then TO_DO, IN_PROGRESS, COMPLETED, each the count over the visited records |

## Left out

- Swing: widgets, dialogs, renderers, row selection (`selectedIdOrMinus1`, `currentTitle`, `currentDesc`, `currentState`, `setPriorityForSelected`), `MainFrame` and `FiltersPanel`. The table model is reduced to its rows.
- Event-dispatch threading: `notifyListeners` runs its loop where it is called, so the `invokeLater` branch and the thread-safety of the copy-on-write list are not modelled.
- Listener callbacks: their code lies outside the hub. A listener is a handle plus whether it throws, and notification is a log of deliveries.
- JDBC and Derby: SQL errors (`TasksDAOException`) are not modelled, so the store never fails except `updateTask` on an absent id. `deleteTasks` is not modelled. The Derby DAO writes and reads no priority; the store here keeps the priority, as the view-model expects.
- The store is written only through the view-model. Add, update and set-priority are stated exactly; the id `addReturningId` returns is proved only when the cache mirrored the store before the call, which every view-model method keeps.
- `TasksPanel.setViewModel` also registers a listener through `vm.addListener`, which the view-model does not declare; that registration is not modelled.
- `modelIndexById` parses a non-`Integer` id cell with `Integer.parseInt`. The table here holds typed cells, so that branch never arises.
- `Object[]` snapshots are a five-slot `Snapshot` of `Integer` or `String` cells.
- The commands take a panel or a view-model as their own files declare. The fact that `MainFrame` constructs them differently is not modelled.
- `Command`, `ITask` and `TaskVisitor` are not part of this model. Commands are a datatype over the three command classes, and the visitors take `TaskRecord`s.
- Text is ASCII: `toLowerCase`, `trim` and `CASE_INSENSITIVE_ORDER` are modelled on ASCII letters and spaces only. Titles and descriptions are never null.
- The `%d` of `asText` is a decimal rendering of an unbounded integer; `int` overflow of the counters is not modelled.
- Panel.ApplySort: the sort is proved ordered and a permutation, but stability is not stated.
- ViewModel.TasksViewModel.AllowedNextStatesOf: returns a set; the order of the Java list is not modelled.
- Logging: the panel wrappers print the stack trace of every exception they swallow (`e.printStackTrace()`, src/view/TasksPanel.java:105, 112, 116, 121, 141). The model keeps the swallowing and leaves out the printing.
- The manager pops the top command after running it, not before. The stacks end the same either way, and a command holds no reference to the manager, so it cannot see the difference.
- UpdateCommand.UpdateTaskCommand.Undo: the two reloads and the notifications they send are not stated, only the final store and cache.
