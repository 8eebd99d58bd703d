/** `CommandManager`: an undo stack and a redo stack of commands. Each stack
    is a sequence whose last element is the top. */
module Commands {
  import opened Wrappers
  import opened Panel
  import opened AddCommand
  import opened DeleteCommand
  import opened UpdateCommand

  /** A `Command`: one of the three command classes. */
  datatype Command =
    | Add(add: AddTaskCommand)
    | Delete(delete: DeleteTaskCommand)
    | Update(update: UpdateTaskCommand)
  {
    /** The panel a command works through, if it has one. */
    function Panels(): set<TasksPanel> {
      match this
      case Add(a) => {a.panel}
      case Delete(d) => {d.panel}
      case Update(_) => {}
    }
  }

  /** The objects running a command may change. */
  ghost function Footprint(c: Command): set<object>
    reads c.Panels()
  {
    match c
    case Add(a) => {a} + a.panel.VmObjects()
    case Delete(d) => {d} + d.panel.VmObjects()
    case Update(u) => {u, u.vm, u.vm.observers}
  }

  ghost function PanelsOf(s: seq<Command>): set<TasksPanel> {
    if s == [] then {} else PanelsOf(s[..|s| - 1]) + s[|s| - 1].Panels()
  }

  /** The objects running any command of `s` may change. */
  ghost function Footprints(s: seq<Command>): set<object>
    reads PanelsOf(s)
  {
    if s == [] then {} else Footprints(s[..|s| - 1]) + Footprint(s[|s| - 1])
  }

  lemma {:induction false} FootprintOfTop(s: seq<Command>)
    requires s != []
    ensures Footprint(s[|s| - 1]) <= Footprints(s)
    ensures s[|s| - 1].Panels() <= PanelsOf(s)
  {
  }

  /** What running `c` did: the effect its class's `execute()` promises;
      only an update can fail. */
  twostate predicate Ran(c: Command, o: Outcome)
    reads c.Panels(), Footprint(c)
  {
    match c
    case Add(a) => o == Done && a.Executed()
    case Delete(d) => o == Done && d.Executed()
    case Update(u) => u.Executed(o)
  }

  /** What undoing `c` did: the effect its class's `undo()` promises; adding
      cannot fail. */
  twostate predicate Reverted(c: Command, o: Outcome)
    reads c.Panels(), Footprint(c)
  {
    match c
    case Add(a) => o == Done && a.Undone()
    case Delete(d) => d.Undone(o)
    case Update(u) => u.Undone(o)
  }

  /** `cmd.execute()`. */
  method Run(c: Command) returns (o: Outcome)
    modifies Footprint(c)
    ensures Ran(c, o)
  {
    match c
    case Add(a) =>
      a.Execute();
      o := Done;
    case Delete(d) =>
      d.Execute();
      o := Done;
    case Update(u) =>
      o := u.Execute();
  }

  /** `cmd.undo()`. */
  method Revert(c: Command) returns (o: Outcome)
    modifies Footprint(c)
    ensures Reverted(c, o)
  {
    match c
    case Add(a) =>
      a.Undo();
      o := Done;
    case Delete(d) =>
      o := d.Undo();
    case Update(u) =>
      o := u.Undo();
  }

  /* ---------------- the stack discipline ---------------- */

  datatype History<C> = History(undo: seq<C>, redo: seq<C>)
  {
    function Total(): nat {
      |undo| + |redo|
    }
  }

  /** A successful `execute(c)`: `c` is pushed and the redo stack cleared. */
  function AfterExecute<C>(h: History<C>, c: C): History<C> {
    History(h.undo + [c], [])
  }

  /** A successful `undo()`: the top of the undo stack moves to the redo stack. */
  function AfterUndo<C>(h: History<C>): History<C>
    requires h.undo != []
  {
    History(h.undo[..|h.undo| - 1], h.redo + [h.undo[|h.undo| - 1]])
  }

  /** A successful `redo()`: the top of the redo stack moves back. */
  function AfterRedo<C>(h: History<C>): History<C>
    requires h.redo != []
  {
    History(h.undo + [h.redo[|h.redo| - 1]], h.redo[..|h.redo| - 1])
  }

  /** A failed `undo()`: the command was popped before it threw. */
  function AfterFailedUndo<C>(h: History<C>): History<C>
    requires h.undo != []
  {
    History(h.undo[..|h.undo| - 1], h.redo)
  }

  /** A failed `redo()`: likewise. */
  function AfterFailedRedo<C>(h: History<C>): History<C>
    requires h.redo != []
  {
    History(h.undo, h.redo[..|h.redo| - 1])
  }

  /** Undo then redo puts both stacks back as they were. */
  lemma UndoThenRedo<C>(h: History<C>)
    requires h.undo != []
    ensures AfterUndo(h).redo != [] && AfterRedo(AfterUndo(h)) == h
  {
    assert h.undo[..|h.undo| - 1] + [h.undo[|h.undo| - 1]] == h.undo;
  }

  /** Redo then undo puts both stacks back as they were. */
  lemma RedoThenUndo<C>(h: History<C>)
    requires h.redo != []
    ensures AfterRedo(h).undo != [] && AfterUndo(AfterRedo(h)) == h
  {
    assert h.redo[..|h.redo| - 1] + [h.redo[|h.redo| - 1]] == h.redo;
  }

  /** Undo and redo keep the number of commands; execute leaves one more than
      the undo stack held; a failure loses exactly one command. */
  lemma Totals<C>(h: History<C>, c: C)
    ensures AfterExecute(h, c).Total() == |h.undo| + 1
    ensures h.undo != [] ==> AfterUndo(h).Total() == h.Total() && AfterFailedUndo(h).Total() == h.Total() - 1
    ensures h.redo != [] ==> AfterRedo(h).Total() == h.Total() && AfterFailedRedo(h).Total() == h.Total() - 1
  {
  }

  /** After a successful execute the command is on top and nothing can be redone. */
  lemma ExecutePushesOnTop<C>(h: History<C>, c: C)
    ensures AfterExecute(h, c).undo[|AfterExecute(h, c).undo| - 1] == c
    ensures AfterExecute(h, c).undo[..|h.undo|] == h.undo
    ensures AfterExecute(h, c).redo == []
  {
  }

  /** A command that failed on undo or redo is on neither stack afterwards,
      provided it appeared once. */
  lemma FailureDropsTheCommand<C>(h: History<C>)
    ensures h.undo != [] && h.undo[|h.undo| - 1] !in h.undo[..|h.undo| - 1] + h.redo ==>
              h.undo[|h.undo| - 1] !in AfterFailedUndo(h).undo + AfterFailedUndo(h).redo
    ensures h.redo != [] && h.redo[|h.redo| - 1] !in h.undo + h.redo[..|h.redo| - 1] ==>
              h.redo[|h.redo| - 1] !in AfterFailedRedo(h).undo + AfterFailedRedo(h).redo
  {
  }

  class CommandManager {
    var undoStack: seq<Command>
    var redoStack: seq<Command>

    function Stacks(): History<Command>
      reads this
    {
      History(undoStack, redoStack)
    }

    constructor ()
      ensures undoStack == [] && redoStack == []
    {
      undoStack := [];
      redoStack := [];
    }

    /** `execute(cmd)`: runs it first; only if it succeeds is it pushed and
        the redo stack cleared. */
    method Execute(cmd: Command) returns (o: Outcome)
      modifies this, Footprint(cmd)
      ensures Ran(cmd, o)
      ensures Stacks() == if o.Done? then AfterExecute(old(Stacks()), cmd) else old(Stacks())
    {
      o := Run(cmd);
      assert this !in Footprint(cmd);
      if o.Failed? {
        return;
      }
      undoStack := undoStack + [cmd];
      redoStack := [];
    }

    /** `canUndo()`. */
    function CanUndo(): (b: bool)
      reads this
      ensures b <==> |undoStack| > 0
    {
      undoStack != []
    }

    /** `canRedo()`. */
    function CanRedo(): (b: bool)
      reads this
      ensures b <==> |redoStack| > 0
    {
      redoStack != []
    }

    /** `undo()`: with an empty stack nothing runs; otherwise the top is popped,
        undone, and pushed onto the redo stack only if that succeeded. */
    method Undo() returns (o: Outcome)
      modifies this, Footprints(undoStack)
      ensures old(undoStack) == [] ==> o == Done && Stacks() == old(Stacks())
      ensures old(undoStack) != [] ==> Reverted(old(undoStack)[|old(undoStack)| - 1], o)
      ensures old(undoStack) != [] ==>
                Stacks() == if o.Done? then AfterUndo(old(Stacks())) else AfterFailedUndo(old(Stacks()))
    {
      if undoStack == [] {
        return Done;
      }
      FootprintOfTop(undoStack);
      o := UndoTop();
    }

    /** The top of the undo stack is undone and leaves the undo stack; it
        goes onto the redo stack only if undoing succeeded. The command does
        not see the stacks, so popping after it runs changes nothing. */
    method UndoTop() returns (o: Outcome)
      requires undoStack != []
      modifies this, Footprint(undoStack[|undoStack| - 1])
      ensures Reverted(old(undoStack)[|old(undoStack)| - 1], o)
      ensures Stacks() == if o.Done? then AfterUndo(old(Stacks())) else AfterFailedUndo(old(Stacks()))
    {
      var cmd := undoStack[|undoStack| - 1];
      o := Revert(cmd);
      assert this !in Footprint(cmd);
      undoStack, redoStack := undoStack[..|undoStack| - 1], if o.Done? then redoStack + [cmd] else redoStack;
    }

    /** `redo()`: the mirror image of `undo()`, running `execute` again. */
    method Redo() returns (o: Outcome)
      modifies this, Footprints(redoStack)
      ensures old(redoStack) == [] ==> o == Done && Stacks() == old(Stacks())
      ensures old(redoStack) != [] ==> Ran(old(redoStack)[|old(redoStack)| - 1], o)
      ensures old(redoStack) != [] ==>
                Stacks() == if o.Done? then AfterRedo(old(Stacks())) else AfterFailedRedo(old(Stacks()))
    {
      if redoStack == [] {
        return Done;
      }
      FootprintOfTop(redoStack);
      o := RedoTop();
    }

    /** The top of the redo stack runs again and leaves the redo stack; it
        goes back onto the undo stack only if running succeeded. */
    method RedoTop() returns (o: Outcome)
      requires redoStack != []
      modifies this, Footprint(redoStack[|redoStack| - 1])
      ensures Ran(old(redoStack)[|old(redoStack)| - 1], o)
      ensures Stacks() == if o.Done? then AfterRedo(old(Stacks())) else AfterFailedRedo(old(Stacks()))
    {
      var cmd := redoStack[|redoStack| - 1];
      o := Run(cmd);
      assert this !in Footprint(cmd);
      redoStack, undoStack := redoStack[..|redoStack| - 1], if o.Done? then undoStack + [cmd] else undoStack;
    }
  }
}
