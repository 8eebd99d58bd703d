/** `CombinedReportVisitor`: counts the visited records by priority and by
    state, and in total. */
module CombinedReport {
  import opened Priorities
  import opened TaskStates
  import opened Tasks
  import Text

  /** How many of `ts` have priority `p`. */
  function CountPriority(ts: seq<TaskRecord>, p: Priority): (n: nat)
    ensures n <= |ts|
  {
    if ts == [] then 0
    else CountPriority(ts[..|ts| - 1], p) + (if ts[|ts| - 1].priority == p then 1 else 0)
  }

  /** How many of `ts` are in state `s`. */
  function CountState(ts: seq<TaskRecord>, s: TaskState): (n: nat)
    ensures n <= |ts|
  {
    if ts == [] then 0
    else CountState(ts[..|ts| - 1], s) + (if ts[|ts| - 1].state == s then 1 else 0)
  }

  /** Every record has exactly one priority: the four counts add up to the total. */
  lemma {:induction false} PriorityCountsSum(ts: seq<TaskRecord>)
    ensures CountPriority(ts, High) + CountPriority(ts, Medium) + CountPriority(ts, Low) + CountPriority(ts, None) == |ts|
  {
    if ts != [] {
      PriorityCountsSum(ts[..|ts| - 1]);
    }
  }

  /** Every record has exactly one state: the three counts add up to the total. */
  lemma {:induction false} StateCountsSum(ts: seq<TaskRecord>)
    ensures CountState(ts, ToDo) + CountState(ts, InProgress) + CountState(ts, Completed) == |ts|
  {
    if ts != [] {
      StateCountsSum(ts[..|ts| - 1]);
    }
  }

  /** The eight numbers `asText` prints for the records `ts`, in its order:
      total; HIGH, MEDIUM, LOW, NONE; TO_DO, IN_PROGRESS, COMPLETED. */
  function Tally(ts: seq<TaskRecord>): seq<int> {
    [|ts|,
     CountPriority(ts, High), CountPriority(ts, Medium), CountPriority(ts, Low), CountPriority(ts, None),
     CountState(ts, ToDo), CountState(ts, InProgress), CountState(ts, Completed)]
  }

  /** The report text for the eight numbers in `asText` order. */
  function ReportText(c: seq<int>): string
    requires |c| == 8
  {
    "Tasks Report\n"
    + "------------\n"
    + "Total: " + Text.IntToString(c[0]) + "\n"
    + "\n"
    + "By Priority:\n"
    + "  HIGH: " + Text.IntToString(c[1]) + "\n"
    + "  MEDIUM: " + Text.IntToString(c[2]) + "\n"
    + "  LOW: " + Text.IntToString(c[3]) + "\n"
    + "  NONE: " + Text.IntToString(c[4]) + "\n"
    + "\n"
    + "By State:\n"
    + "  TO_DO: " + Text.IntToString(c[5]) + "\n"
    + "  IN_PROGRESS: " + Text.IntToString(c[6]) + "\n"
    + "  COMPLETED: " + Text.IntToString(c[7]) + "\n"
  }

  class CombinedReportVisitor {
    var priorityCounts: map<Priority, int>
    var stateCounts: map<TaskState, int>
    var total: int
    /** The records visited so far. */
    ghost var visited: seq<TaskRecord>

    /** Every bucket is present and counts the visited records that fall in it. */
    ghost predicate Valid()
      reads this
    {
      && (forall p :: p in priorityCounts && priorityCounts[p] == CountPriority(visited, p))
      && (forall s :: s in stateCounts && stateCounts[s] == CountState(visited, s))
      && total == |visited|
    }

    /** Every priority and every state starts at 0. */
    constructor ()
      ensures Valid() && visited == []
      ensures total == 0
      ensures forall p :: priorityCounts[p] == 0
      ensures forall s :: stateCounts[s] == 0
    {
      var pc: map<Priority, int> := map[];
      for i := 0 to |Priorities.Values|
        invariant forall j :: 0 <= j < i ==> Priorities.Values[j] in pc
        invariant forall p :: p in pc ==> pc[p] == 0
      {
        pc := pc[Priorities.Values[i] := 0];
      }
      var sc: map<TaskState, int> := map[];
      for i := 0 to |TaskStates.Values|
        invariant forall j :: 0 <= j < i ==> TaskStates.Values[j] in sc
        invariant forall s :: s in sc ==> sc[s] == 0
      {
        sc := sc[TaskStates.Values[i] := 0];
      }
      forall p: Priority ensures p in pc {
        Priorities.DeclarationOrder(p);
      }
      forall s: TaskState ensures s in sc {
        TaskStates.ValuesListsEveryState(s);
      }
      priorityCounts := pc;
      stateCounts := sc;
      total := 0;
      visited := [];
    }

    /** `visit(t)`: one more in `t`'s priority, one more in `t`'s state, one
        more in total; every other bucket stays as it was. */
    method Visit(t: TaskRecord)
      requires Valid()
      modifies this
      ensures Valid() && visited == old(visited) + [t]
      ensures total == old(total) + 1
      ensures priorityCounts == old(priorityCounts)[t.priority := old(priorityCounts)[t.priority] + 1]
      ensures stateCounts == old(stateCounts)[t.state := old(stateCounts)[t.state] + 1]
    {
      visited := visited + [t];
      assert visited[..|visited| - 1] == old(visited);
      priorityCounts := priorityCounts[t.priority := priorityCounts[t.priority] + 1];
      stateCounts := stateCounts[t.state := stateCounts[t.state] + 1];
      total := total + 1;
    }

    /** The total equals the sum of the priority counts, and the sum of the
        state counts. */
    lemma CountsAddUp()
      requires Valid()
      ensures priorityCounts[High] + priorityCounts[Medium] + priorityCounts[Low] + priorityCounts[None] == total
      ensures stateCounts[ToDo] + stateCounts[InProgress] + stateCounts[Completed] == total
    {
      PriorityCountsSum(visited);
      StateCountsSum(visited);
    }

    /** `asText()`: the report for the records visited so far. */
    function AsText(): (r: string)
      requires Valid()
      reads this
      ensures r == ReportText(Tally(visited))
    {
      ReportText([total, priorityCounts[High], priorityCounts[Medium], priorityCounts[Low], priorityCounts[None],
                  stateCounts[ToDo], stateCounts[InProgress], stateCounts[Completed]])
    }
  }
}
