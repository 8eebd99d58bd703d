/** The `ByPriority` sort strategy: its comparator orders tasks by priority rank,
    highest first, then by title ignoring case. */
module ByPriority {
  import opened Wrappers
  import opened Priorities
  import opened Tasks
  import Text

  /** `priorityOf(t)`: a record's priority, NONE for any other task. */
  function PriorityOf(t: Task): (r: Priority)
    ensures t.Record? ==> r == t.rec.priority
    ensures !t.Record? ==> r == None
  {
    t.PriorityOrNone()
  }

  /** `rank(p)`: HIGH 4, MEDIUM 3, LOW 2, NONE and null 1. */
  function Rank(p: Nullable<Priority>): (r: int)
    ensures 1 <= r <= 4
    ensures p.Null? ==> r == 1
    ensures p.NonNull? ==> r == Ordinal(p.value) + 1
  {
    if p.Null? then 1
    else match p.value
      case High => 4
      case Medium => 3
      case Low => 2
      case None => 1
  }

  /** `Integer.compare(x, y)`. */
  function IntCompare(x: int, y: int): int {
    if x < y then -1 else if x == y then 0 else 1
  }

  function RankOf(t: Task): int {
    Rank(NonNull(PriorityOf(t)))
  }

  /** `comparator().compare(a, b)`: `comparing(rank).reversed()` compares the
      ranks the other way round, and `thenComparing` falls back to
      `CASE_INSENSITIVE_ORDER` on the titles. */
  function Compare(a: Task, b: Task): (r: int)
    ensures RankOf(a) > RankOf(b) ==> r < 0
    ensures RankOf(a) < RankOf(b) ==> r > 0
    ensures RankOf(a) == RankOf(b) ==> r == Text.CompareIgnoreCase(a.Title(), b.Title())
  {
    var byRank := IntCompare(RankOf(b), RankOf(a));
    if byRank != 0 then byRank else Text.CompareIgnoreCase(a.Title(), b.Title())
  }

  /** The comparator calls two tasks equal exactly when their ranks are equal
      and their titles are equal ignoring case. */
  lemma CompareZeroIff(a: Task, b: Task)
    ensures Compare(a, b) == 0 <==> RankOf(a) == RankOf(b) && Text.Lower(a.Title()) == Text.Lower(b.Title())
  {
    Text.CompareIgnoreCaseZeroIff(a.Title(), b.Title());
  }

  /** `sgn(compare(a, b)) == -sgn(compare(b, a))`, as `Comparator` requires. */
  lemma CompareAntisymmetric(a: Task, b: Task)
    ensures Compare(a, b) == -Compare(b, a)
  {
    Text.CompareIgnoreCaseAntisymmetric(a.Title(), b.Title());
  }

  /** `compare(a, b) <= 0` and `compare(b, c) <= 0` give `compare(a, c) <= 0`:
      the comparator is a total preorder, so sorting with it is well defined. */
  lemma CompareTransitive(a: Task, b: Task, c: Task)
    requires Compare(a, b) <= 0 && Compare(b, c) <= 0
    ensures Compare(a, c) <= 0
  {
    if RankOf(a) == RankOf(b) == RankOf(c) {
      Text.CompareIgnoreCaseTransitive(a.Title(), b.Title(), c.Title());
    }
  }
}
