/** The filter combinators: `TaskFilter` (a predicate over title, description
    and state name, with `and`, `or` and `not`) and the `Filters` factories. */
module Filters {
  import opened Wrappers
  import Text

  /** `TaskFilter.test(title, desc, state)`. */
  type TaskFilter = (string, string, string) -> bool

  /** `f.and(g)`. */
  function And(f: TaskFilter, g: TaskFilter): (h: TaskFilter)
    ensures forall t, d, s :: h(t, d, s) == (f(t, d, s) && g(t, d, s))
  {
    (t, d, s) => f(t, d, s) && g(t, d, s)
  }

  /** `f.or(g)`. */
  function Or(f: TaskFilter, g: TaskFilter): (h: TaskFilter)
    ensures forall t, d, s :: h(t, d, s) == (f(t, d, s) || g(t, d, s))
  {
    (t, d, s) => f(t, d, s) || g(t, d, s)
  }

  /** `f.not()`. */
  function Not(f: TaskFilter): (h: TaskFilter)
    ensures forall t, d, s :: h(t, d, s) == !f(t, d, s)
  {
    (t, d, s) => !f(t, d, s)
  }

  /** Two filters that accept the same inputs. */
  ghost predicate Equivalent(f: TaskFilter, g: TaskFilter) {
    forall t, d, s :: f(t, d, s) == g(t, d, s)
  }

  lemma DoubleNegation(f: TaskFilter)
    ensures Equivalent(Not(Not(f)), f)
  {
  }

  lemma DeMorgan(f: TaskFilter, g: TaskFilter)
    ensures Equivalent(Not(And(f, g)), Or(Not(f), Not(g)))
    ensures Equivalent(Not(Or(f, g)), And(Not(f), Not(g)))
  {
  }

  /** `Filters.any()`. */
  function Any(): (f: TaskFilter)
    ensures forall t, d, s :: f(t, d, s)
  {
    (t, d, s) => true
  }

  /** The text `textContains` searches for: the query trimmed and lower-cased. */
  function Needle(q: string): string {
    Text.Lower(Text.Trim(q))
  }

  /** `Filters.textContains(q)`: a null or blank query accepts everything;
      otherwise the lower-cased title or description must contain the needle. */
  function TextContains(q: Nullable<string>): (f: TaskFilter)
    ensures q.Null? || Text.IsBlank(q.value) ==> forall t, d, s :: f(t, d, s)
    ensures q.NonNull? && !Text.IsBlank(q.value) ==>
      forall t, d, s :: f(t, d, s) == (Text.Occurs(Text.Lower(t), Needle(q.value)) || Text.Occurs(Text.Lower(d), Needle(q.value)))
  {
    var x := if q.Null? then "" else Needle(q.value);
    NeedleEmptyIffBlank(q);
    if x == [] then Any()
    else
      ContainsMeansOccurs(x);
      (t, d, s) => Text.Contains(Text.Lower(t), x) || Text.Contains(Text.Lower(d), x)
  }

  lemma NeedleEmptyIffBlank(q: Nullable<string>)
    ensures q.NonNull? ==> (Needle(q.value) == [] <==> Text.IsBlank(q.value))
  {
    if q.NonNull? {
      Text.TrimEmptyIffBlank(q.value);
    }
  }

  lemma ContainsMeansOccurs(x: string)
    ensures forall s :: Text.Contains(s, x) <==> Text.Occurs(s, x)
  {
    forall s ensures Text.Contains(s, x) <==> Text.Occurs(s, x) {
      Text.ContainsIffOccurs(s, x);
    }
  }

  /** `Filters.stateIs(st)`: null and "ANY" accept everything; any other
      value accepts exactly the state name equal to it. */
  function StateIs(st: Nullable<string>): (f: TaskFilter)
    ensures st.Null? || st.value == "ANY" ==> forall t, d, s :: f(t, d, s)
    ensures st.NonNull? && st.value != "ANY" ==> forall t, d, s :: f(t, d, s) == (s == st.value)
  {
    if st.Null? || st.value == "ANY" then Any()
    else (t, d, s) => s == st.value
  }

  /** The filter panel offers "ALL", but only "ANY" is a wildcard: "ALL"
      matches no task, since no state is named "ALL". */
  lemma AllIsNotAWildcard(t: string, d: string, s: string)
    requires s != "ALL"
    ensures !StateIs(NonNull("ALL"))(t, d, s)
  {
  }
}
