/** The `Priority` enum and its text badges. */
module Priorities {
  import opened Wrappers

  /** The four constants, in declaration order. */
  datatype Priority = None | Low | Medium | High

  /** `Priority.values()`. */
  const Values: seq<Priority> := [None, Low, Medium, High]

  /** `ordinal()`: the position of the constant in the declaration. */
  function Ordinal(p: Priority): (r: nat)
    ensures r < |Values| && Values[r] == p
  {
    match p
    case None => 0
    case Low => 1
    case Medium => 2
    case High => 3
  }

  /** `name()`: upper-case letters only, so no name holds a comma, a quote
      or a space. */
  function Name(p: Priority): (r: string)
    ensures |r| > 0 && forall i :: 0 <= i < |r| ==> 'A' <= r[i] <= 'Z'
  {
    match p
    case None => "NONE"
    case Low => "LOW"
    case Medium => "MEDIUM"
    case High => "HIGH"
  }

  /** `Priority.valueOf(name)`, or IllegalArgumentException. */
  function ValueOf(name: string): (r: Result<Priority>)
    ensures r.Ok? ==> Name(r.value) == name
    ensures r.Err? ==> r.error == IllegalArgument && forall p :: Name(p) != name
  {
    if name == "NONE" then Ok(None)
    else if name == "LOW" then Ok(Low)
    else if name == "MEDIUM" then Ok(Medium)
    else if name == "HIGH" then Ok(High)
    else Err(IllegalArgument)
  }

  /** `badge()`: a bracketed prefix for LOW, MEDIUM and HIGH; nothing for NONE. */
  function Badge(p: Priority): (r: string)
    ensures p == None <==> r == ""
  {
    match p
    case High => "[HIGH] "
    case Medium => "[MED] "
    case Low => "[LOW] "
    case None => ""
  }

  lemma BadgeValues()
    ensures Badge(High) == "[HIGH] " && Badge(Medium) == "[MED] "
    ensures Badge(Low) == "[LOW] " && Badge(None) == ""
  {
  }

  /** Distinct priorities wear distinct badges. */
  lemma BadgeInjective(p: Priority, q: Priority)
    ensures Badge(p) == Badge(q) <==> p == q
  {
  }

  /** The declaration order is NONE < LOW < MEDIUM < HIGH and lists every constant. */
  lemma DeclarationOrder(p: Priority)
    ensures Values == [None, Low, Medium, High]
    ensures p in Values
  {
  }

  lemma NameRoundTrip(p: Priority)
    ensures ValueOf(Name(p)) == Ok(p)
  {
  }
}
