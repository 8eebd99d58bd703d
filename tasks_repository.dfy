/** `TasksRepository`, the observer hub: a duplicate-free listener list and a
    notification that hands one copied snapshot to every listener in turn. */
module Observable {
  import opened Wrappers
  import opened Tasks

  /** A registered callback. Its code lies outside the hub; all the hub can
      observe of it is whether the call throws. */
  datatype Listener = Listener(handle: nat, throws: bool)

  /** One call of `onTasksChanged`: the listener, the snapshot it was given and
      whether it threw (the hub swallows the throw). */
  datatype Delivery = Delivery(listener: Listener, snapshot: seq<Task>, threw: bool)

  ghost predicate NoDuplicates<T>(s: seq<T>) {
    forall i, j :: 0 <= i < j < |s| ==> s[i] != s[j]
  }

  /** `List.remove(x)`: drops the first occurrence of `x`, if any. */
  function RemoveFirst<T(==)>(s: seq<T>, x: T): seq<T> {
    if s == [] then []
    else if s[0] == x then s[1..]
    else [s[0]] + RemoveFirst(s[1..], x)
  }

  /** In a list without duplicates, removing `x` takes away `x` and keeps every
      other element, in order, still without duplicates. */
  lemma {:induction false} RemoveFirstFromDistinct<T>(s: seq<T>, x: T)
    requires NoDuplicates(s)
    ensures x !in RemoveFirst(s, x)
    ensures forall y :: y in RemoveFirst(s, x) ==> y in s
    ensures forall y :: y in s && y != x ==> y in RemoveFirst(s, x)
    ensures NoDuplicates(RemoveFirst(s, x))
  {
    if s != [] {
      assert NoDuplicates(s[1..]) by {
        forall i, j | 0 <= i < j < |s[1..]| ensures s[1..][i] != s[1..][j] {
          assert s[1..][i] == s[i + 1] && s[1..][j] == s[j + 1];
        }
      }
      RemoveFirstFromDistinct(s[1..], x);
      if s[0] != x {
        var r := [s[0]] + RemoveFirst(s[1..], x);
        forall i, j | 0 <= i < j < |r| ensures r[i] != r[j] {
          if i == 0 {
            assert r[j] in RemoveFirst(s[1..], x);
          }
        }
      }
    }
  }

  /** What one `notifyListeners` call produces: one delivery per listener, in
      list order, each with the same snapshot. */
  function Deliveries(listeners: seq<Listener>, snapshot: seq<Task>): (r: seq<Delivery>)
    ensures |r| == |listeners|
  {
    if listeners == [] then []
    else Deliveries(listeners[..|listeners| - 1], snapshot)
         + [Delivery(listeners[|listeners| - 1], snapshot, listeners[|listeners| - 1].throws)]
  }

  /** Every listener is called once, in list order, with the same snapshot,
      whether or not the listeners before it threw. */
  lemma {:induction false} DeliveriesReachEveryListener(listeners: seq<Listener>, snapshot: seq<Task>, i: int)
    requires 0 <= i < |listeners|
    ensures Deliveries(listeners, snapshot)[i] == Delivery(listeners[i], snapshot, listeners[i].throws)
  {
    if i < |listeners| - 1 {
      DeliveriesReachEveryListener(listeners[..|listeners| - 1], snapshot, i);
    }
  }

  class TasksRepository {
    /** The registered listeners, in registration order. */
    var listeners: seq<Listener>
    /** Every callback made so far, oldest first. */
    var deliveries: seq<Delivery>

    ghost predicate Valid()
      reads this
    {
      NoDuplicates(listeners)
    }

    constructor ()
      ensures Valid() && listeners == [] && deliveries == []
    {
      listeners := [];
      deliveries := [];
    }

    /** `addListener(l)`: ignores null and a listener already registered. */
    method AddListener(l: Nullable<Listener>)
      requires Valid()
      modifies this`listeners
      ensures Valid()
      ensures listeners == if l.Null? || l.value in old(listeners) then old(listeners) else old(listeners) + [l.value]
    {
      if l.NonNull? && l.value !in listeners {
        listeners := listeners + [l.value];
      }
    }

    /** `removeListener(l)`: ignores null; otherwise removes `l`. */
    method RemoveListener(l: Nullable<Listener>)
      requires Valid()
      modifies this`listeners
      ensures Valid()
      ensures l.Null? ==> listeners == old(listeners)
      ensures l.NonNull? ==> listeners == RemoveFirst(old(listeners), l.value)
      ensures l.NonNull? ==> l.value !in listeners && forall m :: m != l.value ==> (m in listeners <==> m in old(listeners))
    {
      if l.NonNull? {
        RemoveFirstFromDistinct(listeners, l.value);
        listeners := RemoveFirst(listeners, l.value);
      }
    }

    /** `notifyListeners(current)`, run where it is called: the snapshot is a
        copy of `current`, and each listener is called in turn, a throw being
        caught so that the loop goes on. */
    method NotifyListeners(current: seq<Task>)
      modifies this`deliveries
      ensures deliveries == old(deliveries) + Deliveries(listeners, current)
    {
      var snapshot := current;
      var i := 0;
      while i < |listeners|
        invariant 0 <= i <= |listeners|
        invariant deliveries == old(deliveries) + Deliveries(listeners[..i], snapshot)
      {
        var l := listeners[i];
        deliveries := deliveries + [Delivery(l, snapshot, l.throws)];
        assert listeners[..i + 1][..i] == listeners[..i];
        i := i + 1;
      }
      assert listeners[..i] == listeners;
    }
  }
}
