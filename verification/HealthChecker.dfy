/**
 The list of checked objects (shared/healthandmetrics/health-checker.go), identified by their addresses, and what an
 iteration leaves of it.
 */
module HealthChecker {
  import opened WorkerPool

  type Address = string

  ghost predicate NoTwins<T>(xs: seq<T>) {
    forall i, j :: 0 <= i < j < |xs| ==> xs[i] != xs[j]
  }

  /** xs without the members of gone, in order. */
  function Keep<T(==)>(xs: seq<T>, gone: set<T>): seq<T> {
    if xs == [] then [] else (if xs[0] in gone then [] else [xs[0]]) + Keep(xs[1..], gone)
  }

  lemma {:induction false} KeepMembers<T>(xs: seq<T>, gone: set<T>)
    ensures forall x :: x in Keep(xs, gone) <==> x in xs && x !in gone
    ensures NoTwins(xs) ==> NoTwins(Keep(xs, gone))
  {
    if xs != [] {
      KeepMembers(xs[1..], gone);
      assert xs == [xs[0]] + xs[1..];
      if NoTwins(xs) {
        assert forall i :: 0 <= i < |xs[1..]| ==> xs[1..][i] == xs[i + 1];
        assert xs[0] !in xs[1..];
      }
    }
  }

  lemma {:induction false} KeepAll<T>(xs: seq<T>, gone: set<T>)
    requires forall x :: x in xs ==> x !in gone
    ensures Keep(xs, gone) == xs
  {
    if xs != [] {
      assert xs[0] in xs;
      assert forall x :: x in xs[1..] ==> x in xs;
      KeepAll(xs[1..], gone);
    }
  }

  lemma {:induction false} KeepConcat<T>(xs: seq<T>, ys: seq<T>, gone: set<T>)
    ensures Keep(xs + ys, gone) == Keep(xs, gone) + Keep(ys, gone)
  {
    if xs == [] {
      assert xs + ys == ys;
    } else {
      assert (xs + ys)[1..] == xs[1..] + ys;
      KeepConcat(xs[1..], ys, gone);
    }
  }

  lemma {:induction false} KeepTwice<T>(xs: seq<T>, gone: set<T>, a: T)
    ensures Keep(Keep(xs, gone), {a}) == Keep(xs, gone + {a})
  {
    if xs != [] {
      KeepTwice(xs[1..], gone, a);
      KeepConcat(if xs[0] in gone then [] else [xs[0]], Keep(xs[1..], gone), {a});
    }
  }

  lemma NoTwinAround<T>(xs: seq<T>, i: nat)
    requires i < |xs| && NoTwins(xs)
    ensures xs[i] !in xs[..i] && xs[i] !in xs[i + 1..]
  {
    assert forall j :: i < j < |xs| ==> xs[j] != xs[i];
  }

  lemma {:induction false} KeepAround<T>(xs: seq<T>, a: T, ys: seq<T>)
    requires a !in xs && a !in ys
    ensures Keep(xs + ([a] + ys), {a}) == xs + ys
  {
    var all := xs + ([a] + ys);
    if xs == [] {
      assert all[0] == a && all[1..] == ys;
      KeepAll(ys, {a});
    } else {
      assert all[0] == xs[0] && all[1..] == xs[1..] + ([a] + ys);
      assert xs[0] in xs;
      KeepAround(xs[1..], a, ys);
    }
  }

  /** Cutting out the one place of an address. */
  lemma CutOut<T>(xs: seq<T>, i: nat)
    requires i < |xs| && NoTwins(xs)
    ensures xs[..i] + xs[i + 1..] == Keep(xs, {xs[i]})
  {
    NoTwinAround(xs, i);
    KeepAround(xs[..i], xs[i], xs[i + 1..]);
    assert xs == xs[..i] + ([xs[i]] + xs[i + 1..]);
  }

  /** Those that a list of results calls unhealthy. */
  function Failing<T(==)>(handled: seq<T>, healthy: T -> bool): set<T> {
    set a | a in handled && !healthy(a)
  }

  function Verdicts<T(==)>(handled: seq<T>, healthy: T -> bool): seq<(T, bool)> {
    seq(|handled|, i requires 0 <= i < |handled| => (handled[i], healthy(handled[i])))
  }

  class Checker {
    var objects: seq<Address>
    // the calls to the success (true) and failure (false) observers
    var observed: seq<(Address, bool)>

    ghost predicate Valid()
      reads this
    {
      NoTwins(objects)
    }

    constructor ()
      ensures Valid() && objects == [] && observed == []
    {
      objects, observed := [], [];
    }

    method AddHealthCheckObject(a: Address)
      requires Valid()
      modifies `objects
      ensures Valid()
      ensures objects == if a in old(objects) then old(objects) else old(objects) + [a]
    {
      for i := 0 to |objects|
        invariant a !in objects[..i]
      {
        if objects[i] == a { return; }
      }
      assert objects[..|objects|] == objects;
      objects := objects + [a];
    }

    method RemoveHealthCheckObject(a: Address)
      requires Valid()
      modifies `objects
      ensures Valid() && objects == Keep(old(objects), {a})
    {
      KeepMembers(objects, {a});
      for i := 0 to |objects|
        invariant a !in objects[..i] && objects == old(objects)
      {
        if objects[i] == a {
          CutOut(objects, i);
          objects := objects[..i] + objects[i + 1..];
          return;
        }
      }
      assert objects[..|objects|] == objects;
      KeepAll(objects, {a});
    }

    method HandleResult(a: Address, ok: bool)
      requires Valid()
      modifies this
      ensures Valid() && objects == Keep(old(objects), if ok then {} else {a})
      ensures observed == old(observed) + [(a, ok)]
    {
      if ok {
        KeepAll(objects, {});
      } else {
        RemoveHealthCheckObject(a);
      }
      observed := observed + [(a, ok)];
    }

    /** The second half of an iteration: results are handled as they come. */
    method HandleResults(handled: seq<Address>, healthy: Address -> bool)
      requires Valid()
      modifies this
      ensures Valid() && objects == Keep(old(objects), Failing(handled, healthy))
      ensures observed == old(observed) + Verdicts(handled, healthy)
    {
      KeepAll(objects, {});
      assert Failing([], healthy) == {};
      for i := 0 to |handled|
        invariant Valid() && objects == Keep(old(objects), Failing(handled[..i], healthy))
        invariant observed == old(observed) + Verdicts(handled[..i], healthy)
      {
        var a := handled[i];
        NextFailing(old(objects), handled, i, healthy);
        HandleResult(a, healthy(a));
      }
      assert handled[..|handled|] == handled;
    }
  }

  lemma NextFailing<T>(xs: seq<T>, handled: seq<T>, i: nat, healthy: T -> bool)
    requires i < |handled|
    ensures var a := handled[i];
            Keep(xs, Failing(handled[..i + 1], healthy))
            == Keep(Keep(xs, Failing(handled[..i], healthy)), if healthy(a) then {} else {a})
    ensures Verdicts(handled[..i + 1], healthy) == Verdicts(handled[..i], healthy) + [(handled[i], healthy(handled[i]))]
  {
    var a := handled[i];
    var done := handled[..i];
    assert handled[..i + 1] == done + [a];
    if healthy(a) {
      assert Failing(done + [a], healthy) == Failing(done, healthy);
      KeepAll(Keep(xs, Failing(done, healthy)), {});
    } else {
      assert Failing(done + [a], healthy) == Failing(done, healthy) + {a};
      KeepTwice(xs, Failing(done, healthy), a);
    }
  }

  /**
   Whatever the interleaving of the workers, a completed iteration leaves exactly the healthy objects, in their order,
   and has told the observers about every object once.
   */
  lemma IterationKeepsTheHealthy(workers: nat, objects: seq<Address>, steps: seq<Step>, healthy: Address -> bool)
    requires Possible(workers, Start(objects), steps) && Done(Run(workers, Start(objects), steps))
    ensures var handled := Run(workers, Start(objects), steps).handled;
            && Keep(objects, Failing(handled, healthy)) == Keep(objects, Failing(objects, healthy))
            && multiset(handled) == multiset(objects)
            && forall x :: x in Keep(objects, Failing(handled, healthy)) <==> x in objects && healthy(x)
  {
    var handled := Run(workers, Start(objects), steps).handled;
    ExactlyOnce(workers, objects, steps);
    SameMembers(handled, objects);
    assert Failing(handled, healthy) == Failing(objects, healthy);
    KeepMembers(objects, Failing(objects, healthy));
  }

  lemma SameMembers<T>(xs: seq<T>, ys: seq<T>)
    requires multiset(xs) == multiset(ys)
    ensures forall x :: x in xs <==> x in ys
  {
    assert forall x :: x in xs <==> x in multiset(xs);
  }
}
