/** The reorder loop at the start of `GenerateFBuildNodeList`.

    Passes run over the node list until one makes no move. Within a pass, the
    node at position `i` is looked at if it has dependencies. Its dependencies'
    positions are taken, with -1 for a dependency not in the list. If the
    largest of them is past `i`, the node is removed and reinserted at that
    position, which puts it right after that dependency. The C# loop does not
    end when the dependencies form a cycle. The model therefore gives it a
    number of passes, `fuel`, and fails with `ReorderDiverged` when they are
    used up. */
module Ordering {
  import opened Outcomes
  import opened Nodes

  /** `List.IndexOf`: the first position holding `h`, or -1. */
  function IndexOf(list: seq<nat>, h: nat): (r: int)
    ensures -1 <= r < |list|
  {
    if |list| == 0 then -1
    else if list[0] == h then 0
    else
      var r := IndexOf(list[1..], h);
      if r == -1 then -1 else r + 1
  }

  /** The position found holds `h` and no earlier one does; -1 exactly
      when `h` is missing. */
  lemma {:induction false} IndexOfMeans(list: seq<nat>, h: nat)
    ensures IndexOf(list, h) >= 0 ==> list[IndexOf(list, h)] == h && forall k :: 0 <= k < IndexOf(list, h) ==> list[k] != h
    ensures IndexOf(list, h) == -1 <==> h !in list
  {
    if |list| > 0 && list[0] != h {
      IndexOfMeans(list[1..], h);
      assert forall k :: 1 <= k < |list| ==> list[k] == list[1..][k - 1];
      assert list == [list[0]] + list[1..];
    }
  }

  /** `Dependencies.Select(IndexOf).OrderBy(n => n).Last()`: the largest position. */
  function Highest(list: seq<nat>, deps: seq<nat>): (r: int)
    requires |deps| > 0
    ensures r < |list|
  {
    if |deps| == 1 then IndexOf(list, deps[0])
    else
      var rest := Highest(list, deps[1..]);
      var first := IndexOf(list, deps[0]);
      if first >= rest then first else rest
  }

  /** The largest position is an upper bound that one dependency attains. */
  lemma {:induction false} HighestMeans(list: seq<nat>, deps: seq<nat>)
    requires |deps| > 0
    ensures forall k :: 0 <= k < |deps| ==> IndexOf(list, deps[k]) <= Highest(list, deps)
    ensures exists k :: 0 <= k < |deps| && IndexOf(list, deps[k]) == Highest(list, deps)
  {
    if |deps| > 1 {
      HighestMeans(list, deps[1..]);
      assert forall k :: 1 <= k < |deps| ==> deps[k] == deps[1..][k - 1];
      var k :| 0 <= k < |deps[1..]| && IndexOf(list, deps[1..][k]) == Highest(list, deps[1..]);
      if IndexOf(list, deps[0]) >= Highest(list, deps[1..]) {
        assert IndexOf(list, deps[0]) == Highest(list, deps);
      } else {
        assert IndexOf(list, deps[k + 1]) == Highest(list, deps);
      }
    } else {
      assert IndexOf(list, deps[0]) == Highest(list, deps);
    }
  }

  /** `RemoveAt(i)` followed by `Insert(j, x)` for the removed `x`. */
  function Move(list: seq<nat>, i: nat, j: nat): (r: seq<nat>)
    requires i < j < |list|
    ensures |r| == |list|
    ensures r[j] == list[i]
  {
    var rest := list[..i] + list[i + 1..];
    rest[..j] + [list[i]] + rest[j..]
  }

  /** A move neither loses nor duplicates a node. */
  lemma MovePermutes(list: seq<nat>, i: nat, j: nat)
    requires i < j < |list|
    ensures multiset(Move(list, i, j)) == multiset(list)
  {
    var rest := list[..i] + list[i + 1..];
    assert list == list[..i] + [list[i]] + list[i + 1..];
    assert multiset(list) == multiset(list[..i]) + multiset{list[i]} + multiset(list[i + 1..]);
    assert multiset(rest) == multiset(list[..i]) + multiset(list[i + 1..]);
    assert rest == rest[..j] + rest[j..];
    assert multiset(rest) == multiset(rest[..j]) + multiset(rest[j..]);
    assert multiset(Move(list, i, j)) == multiset(rest[..j]) + multiset{list[i]} + multiset(rest[j..]);
    assert multiset(Move(list, i, j)) == multiset(rest) + multiset{list[i]};
  }

  /** Every node in the list has an entry in the store. */
  ghost predicate Keyed(list: seq<nat>, store: Store) {
    forall h :: h in list ==> h in store
  }

  /** The node at position `i` does not need to move. */
  predicate Settled(list: seq<nat>, store: Store, i: nat)
    requires i < |list| && list[i] in store
  {
    var deps := store[list[i]].dependencies;
    |deps| == 0 || Highest(list, deps) <= i
  }

  /** The order a pass without moves leaves: no node needs to move. */
  ghost predicate Ordered(list: seq<nat>, store: Store)
    requires Keyed(list, store)
  {
    forall i :: 0 <= i < |list| ==> Settled(list, store, i)
  }

  /** The loop body for position `i`: the list afterwards and whether the
      node moved. */
  function Step(list: seq<nat>, store: Store, i: nat): (r: (seq<nat>, bool))
    requires Keyed(list, store) && i < |list|
    ensures Keyed(r.0, store) && |r.0| == |list|
    ensures r.1 <==> !Settled(list, store, i)
    ensures !r.1 ==> r.0 == list
  {
    var deps := store[list[i]].dependencies;
    if |deps| > 0 && Highest(list, deps) > i then
      var moved := Move(list, i, Highest(list, deps));
      MovePermutes(list, i, Highest(list, deps));
      assert forall h :: h in moved ==> h in multiset(list);
      (moved, true)
    else (list, false)
  }

  /** The rest of one pass, from position `i`; the flag records a move. */
  function PassFrom(list: seq<nat>, store: Store, i: nat, changed: bool): (r: (seq<nat>, bool))
    requires Keyed(list, store)
    ensures Keyed(r.0, store) && |r.0| == |list|
    decreases |list| - i
  {
    if i >= |list| then (list, changed)
    else
      var s := Step(list, store, i);
      PassFrom(s.0, store, i + 1, changed || s.1)
  }

  /** A pass neither loses nor duplicates a node. */
  lemma {:induction false} PassPermutes(list: seq<nat>, store: Store, i: nat, changed: bool)
    requires Keyed(list, store)
    ensures multiset(PassFrom(list, store, i, changed).0) == multiset(list)
    decreases |list| - i
  {
    if i < |list| {
      var deps := store[list[i]].dependencies;
      if |deps| > 0 && Highest(list, deps) > i {
        MovePermutes(list, i, Highest(list, deps));
      }
      PassPermutes(Step(list, store, i).0, store, i + 1, changed || Step(list, store, i).1);
    }
  }

  /** A pass that reports no move has left the list as it was, with every
      node from `i` on settled. */
  lemma {:induction false} QuietPass(list: seq<nat>, store: Store, i: nat)
    requires Keyed(list, store)
    requires !PassFrom(list, store, i, false).1
    ensures PassFrom(list, store, i, false).0 == list
    ensures forall k :: i <= k < |list| ==> Settled(list, store, k)
    decreases |list| - i
  {
    if i < |list| {
      var s := Step(list, store, i);
      if s.1 {
        MovedStaysChanged(s.0, store, i + 1);
        assert false;
      }
      QuietPass(list, store, i + 1);
    }
  }

  /** Once a pass has moved a node it reports a move. */
  lemma {:induction false} MovedStaysChanged(list: seq<nat>, store: Store, i: nat)
    requires Keyed(list, store)
    ensures PassFrom(list, store, i, true).1
    decreases |list| - i
  {
    if i < |list| {
      MovedStaysChanged(Step(list, store, i).0, store, i + 1);
    }
  }

  /** The `do … while (changed)` loop: the first pass always runs, and
      `fuel` more passes are allowed after it. */
  function Reorder(list: seq<nat>, store: Store, fuel: nat): (r: Result<seq<nat>>)
    requires Keyed(list, store)
    ensures r.Failure? ==> r.error == ReorderDiverged
    ensures r.Success? ==> Keyed(r.value, store)
    ensures |list| == 0 ==> r == Success([])
    decreases fuel
  {
    var (next, changed) := PassFrom(list, store, 0, false);
    if !changed then Success(next)
    else if fuel == 0 then Failure(ReorderDiverged)
    else Reorder(next, store, fuel - 1)
  }

  /** A settled reorder is a permutation of its input in which no node
      needs to move. */
  lemma {:induction false} ReorderSound(list: seq<nat>, store: Store, fuel: nat)
    requires Keyed(list, store)
    requires Reorder(list, store, fuel).Success?
    ensures multiset(Reorder(list, store, fuel).value) == multiset(list)
    ensures Keyed(Reorder(list, store, fuel).value, store)
    ensures Ordered(Reorder(list, store, fuel).value, store)
    decreases fuel
  {
    var (next, changed) := PassFrom(list, store, 0, false);
    PassPermutes(list, store, 0, false);
    if !changed {
      QuietPass(list, store, 0);
    } else {
      ReorderSound(next, store, fuel - 1);
    }
  }

  /** What a settled position means: every dependency that is in the list
      sits at or before the node, and a dependency missing from the list
      (position -1) never forces a move. */
  lemma SettledMeans(list: seq<nat>, store: Store, i: nat)
    requires i < |list| && list[i] in store
    ensures Settled(list, store, i) <==>
              forall d :: d in store[list[i]].dependencies ==> IndexOf(list, d) <= i
  {
    var deps := store[list[i]].dependencies;
    if |deps| > 0 {
      HighestMeans(list, deps);
      if Settled(list, store, i) {
        forall d | d in deps ensures IndexOf(list, d) <= i {
          var k :| 0 <= k < |deps| && deps[k] == d;
        }
      } else {
        var k :| 0 <= k < |deps| && IndexOf(list, deps[k]) == Highest(list, deps);
        assert deps[k] in deps;
      }
    }
  }

  /** In a list without repeated nodes, an ordered list places every
      dependency that is in it strictly before its dependent, unless the node
      depends on itself. */
  lemma OrderedPlacesDependenciesFirst(list: seq<nat>, store: Store, i: nat, d: nat)
    requires Keyed(list, store) && Ordered(list, store)
    requires i < |list| && d in store[list[i]].dependencies && d in list && d != list[i]
    ensures IndexOf(list, d) < i
  {
    SettledMeans(list, store, i);
    IndexOfMeans(list, d);
  }

  /** Two nodes that depend on each other swap places on every pass, so the
      reorder never settles, however many passes it is given. */
  lemma {:induction false} MutualDependencyDiverges(a: nat, b: nat, store: Store, fuel: nat)
    requires a != b && a in store && b in store
    requires store[a].dependencies == [b] && store[b].dependencies == [a]
    ensures Keyed([a, b], store) && Reorder([a, b], store, fuel).Failure?
    decreases fuel
  {
    SwapPass(a, b, store);
    if fuel > 0 {
      assert Reorder([a, b], store, fuel) == Reorder([b, a], store, fuel - 1);
      SwapPass(b, a, store);
      if fuel > 1 {
        assert Reorder([b, a], store, fuel - 1) == Reorder([a, b], store, fuel - 2);
        MutualDependencyDiverges(a, b, store, fuel - 2);
      }
    }
  }

  /** One pass over `[a, b]` when each depends on the other gives `[b, a]`. */
  lemma SwapPass(a: nat, b: nat, store: Store)
    requires a != b && a in store && b in store
    requires store[a].dependencies == [b] && store[b].dependencies == [a]
    ensures Keyed([a, b], store)
    ensures PassFrom([a, b], store, 0, false) == ([b, a], true)
  {
    var ab, ba := [a, b], [b, a];
    assert IndexOf(ab, b) == 1 by {
      assert ab[1..] == [b];
    }
    assert Highest(ab, [b]) == 1;
    assert Move(ab, 0, 1) == ba;
    assert Step(ab, store, 0) == (ba, true);
    assert IndexOf(ba, a) == 1 by {
      assert ba[1..] == [a];
    }
    assert Highest(ba, [a]) == 1;
    assert Step(ba, store, 1) == (ba, false);
    assert PassFrom(ba, store, 2, true) == (ba, true);
    assert PassFrom(ba, store, 1, true) == (ba, true);
  }

  /** One pass of the C# `for` loop. */
  method RunPass(list: seq<nat>, store: Store) returns (next: seq<nat>, changed: bool)
    requires Keyed(list, store)
    ensures (next, changed) == PassFrom(list, store, 0, false)
    ensures Keyed(next, store)
  {
    next := list;
    changed := false;
    for i := 0 to |list|
      invariant |next| == |list|
      invariant Keyed(next, store)
      invariant PassFrom(next, store, i, changed) == PassFrom(list, store, 0, false)
    {
      var deps := store[next[i]].dependencies;
      if |deps| > 0 {
        var highest := Highest(next, deps);
        if highest > i {
          next := Move(next, i, highest);
          changed := true;
        }
      }
    }
  }

  /** `GenerateFBuildNodeList`'s reorder: passes until one makes no move. */
  method ReorderNodes(list: seq<nat>, store: Store, fuel: nat) returns (r: Result<seq<nat>>)
    requires Keyed(list, store)
    ensures r == Reorder(list, store, fuel)
    ensures r.Success? ==> multiset(r.value) == multiset(list) && Keyed(r.value, store) && Ordered(r.value, store)
  {
    var current := list;
    var left := fuel;
    while true
      invariant Keyed(current, store)
      invariant Reorder(current, store, left) == Reorder(list, store, fuel)
      decreases left
    {
      var next, changed := RunPass(current, store);
      if !changed {
        assert Reorder(current, store, left) == Success(next);
        ReorderSound(list, store, fuel);
        return Success(next);
      }
      if left == 0 {
        return Failure(ReorderDiverged);
      }
      assert Reorder(current, store, left) == Reorder(next, store, left - 1);
      current := next;
      left := left - 1;
    }
  }
}
