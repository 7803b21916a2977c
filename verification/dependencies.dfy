/** `ResolveDependencies`: explicit edges between the nodes of one batch.

    Every node gains, in prerequisite order, the node of each producing
    action of the same action type that is in `actionLinks`, unless that
    node is already among its dependencies. Producers of another type,
    producers without a node and missing producers add nothing. */
module Dependencies {
  import opened Outcomes
  import opened Nodes

  /** The producer behind one prerequisite qualifies as an edge of a node of
      type `kind`: it exists, is of the same type and has a node. */
  predicate Qualifies(actions: seq<RawAction>, store: Store, kind: ActionKind, p: Option<nat>) {
    p.Some? && p.value < |actions| && actions[p.value].kind == kind && p.value in store
  }

  /** The inner loop of `ResolveDependencies` for one node. */
  function AddEdges(actions: seq<RawAction>, store: Store, kind: ActionKind,
                    deps: seq<nat>, prereqs: seq<Option<nat>>): (r: seq<nat>)
    ensures |deps| <= |r| && r[..|deps|] == deps
    decreases |prereqs|
  {
    if |prereqs| == 0 then deps
    else
      var p := prereqs[0];
      var deps' := if Qualifies(actions, store, kind, p) && p.value !in deps then deps + [p.value] else deps;
      AddEdges(actions, store, kind, deps', prereqs[1..])
  }

  /** The edges are the old ones plus exactly the qualifying producers. */
  lemma {:induction false} AddEdgesMembers(actions: seq<RawAction>, store: Store, kind: ActionKind,
                                           deps: seq<nat>, prereqs: seq<Option<nat>>, x: nat)
    ensures x in AddEdges(actions, store, kind, deps, prereqs) <==>
              x in deps || (exists k :: 0 <= k < |prereqs| && prereqs[k] == Some(x) && Qualifies(actions, store, kind, prereqs[k]))
    decreases |prereqs|
  {
    if |prereqs| > 0 {
      var p := prereqs[0];
      var deps' := if Qualifies(actions, store, kind, p) && p.value !in deps then deps + [p.value] else deps;
      AddEdgesMembers(actions, store, kind, deps', prereqs[1..], x);
      if exists k :: 0 <= k < |prereqs| && prereqs[k] == Some(x) && Qualifies(actions, store, kind, prereqs[k]) {
        var k :| 0 <= k < |prereqs| && prereqs[k] == Some(x) && Qualifies(actions, store, kind, prereqs[k]);
        if k > 0 {
          assert prereqs[1..][k - 1] == prereqs[k];
        }
      }
      if exists k :: 0 <= k < |prereqs[1..]| && prereqs[1..][k] == Some(x) && Qualifies(actions, store, kind, prereqs[1..][k]) {
        var k :| 0 <= k < |prereqs[1..]| && prereqs[1..][k] == Some(x) && Qualifies(actions, store, kind, prereqs[1..][k]);
        assert prereqs[k + 1] == prereqs[1..][k];
      }
    }
  }

  ghost predicate NoDuplicates(s: seq<nat>) {
    forall i, j :: 0 <= i < j < |s| ==> s[i] != s[j]
  }

  /** A node never lists the same dependency twice. */
  lemma {:induction false} AddEdgesNoDuplicates(actions: seq<RawAction>, store: Store, kind: ActionKind,
                                                deps: seq<nat>, prereqs: seq<Option<nat>>)
    requires NoDuplicates(deps)
    ensures NoDuplicates(AddEdges(actions, store, kind, deps, prereqs))
    decreases |prereqs|
  {
    if |prereqs| > 0 {
      var p := prereqs[0];
      var deps' := if Qualifies(actions, store, kind, p) && p.value !in deps then deps + [p.value] else deps;
      if deps' != deps {
        forall i, j | 0 <= i < j < |deps'| ensures deps'[i] != deps'[j] {
          if j == |deps| {
            assert deps'[i] in deps;
          }
        }
      }
      AddEdgesNoDuplicates(actions, store, kind, deps', prereqs[1..]);
    }
  }

  /** When every qualifying producer is already a dependency nothing is added. */
  lemma {:induction false} AddEdgesSaturated(actions: seq<RawAction>, store: Store, kind: ActionKind,
                                             deps: seq<nat>, prereqs: seq<Option<nat>>)
    requires forall k :: 0 <= k < |prereqs| && Qualifies(actions, store, kind, prereqs[k]) ==> prereqs[k].value in deps
    ensures AddEdges(actions, store, kind, deps, prereqs) == deps
    decreases |prereqs|
  {
    if |prereqs| > 0 {
      assert forall k :: 0 <= k < |prereqs[1..]| ==> prereqs[1..][k] == prereqs[k + 1];
      AddEdgesSaturated(actions, store, kind, deps, prereqs[1..]);
    }
  }

  /** The dependencies node `h` ends up with. */
  function NodeEdges(actions: seq<RawAction>, store: Store, h: nat): seq<nat>
    requires h in store && h < |actions|
  {
    AddEdges(actions, store, actions[h].kind, store[h].dependencies, actions[h].prerequisites)
  }

  /** `ResolveDependencies` over `actionLinks`, whose keys are actions of the batch. */
  function ResolveDependencies(actions: seq<RawAction>, store: Store): (r: Store)
    requires forall h :: h in store ==> h < |actions|
    ensures r.Keys == store.Keys
    ensures forall h :: h in store ==> r[h].(dependencies := []) == store[h].(dependencies := [])
    ensures forall h :: h in store ==>
              |store[h].dependencies| <= |r[h].dependencies| &&
              r[h].dependencies[..|store[h].dependencies|] == store[h].dependencies
  {
    map h | h in store :: store[h].(dependencies := NodeEdges(actions, store, h))
  }

  /** A node's dependencies after resolution are its old ones plus exactly
      the nodes of its same-type producers. */
  lemma ResolvedMembers(actions: seq<RawAction>, store: Store, h: nat, x: nat)
    requires forall h :: h in store ==> h < |actions|
    requires h in store
    ensures x in ResolveDependencies(actions, store)[h].dependencies <==>
              x in store[h].dependencies ||
              (Some(x) in actions[h].prerequisites && x < |actions| && actions[x].kind == actions[h].kind && x in store)
  {
    var pre := actions[h].prerequisites;
    AddEdgesMembers(actions, store, actions[h].kind, store[h].dependencies, pre, x);
    if Some(x) in pre {
      var k :| 0 <= k < |pre| && pre[k] == Some(x);
      assert pre[k] == Some(x);
    }
  }

  /** Resolution never introduces a duplicate. */
  lemma ResolvedNoDuplicates(actions: seq<RawAction>, store: Store, h: nat)
    requires forall h :: h in store ==> h < |actions|
    requires h in store && NoDuplicates(store[h].dependencies)
    ensures NoDuplicates(ResolveDependencies(actions, store)[h].dependencies)
  {
    AddEdgesNoDuplicates(actions, store, actions[h].kind, store[h].dependencies, actions[h].prerequisites);
  }

  /** Running the resolution twice gives what running it once gives. */
  lemma ResolveIdempotent(actions: seq<RawAction>, store: Store)
    requires forall h :: h in store ==> h < |actions|
    ensures ResolveDependencies(actions, ResolveDependencies(actions, store)) == ResolveDependencies(actions, store)
  {
    var once := ResolveDependencies(actions, store);
    var twice := ResolveDependencies(actions, once);
    forall h | h in store
      ensures twice[h] == once[h]
    {
      var pre := actions[h].prerequisites;
      var kind := actions[h].kind;
      forall k | 0 <= k < |pre| && Qualifies(actions, once, kind, pre[k])
        ensures pre[k].value in once[h].dependencies
      {
        AddEdgesMembers(actions, store, kind, store[h].dependencies, pre, pre[k].value);
      }
      AddEdgesSaturated(actions, once, kind, once[h].dependencies, pre);
    }
  }
}
