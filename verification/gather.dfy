/** `GatherActionsObjects`: batching the normalised compile actions into
    `ObjectList` groups by their match hash. */
module Gather {
  import opened Outcomes
  import opened Nodes
  import opened Compile

  /** What parsing made of one action of the batch. */
  datatype Parse = NotCompile | NoInputs | Group(obj: ObjectGroup)

  /** One action, paired with its index in the batch, as the compile loop
      sees it: non-compile actions are filtered out before
      `ParseCompilerAction` is reached. */
  function ParseStep(p: (nat, RawAction)): (r: Result<Parse>)
    ensures r.Success? && r.value.Group? ==> r.value.obj.actionInputs == [(p.0, CompileInput(InputTokens(p.1)))]
    ensures r.Success? && r.value.NotCompile? <==> p.1.kind != Compile
  {
    if p.1.kind != Compile then Success(NotCompile)
    else
      var o :- ParseCompilerAction(p.1, p.0);
      Success(if o.None? then NoInputs else Group(o.value))
  }

  /** The actions paired with their indices. */
  function Numbered(actions: seq<RawAction>): (r: seq<(nat, RawAction)>)
    ensures |r| == |actions| && forall k :: 0 <= k < |r| ==> r[k] == (k, actions[k])
  {
    seq(|actions|, k requires 0 <= k < |actions| => (k, actions[k]))
  }

  /** Every action parsed in order; the first exception aborts the batch. */
  function ParseAll(actions: seq<RawAction>): Result<seq<Parse>> {
    MapAll(Numbered(actions), ParseStep)
  }

  /** The entry action `h` contributes to `ActionInputs`. */
  function EntryOf(ps: seq<Parse>, h: nat): (nat, string) {
    if h < |ps| && ps[h].Group? && |ps[h].obj.actionInputs| > 0 then ps[h].obj.actionInputs[0] else (h, "")
  }

  /** Each parsed group holds exactly its own action's input. */
  ghost predicate WellFormed(ps: seq<Parse>) {
    forall h :: 0 <= h < |ps| && ps[h].Group? ==>
      |ps[h].obj.actionInputs| == 1 && ps[h].obj.actionInputs[0].0 == h
  }

  lemma ParsedWellFormed(actions: seq<RawAction>)
    requires ParseAll(actions).Success?
    ensures WellFormed(ParseAll(actions).value)
  {
    var ps := ParseAll(actions).value;
    forall h | 0 <= h < |ps| && ps[h].Group?
      ensures |ps[h].obj.actionInputs| == 1 && ps[h].obj.actionInputs[0].0 == h
    {
      assert ParseStep(Numbered(actions)[h]) == Success(ps[h]);
    }
  }

  /** The state of the gathering loop: the groups in order (`objectGroup`),
      `actionLinks`, `unassignedActions`, and the next `AliasBase`. */
  datatype Gathered = Gathered(list: seq<nat>, store: Store, unassigned: seq<nat>, aliasBase: nat)

  /** The compile actions before `n` without any quoted token, in order. */
  function Unassigned(ps: seq<Parse>, n: nat): seq<nat>
    requires n <= |ps|
  {
    if n == 0 then [] else Unassigned(ps, n - 1) + (if ps[n - 1].NoInputs? then [n - 1] else [])
  }

  function HashOf(store: Store, h: nat): string {
    if h in store && store[h].body.ObjectList? then store[h].body.group.matchHash else ""
  }

  function InputsOf(store: Store, h: nat): seq<(nat, string)> {
    if h in store && store[h].body.ObjectList? then store[h].body.group.actionInputs else []
  }

  /** `actionLinks` holds exactly the grouped actions before `n`, each as the
      group it parsed into, up to the inputs merged into it later. */
  ghost predicate IsObjectStore(ps: seq<Parse>, n: nat, store: Store) {
    && (forall h: nat :: h in store <==> h < n && h < |ps| && ps[h].Group?)
    && (forall h: nat :: h in store ==>
          && store[h].handle == h
          && store[h].dependencies == []
          && store[h].body.ObjectList?
          && store[h].body.group.(actionInputs := []) == ps[h].obj.(actionInputs := [])
          && |store[h].body.group.actionInputs| >= 1
          && store[h].body.group.actionInputs[0] == EntryOf(ps, h))
  }

  /** Listed groups appear in action order and took consecutive aliases. */
  ghost predicate ListedConsecutively(g: Gathered, base: nat) {
    && (forall k :: 0 <= k < |g.list| ==> g.list[k] in g.store && g.store[g.list[k]].aliasIndex == base + k)
    && (forall k1, k2 :: 0 <= k1 < k2 < |g.list| ==> g.list[k1] < g.list[k2])
    && g.aliasBase == base + |g.list|
  }

  ghost predicate HashesDistinct(g: Gathered) {
    forall k1, k2 :: 0 <= k1 < k2 < |g.list| ==> HashOf(g.store, g.list[k1]) != HashOf(g.store, g.list[k2])
  }

  /** Every input of a listed group is the input of a grouped action with
      that group's hash. */
  ghost predicate InputsSound(ps: seq<Parse>, g: Gathered) {
    forall k, e :: 0 <= k < |g.list| && e in InputsOf(g.store, g.list[k]) ==>
      && e.0 in g.store
      && e == EntryOf(ps, e.0)
      && HashOf(g.store, e.0) == HashOf(g.store, g.list[k])
  }

  /** Every grouped action's input is in some listed group. */
  ghost predicate InputsComplete(ps: seq<Parse>, g: Gathered) {
    forall h: nat {:trigger EntryOf(ps, h)} :: h in g.store ==>
      exists k :: 0 <= k < |g.list| && EntryOf(ps, h) in InputsOf(g.store, g.list[k])
  }

  /** A grouped action left out of the list was merged: it keeps alias 0. */
  ghost predicate OrphansMerged(g: Gathered, singlePass: bool) {
    forall h: nat :: h in g.store && h !in g.list ==> !singlePass && g.store[h].aliasIndex == 0
  }

  ghost predicate GatherInvariant(ps: seq<Parse>, singlePass: bool, base: nat, n: nat, g: Gathered) {
    && n <= |ps|
    && IsObjectStore(ps, n, g.store)
    && ListedConsecutively(g, base)
    && (!singlePass ==> HashesDistinct(g))
    && InputsSound(ps, g)
    && InputsComplete(ps, g)
    && OrphansMerged(g, singlePass)
    && g.unassigned == Unassigned(ps, n)
  }

  /** `objectGroup.FirstOrDefault(n => n.MatchHash == hash)`, as a list index. */
  function FindGroup(list: seq<nat>, store: Store, hash: string): (r: int)
    ensures -1 <= r < |list|
    ensures r == -1 <==> forall k :: 0 <= k < |list| ==> HashOf(store, list[k]) != hash
    ensures r >= 0 ==> HashOf(store, list[r]) == hash
    ensures r >= 0 ==> forall k :: 0 <= k < r ==> HashOf(store, list[k]) != hash
  {
    if |list| == 0 then -1
    else if HashOf(store, list[0]) == hash then 0
    else
      var k := FindGroup(list[1..], store, hash);
      if k < 0 then -1 else k + 1
  }

  /** The store after action `i` (entry `e`, parsed group `obj`) was merged
      into the listed group `gh`: the group gains the entry and the action
      keeps its own node, never listed, with alias index 0. */
  function MergeStore(store: Store, gh: nat, i: nat, e: (nat, string), obj: ObjectGroup): Store {
    var grown :=
      if gh in store && store[gh].body.ObjectList? then
        var n := store[gh];
        store[gh := n.(body := ObjectList(n.body.group.(actionInputs := n.body.group.actionInputs + [e])))]
      else store;
    grown[i := Node(i, 0, [], ObjectList(obj))]
  }

  /** The store after action `i` opened a new group with alias index `alias`. */
  function AppendStore(store: Store, i: nat, alias: nat, obj: ObjectGroup): Store {
    store[i := Node(i, alias, [], ObjectList(obj))]
  }

  /** The entry a parsed group contributes (`ActionInputs.FirstOrDefault().Value`). */
  function FirstEntry(obj: ObjectGroup, i: nat): (nat, string) {
    (i, if |obj.actionInputs| > 0 then obj.actionInputs[0].1 else "")
  }

  /** One iteration of the loop of `GatherActionsObjects` over action `i`. */
  function GatherStep(ps: seq<Parse>, singlePass: bool, g: Gathered, i: nat): Gathered
    requires i < |ps|
  {
    match ps[i]
    case NotCompile => g
    case NoInputs => g.(unassigned := g.unassigned + [i])
    case Group(obj) =>
      var k := FindGroup(g.list, g.store, obj.matchHash);
      if k >= 0 && !singlePass then g.(store := MergeStore(g.store, g.list[k], i, FirstEntry(obj, i), obj))
      else Gathered(g.list + [i], AppendStore(g.store, i, g.aliasBase, obj), g.unassigned, g.aliasBase + 1)
  }

  /** The loop state after the first `n` actions, starting from `AliasBase` `base`. */
  function GatherPrefix(ps: seq<Parse>, singlePass: bool, base: nat, n: nat): Gathered
    requires n <= |ps|
  {
    if n == 0 then Gathered([], map[], [], base)
    else GatherStep(ps, singlePass, GatherPrefix(ps, singlePass, base, n - 1), n - 1)
  }

  // ----- one step, one property at a time -----

  lemma MergeStoreFacts(store: Store, gh: nat, i: nat, e: (nat, string), obj: ObjectGroup)
    requires gh in store && store[gh].body.ObjectList? && i !in store
    ensures MergeStore(store, gh, i, e, obj).Keys == store.Keys + {i}
    ensures forall h :: h in store && h != gh ==> MergeStore(store, gh, i, e, obj)[h] == store[h]
    ensures MergeStore(store, gh, i, e, obj)[gh].aliasIndex == store[gh].aliasIndex
    ensures MergeStore(store, gh, i, e, obj)[gh].handle == store[gh].handle
    ensures MergeStore(store, gh, i, e, obj)[gh].dependencies == store[gh].dependencies
    ensures MergeStore(store, gh, i, e, obj)[gh].body.ObjectList?
    ensures MergeStore(store, gh, i, e, obj)[gh].body.group.(actionInputs := []) == store[gh].body.group.(actionInputs := [])
    ensures forall h :: h in store ==> HashOf(MergeStore(store, gh, i, e, obj), h) == HashOf(store, h)
    ensures InputsOf(MergeStore(store, gh, i, e, obj), gh) == InputsOf(store, gh) + [e]
    ensures forall h :: h in store && h != gh ==> InputsOf(MergeStore(store, gh, i, e, obj), h) == InputsOf(store, h)
    ensures MergeStore(store, gh, i, e, obj)[i] == Node(i, 0, [], ObjectList(obj))
  {
  }

  lemma MergeKeepsStore(ps: seq<Parse>, i: nat, store: Store, gh: nat, e: (nat, string))
    requires WellFormed(ps)
    requires i < |ps| && ps[i].Group? && e == EntryOf(ps, i)
    requires IsObjectStore(ps, i, store)
    ensures IsObjectStore(ps, i + 1, MergeStore(store, gh, i, e, ps[i].obj))
  {
    var store' := MergeStore(store, gh, i, e, ps[i].obj);
    assert i !in store;
    if gh in store {
      MergeStoreFacts(store, gh, i, e, ps[i].obj);
      assert |store[gh].body.group.actionInputs| >= 1;
      assert store'[gh].body.group.actionInputs[0] == store[gh].body.group.actionInputs[0];
    } else {
      assert store' == store[i := Node(i, 0, [], ObjectList(ps[i].obj))];
    }
  }

  lemma AppendKeepsStore(ps: seq<Parse>, i: nat, store: Store, alias: nat)
    requires WellFormed(ps)
    requires i < |ps| && ps[i].Group?
    requires IsObjectStore(ps, i, store)
    ensures IsObjectStore(ps, i + 1, AppendStore(store, i, alias, ps[i].obj))
  {
    assert i !in store;
    var store' := AppendStore(store, i, alias, ps[i].obj);
    assert forall h :: h in store ==> store'[h] == store[h];
  }

  lemma MergeKeepsSound(ps: seq<Parse>, g: Gathered, k: nat, i: nat, e: (nat, string), obj: ObjectGroup)
    requires InputsSound(ps, g)
    requires forall kk :: 0 <= kk < |g.list| ==> g.list[kk] in g.store
    requires k < |g.list| && g.store[g.list[k]].body.ObjectList?
    requires i !in g.store && e == EntryOf(ps, i) && e.0 == i
    requires obj.matchHash == HashOf(g.store, g.list[k])
    ensures InputsSound(ps, g.(store := MergeStore(g.store, g.list[k], i, e, obj)))
  {
    var gh := g.list[k];
    MergeStoreFacts(g.store, gh, i, e, obj);
    var store' := MergeStore(g.store, gh, i, e, obj);
    forall kk, x | 0 <= kk < |g.list| && x in InputsOf(store', g.list[kk])
      ensures x.0 in store' && x == EntryOf(ps, x.0)
      ensures HashOf(store', x.0) == HashOf(store', g.list[kk])
    {
      if g.list[kk] == gh && x == e {
        assert HashOf(store', i) == obj.matchHash;
      } else {
        assert x in InputsOf(g.store, g.list[kk]);
      }
    }
  }

  lemma MergeKeepsComplete(ps: seq<Parse>, g: Gathered, k: nat, i: nat, e: (nat, string), obj: ObjectGroup)
    requires InputsComplete(ps, g)
    requires k < |g.list| && g.list[k] in g.store && g.store[g.list[k]].body.ObjectList?
    requires i !in g.store && e == EntryOf(ps, i)
    ensures InputsComplete(ps, g.(store := MergeStore(g.store, g.list[k], i, e, obj)))
  {
    var gh := g.list[k];
    MergeStoreFacts(g.store, gh, i, e, obj);
    var store' := MergeStore(g.store, gh, i, e, obj);
    forall h: nat | h in store'
      ensures exists kk :: 0 <= kk < |g.list| && EntryOf(ps, h) in InputsOf(store', g.list[kk])
    {
      if h == i {
        assert EntryOf(ps, h) in InputsOf(store', g.list[k]);
      } else {
        var kk :| 0 <= kk < |g.list| && EntryOf(ps, h) in InputsOf(g.store, g.list[kk]);
        assert EntryOf(ps, h) in InputsOf(store', g.list[kk]);
      }
    }
  }

  lemma MergeKeepsShape(g: Gathered, singlePass: bool, base: nat, k: nat, i: nat, e: (nat, string), obj: ObjectGroup)
    requires ListedConsecutively(g, base) && OrphansMerged(g, singlePass)
    requires !singlePass
    requires k < |g.list| && g.store[g.list[k]].body.ObjectList? && i !in g.store
    ensures ListedConsecutively(g.(store := MergeStore(g.store, g.list[k], i, e, obj)), base)
    ensures OrphansMerged(g.(store := MergeStore(g.store, g.list[k], i, e, obj)), singlePass)
  {
    MergeStoreFacts(g.store, g.list[k], i, e, obj);
    assert i !in g.list;
  }

  lemma MergeKeepsDistinct(g: Gathered, k: nat, i: nat, e: (nat, string), obj: ObjectGroup)
    requires HashesDistinct(g)
    requires forall kk :: 0 <= kk < |g.list| ==> g.list[kk] in g.store
    requires k < |g.list| && g.store[g.list[k]].body.ObjectList? && i !in g.store
    ensures HashesDistinct(g.(store := MergeStore(g.store, g.list[k], i, e, obj)))
  {
    MergeStoreFacts(g.store, g.list[k], i, e, obj);
  }

  lemma AppendKeepsSound(ps: seq<Parse>, g: Gathered, i: nat, obj: ObjectGroup)
    requires InputsSound(ps, g)
    requires forall kk :: 0 <= kk < |g.list| ==> g.list[kk] in g.store
    requires i !in g.store && obj.actionInputs == [EntryOf(ps, i)] && EntryOf(ps, i).0 == i
    ensures InputsSound(ps, Gathered(g.list + [i], AppendStore(g.store, i, g.aliasBase, obj), g.unassigned, g.aliasBase + 1))
  {
    var store' := AppendStore(g.store, i, g.aliasBase, obj);
    var g' := Gathered(g.list + [i], store', g.unassigned, g.aliasBase + 1);
    assert forall h :: h in g.store ==> HashOf(store', h) == HashOf(g.store, h) && InputsOf(store', h) == InputsOf(g.store, h);
    forall kk, x | 0 <= kk < |g'.list| && x in InputsOf(store', g'.list[kk])
      ensures x.0 in store' && x == EntryOf(ps, x.0)
      ensures HashOf(store', x.0) == HashOf(store', g'.list[kk])
    {
      if kk < |g.list| {
        assert x in InputsOf(g.store, g.list[kk]);
      }
    }
  }

  lemma AppendKeepsComplete(ps: seq<Parse>, g: Gathered, i: nat, obj: ObjectGroup)
    requires InputsComplete(ps, g)
    requires i !in g.store && obj.actionInputs == [EntryOf(ps, i)]
    ensures InputsComplete(ps, Gathered(g.list + [i], AppendStore(g.store, i, g.aliasBase, obj), g.unassigned, g.aliasBase + 1))
  {
    var store' := AppendStore(g.store, i, g.aliasBase, obj);
    var g' := Gathered(g.list + [i], store', g.unassigned, g.aliasBase + 1);
    assert forall h :: h in g.store ==> InputsOf(store', h) == InputsOf(g.store, h);
    forall h: nat | h in store'
      ensures exists kk :: 0 <= kk < |g'.list| && EntryOf(ps, h) in InputsOf(store', g'.list[kk])
    {
      if h == i {
        assert g'.list[|g.list|] == i;
        assert EntryOf(ps, h) in InputsOf(store', g'.list[|g.list|]);
      } else {
        var kk :| 0 <= kk < |g.list| && EntryOf(ps, h) in InputsOf(g.store, g.list[kk]);
        assert g'.list[kk] == g.list[kk];
        assert EntryOf(ps, h) in InputsOf(store', g'.list[kk]);
      }
    }
  }

  lemma AppendKeepsDistinct(g: Gathered, i: nat, obj: ObjectGroup)
    requires HashesDistinct(g)
    requires forall kk :: 0 <= kk < |g.list| ==> g.list[kk] in g.store
    requires i !in g.store
    requires FindGroup(g.list, g.store, obj.matchHash) < 0
    ensures HashesDistinct(Gathered(g.list + [i], AppendStore(g.store, i, g.aliasBase, obj), g.unassigned, g.aliasBase + 1))
  {
    var store' := AppendStore(g.store, i, g.aliasBase, obj);
    var g' := Gathered(g.list + [i], store', g.unassigned, g.aliasBase + 1);
    assert forall h :: h in g.store ==> HashOf(store', h) == HashOf(g.store, h);
    forall k1, k2 | 0 <= k1 < k2 < |g'.list|
      ensures HashOf(store', g'.list[k1]) != HashOf(store', g'.list[k2])
    {
      if k2 == |g.list| {
        assert HashOf(g.store, g.list[k1]) != obj.matchHash;
      }
    }
  }

  lemma AppendKeepsShape(g: Gathered, singlePass: bool, base: nat, i: nat, obj: ObjectGroup)
    requires ListedConsecutively(g, base) && OrphansMerged(g, singlePass)
    requires forall h :: h in g.store ==> h < i
    ensures ListedConsecutively(Gathered(g.list + [i], AppendStore(g.store, i, g.aliasBase, obj), g.unassigned, g.aliasBase + 1), base)
    ensures OrphansMerged(Gathered(g.list + [i], AppendStore(g.store, i, g.aliasBase, obj), g.unassigned, g.aliasBase + 1), singlePass)
  {
    assert i !in g.store;
    var store' := AppendStore(g.store, i, g.aliasBase, obj);
    assert forall h :: h in g.store ==> store'[h] == g.store[h];
    forall k1, k2 | 0 <= k1 < k2 < |g.list| + 1
      ensures (g.list + [i])[k1] < (g.list + [i])[k2]
    {
      if k2 == |g.list| {
        assert g.list[k1] in g.store;
      }
    }
  }

  // ----- the loop state after every prefix -----

  lemma {:induction false} PrefixStore(ps: seq<Parse>, singlePass: bool, base: nat, n: nat)
    requires WellFormed(ps) && n <= |ps|
    ensures IsObjectStore(ps, n, GatherPrefix(ps, singlePass, base, n).store)
  {
    if n > 0 {
      var i := n - 1;
      var g := GatherPrefix(ps, singlePass, base, i);
      PrefixStore(ps, singlePass, base, i);
      match ps[i]
      case NotCompile =>
      case NoInputs =>
      case Group(obj) =>
        var k := FindGroup(g.list, g.store, obj.matchHash);
        if k >= 0 && !singlePass {
          MergeKeepsStore(ps, i, g.store, g.list[k], FirstEntry(obj, i));
        } else {
          AppendKeepsStore(ps, i, g.store, g.aliasBase);
        }
    }
  }

  lemma {:induction false} PrefixUnassigned(ps: seq<Parse>, singlePass: bool, base: nat, n: nat)
    requires n <= |ps|
    ensures GatherPrefix(ps, singlePass, base, n).unassigned == Unassigned(ps, n)
  {
    if n > 0 {
      PrefixUnassigned(ps, singlePass, base, n - 1);
    }
  }

  /** The store holds object-list nodes of the actions before the prefix end only. */
  lemma PrefixStoreBelow(ps: seq<Parse>, singlePass: bool, base: nat, n: nat)
    requires WellFormed(ps) && n <= |ps|
    ensures forall h :: h in GatherPrefix(ps, singlePass, base, n).store ==>
              h < n && GatherPrefix(ps, singlePass, base, n).store[h].body.ObjectList?
  {
    PrefixStore(ps, singlePass, base, n);
  }

  lemma {:induction false} PrefixListed(ps: seq<Parse>, singlePass: bool, base: nat, n: nat)
    requires WellFormed(ps) && n <= |ps|
    ensures ListedConsecutively(GatherPrefix(ps, singlePass, base, n), base)
    ensures OrphansMerged(GatherPrefix(ps, singlePass, base, n), singlePass)
  {
    if n > 0 {
      var i := n - 1;
      var g := GatherPrefix(ps, singlePass, base, i);
      PrefixListed(ps, singlePass, base, i);
      PrefixStoreBelow(ps, singlePass, base, i);
      match ps[i]
      case NotCompile =>
      case NoInputs =>
      case Group(obj) =>
        var k := FindGroup(g.list, g.store, obj.matchHash);
        if k >= 0 && !singlePass {
          assert i !in g.store;
          MergeKeepsShape(g, singlePass, base, k, i, FirstEntry(obj, i), obj);
        } else {
          AppendKeepsShape(g, singlePass, base, i, obj);
        }
    }
  }

  /** The listed groups are object-list nodes of the store, and the store
      holds no action at or after the prefix. */
  lemma PrefixListedGroups(ps: seq<Parse>, singlePass: bool, base: nat, n: nat)
    requires WellFormed(ps) && n <= |ps|
    ensures forall k :: 0 <= k < |GatherPrefix(ps, singlePass, base, n).list| ==>
              GatherPrefix(ps, singlePass, base, n).list[k] in GatherPrefix(ps, singlePass, base, n).store &&
              GatherPrefix(ps, singlePass, base, n).store[GatherPrefix(ps, singlePass, base, n).list[k]].body.ObjectList?
    ensures forall h: nat :: n <= h ==> h !in GatherPrefix(ps, singlePass, base, n).store
  {
    PrefixListed(ps, singlePass, base, n);
    PrefixStore(ps, singlePass, base, n);
  }

  lemma {:induction false} PrefixDistinct(ps: seq<Parse>, base: nat, n: nat)
    requires WellFormed(ps) && n <= |ps|
    ensures HashesDistinct(GatherPrefix(ps, false, base, n))
  {
    if n > 0 {
      var i := n - 1;
      var g := GatherPrefix(ps, false, base, i);
      PrefixDistinct(ps, base, i);
      PrefixListedGroups(ps, false, base, i);
      match ps[i]
      case NotCompile =>
      case NoInputs =>
      case Group(obj) =>
        var k := FindGroup(g.list, g.store, obj.matchHash);
        assert i !in g.store;
        if k >= 0 {
          MergeKeepsDistinct(g, k, i, FirstEntry(obj, i), obj);
        } else {
          AppendKeepsDistinct(g, i, obj);
        }
    }
  }

  lemma {:induction false} PrefixSound(ps: seq<Parse>, singlePass: bool, base: nat, n: nat)
    requires WellFormed(ps) && n <= |ps|
    ensures InputsSound(ps, GatherPrefix(ps, singlePass, base, n))
  {
    if n > 0 {
      var i := n - 1;
      var g := GatherPrefix(ps, singlePass, base, i);
      PrefixSound(ps, singlePass, base, i);
      PrefixListedGroups(ps, singlePass, base, i);
      match ps[i]
      case NotCompile =>
      case NoInputs =>
      case Group(obj) =>
        var k := FindGroup(g.list, g.store, obj.matchHash);
        assert i !in g.store;
        assert obj.actionInputs == [EntryOf(ps, i)];
        if k >= 0 && !singlePass {
          MergeKeepsSound(ps, g, k, i, FirstEntry(obj, i), obj);
        } else {
          AppendKeepsSound(ps, g, i, obj);
        }
    }
  }

  lemma {:induction false} PrefixComplete(ps: seq<Parse>, singlePass: bool, base: nat, n: nat)
    requires WellFormed(ps) && n <= |ps|
    ensures InputsComplete(ps, GatherPrefix(ps, singlePass, base, n))
  {
    if n > 0 {
      var i := n - 1;
      var g := GatherPrefix(ps, singlePass, base, i);
      PrefixComplete(ps, singlePass, base, i);
      PrefixListedGroups(ps, singlePass, base, i);
      match ps[i]
      case NotCompile =>
      case NoInputs =>
        var g' := GatherPrefix(ps, singlePass, base, n);
        forall h: nat | h in g'.store
          ensures exists kk :: 0 <= kk < |g'.list| && EntryOf(ps, h) in InputsOf(g'.store, g'.list[kk])
        {
          assert g'.store == g.store && g'.list == g.list;
          var kk :| 0 <= kk < |g.list| && EntryOf(ps, h) in InputsOf(g.store, g.list[kk]);
          assert EntryOf(ps, h) in InputsOf(g'.store, g'.list[kk]);
        }
      case Group(obj) =>
        var k := FindGroup(g.list, g.store, obj.matchHash);
        assert i !in g.store;
        assert obj.actionInputs == [EntryOf(ps, i)];
        if k >= 0 && !singlePass {
          MergeKeepsComplete(ps, g, k, i, FirstEntry(obj, i), obj);
        } else {
          AppendKeepsComplete(ps, g, i, obj);
        }
    }
  }

  // ----- the whole batch -----

  /** `GatherActionsObjects` over a batch, `AliasBase` starting at `aliasBase`.
      An exception while parsing any compile action aborts the batch. */
  function GatherActionsObjects(actions: seq<RawAction>, singlePass: bool, aliasBase: nat): (r: Result<Gathered>)
    ensures r.Success? <==> forall j :: 0 <= j < |actions| ==> ParseStep((j, actions[j])).Success?
    ensures r.Success? ==> GatherInvariant(ParseAll(actions).value, singlePass, aliasBase, |actions|, r.value)
  {
    var ps :- ParseAll(actions);
    ParsedWellFormed(actions);
    var n := |ps|;
    PrefixStore(ps, singlePass, aliasBase, n);
    PrefixUnassigned(ps, singlePass, aliasBase, n);
    PrefixListed(ps, singlePass, aliasBase, n);
    PrefixSound(ps, singlePass, aliasBase, n);
    PrefixComplete(ps, singlePass, aliasBase, n);
    if !singlePass then
      PrefixDistinct(ps, aliasBase, n);
      Success(GatherPrefix(ps, singlePass, aliasBase, n))
    else
      Success(GatherPrefix(ps, singlePass, aliasBase, n))
  }
}
