/** Link-action classification: `ParseLinkAction`, `LinkAction.LinkerType`
    and `GatherActionsLink`.

    A link action becomes a library node (`LinkAction`) when its linker is a
    known one, at least one matched input has an allowed input extension and
    exactly one matched output has an allowed output extension; otherwise it
    becomes an opaque `ExecAction`. It never becomes nothing. */
module Link {
  import opened Outcomes
  import opened Text
  import opened Patterns
  import opened Tools
  import opened Nodes

  /** The tokens ending in one of `exts`, in their original order. */
  function KeepEndingIn(tokens: seq<string>, exts: seq<string>): (r: seq<string>)
    ensures |r| <= |tokens|
    ensures forall t :: t in r <==> t in tokens && EndsWithAny(t, exts)
  {
    if |tokens| == 0 then []
    else (if EndsWithAny(tokens[0], exts) then [tokens[0]] else []) + KeepEndingIn(tokens[1..], exts)
  }

  /** Filtering commutes with concatenation, so the kept tokens keep their order. */
  lemma {:induction false} KeepEndingInAppend(a: seq<string>, b: seq<string>, exts: seq<string>)
    ensures KeepEndingIn(a + b, exts) == KeepEndingIn(a, exts) + KeepEndingIn(b, exts)
  {
    if |a| > 0 {
      assert (a + b)[1..] == a[1..] + b;
      KeepEndingInAppend(a[1..], b, exts);
    } else {
      assert a + b == b;
    }
  }

  /** The import-library matches; a family without an import-library
      expression uses the empty pattern, which matches everywhere. */
  function ImportMatches(args: string, k: CompilerType): (r: seq<string>)
    ensures ImportLibraryPattern(k).None? ==> |r| == |args| + 1 && forall j :: 0 <= j < |r| ==> r[j] == ""
  {
    match ImportLibraryPattern(k)
    case None => EmptyPatternMatches(args)
    case Some(p) => Matches(args, p)
  }

  /** The filtered input matches of a linker with an input table. */
  function LinkInputs(args: string, linker: Tool): seq<string>
    requires AllowedInputTypes(linker.kind).Some?
  {
    KeepEndingIn(Matches(args, LinkInputPattern(linker.kind)), AllowedInputTypes(linker.kind).value)
  }

  /** The filtered output matches of a linker with an output table. */
  function LinkOutputs(args: string, linker: Tool): seq<string>
    requires AllowedOutputTypes(linker.kind).Some?
  {
    KeepEndingIn(Matches(args, LinkOutputPattern(linker.kind)), AllowedOutputTypes(linker.kind).value)
  }

  datatype LinkerType = Static | Dynamic

  /** `LinkAction.LinkerType`. */
  function LinkerTypeOf(outputLibrary: string): LinkerType {
    if EndsWith(outputLibrary, ".lib") then Static else Dynamic
  }

  /** `ParseLinkAction`. The linker constructor throws for a path whose
      platform cannot be detected; a missing extension table would throw a
      null reference, which no linker family reaches. */
  function ParseLinkAction(a: RawAction): (r: Result<NodeBody>)
    ensures r.Failure? <==> NewLinker(a.commandPath).Failure?
    ensures r.Success? ==> !r.value.ObjectList? && r.value.linker == NewLinker(a.commandPath).value
    ensures r.Success? ==> r.value.arguments == a.commandArguments
  {
    var linker :- NewLinker(a.commandPath);
    var args := a.commandArguments;
    if !IsKnownLinker(a.commandPath) then Success(Exec(args, linker))
    else
      match (AllowedInputTypes(linker.kind), AllowedOutputTypes(linker.kind))
      case (Some(ins), Some(outs)) =>
        var inputs := KeepEndingIn(Matches(args, LinkInputPattern(linker.kind)), ins);
        var outputs := KeepEndingIn(Matches(args, LinkOutputPattern(linker.kind)), outs);
        var imports := ImportMatches(args, linker.kind);
        if |inputs| > 0 && |outputs| == 1 then
          Success(Library(args, linker, outputs[0], if |imports| > 0 then Some(imports[0]) else None,
                          inputs, !a.canExecuteRemotely))
        else Success(Exec(args, linker))
      case _ => Failure(NullReference)
  }

  /** A link action becomes a library node exactly when its command path
      names a known linker, some matched input has an allowed input extension
      and exactly one matched output has an allowed output extension. */
  lemma LinkClassification(a: RawAction)
    requires NewLinker(a.commandPath).Success?
    ensures ParseLinkAction(a).value.Library? <==>
              IsKnownLinker(a.commandPath)
              && |LinkInputs(a.commandArguments, NewLinker(a.commandPath).value)| > 0
              && |LinkOutputs(a.commandArguments, NewLinker(a.commandPath).value)| == 1
  {
  }

  /** A library node takes the single filtered output, the filtered inputs in
      order, the first import-library match (if any) and the action's
      locality; its inputs and output carry allowed extensions. */
  lemma LibraryFields(a: RawAction)
    requires ParseLinkAction(a).Success? && ParseLinkAction(a).value.Library?
    ensures var l := NewLinker(a.commandPath).value;
            var imports := ImportMatches(a.commandArguments, l.kind);
            var b := ParseLinkAction(a).value;
            && b.inputs == LinkInputs(a.commandArguments, l)
            && b.outputLibrary == LinkOutputs(a.commandArguments, l)[0]
            && b.importLibrary == (if |imports| > 0 then Some(imports[0]) else None)
            && b.localOnly == !a.canExecuteRemotely
            && (forall j :: 0 <= j < |b.inputs| ==> EndsWithAny(b.inputs[j], AllowedInputTypes(l.kind).value))
            && EndsWithAny(b.outputLibrary, AllowedOutputTypes(l.kind).value)
  {
    var b := ParseLinkAction(a).value;
    assert b.outputLibrary in LinkOutputs(a.commandArguments, NewLinker(a.commandPath).value);
    assert forall j :: 0 <= j < |b.inputs| ==> b.inputs[j] in b.inputs;
  }

  /** Orbis linkers have no import-library expression, so every library they
      build reports the empty string (not null) as its import library. */
  lemma OrbisImportLibraryIsEmpty(a: RawAction)
    requires NewLinker(a.commandPath).Success?
    requires NewLinker(a.commandPath).value.kind != MSVC
    requires ParseLinkAction(a).value.Library?
    ensures ParseLinkAction(a).value.importLibrary == Some("")
  {
    var imports := ImportMatches(a.commandArguments, NewLinker(a.commandPath).value.kind);
    assert imports[0] == "";
  }

  /** The last character of a string ending in `p`. */
  lemma LastOfSuffix(s: string, p: string)
    requires |p| > 0 && EndsWith(s, p)
    ensures s[|s| - 1] == p[|p| - 1]
  {
    assert s[|s| - |p|..][|p| - 1] == s[|s| - 1];
  }

  /** A string whose last character differs from `p`'s does not end in `p`. */
  lemma LastRulesOut(s: string, p: string)
    requires |p| > 0 && |s| > 0 && s[|s| - 1] != p[|p| - 1]
    ensures !EndsWith(s, p)
  {
    if EndsWith(s, p) {
      LastOfSuffix(s, p);
    }
  }

  /** Among the MSVC output extensions, a non-`.lib` output is a `.dll` or an `.exe`. */
  lemma MsvcOutputType(o: string)
    requires EndsWithAny(o, [".dll", ".lib", ".exe"])
    ensures LinkerTypeOf(o) == Dynamic <==> EndsWithAny(o, [".dll", ".exe"])
  {
    var outs := [".dll", ".lib", ".exe"];
    var k :| 0 <= k < 3 && EndsWith(o, outs[k]);
    if EndsWith(o, ".lib") {
      LastOfSuffix(o, ".lib");
      LastRulesOut(o, ".dll");
      LastRulesOut(o, ".exe");
    } else {
      assert k != 1;
      assert EndsWith(o, [".dll", ".exe"][k / 2]);
    }
  }

  /** No Orbis output extension ends in `.lib`. */
  lemma OrbisOutputType(o: string)
    requires EndsWithAny(o, [".self", ".a", ".so"])
    ensures LinkerTypeOf(o) == Dynamic
  {
    var outs := [".self", ".a", ".so"];
    var k :| 0 <= k < 3 && EndsWith(o, outs[k]);
    LastOfSuffix(o, outs[k]);
    LastRulesOut(o, ".lib");
  }

  /** A library node's linker type follows its output extension: an MSVC
      library is dynamic exactly when it builds a `.dll` or an `.exe`, and an
      Orbis library is always dynamic, its `.a` archives included, because
      none of the Orbis output extensions ends in `.lib`. */
  lemma LinkerTypeByFamily(a: RawAction)
    requires ParseLinkAction(a).Success? && ParseLinkAction(a).value.Library?
    ensures var b := ParseLinkAction(a).value;
            && (b.linker.kind == MSVC ==>
                  (LinkerTypeOf(b.outputLibrary) == Dynamic <==> EndsWithAny(b.outputLibrary, [".dll", ".exe"])))
            && (b.linker.kind != MSVC ==> LinkerTypeOf(b.outputLibrary) == Dynamic)
  {
    var b := ParseLinkAction(a).value;
    LibraryFields(a);
    if b.linker.kind == MSVC {
      MsvcOutputType(b.outputLibrary);
    } else {
      OrbisOutputType(b.outputLibrary);
    }
  }

  // ----- GatherActionsLink -----

  /** The indices of the link actions from `j` on, in order. */
  function LinkIndices(actions: seq<RawAction>, j: nat): (r: seq<nat>)
    requires j <= |actions|
    ensures forall k :: 0 <= k < |r| ==> j <= r[k] < |actions| && actions[r[k]].kind == Link
    ensures forall k1, k2 :: 0 <= k1 < k2 < |r| ==> r[k1] < r[k2]
    decreases |actions| - j
  {
    if j == |actions| then []
    else (if actions[j].kind == Link then [j] else []) + LinkIndices(actions, j + 1)
  }

  /** Every link action from `j` on is listed. */
  lemma {:induction false} LinkIndicesComplete(actions: seq<RawAction>, j: nat, h: nat)
    requires j <= h < |actions| && actions[h].kind == Link
    ensures h in LinkIndices(actions, j)
    decreases h - j
  {
    if j < h {
      LinkIndicesComplete(actions, j + 1, h);
    }
  }

  /** The state of the link loop: the link nodes in order (`linkActions`),
      `actionLinks` and the next `AliasBase`. */
  datatype Linked = Linked(list: seq<nat>, store: Store, aliasBase: nat)

  /** A link action parsed, any other action skipped. */
  function ParseIfLink(a: RawAction): (r: Result<Option<NodeBody>>)
    ensures r.Failure? <==> a.kind == Link && NewLinker(a.commandPath).Failure?
    ensures r.Success? ==> (r.value.Some? <==> a.kind == Link)
    ensures r.Success? && r.value.Some? ==> ParseLinkAction(a) == Success(r.value.value)
  {
    if a.kind != Link then Success(None)
    else
      var b :- ParseLinkAction(a);
      Success(Some(b))
  }

  /** The parsed bodies line up with the actions: exactly the link actions
      have one. */
  ghost predicate LinesUp(actions: seq<RawAction>, parsed: seq<Option<NodeBody>>) {
    |parsed| == |actions| && forall h :: 0 <= h < |parsed| ==> (parsed[h].Some? <==> actions[h].kind == Link)
  }

  /** The loop of `GatherActionsLink` from action `j` on: every link action
      becomes a node with the next alias index. The unassigned branch of the
      C# loop is never taken, because parsing never yields null. */
  function NumberLinks(actions: seq<RawAction>, parsed: seq<Option<NodeBody>>, j: nat, acc: Linked): (r: Linked)
    requires LinesUp(actions, parsed) && j <= |actions|
    ensures r.list == acc.list + LinkIndices(actions, j)
    ensures r.aliasBase == acc.aliasBase + |LinkIndices(actions, j)|
    decreases |actions| - j
  {
    if j == |actions| then acc
    else if actions[j].kind != Link then NumberLinks(actions, parsed, j + 1, acc)
    else NumberLinks(actions, parsed, j + 1,
                     Linked(acc.list + [j], acc.store[j := Node(j, acc.aliasBase, [], parsed[j].value)], acc.aliasBase + 1))
  }

  /** The loop adds exactly the link actions to `actionLinks` and leaves
      every other entry alone. */
  lemma {:induction false} NumberLinksKeeps(actions: seq<RawAction>, parsed: seq<Option<NodeBody>>, j: nat, acc: Linked)
    requires LinesUp(actions, parsed) && j <= |actions|
    ensures forall h :: h in NumberLinks(actions, parsed, j, acc).store <==> h in acc.store || h in LinkIndices(actions, j)
    ensures forall h :: h in acc.store && h !in LinkIndices(actions, j) ==> NumberLinks(actions, parsed, j, acc).store[h] == acc.store[h]
    decreases |actions| - j
  {
    if j < |actions| {
      if actions[j].kind != Link {
        NumberLinksKeeps(actions, parsed, j + 1, acc);
      } else {
        var acc' := Linked(acc.list + [j], acc.store[j := Node(j, acc.aliasBase, [], parsed[j].value)], acc.aliasBase + 1);
        NumberLinksKeeps(actions, parsed, j + 1, acc');
        assert LinkIndices(actions, j) == [j] + LinkIndices(actions, j + 1);
      }
    }
  }

  /** The loop maps the `k`-th link action to its own parsed node with alias
      index `AliasBase + k`. */
  lemma {:induction false} NumberLinksNodes(actions: seq<RawAction>, parsed: seq<Option<NodeBody>>, j: nat, acc: Linked)
    requires LinesUp(actions, parsed) && j <= |actions|
    ensures forall k :: 0 <= k < |LinkIndices(actions, j)| ==>
              var h := LinkIndices(actions, j)[k];
              h in NumberLinks(actions, parsed, j, acc).store &&
              NumberLinks(actions, parsed, j, acc).store[h] == Node(h, acc.aliasBase + k, [], parsed[h].value)
    decreases |actions| - j
  {
    if j < |actions| {
      var rest := LinkIndices(actions, j + 1);
      if actions[j].kind != Link {
        NumberLinksNodes(actions, parsed, j + 1, acc);
      } else {
        var acc' := Linked(acc.list + [j], acc.store[j := Node(j, acc.aliasBase, [], parsed[j].value)], acc.aliasBase + 1);
        NumberLinksNodes(actions, parsed, j + 1, acc');
        NumberLinksKeeps(actions, parsed, j + 1, acc');
        var all := LinkIndices(actions, j);
        assert all == [j] + rest;
        var out := NumberLinks(actions, parsed, j + 1, acc').store;
        forall k | 0 <= k < |all|
          ensures all[k] in out && out[all[k]] == Node(all[k], acc.aliasBase + k, [], parsed[all[k]].value)
        {
          if k > 0 {
            assert all[k] == rest[k - 1];
          } else {
            assert j !in rest;
          }
        }
      }
    }
  }

  /** `GatherActionsLink` over the whole batch: the `k`-th link action
      becomes its own parsed node with alias index `aliasBase + k`, in a
      store that otherwise keeps the entries it was given. */
  function GatherActionsLink(actions: seq<RawAction>, store: Store, aliasBase: nat): (r: Result<Linked>)
    ensures r.Success? <==> forall h :: 0 <= h < |actions| && actions[h].kind == Link ==> NewLinker(actions[h].commandPath).Success?
    ensures r.Success? ==> r.value.list == LinkIndices(actions, 0)
    ensures r.Success? ==> r.value.aliasBase == aliasBase + |r.value.list|
    ensures r.Success? ==> forall k :: 0 <= k < |r.value.list| ==>
              var h := r.value.list[k];
              && h in r.value.store
              && r.value.store[h].handle == h && r.value.store[h].aliasIndex == aliasBase + k
              && r.value.store[h].dependencies == []
              && ParseLinkAction(actions[h]) == Success(r.value.store[h].body)
    ensures r.Success? ==> forall h :: h in r.value.store <==> h in store || h in r.value.list
    ensures r.Success? ==> forall h :: h in store && h !in r.value.list ==> r.value.store[h] == store[h]
  {
    var parsed :- MapAll(actions, ParseIfLink);
    var acc := Linked([], store, aliasBase);
    NumberLinksKeeps(actions, parsed, 0, acc);
    NumberLinksNodes(actions, parsed, 0, acc);
    var g := NumberLinks(actions, parsed, 0, acc);
    forall k | 0 <= k < |g.list|
      ensures ParseLinkAction(actions[g.list[k]]) == Success(g.store[g.list[k]].body)
    {
      assert ParseIfLink(actions[g.list[k]]) == Success(parsed[g.list[k]]);
    }
    Success(g)
  }
}
