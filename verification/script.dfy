/** Assembling the `.bff` script: `FastBuildCommon.GetAliasTag`,
    `GenerateFBuildTargets`, `GenerateFBuildCompilers`,
    `GenerateFBuildNodeList` and `GenerateFBuildFileString`.

    A script is the entry header, then the compiler records (unless only
    linking), then the node records in dependency order followed by an
    `Alias` block naming them all, then the `all` alias naming the node
    alias blocks. */
module Script {
  import opened Outcomes
  import opened Text
  import opened Tools
  import opened Nodes
  import opened Ordering
  import opened Records

  // ----- alias blocks -----

  const TagOpen: string := "Alias( '"
  const TagMiddle: string := "' )\r\n{\r\n .Targets = {"
  const TagClose: string := " }\r\n}\r\n"

  /** The text `GetAliasTag` builds: the quoted targets separated by commas. */
  function AliasTag(alias: string, targets: seq<string>): string {
    TagOpen + alias + TagMiddle + JoinWith(",", Quoted(targets)) + TagClose
  }

  /** The quoted targets separated by commas, built from the last target
      backwards, as the loop of `GetAliasTag` appends them. */
  function TargetList(targets: seq<string>): string
    decreases |targets|
  {
    if |targets| == 0 then ""
    else
      var n := |targets| - 1;
      TargetList(targets[..n]) + (if n > 0 then "," else "") + "'" + targets[n] + "'"
  }

  /** The targets appended one by one are the targets joined with commas. */
  lemma {:induction false} TargetListIsJoin(targets: seq<string>)
    ensures TargetList(targets) == JoinWith(",", Quoted(targets))
    decreases |targets|
  {
    var n := |targets|;
    if n > 1 {
      TargetListIsJoin(targets[..n - 1]);
      assert Quoted(targets) == Quoted(targets[..n - 1]) + ["'" + targets[n - 1] + "'"];
      JoinWithSnoc(",", Quoted(targets[..n - 1]), "'" + targets[n - 1] + "'");
    }
  }

  /** One more target extends the list by a comma (after the first) and the
      quoted target. */
  lemma TargetListStep(targets: seq<string>, i: nat)
    requires i < |targets|
    ensures TargetList(targets[..i + 1]) == TargetList(targets[..i]) + (if i > 0 then "," else "") + "'" + targets[i] + "'"
  {
    assert targets[..i + 1][..i] == targets[..i];
  }

  lemma StepAssoc(head: string, list: string, sep: string, t: string)
    ensures head + list + sep + "'" + t + "'" == head + (list + sep + "'" + t + "'")
  {
  }

  /** `FastBuildCommon.GetAliasTag` as the C# loop: a comma after every
      target but the last. */
  method GetAliasTag(alias: string, targets: seq<string>) returns (output: string)
    ensures output == AliasTag(alias, targets)
  {
    output := TagOpen + alias + TagMiddle;
    var head := output;
    var targetCount := |targets|;
    for i := 0 to targetCount
      invariant output == head + TargetList(targets[..i]) + (if 0 < i < targetCount then "," else "")
    {
      TargetListStep(targets, i);
      StepAssoc(head, TargetList(targets[..i]), if i > 0 then "," else "", targets[i]);
      output := output + "'" + targets[i] + "'";
      if i < targetCount - 1 {
        output := output + ",";
      }
    }
    assert targets[..targetCount] == targets;
    TargetListIsJoin(targets);
    output := output + TagClose;
  }

  /** Appending one more part adds a separator and the part. */
  lemma {:induction false} JoinWithSnoc(sep: string, xs: seq<string>, x: string)
    requires |xs| > 0
    ensures JoinWith(sep, xs + [x]) == JoinWith(sep, xs) + sep + x
    decreases |xs|
  {
    if |xs| > 1 {
      assert (xs + [x])[1..] == xs[1..] + [x];
      JoinWithSnoc(sep, xs[1..], x);
    }
  }

  /** `string.Join` with a one-character separator is `Join`. */
  lemma {:induction false} JoinWithIsJoin(xs: seq<string>, c: char)
    requires |xs| > 0
    ensures JoinWith([c], xs) == Join(xs, c)
    decreases |xs|
  {
    if |xs| > 1 {
      JoinWithIsJoin(xs[1..], c);
    }
  }

  function Unquote(q: string): string {
    if |q| >= 2 then q[1..|q| - 1] else q
  }

  /** The targets listed in the body of an alias block. */
  function ReadTargets(body: string): seq<string> {
    if body == "" then []
    else
      var parts := Split(body, ',');
      seq(|parts|, k requires 0 <= k < |parts| => Unquote(parts[k]))
  }

  /** Reads the inside of an alias block: the name up to the first `'`,
      then the targets after the fixed middle. */
  function ReadInner(inner: string): Option<(string, seq<string>)> {
    var q := FindChar(inner, '\'');
    if q < 0 || !StartsWith(inner[q..], TagMiddle) then None
    else Some((inner[..q], ReadTargets(inner[q + |TagMiddle|..])))
  }

  /** Reads an alias block back: its name and its targets. */
  function ReadAliasTag(text: string): Option<(string, seq<string>)> {
    if |text| < |TagOpen| + |TagClose| || !StartsWith(text, TagOpen) || !EndsWith(text, TagClose) then None
    else ReadInner(text[|TagOpen|..|text| - |TagClose|])
  }

  /** The fixed opening and closing of an alias block frame its inside. */
  lemma AliasFrameRoundTrip(inner: string)
    ensures ReadAliasTag(TagOpen + inner + TagClose) == ReadInner(inner)
  {
    var text := TagOpen + inner + TagClose;
    assert text[..|TagOpen|] == TagOpen;
    assert text[|TagOpen|..|text| - |TagClose|] == inner;
    assert text[|text| - |TagClose|..] == TagClose;
  }

  /** Splitting `name + middle + body` at its first `'`, when the middle
      starts with the first `'`. */
  lemma SplitAtMiddle(name: string, middle: string, body: string)
    requires '\'' !in name && |middle| > 0 && middle[0] == '\''
    ensures FindChar(name + middle + body, '\'') == |name|
    ensures (name + middle + body)[..|name|] == name
    ensures (name + middle + body)[|name|..] == middle + body
    ensures (name + middle + body)[|name| + |middle|..] == body
  {
    FindCharAfter(name, middle[1..] + body, '\'');
    assert middle == ['\''] + middle[1..];
    Assoc(['\''], middle[1..], body);
    Assoc(name, ['\''] + middle[1..], body);
    Assoc(name, ['\''], middle[1..] + body);
    TakeOfAppend(name, middle + body, |name|);
    DropOfAppend(name, middle + body, |name|);
    DropOfAppend(name + middle, body, |name| + |middle|);
  }

  /** The inside of an alias block reads back as its name and its body. */
  lemma AliasInnerRoundTrip(alias: string, body: string)
    requires '\'' !in alias
    ensures ReadInner(alias + TagMiddle + body) == Some((alias, ReadTargets(body)))
  {
    SplitAtMiddle(alias, TagMiddle, body);
    Framing(TagMiddle, body, "");
    assert TagMiddle + body + "" == TagMiddle + body;
  }

  /** The targets joined with commas read back as the targets, provided no
      target holds a comma. */
  lemma TargetsRoundTrip(targets: seq<string>)
    requires forall k :: 0 <= k < |targets| ==> ',' !in targets[k]
    ensures ReadTargets(JoinWith(",", Quoted(targets))) == targets
  {
    if |targets| > 0 {
      var qs := Quoted(targets);
      var body := JoinWith(",", qs);
      JoinWithIsJoin(qs, ',');
      forall k | 0 <= k < |qs| ensures ',' !in qs[k] {
        assert qs[k] == "'" + targets[k] + "'";
      }
      SplitJoin(qs, ',');
      assert |qs[0]| >= 2;
      assert body != "" by {
        if |qs| > 1 {
          assert body == qs[0] + "," + JoinWith(",", qs[1..]);
        }
      }
      forall k | 0 <= k < |targets| ensures Unquote(qs[k]) == targets[k] {
        assert qs[k] == "'" + targets[k] + "'";
      }
    }
  }

  /** An alias block reads back as the name and targets it was built from,
      provided the name has no `'` and no target a comma. */
  lemma AliasTagRoundTrip(alias: string, targets: seq<string>)
    requires '\'' !in alias
    requires forall k :: 0 <= k < |targets| ==> ',' !in targets[k]
    ensures ReadAliasTag(AliasTag(alias, targets)) == Some((alias, targets))
  {
    var body := JoinWith(",", Quoted(targets));
    assert AliasTag(alias, targets) == TagOpen + (alias + TagMiddle + body) + TagClose;
    AliasFrameRoundTrip(alias + TagMiddle + body);
    AliasInnerRoundTrip(alias, body);
    TargetsRoundTrip(targets);
  }

  /** The targets of the `all` alias. */
  function AllTargets(anyObjects: bool, anyLibs: bool): seq<string> {
    (if anyObjects then ["ObjectsListsAlias"] else []) + (if anyLibs then ["DLLListAlias"] else [])
  }

  /** `GenerateFBuildTargets`: nothing when there is nothing to build,
      otherwise an `all` alias naming the object and library aliases that
      exist, in that order. */
  function GenerateTargets(anyObjects: bool, anyLibs: bool): (r: string)
    ensures r == "" <==> !anyObjects && !anyLibs
    ensures r != "" ==> ReadAliasTag(r) == Some(("all", AllTargets(anyObjects, anyLibs)))
  {
    if anyObjects || anyLibs then
      AliasTagRoundTrip("all", AllTargets(anyObjects, anyLibs));
      AliasTag("all", AllTargets(anyObjects, anyLibs))
    else ""
  }

  // ----- compilers -----

  /** `GenerateFBuildCompilers`' records, one per cached compiler in
      `Compilers` order with its extra files, named `Compiler-0`, `Compiler-1`, … */
  function CompilerRecords(compilers: seq<(Tool, seq<string>)>): (r: seq<string>)
    ensures |r| == |compilers|
    ensures forall k :: 0 <= k < |compilers| ==> RecordAlias(r[k]) == Some("Compiler-" + NatToString(k))
  {
    seq(|compilers|, k requires 0 <= k < |compilers| =>
      var digits := NatToString(k);
      assert forall i :: 0 <= i < |digits| ==> digits[i] != '\'';
      CompilerRecord("Compiler-" + digits, compilers[k].0, compilers[k].1))
  }

  /** The alias an object list prints for its compiler is the name of the
      compiler record printed for the same cache entry. */
  lemma CompilerAliasNamesRecord(keys: seq<string>, compilers: seq<(Tool, seq<string>)>, key: string)
    requires |keys| == |compilers| && key in keys
    ensures RecordAlias(CompilerRecords(compilers)[Position(keys, key)]) == Some(CompilerAlias(keys, key))
  {
  }

  // ----- node lists -----

  /** Every dependency of a stored node is stored. */
  ghost predicate DependenciesStored(store: Store) {
    forall h, d :: h in store && d in store[h].dependencies ==> d in store
  }

  /** The record of node `h`, failing for a node that is missing or has a
      missing dependency (which the callers rule out). */
  function RenderNode(store: Store, ctx: RecordContext, h: nat): Result<string> {
    if h in store && forall d :: d in store[h].dependencies ==> d in store then NodeRecord(store[h], store, ctx)
    else Failure(NullReference)
  }

  /** The records of the listed nodes, in list order; the first node whose
      record fails fails the list. */
  function NodeRecords(list: seq<nat>, store: Store, ctx: RecordContext): (r: Result<seq<string>>)
    requires Keyed(list, store) && DependenciesStored(store)
    ensures r.Success? ==> |r.value| == |list|
  {
    MapAll(list, h => RenderNode(store, ctx, h))
  }

  /** The list renders exactly when every node's record renders. */
  lemma NodeRecordsSucceed(list: seq<nat>, store: Store, ctx: RecordContext)
    requires Keyed(list, store) && DependenciesStored(store)
    ensures NodeRecords(list, store, ctx).Success? <==>
              forall k :: 0 <= k < |list| ==> NodeRecord(store[list[k]], store, ctx).Success?
  {
    var f := h => RenderNode(store, ctx, h);
    forall k | 0 <= k < |list| ensures f(list[k]) == NodeRecord(store[list[k]], store, ctx) {
    }
  }

  /** The k-th rendered record is named after the k-th node. */
  lemma NodeRecordsNamed(list: seq<nat>, store: Store, ctx: RecordContext, k: nat)
    requires Keyed(list, store) && DependenciesStored(store)
    requires NodeRecords(list, store, ctx).Success? && k < |list|
    ensures RecordAlias(NodeRecords(list, store, ctx).value[k]) == Some(Alias(store[list[k]]))
  {
    var f := h => RenderNode(store, ctx, h);
    assert f(list[k]) == NodeRecord(store[list[k]], store, ctx);
  }

  /** The aliases of the listed nodes, in list order. */
  function AliasesOf(list: seq<nat>, store: Store): (r: seq<string>)
    requires Keyed(list, store)
    ensures |r| == |list| && forall k :: 0 <= k < |list| ==> r[k] == Alias(store[list[k]])
  {
    seq(|list|, k requires 0 <= k < |list| => Alias(store[list[k]]))
  }

  /** `GenerateFBuildNodeList`: the nodes reordered so that dependencies
      come first, their records, and an alias block named `aliasName`
      listing them in the same order when there are any. */
  function NodeList(aliasName: string, list: seq<nat>, store: Store, ctx: RecordContext, fuel: nat): (r: Result<string>)
    requires Keyed(list, store) && DependenciesStored(store)
    ensures Reorder(list, store, fuel).Failure? ==> r == Failure(ReorderDiverged)
    ensures r.Success? <==>
              Reorder(list, store, fuel).Success? && NodeRecords(Reorder(list, store, fuel).value, store, ctx).Success?
    ensures r.Success? && |list| == 0 ==> r.value == ""
    ensures r.Success? && |list| > 0 ==> EndsWith(r.value, AliasTag(aliasName, AliasesOf(Reorder(list, store, fuel).value, store)))
  {
    var ordered :- Reorder(list, store, fuel);
    var records :- NodeRecords(ordered, store, ctx);
    var tag := if |ordered| > 0 then AliasTag(aliasName, AliasesOf(ordered, store)) else "";
    var text := Concat(records) + tag;
    ReorderSound(list, store, fuel);
    assert |ordered| == |list| by {
      assert |multiset(ordered)| == |multiset(list)|;
    }
    assert text[|text| - |tag|..] == tag;
    assert |ordered| == 0 ==> records == [];
    Success(text)
  }

  /** No alias holds a comma. */
  lemma AliasHasNoComma(n: Node)
    ensures ',' !in Alias(n)
  {
    var digits := NatToString(n.aliasIndex);
    assert ',' !in digits;
    assert ',' !in NodeType(n.body);
  }

  /** The alias block closing a node list, `""` for an empty list. */
  function ListTag(aliasName: string, ordered: seq<nat>, store: Store): (r: string)
    requires Keyed(ordered, store)
    ensures |ordered| == 0 <==> r == ""
    ensures '\'' !in aliasName && |ordered| > 0 ==> ReadAliasTag(r) == Some((aliasName, AliasesOf(ordered, store)))
  {
    if |ordered| == 0 then ""
    else
      var aliases := AliasesOf(ordered, store);
      forall k | 0 <= k < |aliases| ensures ',' !in aliases[k] {
        AliasHasNoComma(store[ordered[k]]);
      }
      if '\'' !in aliasName then
        AliasTagRoundTrip(aliasName, aliases);
        AliasTag(aliasName, aliases)
      else AliasTag(aliasName, aliases)
  }

  /** A rendered node list is the records of a dependency-ordered
      permutation of the nodes, one per node and named after it, followed
      by the alias block that reads back as the list's name and those nodes'
      aliases in the same order. */
  lemma NodeListSections(aliasName: string, list: seq<nat>, store: Store, ctx: RecordContext, fuel: nat)
    requires Keyed(list, store) && DependenciesStored(store)
    requires NodeList(aliasName, list, store, ctx, fuel).Success?
    ensures Reorder(list, store, fuel).Success?
    ensures var ordered := Reorder(list, store, fuel).value;
      && multiset(ordered) == multiset(list)
      && Ordered(ordered, store)
      && NodeRecords(ordered, store, ctx).Success?
      && var records := NodeRecords(ordered, store, ctx).value;
         && |records| == |list|
         && (forall k :: 0 <= k < |records| ==> RecordAlias(records[k]) == Some(Alias(store[ordered[k]])))
         && NodeList(aliasName, list, store, ctx, fuel).value == Concat(records) + ListTag(aliasName, ordered, store)
  {
    var ordered := Reorder(list, store, fuel).value;
    ReorderSound(list, store, fuel);
    assert |ordered| == |list| by {
      assert |multiset(ordered)| == |multiset(list)|;
    }
    var records := NodeRecords(ordered, store, ctx).value;
    forall k | 0 <= k < |records| ensures RecordAlias(records[k]) == Some(Alias(store[ordered[k]])) {
      NodeRecordsNamed(ordered, store, ctx, k);
    }
  }

  // ----- the whole script -----

  /** `BuildStep`: which half of the build a script covers. */
  datatype BuildStep = CompileObjects | Link | CompileAndLink

  /** The alias a step's node list is named after. */
  function ListAlias(step: BuildStep): string {
    if step == CompileObjects then "ObjectsListsAlias" else "DLLListAlias"
  }

  /** The compiler records a step's script carries: none when only linking. */
  function StepCompilers(step: BuildStep, compilers: seq<(Tool, seq<string>)>): seq<string> {
    if step == BuildStep.Link then [] else CompilerRecords(compilers)
  }

  /** `GenerateFBuildFileString`. The entry header comes first; the compiler
      records follow unless the step only links; the node list and the `all`
      alias close the script. The `all` alias names the object-list alias
      only when compiling objects, names the library alias when linking or
      building in one pass, and is left out for an empty batch. */
  function FileString(step: BuildStep, entry: string, compilers: seq<(Tool, seq<string>)>,
                      actions: seq<nat>, store: Store, ctx: RecordContext, fuel: nat): (r: Result<string>)
    requires Keyed(actions, store) && DependenciesStored(store)
    ensures r.Success? && step != BuildStep.Link ==> StartsWith(r.value, entry + Concat(CompilerRecords(compilers)))
    ensures r.Success? && step == BuildStep.Link ==> StartsWith(r.value, entry)
    ensures r.Success? ==>
              EndsWith(r.value, GenerateTargets(step == CompileObjects && |actions| > 0, step != CompileObjects && |actions| > 0))
    ensures r.Success? <==>
              Reorder(actions, store, fuel).Success? && NodeRecords(Reorder(actions, store, fuel).value, store, ctx).Success?
    ensures |actions| > 0 && Reorder(actions, store, fuel).Failure? ==> r == Failure(ReorderDiverged)
  {
    var head := entry + Concat(StepCompilers(step, compilers));
    var any := |actions| > 0;
    var nodes :-
      if step == CompileAndLink || any then NodeList(ListAlias(step), actions, store, ctx, fuel)
      else Success("");
    var targets := GenerateTargets(step == CompileObjects && any, step != CompileObjects && any);
    Framing(head, nodes, targets);
    assert step == BuildStep.Link ==> head == entry;
    var text := head + nodes + targets;
    Success(text)
  }

  /** A generated script splits into its sections: the entry header, the
      compiler records unless the step only links, one record per node in a
      dependency-ordered permutation of the batch, each named after its
      node, the alias block naming those nodes, and the `all` alias. */
  lemma FileStringSections(step: BuildStep, entry: string, compilers: seq<(Tool, seq<string>)>,
                           actions: seq<nat>, store: Store, ctx: RecordContext, fuel: nat)
    requires Keyed(actions, store) && DependenciesStored(store)
    requires FileString(step, entry, compilers, actions, store, ctx, fuel).Success?
    ensures Reorder(actions, store, fuel).Success?
    ensures var ordered := Reorder(actions, store, fuel).value;
      && multiset(ordered) == multiset(actions)
      && Ordered(ordered, store)
      && NodeRecords(ordered, store, ctx).Success?
      && var records := NodeRecords(ordered, store, ctx).value;
         && |records| == |actions|
         && (forall k :: 0 <= k < |records| ==> RecordAlias(records[k]) == Some(Alias(store[ordered[k]])))
         && FileString(step, entry, compilers, actions, store, ctx, fuel).value ==
              entry + Concat(StepCompilers(step, compilers)) + (Concat(records) + ListTag(ListAlias(step), ordered, store))
                + GenerateTargets(step == CompileObjects && |actions| > 0, step != CompileObjects && |actions| > 0)
  {
    ReorderSound(actions, store, fuel);
    var ordered := Reorder(actions, store, fuel).value;
    if step == CompileAndLink || |actions| > 0 {
      NodeListSections(ListAlias(step), actions, store, ctx, fuel);
    } else {
      var records := NodeRecords(ordered, store, ctx).value;
      assert Concat(records) + ListTag(ListAlias(step), ordered, store) == "";
    }
  }
}
