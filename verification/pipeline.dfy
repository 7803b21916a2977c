/** The body of `ExecuteActionsInternal` put together: the response files
    are inlined, the compile and link actions gathered into nodes, the
    dependencies resolved, the compile actions no group took handed to the
    local fallback, and the scripts of the phases generated from the
    gathered lists.

    The environment stays outside: the availability check, the response
    files, the script header, the `Compilers` cache (held to what the
    `Compiler` constructor builds, by `CacheCovers`) and the exit code of
    each `FBuild.exe` run are parameters. */
module Pipeline {
  import opened Outcomes
  import opened Nodes
  import opened Deresponsify
  import opened Gather
  import opened Link
  import opened Dependencies
  import opened Ordering
  import opened Records
  import opened ResponseFiles
  import opened Tools
  import Script
  import Parsing = Compile
  import Orchestrator
  import Scheduler

  // ----- from actions to nodes -----

  /** The argument strings of the actions, in order. */
  function Arguments(actions: seq<RawAction>): (r: seq<string>)
    ensures |r| == |actions| && forall k :: 0 <= k < |actions| ==> r[k] == actions[k].commandArguments
  {
    seq(|actions|, k requires 0 <= k < |actions| => actions[k].commandArguments)
  }

  /** The actions with their argument strings replaced. */
  function WithArguments(actions: seq<RawAction>, args: seq<string>): (r: seq<RawAction>)
    requires |args| == |actions|
    ensures |r| == |actions| && forall k :: 0 <= k < |actions| ==> r[k] == actions[k].(commandArguments := args[k])
  {
    seq(|actions|, k requires 0 <= k < |actions| => actions[k].(commandArguments := args[k]))
  }

  /** What the gathering phases leave: the batch after `DeresponsifyActions`,
      `CompilationActions`, `LinkerActions`, `actionLinks` after
      `ResolveDependencies`, the compile actions no group took, and the
      value `AliasBase` is left at. */
  datatype Prepared = Prepared(actions: seq<RawAction>, compilation: seq<nat>, linker: seq<nat>,
                               store: Store, unassignedObjects: seq<nat>, nextAliasBase: nat)

  /** Every node of the gathered store belongs to an action of the batch. */
  lemma GatheredBelow(acts: seq<RawAction>, singlePass: bool, aliasBase: nat, g: Gathered, l: Linked)
    requires GatherActionsObjects(acts, singlePass, aliasBase) == Success(g)
    requires GatherActionsLink(acts, g.store, g.aliasBase) == Success(l)
    ensures forall h :: h in l.store ==> h < |acts|
  {
    var ps := ParseAll(acts).value;
    assert |ps| == |Numbered(acts)|;
    forall h | h in l.store ensures h < |acts| {
      if h !in g.store {
        var k :| 0 <= k < |l.list| && l.list[k] == h;
      }
    }
  }

  /** The phases before the scripts: `DeresponsifyActions`, then
      `GatherActionsObjects` over the compile actions and `GatherActionsLink`
      over the link actions, whose nodes continue the alias numbering, then
      `ResolveDependencies`. The first exception ends the batch. */
  function Prepare(actions: seq<RawAction>, files: map<string, string>, newLine: string,
                   singlePass: bool, aliasBase: nat): (r: Result<Prepared>)
    requires |newLine| > 0
    ensures DeresponsifyActions(files, newLine, Arguments(actions)).Failure? ==>
              r == Failure(DeresponsifyActions(files, newLine, Arguments(actions)).error)
    ensures r.Success? ==>
              && |r.value.actions| == |actions|
              && forall k :: 0 <= k < |actions| ==>
                   && r.value.actions[k] == actions[k].(commandArguments := r.value.actions[k].commandArguments)
                   && DeresponsifyArguments(files, newLine, actions[k].commandArguments) == Success(r.value.actions[k].commandArguments)
    ensures r.Success? ==> r.value.linker == LinkIndices(r.value.actions, 0)
    ensures r.Success? ==> r.value.nextAliasBase == aliasBase + |r.value.compilation| + |r.value.linker|
    ensures r.Success? <==>
              && DeresponsifyActions(files, newLine, Arguments(actions)).Success?
              && var acts := WithArguments(actions, DeresponsifyActions(files, newLine, Arguments(actions)).value);
                 && GatherActionsObjects(acts, singlePass, aliasBase).Success?
                 && forall h :: 0 <= h < |acts| && acts[h].kind == Link ==> NewLinker(acts[h].commandPath).Success?
  {
    var args :- DeresponsifyActions(files, newLine, Arguments(actions));
    var acts := WithArguments(actions, args);
    var g :- GatherActionsObjects(acts, singlePass, aliasBase);
    var l :- GatherActionsLink(acts, g.store, g.aliasBase);
    GatheredBelow(acts, singlePass, aliasBase, g, l);
    Success(Prepared(acts, g.list, l.list, ResolveDependencies(acts, l.store), g.unassigned, l.aliasBase))
  }

  /** The gathered lists are keyed in the store, every dependency is a node
      of the store, and the linker list holds only link nodes. */
  ghost predicate PreparedSound(p: Prepared) {
    && Keyed(p.compilation, p.store)
    && Keyed(p.linker, p.store)
    && Script.DependenciesStored(p.store)
    && forall k :: 0 <= k < |p.linker| ==> !p.store[p.linker[k]].body.ObjectList?
  }

  /** The gathered nodes have no dependencies before resolution. */
  lemma GatheredWithoutEdges(acts: seq<RawAction>, singlePass: bool, aliasBase: nat, g: Gathered, l: Linked)
    requires GatherActionsObjects(acts, singlePass, aliasBase) == Success(g)
    requires GatherActionsLink(acts, g.store, g.aliasBase) == Success(l)
    ensures forall h :: h in l.store ==> l.store[h].dependencies == []
  {
    forall h | h in l.store ensures l.store[h].dependencies == [] {
      if h in l.list {
        var k :| 0 <= k < |l.list| && l.list[k] == h;
      }
    }
  }

  /** After resolution every dependency is a node of the store, when the
      nodes had none before. */
  lemma ResolvedStored(acts: seq<RawAction>, store: Store)
    requires forall h :: h in store ==> h < |acts|
    requires forall h :: h in store ==> store[h].dependencies == []
    ensures Script.DependenciesStored(ResolveDependencies(acts, store))
  {
    var resolved := ResolveDependencies(acts, store);
    forall h, d | h in resolved && d in resolved[h].dependencies ensures d in resolved {
      ResolvedMembers(acts, store, h, d);
    }
  }

  /** The linker list holds link and exec nodes of the store, never an
      object list. */
  lemma LinkedLibraries(acts: seq<RawAction>, store: Store, aliasBase: nat, l: Linked)
    requires GatherActionsLink(acts, store, aliasBase) == Success(l)
    ensures forall k :: 0 <= k < |l.list| ==> l.list[k] in l.store && !l.store[l.list[k]].body.ObjectList?
  {
    forall k | 0 <= k < |l.list| ensures l.list[k] in l.store && !l.store[l.list[k]].body.ObjectList? {
      var h := l.list[k];
      assert ParseLinkAction(acts[h]) == Success(l.store[h].body);
    }
  }

  /** The compilation list is keyed in the object store. */
  lemma GroupsKeyed(acts: seq<RawAction>, singlePass: bool, aliasBase: nat, g: Gathered)
    requires GatherActionsObjects(acts, singlePass, aliasBase) == Success(g)
    ensures Keyed(g.list, g.store)
  {
    forall h | h in g.list ensures h in g.store {
      var k :| 0 <= k < |g.list| && g.list[k] == h;
    }
  }

  /** The nodes of the gathered lists, and every dependency after
      resolution, are in the resolved store; the linker list holds link
      nodes. */
  lemma GatheredSound(acts: seq<RawAction>, singlePass: bool, aliasBase: nat, g: Gathered, l: Linked)
    requires GatherActionsObjects(acts, singlePass, aliasBase) == Success(g)
    requires GatherActionsLink(acts, g.store, g.aliasBase) == Success(l)
    requires forall h :: h in l.store ==> h < |acts|
    ensures PreparedSound(Prepared(acts, g.list, l.list, ResolveDependencies(acts, l.store), g.unassigned, l.aliasBase))
  {
    GatheredWithoutEdges(acts, singlePass, aliasBase, g, l);
    ResolvedStored(acts, l.store);
    LinkedLibraries(acts, g.store, g.aliasBase, l);
    GroupsKeyed(acts, singlePass, aliasBase, g);
  }

  /** A successful preparation is sound. */
  lemma PrepareSound(actions: seq<RawAction>, files: map<string, string>, newLine: string,
                     singlePass: bool, aliasBase: nat)
    requires |newLine| > 0
    requires Prepare(actions, files, newLine, singlePass, aliasBase).Success?
    ensures PreparedSound(Prepare(actions, files, newLine, singlePass, aliasBase).value)
  {
    var args := DeresponsifyActions(files, newLine, Arguments(actions)).value;
    var acts := WithArguments(actions, args);
    var g := GatherActionsObjects(acts, singlePass, aliasBase).value;
    var l := GatherActionsLink(acts, g.store, g.aliasBase).value;
    GatheredBelow(acts, singlePass, aliasBase, g, l);
    GatheredSound(acts, singlePass, aliasBase, g, l);
  }

  /** The link nodes of a prepared batch are exactly its link actions, each
      parsed into its own node. */
  lemma PreparedLinks(actions: seq<RawAction>, files: map<string, string>, newLine: string,
                      singlePass: bool, aliasBase: nat, h: nat)
    requires |newLine| > 0
    requires Prepare(actions, files, newLine, singlePass, aliasBase).Success?
    requires h < |actions|
    ensures var p := Prepare(actions, files, newLine, singlePass, aliasBase).value;
      h in p.linker <==> actions[h].kind == Link
  {
    var p := Prepare(actions, files, newLine, singlePass, aliasBase).value;
    assert p.actions[h].kind == actions[h].kind;
    if actions[h].kind == Link {
      LinkIndicesComplete(p.actions, 0, h);
    }
  }

  /** A listed group was parsed from a compile action of the batch: its
      cache key is that action's command path, and its compiler is what the
      `Compiler` constructor builds from that path. */
  lemma GroupCompiler(acts: seq<RawAction>, singlePass: bool, aliasBase: nat, g: Gathered, i: nat)
    requires GatherActionsObjects(acts, singlePass, aliasBase) == Success(g)
    requires i < |g.list|
    ensures var h := g.list[i];
      && h < |acts| && acts[h].kind == Compile && h in g.store && g.store[h].body.ObjectList?
      && g.store[h].body.group.compilerKey == acts[h].commandPath
      && NewCompiler(acts[h].commandPath) == Success(g.store[h].body.group.compiler)
  {
    var ps := ParseAll(acts).value;
    var h := g.list[i];
    assert ListedConsecutively(g, aliasBase);
    assert h in g.store;
    assert IsObjectStore(ps, |acts|, g.store);
    assert Numbered(acts)[h] == (h, acts[h]);
    ParsedGroupCompiler(acts[h], h, ps[h]);
  }

  /** The compiler of a group `ParseStep` returns is built from the
      action's command path, which is its cache key. */
  lemma ParsedGroupCompiler(a: RawAction, h: nat, parsed: Parse)
    requires ParseStep((h, a)) == Success(parsed) && parsed.Group?
    ensures a.kind == Compile
    ensures parsed.obj.compilerKey == a.commandPath && NewCompiler(a.commandPath) == Success(parsed.obj.compiler)
  {
    assert Parsing.ParsedFrom(a, h, parsed.obj);
  }

  // ----- the scripts -----

  /** What the records of a script need besides the nodes. */
  datatype Environment = Environment(
    entry: string,
    compilers: seq<(Tool, seq<string>)>,
    settings: RecordSettings,
    fs: FileSystem,
    compilerKeys: seq<string>,
    fuel: nat)

  /** The `Compilers` cache the scripts print, as its keys in enumeration
      order and the matching tools with their extra files. Every tool is
      what the `Compiler` constructor builds from its key, the keys are
      distinct, and the command path of every compile action of the batch
      is a key: `ParseCompilerAction` caches it before parsing. Keys left
      by earlier batches may be present too. */
  ghost predicate CacheCovers(env: Environment, actions: seq<RawAction>) {
    && |env.compilerKeys| == |env.compilers|
    && (forall k1, k2 :: 0 <= k1 < k2 < |env.compilerKeys| ==> env.compilerKeys[k1] != env.compilerKeys[k2])
    && (forall k :: 0 <= k < |env.compilerKeys| ==> NewCompiler(env.compilerKeys[k]) == Success(env.compilers[k].0))
    && (forall h :: 0 <= h < |actions| && actions[h].kind == Compile ==> actions[h].commandPath in env.compilerKeys)
  }

  /** The compiler alias an object list prints is non-empty and is the
      alias of the printed compiler record of the object list's own tool. */
  ghost predicate NamesOwnCompiler(env: Environment, g: ObjectGroup) {
    && g.compilerKey in env.compilerKeys
    && |env.compilers| == |env.compilerKeys|
    && var k := Position(env.compilerKeys, g.compilerKey);
       && env.compilers[k].0 == g.compiler
       && CompilerAlias(env.compilerKeys, g.compilerKey) != ""
       && RecordAlias(Script.CompilerRecords(env.compilers)[k]) == Some(CompilerAlias(env.compilerKeys, g.compilerKey))
  }

  /** With a cache that covers the batch, every object list of a prepared
      batch names the compiler record of its own tool. */
  lemma PreparedCompilersCached(actions: seq<RawAction>, files: map<string, string>, newLine: string,
                                singlePass: bool, aliasBase: nat, env: Environment, p: Prepared, i: nat)
    requires |newLine| > 0
    requires Prepare(actions, files, newLine, singlePass, aliasBase) == Success(p)
    requires CacheCovers(env, actions)
    requires i < |p.compilation|
    ensures p.compilation[i] in p.store && p.store[p.compilation[i]].body.ObjectList?
    ensures NamesOwnCompiler(env, p.store[p.compilation[i]].body.group)
  {
    var args := DeresponsifyActions(files, newLine, Arguments(actions)).value;
    var acts := WithArguments(actions, args);
    var g := GatherActionsObjects(acts, singlePass, aliasBase).value;
    var l := GatherActionsLink(acts, g.store, g.aliasBase).value;
    GatheredBelow(acts, singlePass, aliasBase, g, l);
    var h := g.list[i];
    GroupCompiler(acts, singlePass, aliasBase, g, i);
    assert h !in l.list;
    assert l.store[h] == g.store[h];
    var group := g.store[h].body.group;
    assert p.store[h].body == g.store[h].body;
    assert acts[h].commandPath == actions[h].commandPath && acts[h].kind == actions[h].kind;
    var k := Position(env.compilerKeys, group.compilerKey);
    assert NewCompiler(env.compilerKeys[k]) == Success(env.compilers[k].0);
    Script.CompilerAliasNamesRecord(env.compilerKeys, env.compilers, group.compilerKey);
  }

  /** `LinkerActions` as the records see it: in two-pass mode the link
      script has reordered it in place before printing the records. */
  function LinkerSeen(p: Prepared, singlePass: bool, fuel: nat): (r: seq<nat>)
    requires Keyed(p.linker, p.store)
    ensures Keyed(r, p.store)
    ensures singlePass ==> r == p.linker
    ensures multiset(r) == multiset(p.linker)
  {
    if singlePass then p.linker
    else
      match Reorder(p.linker, p.store, fuel)
      case Success(ordered) =>
        ReorderSound(p.linker, p.store, fuel);
        ordered
      case Failure(_) => p.linker
  }

  /** The record context of a batch. */
  function ContextOf(p: Prepared, singlePass: bool, env: Environment): (ctx: RecordContext)
    requires Keyed(p.linker, p.store)
    ensures ctx.singlePass == singlePass && ctx.compilation == p.compilation
    ensures Resolvable(ctx) == (if singlePass then p.compilation + p.linker else LinkerSeen(p, singlePass, env.fuel))
  {
    RecordContext(env.settings, env.fs, singlePass, p.compilation, LinkerSeen(p, singlePass, env.fuel), env.compilerKeys)
  }

  /** The script of each phase: both lists in one pass, the compilation
      list for the objects, the linker list for the link step. */
  function ScriptFor(p: Prepared, singlePass: bool, env: Environment, step: Orchestrator.Step): (r: Result<string>)
    requires PreparedSound(p)
    ensures step == Orchestrator.CompileAndLink ==>
              r == Script.FileString(Script.CompileAndLink, env.entry, env.compilers, p.compilation + p.linker,
                                     p.store, ContextOf(p, singlePass, env), env.fuel)
    ensures step == Orchestrator.CompileObjects ==>
              r == Script.FileString(Script.CompileObjects, env.entry, env.compilers, p.compilation,
                                     p.store, ContextOf(p, singlePass, env), env.fuel)
    ensures step == Orchestrator.LinkObjects ==>
              r == Script.FileString(Script.Link, env.entry, env.compilers, p.linker,
                                     p.store, ContextOf(p, singlePass, env), env.fuel)
  {
    var ctx := ContextOf(p, singlePass, env);
    match step
    case CompileAndLink =>
      Script.FileString(Script.CompileAndLink, env.entry, env.compilers, p.compilation + p.linker, p.store, ctx, env.fuel)
    case CompileObjects =>
      Script.FileString(Script.CompileObjects, env.entry, env.compilers, p.compilation, p.store, ctx, env.fuel)
    case LinkObjects =>
      Script.FileString(Script.Link, env.entry, env.compilers, p.linker, p.store, ctx, env.fuel)
  }

  /** The batch handed to the orchestrator: every action counted, no link
      left unassigned, and which phases have nodes. */
  function BatchOf(p: Prepared): (b: Orchestrator.Batch)
    ensures b.actionCount == |p.actions| && b.unassignedLinks == 0
    ensures b.anyObjects <==> |p.compilation| > 0
    ensures b.anyLinks <==> |p.linker| > 0
  {
    Orchestrator.Batch(|p.actions|, 0, |p.compilation| > 0, |p.linker| > 0)
  }

  /** The scripts of a batch, one per phase. */
  function Scripts(p: Prepared, singlePass: bool, env: Environment): Orchestrator.Step -> Result<string>
    requires PreparedSound(p)
  {
    step => ScriptFor(p, singlePass, env, step)
  }

  // ----- the whole batch -----

  /** What `ExecuteActionsInternal` did: the phases it ran and the compile
      actions it handed to `ExecuteLocalActions`, whose result it ignores. */
  datatype Executed = Executed(run: Orchestrator.Run, local: seq<nat>, nextAliasBase: nat)

  /** `ExecuteActionsInternal`. An empty batch succeeds at once and an
      unavailable FASTBuild reports `Unavailable`, both before anything is
      gathered. An exception while inlining response files or gathering
      ends the batch. The compile actions no group took go to the local
      fallback before any script runs; then the phases run as the build
      mode says. */
  function ExecuteBatch(available: bool, singlePass: bool, actions: seq<RawAction>, files: map<string, string>,
                        newLine: string, aliasBase: nat, env: Environment,
                        dispatch: Orchestrator.Step -> Result<int>): (r: Result<Executed>)
    requires |newLine| > 0
    requires CacheCovers(env, actions)
    ensures |actions| == 0 ==> r == Success(Executed(Orchestrator.Run(Scheduler.TasksSucceeded, []), [], aliasBase))
    ensures |actions| > 0 && !available ==> r == Success(Executed(Orchestrator.Run(Scheduler.Unavailable, []), [], aliasBase))
    ensures |actions| > 0 && available && Prepare(actions, files, newLine, singlePass, aliasBase).Failure? ==>
              r == Failure(Prepare(actions, files, newLine, singlePass, aliasBase).error)
    ensures |actions| > 0 && available && r.Success? ==>
              && r.value.local == Prepare(actions, files, newLine, singlePass, aliasBase).value.unassignedObjects
              && r.value.nextAliasBase == Prepare(actions, files, newLine, singlePass, aliasBase).value.nextAliasBase
  {
    if |actions| == 0 then Success(Executed(Orchestrator.Run(Scheduler.TasksSucceeded, []), [], aliasBase))
    else if !available then Success(Executed(Orchestrator.Run(Scheduler.Unavailable, []), [], aliasBase))
    else
      var p :- Prepare(actions, files, newLine, singlePass, aliasBase);
      PrepareSound(actions, files, newLine, singlePass, aliasBase);
      var run :- Orchestrator.ExecuteActionsInternal(available, singlePass, BatchOf(p), Scripts(p, singlePass, env), dispatch);
      Success(Executed(run, p.unassignedObjects, p.nextAliasBase))
  }

  /** Past gathering, the batch is the run of the orchestrator over the
      gathered lists' scripts, and every object list in those scripts names
      the compiler record of its own tool. */
  lemma ExecuteBatchRuns(available: bool, singlePass: bool, actions: seq<RawAction>, files: map<string, string>,
                         newLine: string, aliasBase: nat, env: Environment,
                         dispatch: Orchestrator.Step -> Result<int>, p: Prepared)
    requires |newLine| > 0 && |actions| > 0 && available
    requires CacheCovers(env, actions)
    requires Prepare(actions, files, newLine, singlePass, aliasBase) == Success(p)
    ensures PreparedSound(p) && |p.actions| > 0
    ensures forall i :: 0 <= i < |p.compilation| ==>
              p.compilation[i] in p.store && p.store[p.compilation[i]].body.ObjectList? &&
              NamesOwnCompiler(env, p.store[p.compilation[i]].body.group)
    ensures var run := Orchestrator.ExecuteActionsInternal(true, singlePass, BatchOf(p), Scripts(p, singlePass, env), dispatch);
      ExecuteBatch(available, singlePass, actions, files, newLine, aliasBase, env, dispatch) ==
        if run.Success? then Success(Executed(run.value, p.unassignedObjects, p.nextAliasBase)) else Failure(run.error)
  {
    PrepareSound(actions, files, newLine, singlePass, aliasBase);
    forall i | 0 <= i < |p.compilation|
      ensures p.compilation[i] in p.store && p.store[p.compilation[i]].body.ObjectList? &&
              NamesOwnCompiler(env, p.store[p.compilation[i]].body.group)
    {
      PreparedCompilersCached(actions, files, newLine, singlePass, aliasBase, env, p, i);
    }
  }

  /** The link nodes are the link actions of the batch. */
  lemma LinkerFromLinks(actions: seq<RawAction>, files: map<string, string>, newLine: string, singlePass: bool,
                        aliasBase: nat)
    requires |newLine| > 0
    requires Prepare(actions, files, newLine, singlePass, aliasBase).Success?
    ensures |Prepare(actions, files, newLine, singlePass, aliasBase).value.linker| > 0 ==>
              exists h :: 0 <= h < |actions| && actions[h].kind == Link
  {
    var p := Prepare(actions, files, newLine, singlePass, aliasBase).value;
    PrepareSound(actions, files, newLine, singlePass, aliasBase);
    if |p.linker| > 0 {
      var h := p.linker[0];
      assert h in p.linker;
      assert h < |actions| && actions[h].kind == Link by {
        assert p.linker == LinkIndices(p.actions, 0);
        assert p.actions[h].kind == actions[h].kind;
      }
    }
  }

  /** In single-pass mode a script that cannot be generated fails the run. */
  lemma SingleScriptFails(batch: Orchestrator.Batch, script: Orchestrator.Step -> Result<string>,
                          dispatch: Orchestrator.Step -> Result<int>)
    requires batch.actionCount > 0 && batch.unassignedLinks == 0
    ensures script(Orchestrator.CompileAndLink).Failure? ==>
              Orchestrator.ExecuteActionsInternal(true, true, batch, script, dispatch).Failure?
  {
  }

  /** The orchestrator's run over prepared lists: one script in single-pass
      mode, otherwise the object script exactly when some compile action
      was grouped and the link script only when there are link nodes and
      the objects succeeded; the run succeeds exactly when every script it
      ran exited with code 0. */
  lemma RunPhases(p: Prepared, singlePass: bool, env: Environment, dispatch: Orchestrator.Step -> Result<int>)
    requires PreparedSound(p) && |p.actions| > 0
    ensures var r := Orchestrator.ExecuteActionsInternal(true, singlePass, BatchOf(p), Scripts(p, singlePass, env), dispatch);
      && (singlePass && ScriptFor(p, singlePass, env, Orchestrator.CompileAndLink).Failure? ==> r.Failure?)
      && (r.Success? ==>
            && (r.value.result == Scheduler.TasksSucceeded <==>
                  forall k :: 0 <= k < |r.value.steps| ==> dispatch(r.value.steps[k]) == Success(0))
            && (singlePass ==> r.value.steps == [Orchestrator.CompileAndLink])
            && (!singlePass ==> (Orchestrator.CompileObjects in r.value.steps <==> |p.compilation| > 0))
            && (Orchestrator.LinkObjects in r.value.steps ==>
                  |p.linker| > 0 && (|p.compilation| > 0 ==> dispatch(Orchestrator.CompileObjects) == Success(0))))
  {
    var script := Scripts(p, singlePass, env);
    Orchestrator.PhasesMeaning(true, singlePass, BatchOf(p), script, dispatch);
    if singlePass {
      SingleScriptFails(BatchOf(p), script, dispatch);
      assert script(Orchestrator.CompileAndLink) == ScriptFor(p, singlePass, env, Orchestrator.CompileAndLink);
    }
  }

  /** A batch that got past gathering runs its scripts as `RunPhases`
      states; the link script runs only when the batch has link actions. A
      script that cannot be generated in single-pass mode ends the batch
      with its exception. */
  lemma ExecuteBatchPhases(available: bool, singlePass: bool, actions: seq<RawAction>, files: map<string, string>,
                           newLine: string, aliasBase: nat, env: Environment,
                           dispatch: Orchestrator.Step -> Result<int>, p: Prepared)
    requires |newLine| > 0 && |actions| > 0 && available
    requires CacheCovers(env, actions)
    requires Prepare(actions, files, newLine, singlePass, aliasBase) == Success(p)
    requires PreparedSound(p) // holds of every successful preparation (`PrepareSound`)
    ensures var r := ExecuteBatch(available, singlePass, actions, files, newLine, aliasBase, env, dispatch);
      && (singlePass && ScriptFor(p, singlePass, env, Orchestrator.CompileAndLink).Failure? ==> r.Failure?)
      && (r.Success? ==>
            && (r.value.run.result == Scheduler.TasksSucceeded <==>
                  forall k :: 0 <= k < |r.value.run.steps| ==> dispatch(r.value.run.steps[k]) == Success(0))
            && (singlePass ==> r.value.run.steps == [Orchestrator.CompileAndLink])
            && (!singlePass ==> (Orchestrator.CompileObjects in r.value.run.steps <==> |p.compilation| > 0))
            && (Orchestrator.LinkObjects in r.value.run.steps ==>
                  (exists h :: 0 <= h < |actions| && actions[h].kind == Link) &&
                  (|p.compilation| > 0 ==> dispatch(Orchestrator.CompileObjects) == Success(0))))
  {
    ExecuteBatchRuns(available, singlePass, actions, files, newLine, aliasBase, env, dispatch, p);
    LinkerFromLinks(actions, files, newLine, singlePass, aliasBase);
    RunPhases(p, singlePass, env, dispatch);
    var run := Orchestrator.ExecuteActionsInternal(true, singlePass, BatchOf(p), Scripts(p, singlePass, env), dispatch);
    var r := ExecuteBatch(available, singlePass, actions, files, newLine, aliasBase, env, dispatch);
    assert r.Success? ==> r.value.run == run.value;
  }

  /** In two-pass mode the link script resolves response-file lines to
      link nodes only; in single-pass mode an object file of a compile
      action resolves to the first object list that produces it. */
  lemma LinkScriptResolution(p: Prepared, singlePass: bool, env: Environment, line: string)
    requires PreparedSound(p)
    ensures !singlePass ==>
              var r := FindProducer(Resolvable(ContextOf(p, singlePass, env)), p.store, Unquoted(line));
              r.Some? ==> p.store[r.value].body.Library?
    ensures singlePass ==>
              forall i :: 0 <= i < |p.compilation| && Produces(p.store[p.compilation[i]], Unquoted(line)) &&
                          (forall k :: 0 <= k < i ==> !Produces(p.store[p.compilation[k]], Unquoted(line))) ==>
                ResolveLine(Resolvable(ContextOf(p, singlePass, env)), p.store, line) == Alias(p.store[p.compilation[i]])
  {
    var ctx := ContextOf(p, singlePass, env);
    if !singlePass {
      var seen := LinkerSeen(p, singlePass, env.fuel);
      forall k | 0 <= k < |seen| && seen[k] in p.store ensures !p.store[seen[k]].body.ObjectList? {
        assert seen[k] in multiset(p.linker);
        var j :| 0 <= j < |p.linker| && p.linker[j] == seen[k];
      }
      TwoPassResolvesOnlyLinks(ctx, p.store, line);
    } else {
      forall i | 0 <= i < |p.compilation| && Produces(p.store[p.compilation[i]], Unquoted(line)) &&
                 (forall k :: 0 <= k < i ==> !Produces(p.store[p.compilation[k]], Unquoted(line)))
        ensures ResolveLine(Resolvable(ctx), p.store, line) == Alias(p.store[p.compilation[i]])
      {
        assert p.compilation[i] in p.compilation;
        SinglePassResolvesObjects(ctx, p.store, line, i);
      }
    }
  }
}
