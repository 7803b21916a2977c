# FASTBuild executor model

A Dafny model of the FASTBuild executor of the Unreal build tool
(`FastBuild.cs`). The executor takes Unreal build actions and translates
the compile actions into FASTBuild `ObjectList` nodes and the link actions
into `Library`, `DLL` or `Exec` nodes. It writes those nodes into an
`fbuild.bff` script and runs `FBuild.exe` on it, first for the objects and
then for the libraries, or in one pass. Compile actions it cannot translate
run on a local fallback scheduler.

The model follows the structure of the source:

- `Outcomes`: `Result`, and the exceptions the source can throw, as `Error` values.
- `Text`, `Paths`, `Patterns`: the .NET string, path and regex operations the
  source relies on. The regexes are explicit left-to-right scans.
- `Tools`: `Linker`/`Compiler` identity. This covers path localisation,
  platform detection, the known-linker test, the allowed-extension tables and
  the tool caches.
- `Nodes`: the `FastbuildAction` class hierarchy as one datatype, and node aliases.
- `Compile`, `Gather`: `ParseCompilerAction` and `GatherActionsObjects`,
  including the grouping by `MatchHash`.
- `Link`: `ParseLinkAction`, `LinkerType` and `GatherActionsLink`.
- `Dependencies`: `ResolveDependencies`.
- `ResponseFiles`: `GetResponseFileInputs`.
- `Ordering`: the remove/insert reorder of `GenerateFBuildNodeList`.
- `Records`: the `ToString` printers of `ObjectGroup`, `Compiler`,
  `ExecAction` and `LinkAction`.
- `Script`: alias blocks, `GenerateFBuildTargets`, `GenerateFBuildCompilers`,
  `GenerateFBuildNodeList` and `GenerateFBuildFileString`.
- `Scheduler`: `ExecuteLocalActions`.
- `Orchestrator`: the configuration, the `FBuild.exe` command line, the
  result mapping and the phases of `ExecuteActionsInternal`.
- `Deresponsify`: `DeresponsifyActions`.
- `Pipeline`: the body of `ExecuteActionsInternal` put together. Response
  files are inlined, both kinds of action gathered, dependencies resolved,
  and the script of each phase generated from the gathered lists.

Modelling choices:

- **Object identity.** A C# object reference is the position of the action
  it was parsed from, its handle. The `actionLinks` dictionary is a map from
  handles to nodes.
- **Exceptions.** Exceptions become `Failure` values:
  - the empty search string of `String.Replace`;
  - a `Substring` out of range;
  - an unknown platform;
  - a missing file;
  - a link action without a node.
- **Outside world.** These are parameters:
  - file contents;
  - whether `FBuild.exe` is available;
  - the script's entry header;
  - the `Compilers` cache: its keys in enumeration order and its tools.
    `Pipeline.CacheCovers` holds every cached tool to what the `Compiler`
    constructor builds from its key, keeps the keys distinct, and requires
    every compile action's command path to be a key;
  - the exit code of each `FBuild.exe` run.

  The scripts themselves are generated from the gathered lists.
- **In-place reorder.** In two-pass mode the link script reorders
  `LinkerActions` in place before its records are printed. A response-file
  line is therefore resolved against the reordered linker list. In
  single-pass mode, against the object lists followed by the link nodes in
  gathering order.
- **Reorder.** The reorder loop does not terminate on a dependency cycle. It
  gets a pass budget, and `ReorderDiverged` means the budget ran out.
- **Fallback rounds.** The fallback scheduler's polling loop runs over a
  given sequence of rounds. Each round says which threads finished and with
  which exit code.

Where the source and its documentation disagree, the model follows the
source:

- A compile action with no compilable input token fails with the
  empty-search-string exception. It does not fall back to local execution.
- The prerequisite term of `MatchHash` is the text of a LINQ iterator object,
  not the prerequisites. So `MatchHash` depends only on the compiler path
  and the arguments.
- A merged compile action stays mapped to its own freshly parsed group. That
  group has alias index 0 and is not in the object list.
- `ParseLinkAction` never returns null, so no link action is left
  unassigned and the "unaccounted library" exception cannot be reached. The
  model keeps that branch, guarded by the number of unassigned link actions.
- Dependency edges are added only between actions of the same kind.
- Response-file lines are rewritten to aliases, but no dependency edge is
  added for them.
- An output with a single extension gives a garbage `OutputExt`. The model
  computes the same text as the source's index arithmetic.

## Model

| member | source | states |
|---|---|---|
| Outcomes.MapAll | FastBuild.cs:1684-1706 | mapping a throwing operation over a list either gives one result per element, each the operation's result, or the exception of some element |
| Tools.FindSegment | FastBuild.cs:687-688 | the index of the first path segment equal to the name, -1 exactly when no segment is |
| Tools.VSRelativeSegments | FastBuild.cs:685-714 | a tool path with a `VC` segment after the first becomes `$VSBasePath$` followed by exactly the segments after that `VC` |
| Tools.VCLinkerNeedsVCSegment | FastBuild.cs:731-781 | a `link.exe`/`lib.exe` path without a `VC` segment after the first is localised to the empty string and the linker constructor throws |
| Tools.DetectPlatform | FastBuild.cs:764-781 | amd64 exactly when the path mentions `amd64` or `x64`; x86 exactly when it mentions neither but `x86`; the exception exactly when it mentions none |
| Tools.LocaliseCompilerPath | FastBuild.cs:682-714 | a `cl.exe` path becomes empty exactly when it has no `VC` segment after the first; otherwise it starts with `$VSBasePath$` and the compiler is MSVC. An `rc.exe` path always makes the compiler RC and starts with `$WindowsSDKBasePath$`, alone when no `8.1` segment follows the first. Any other path is kept |
| Tools.SDKRelativeSegments | FastBuild.cs:699-713 | an `rc.exe` path with an `8.1` segment after the first becomes `$WindowsSDKBasePath$` followed by exactly the segments after that `8.1` |
| Tools.LocaliseLinkerPath | FastBuild.cs:731-762 | a `link.exe`/`lib.exe` path becomes empty exactly when it has no `VC` segment after the first; otherwise it starts with `$VSBasePath$` and the linker is MSVC. Any other path is kept |
| Tools.NewLinker | FastBuild.cs:722-757 | a linker is built exactly when its localised path names a platform; its executable is the localised path and its family is MSVC or one of the Orbis ones |
| Tools.NewCompiler | FastBuild.cs:553-560 | a compiler is built exactly when a linker on the same path is, with the same platform; its executable and family are the compiler rewrite of the linker's rewritten path and family |
| Tools.CompilerFromRawPath | FastBuild.cs:553-560 | for a raw path naming no `link.exe`/`lib.exe`: a `cl.exe` with a `VC` segment past the first becomes an MSVC compiler under `$VSBasePath$` (the empty path without one); an `rc.exe` becomes an RC compiler under `$WindowsSDKBasePath$`; any other compiler keeps its raw path |
| Tools.LinkerTablesExist | FastBuild.cs:788-837 | every linker that can be built has an input-extension table and an output-extension table, so the "unknown compiler" exception of those getters is never thrown |
| Tools.Lookup | FastBuild.cs:1748-1756 | the tool cache returns the tool a fresh constructor would build, fails exactly when the constructor throws, and stays keyed by raw path with one more key |
| Nodes.ActionOutputs | FastBuild.cs:1282-1288 | an object list yields one output per action input |
| Nodes.AliasInjective | FastBuild.cs:908-914 | two nodes with the same alias have the same node type and alias index |
| Compile.FirstIndexWith | FastBuild.cs:1771-1779 | the first token with one of the extensions, -1 exactly when there is none |
| Compile.CompileInput | FastBuild.cs:1771-1779 | the chosen input is empty exactly when no token has a compilable extension; otherwise it is a token with a compilable extension |
| Compile.DoubleExtension | FastBuild.cs:1800-1807 | splitting the output fails exactly when it has no dot; otherwise the extension starts with a dot and is never `.h.obj` |
| Compile.DoubleExtensionOf | FastBuild.cs:1800-1807 | the extension of `x.e1.e2` is `.e1.e2`, with `.h.obj` collapsed to `.obj` |
| Compile.OutputLayout | FastBuild.cs:1800-1807 | for an output `dir\stem.src.obj` the output path is `dir\` and the extension `.src.obj` |
| Compile.ActionOutputOf | FastBuild.cs:1282-1288 | each action input `srcDir\stem.src` yields the output `OutputPath + stem + OutputExt` |
| Compile.PchStage | FastBuild.cs:1783-1795 | a PCH-creating action fails exactly when its input or its `/Fp` output is empty. Otherwise its PCH options carry that input and that output, and are the arguments with every input replaced by `%1` and then every PCH path by `%2`; the arguments get every `/Yc` turned into `/Yu` |
| Compile.PchPlaceholders | FastBuild.cs:1783-1795 | after the PCH step no `/Yc` is left and `/Yu` appears if `/Yc` did. The PCH options name neither the input nor the PCH file, and carry `%1` and `%2` for those that were there, whenever the paths cannot overlap the placeholders or each other |
| Compile.ParseCompilerAction | FastBuild.cs:1742-1829 | an unbuildable compiler throws; no input tokens gives null. Otherwise the action throws exactly when no token is compilable, the output has no dot, or a PCH-creating action has no PCH path. A parsed group records the action's input, output path, extension and PCH step |
| Compile.ArgumentsUsePlaceholders | FastBuild.cs:1796-1798 | a parsed group's arguments no longer name the input or the output. They carry `%1` for an input and `%2` for an output that the arguments held. Both hold whenever the paths cannot overlap each other, the placeholders, `/Yc` or ` c ` |
| Compile.MatchHashIgnoresPrerequisites | FastBuild.cs:1809-1814 | two actions with the same compiler path and arguments parse to groups with the same `MatchHash`, whatever their prerequisites |
| Gather.ParseStep | FastBuild.cs:1684-1705 | a parsed group holds exactly its action's input; an action is left aside exactly when it is not a compile action |
| Gather.Numbered | FastBuild.cs:1684 | pairs each action with its position |
| Gather.FindGroup | FastBuild.cs:1689 | the first listed group with the hash, -1 exactly when none has it |
| Gather.GatherActionsObjects | FastBuild.cs:1680-1708 | gathering fails exactly when some action throws. Otherwise: every grouped action is mapped to its own parsed group; listed groups are in action order with consecutive aliases and, unless single-pass, distinct hashes; every input belongs to a group of equal hash and every grouped action's input is in some group; unlisted groups were merged and keep alias 0 |
| Link.KeepEndingIn | FastBuild.cs:1852-1853 | keeps exactly the tokens ending in one of the extensions |
| Link.KeepEndingInAppend | FastBuild.cs:1852-1853 | filtering distributes over concatenation, so the filter keeps token order |
| Link.ImportMatches | FastBuild.cs:868-878 | a linker family without an import-library regex matches the empty string at every position |
| Link.ParseLinkAction | FastBuild.cs:1831-1882 | parsing fails exactly when the linker cannot be built; otherwise it gives a library or an exec node with that linker and the action's arguments, never null |
| Link.LinkClassification | FastBuild.cs:1847-1870 | a link action becomes a library node exactly when its linker is known, some input has an allowed input type and exactly one output has an allowed output type |
| Link.LibraryFields | FastBuild.cs:1847-1870 | a library node's inputs are the filtered inputs, its output the one filtered output, its import library the first import match, and it is local exactly when the action cannot run remotely |
| Link.OrbisImportLibraryIsEmpty | FastBuild.cs:868-878 | an Orbis library node's import library is the empty match |
| Link.MsvcOutputType | FastBuild.cs:1041-1048 | an MSVC output is dynamic exactly when it ends in `.dll` or `.exe` |
| Link.OrbisOutputType | FastBuild.cs:1041-1048 | every Orbis output type is dynamic |
| Link.LinkerTypeByFamily | FastBuild.cs:1041-1048 | an MSVC library node is dynamic exactly for `.dll`/`.exe` outputs and an Orbis one is always dynamic |
| Link.LinkIndices | FastBuild.cs:1714 | the positions of the link actions, ascending |
| Link.LinkIndicesComplete | FastBuild.cs:1714 | every link action's position is listed |
| Link.ParseIfLink | FastBuild.cs:1714-1722 | only link actions are parsed, and one fails exactly when its linker cannot be built |
| Link.NumberLinks | FastBuild.cs:1714-1728 | numbering appends every link action's handle and advances the alias counter by their number |
| Link.NumberLinksNodes | FastBuild.cs:1714-1728 | the k-th link action's node has its handle, alias index base + k and no dependencies |
| Link.GatherActionsLink | FastBuild.cs:1710-1730 | gathering fails exactly when some link action's linker cannot be built. Otherwise every link action is listed in order with consecutive aliases and mapped to its parsed node, and the other map entries are unchanged |
| Dependencies.AddEdgesMembers | FastBuild.cs:1565-1577 | a node's dependencies afterwards are its old ones plus exactly the same-kind, mapped producers of its prerequisites |
| Dependencies.AddEdgesNoDuplicates | FastBuild.cs:1572 | a dependency list without duplicates stays without duplicates |
| Dependencies.ResolveDependencies | FastBuild.cs:1559-1579 | the nodes stay the same apart from their dependency lists, which only grow at the end |
| Dependencies.ResolvedMembers | FastBuild.cs:1559-1579 | a node depends afterwards on x exactly when it did before, or x is a mapped same-kind producer of one of its prerequisites |
| Dependencies.ResolvedNoDuplicates | FastBuild.cs:1559-1579 | resolution never adds a dependency twice |
| Dependencies.ResolveIdempotent | FastBuild.cs:1559-1579 | resolving a second time changes nothing |
| ResponseFiles.Unquoted | FastBuild.cs:1220 | a stripped line holds no quote |
| ResponseFiles.FindProducer | FastBuild.cs:1229-1251 | a found producer is the first resolvable node that produces the line; when none is found, no resolvable node produces it |
| ResponseFiles.GetResponseFileInputs | FastBuild.cs:1209-1268 | a missing file throws; otherwise the sidecar is the file plus `.fbuild`, holding the lines left after the project lines are removed, and the inputs are the project lines resolved in order |
| ResponseFiles.NotAmongSidecarLines | FastBuild.cs:1224-1255 | no project line is left in the sidecar |
| ResponseFiles.SidecarMembers | FastBuild.cs:1215-1255 | a line is in the sidecar exactly when it is in the file and not a project line |
| ResponseFiles.LinesPartitioned | FastBuild.cs:1215-1261 | every line ends up either in the sidecar or among the inputs, never both and never lost |
| ResponseFiles.UnresolvedInputsAreVerbatim | FastBuild.cs:1220-1260 | with nothing to resolve against, every input is a rooted path without quotes |
| Text.ReplaceRemoves | FastBuild.cs:1792-1798 | replacing every occurrence of a pattern by a text that cannot overlap it leaves no occurrence |
| Text.ReplaceCreatesNone | FastBuild.cs:1792-1798 | a replacement text that cannot overlap a string creates no occurrence of that string |
| Text.ReplaceKeeps | FastBuild.cs:1792-1798 | an occurrence that cannot overlap the pattern survives the replacement |
| Text.ReplaceIntroduces | FastBuild.cs:1792-1798 | replacing a pattern that occurs puts the replacement text into the result |
| Ordering.IndexOfMeans | FastBuild.cs:1627-1644 | the index of the first occurrence of a node, -1 exactly when absent |
| Ordering.HighestMeans | FastBuild.cs:1627-1644 | the highest index among a node's dependencies is attained by one of them and bounds all of them |
| Ordering.MovePermutes | FastBuild.cs:1627-1644 | removing a node and reinserting it further on keeps the list a permutation |
| Ordering.Step | FastBuild.cs:1627-1644 | a node is moved exactly when some dependency of it sits later in the list; otherwise the list is unchanged |
| Ordering.PassPermutes | FastBuild.cs:1627-1644 | a pass keeps the list a permutation |
| Ordering.QuietPass | FastBuild.cs:1627-1644 | a pass that moves nothing leaves the list unchanged and every node settled |
| Ordering.Reorder | FastBuild.cs:1621-1657 | an empty list always settles, whatever the pass budget |
| Ordering.ReorderSound | FastBuild.cs:1621-1657 | a reorder that settles gives a permutation of the list in which every listed dependency precedes its dependent |
| Ordering.OrderedPlacesDependenciesFirst | FastBuild.cs:1621-1657 | in a settled list every dependency present in the list sits at a smaller index than its dependent |
| Ordering.MutualDependencyDiverges | FastBuild.cs:1627-1644 | two nodes that depend on each other are swapped on every pass, so the reorder never settles |
| Ordering.ReorderNodes | FastBuild.cs:1627-1644 | the loop computes the reorder; when it settles the result is a permutation in dependency order |
| Records.AliasHasNoQuote | FastBuild.cs:908-914 | a node alias never contains a quote, so it can be quoted in the script |
| Records.EngineRelative | FastBuild.cs:930-960 | a captured output path becomes `..\` plus the text after the engine directory, or a substring exception |
| Records.EngineRelativeUnderEngine | FastBuild.cs:930-960 | a quoted path under `UnrealEngine\Engine` becomes `..\` plus the part after the engine directory |
| Records.EngineRelativeWithoutEngine | FastBuild.cs:930-960 | a path without the engine directory loses its first 18 characters, because the failed search gives -1 |
| Records.ExecOutput | FastBuild.cs:962-983 | an exec record has no output exactly when neither `/Fo"…"` nor `/OUT:"…"` appears |
| Records.ExecRecord | FastBuild.cs:974-1024 | an exec record prints exactly when its output can be found, and it is named by the node's alias |
| Records.ObjectListRecord | FastBuild.cs:1298-1350 | an object-list record is named by the node's alias |
| Records.CompilerRecord | FastBuild.cs:609-623 | a compiler record is named by its alias |
| Records.LinkInvocation | FastBuild.cs:1081-1110 | fails exactly when there is not exactly one input, the input or output is empty, or the response file is missing. Otherwise its library inputs are the response file's inputs, or the sidecar alone when there are none |
| Records.LinkOptions | FastBuild.cs:1088-1103 | the options carry `%2` for the output. When the response file resolves to inputs, the sidecar `<file>.fbuild` is put back in front of `%1`; otherwise the options carry `%1` and name neither the response file nor the output. Each clause holds for paths that cannot overlap the placeholders or each other |
| Records.LibRecord | FastBuild.cs:1081-1147 | a library record is named by the node's alias |
| Records.DllRecord | FastBuild.cs:1149-1206 | a DLL record is named by the node's alias |
| Records.CompilerAlias | FastBuild.cs:1607-1620 | a cached compiler's alias is `Compiler-N` by cache position and quote-free; it is empty exactly when the compiler is not cached |
| Records.Resolvable | FastBuild.cs:917-919 | the nodes response-file lines resolve against: the object lists followed by the link nodes in single-pass mode, the link nodes alone otherwise |
| Records.TwoPassResolvesOnlyLinks | FastBuild.cs:1093 | in two-pass mode a response-file line resolves only to a library node. A line no library produces stays verbatim, even when an object list produces it |
| Records.SinglePassResolvesObjects | FastBuild.cs:1161 | in single-pass mode a line naming a file of an object list resolves to the first such list's alias |
| Records.NodeRecord | FastBuild.cs:1073-1079 | every record is named by its node's alias; object lists always print; exec and link nodes print exactly when their output or invocation can be computed |
| Script.GetAliasTag | FastBuild.cs:442-461 | the loop builds the alias block whose target list is the quoted targets joined by commas |
| Script.TargetListIsJoin | FastBuild.cs:447-456 | appending targets one by one with a comma after the first is joining them with commas |
| Script.AliasTagRoundTrip | FastBuild.cs:442-461 | an alias block reads back as the alias name and targets it was built from, for names without quotes and targets without commas |
| Script.TargetsRoundTrip | FastBuild.cs:447-456 | a comma-joined quoted target list reads back as the targets |
| Script.GenerateTargets | FastBuild.cs:1659-1678 | the `all` alias is empty exactly when there is nothing to build; otherwise it names the object-list alias and/or the library alias |
| Script.CompilerRecords | FastBuild.cs:1607-1620 | the k-th compiler record is named `Compiler-k` |
| Script.CompilerAliasNamesRecord | FastBuild.cs:1607-1620 | the compiler alias an object list prints names the record printed for that compiler |
| Script.NodeRecordsSucceed | FastBuild.cs:1646-1650 | the node list prints exactly when every node's record prints |
| Script.NodeRecordsNamed | FastBuild.cs:1646-1650 | the k-th printed record is named after the k-th node |
| Script.NodeList | FastBuild.cs:1621-1657 | a diverging reorder fails; the list prints exactly when the reorder settles and every record prints; an empty list prints nothing; otherwise the text ends with the alias block naming the reordered nodes in order |
| Script.ListTag | FastBuild.cs:1652-1655 | the closing alias block is empty exactly for an empty list, and otherwise reads back as the list's name and the nodes' aliases in order |
| Script.NodeListSections | FastBuild.cs:1621-1657 | a printed node list is the records of a dependency-ordered permutation of the nodes, one per node and named after it, followed by the alias block for them |
| Script.FileString | FastBuild.cs:1581-1605 | the script prints exactly when the reorder settles and every record prints. It starts with the entry header, followed by the compiler records unless it only links, and ends with the `all` alias for the step |
| Script.FileStringSections | FastBuild.cs:1581-1605 | a script is the entry header, the step's compiler records, the records of a dependency-ordered permutation of the nodes named after them, their alias block and the `all` alias, in that order |
| Scheduler.Limit | FastBuild.cs:1420 | at least one thread, and at least the configured maximum |
| Scheduler.ExamineMeans | FastBuild.cs:1423-1451 | the failed flag is set exactly when some local producer has a null entry or a nonzero exit; the outdated flag exactly when some local producer has not started or not finished |
| Scheduler.DecideMeans | FastBuild.cs:1453-1469 | an action is skipped exactly when a local producer failed, and starts exactly when every local producer completed with exit code 0 |
| Scheduler.ScanAdds | FastBuild.cs:1414-1472 | a scan keeps every existing entry, adds entries only for local actions, and never pushes the running count past the limit |
| Scheduler.ScanSaturated | FastBuild.cs:1420 | once the limit is reached, a scan examines and changes nothing |
| Scheduler.ScanJustified | FastBuild.cs:1414-1472 | every started action had all local producers completed with exit 0; every skipped action had a failed local producer |
| Scheduler.Scan | FastBuild.cs:1414-1472 | the loop computes the scan |
| Scheduler.PendingZero | FastBuild.cs:1386-1410 | nothing is pending exactly when every local action has an entry and none is running |
| Scheduler.ExecutingWithinPending | FastBuild.cs:1386-1404 | running actions are counted among the pending ones |
| Scheduler.Count | FastBuild.cs:1386-1404 | the loop counts the pending and the running local actions |
| Scheduler.Complete | FastBuild.cs:1474 | threads that finish get their exit code; nothing else changes |
| Scheduler.ExecuteLocalActions | FastBuild.cs:1376-1478 | always returns success. When it finishes, every local action has an entry and none runs. Finished entries are kept, and only local actions gain entries |
| Orchestrator.ConfigureForBuildParameters | FastBuild.cs:294-312 | FASTBuild is used exactly when the batch reaches the first threshold |
| Orchestrator.ConfigureThresholds | FastBuild.cs:294-312 | caching and distribution are on exactly when allowed and the batch is below the first threshold or above the second |
| Orchestrator.DefaultsConfigure | FastBuild.cs:29-192 | with the shipped settings every batch uses FASTBuild, caching is off, and distribution is on exactly above 25 actions |
| Orchestrator.EnabledAmong | FastBuild.cs:1954-1961 | the listed switches kept are exactly those the flags ask for |
| Orchestrator.OptionMembers | FastBuild.cs:1954-1961 | a switch is on the command line exactly when its flag asks for it |
| Orchestrator.ArgumentSwitches | FastBuild.cs:1954-1961 | the words before `-config` give back exactly the switches of the flags, in order |
| Orchestrator.OptionsRoundTrip | FastBuild.cs:1955-1960 | the switches give back the flags, except the cache-generation flag when caching is off |
| Orchestrator.FlagsRoundTrip | FastBuild.cs:1954-1961 | reading the flags back from the command line gives the flags, except the cache-generation flag when caching is off |
| Orchestrator.ExitResult | FastBuild.cs:1984 | an exit code maps to success or failure, never to "unavailable" |
| Orchestrator.RunFBuild | FastBuild.cs:1884-1913 | success exactly when `FBuild.exe` ran and exited with 0; an exception is a failure |
| Orchestrator.ExecuteActions | FastBuild.cs:2011-2024 | the build succeeded exactly when the result is success |
| Orchestrator.RunStep | FastBuild.cs:1535-1551 | a step fails exactly when its script cannot be generated; otherwise it is the result of running `FBuild.exe` |
| Orchestrator.ExecuteActionsInternal | FastBuild.cs:1480-1557 | an empty batch succeeds; unavailable FASTBuild reports unavailable; an unaccounted link action aborts |
| Orchestrator.PhasesMeaning | FastBuild.cs:1533-1555 | success exactly when every script run exited with 0; single-pass runs one script; linking runs only when there are libraries and the compile step, if run, succeeded |
| Deresponsify.DeresponsifyArguments | FastBuild.cs:477-503 | non-eligible arguments are unchanged; a failure is a missing response file |
| Deresponsify.DeresponsifyActions | FastBuild.cs:464-509 | every action gets its own rewrite, in order; a failure is the missing file of some action |
| Deresponsify.EligibleShape | FastBuild.cs:477-490 | eligible arguments are an optional space, `@"`, a quote-free name and a closing quote |
| Deresponsify.ResponseFileMatch | FastBuild.cs:495 | the regex finds exactly the name between the quotes, or nothing when the name holds a line feed |
| Deresponsify.DeresponsifyReads | FastBuild.cs:495-503 | an eligible action gets the named file's text with every newline replaced by a space, or fails when the file is missing |
| Deresponsify.LineFeedKeepsArguments | FastBuild.cs:495-503 | an eligible action whose name holds a line feed is left unchanged |
| Pipeline.Prepare | FastBuild.cs:1497-1506 | inlining a missing response file ends the batch with that exception. Preparation succeeds exactly when every compile action parses and every link action's linker can be built. Each action keeps everything but its arguments, which are its inlined arguments. The linker list is the link actions in order. `AliasBase` is left advanced by one per object list and one per link node |
| Pipeline.PrepareSound | FastBuild.cs:1497-1506 | a prepared batch's lists are nodes of the store, every dependency is a node, and no link node is an object list |
| Pipeline.PreparedLinks | FastBuild.cs:1505 | an action is in the linker list exactly when it is a link action |
| Pipeline.GroupCompiler | FastBuild.cs:1742-1756 | every listed object group comes from a compile action; its cache key is that action's command path and its compiler is what the `Compiler` constructor builds from that path |
| Pipeline.ParsedGroupCompiler | FastBuild.cs:1748-1756 | a group parsed from an action belongs to a compile action, is keyed by its command path, and holds the compiler built from that path |
| Pipeline.PreparedCompilersCached | FastBuild.cs:1607-1620 | with a cache that covers the batch, every object list's `Compiler` alias is non-empty and is the alias of the printed compiler record whose tool is the object list's own compiler |
| Pipeline.LinkerSeen | FastBuild.cs:1621-1644 | the linker list the records see is a permutation of the gathered one, unchanged in single-pass mode |
| Pipeline.ScriptFor | FastBuild.cs:1533-1553 | single-pass mode scripts the object lists followed by the link nodes; the object step scripts the object lists; the link step scripts the link nodes |
| Pipeline.BatchOf | FastBuild.cs:1508-1524 | every action is counted, no link is unaccounted, and a phase is flagged exactly when its list has nodes |
| Pipeline.ExecuteBatch | FastBuild.cs:1480-1557 | an empty batch succeeds and an unavailable FASTBuild reports unavailable, before anything is gathered and with `AliasBase` unchanged. An exception while preparing ends the batch. The compile actions no group took are handed to the local fallback, and `AliasBase` is left where preparation left it |
| Pipeline.ExecuteBatchRuns | FastBuild.cs:1527-1555 | past gathering, the batch is the orchestrator's run over the gathered lists' scripts. With a cache that covers the batch, every object list in those scripts names the printed compiler record of its own tool |
| Pipeline.RunPhases | FastBuild.cs:1533-1555 | the run over prepared lists: one script in single-pass mode; the object script exactly when there are object lists; the link script only when there are link nodes and the objects succeeded; success exactly when every script run exited with 0; a single-pass script that cannot be generated fails the run |
| Pipeline.ExecuteBatchPhases | FastBuild.cs:1480-1557 | the phases of `RunPhases` for a whole batch; the link script runs only when the batch has link actions |
| Pipeline.LinkScriptResolution | FastBuild.cs:1093 | in two-pass mode a response-file line resolves only to a library node; in single-pass mode a file of a compile action resolves to the first object list producing it |

## Left out

- File system, environment and processes:
  - `File.ReadAllLines`/`ReadAllText` are parameters.
  - The sidecar file that `GetResponseFileInputs` writes is returned, not persisted.
  - The `FBuild.exe` lookup through `INSIGHTFUL_DEV_DIR` and `FASTBUILD_ROOT_DIR`, the `FASTBUILD_CACHE_PATH` override, the working directory and the process launch are left out.
  - The exit code of `FBuild.exe` and the availability check are parameters.
- Threads, `Thread.Sleep`, the `Stopwatch` and the output streaming are left out. The fallback scheduler's polling loop runs over a given sequence of rounds, and thread completion is an input to each round.
- Logging (`Log.*`, `InternalDebugLog`) is left out: it has no effect on behaviour.
- `GetExtraFiles` is a parameter of the compiler record, because its file list depends on the installed toolchain.
- The `Compilers` dictionary is a parameter of the batch: its keys in enumeration order and its tools. `Pipeline.CacheCovers` constrains its contents; the enumeration order of a .NET dictionary is left free.
- The `GetUEGlobalCompilerDefinitions` string is modelled without its cache.
- `LocaliseFilePath` is left out: nothing calls it.
- `Path.GetDirectoryName`, `GetFileNameWithoutExtension`, `ChangeExtension` and `IsPathRooted` are simplified:
  - separators are `\` and `/`;
  - a rooted path starts with a separator or a drive letter and colon;
  - there is no normalisation.
- `Environment.NewLine` is a parameter of `DeresponsifyActions`.
- Regex matching is modelled as scans for the few patterns the source uses, with the case-insensitive look-behind markers the source passes, folding ASCII letters only. The engine is not modelled in general.
- The entry arguments and the header of the script are an opaque string.
- `systemInputs` of `GetResponseFileInputs` is never filled by the source, so it is not modelled. Its block in `ToLibString` is never printed.
- The result of `ExecuteLocalActions` is ignored by `ExecuteActionsInternal`, as in the source. Actions that are neither compile nor link actions are never executed, as in the source.
- `DeresponsifyActions` rewrites actions in place: when a later file is missing, earlier actions are already rewritten. The model returns the exception without the partial rewrite.
- Ordering.Reorder: bounded by a pass budget, because the source's loop does not terminate on a dependency cycle. Running out of budget is `ReorderDiverged` rather than a hang. The budget counts the passes after the first, so an empty or already ordered list settles with any budget.
- Scheduler.ExecuteLocalActions: bounded by the rounds it is given. When they run out before nothing is pending, it stops unfinished, where the source would keep polling.
- The static `AliasBase` counter, which is never reset, is not global state. The gathering functions take its current value and return the next one; `Pipeline.Prepare` and `Pipeline.ExecuteBatch` return where the batch left it.
- Records.ObjectListRecord: the contract states that the record is framed and named by the node's alias, not the text of each field. The field text is string assembly that a contract could only repeat.
- Records.CompilerRecord: states the record's name, not its executable and extra-file fields, for the same reason.
- Records.LibRecord: states the record's name, not its librarian fields, for the same reason.
- Records.DllRecord: states the record's name, not its linker fields, for the same reason.
- Records.ExecRecord: states when the record prints and its name, not its executable, argument and dependency fields.
- Nodes.ActionOutputs: the contract gives one output per input. The value of each output is stated separately by Compile.ActionOutputOf.
- Orchestrator.ExecuteActionsInternal: the contract states the early exits. The order of the phases and the meaning of their results are stated separately by Orchestrator.PhasesMeaning. Pipeline.ExecuteBatch composes it with the gathering phases and the generated scripts.
- Text.StartsWith, Text.EndsWith, Text.IndexOf: modelled as ordinal comparisons. The source calls the culture-sensitive .NET overloads, including the `IndexOf` that cuts the engine-relative path. They agree with ordinal comparison on the ASCII paths and switches compared here.
- Pipeline.ExecuteBatch: records the compile actions handed to `ExecuteLocalActions` rather than running it. The source ignores that call's result, and its behaviour is stated by Scheduler.ExecuteLocalActions.
- Pipeline.BatchOf: the number of unaccounted link actions is always 0, because `ParseLinkAction` never returns null.
- Pipeline.ExecuteBatch, Pipeline.ExecuteBatchRuns, Pipeline.ExecuteBatchPhases: require `Pipeline.CacheCovers`, which holds of the static cache because `ParseCompilerAction` fills it with a fresh `Compiler` for every command path it has not seen.
- Pipeline.ExecuteBatchPhases: requires the prepared batch to be sound. Pipeline.PrepareSound proves this for every successful preparation, so no batch is excluded.
- Pipeline.PrepareSound: states that link nodes are not object lists, not that they are libraries. A link action whose linker is unknown, or whose inputs and outputs do not fit the linker, becomes an `Exec` node.
- Compile.PchPlaceholders, Compile.ArgumentsUsePlaceholders: the absence and presence of paths are stated for paths that cannot overlap the placeholders or each other. Overlapping paths make `String.Replace` results depend on the exact text.
