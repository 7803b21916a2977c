/** The driver around the translation: `ConfigureForBuildParameters`, the
    command line `DispatchFBuild` gives `FBuild.exe`, `RunFBuild`, the phase
    order of `ExecuteActionsInternal` and the mapping of its result in
    `ExecuteActions`.

    The configuration switches are C# properties with constant bodies; here
    they are the fields of `Settings`, and `Defaults` holds the values the
    source returns. */
module Orchestrator {
  import opened Outcomes
  import opened Text
  import opened Scheduler

  // ----- configuration -----

  /** The configuration properties that the driver reads. */
  datatype Settings = Settings(
    minimumActions: int,
    minimumActionsForDistributionAndCaching: int,
    useSinglePassCompilation: bool,
    allowCache: bool,
    allowDistribution: bool,
    continueOnError: bool,
    monitorMode: bool,
    ideMode: bool,
    buildSummary: bool,
    buildReport: bool,
    showCommands: bool,
    showTargets: bool,
    verbose: bool,
    cacheGenerationMode: bool)

  /** The values the property getters return. */
  const Defaults: Settings := Settings(
    minimumActions := 0,
    minimumActionsForDistributionAndCaching := 25,
    useSinglePassCompilation := false,
    allowCache := false,
    allowDistribution := true,
    continueOnError := false,
    monitorMode := true,
    ideMode := true,
    buildSummary := true,
    buildReport := false,
    showCommands := false,
    showTargets := false,
    verbose := false,
    cacheGenerationMode := false)

  /** What `ConfigureForBuildParameters` decides: whether to use FASTBuild,
      and the new values of `_EnableCache` and `_EnableDistribution`. */
  datatype Configured = Configured(useFastBuild: bool, cache: bool, distribution: bool)

  /** `ConfigureForBuildParameters`: both switches are refreshed from their
      `Allow` values, then forced off for a batch at or below the second
      threshold that is not already below the first. */
  function ConfigureForBuildParameters(s: Settings, numActions: int): (r: Configured)
    ensures r.useFastBuild <==> numActions >= s.minimumActions
  {
    if numActions < s.minimumActions then Configured(false, s.allowCache, s.allowDistribution)
    else if numActions <= s.minimumActionsForDistributionAndCaching then Configured(true, false, false)
    else Configured(true, s.allowCache, s.allowDistribution)
  }

  /** The `EnableCache` getter. */
  function EnableCache(s: Settings, c: Configured): bool {
    s.allowCache && c.cache
  }

  /** The `EnableDistribution` getter. */
  function EnableDistribution(s: Settings, c: Configured): bool {
    s.allowDistribution && c.distribution
  }

  /** Caching and distribution are on exactly when allowed and the batch is
      either above the second threshold or below the first. */
  lemma ConfigureThresholds(s: Settings, numActions: int)
    ensures EnableCache(s, ConfigureForBuildParameters(s, numActions)) <==>
              s.allowCache && (numActions < s.minimumActions || numActions > s.minimumActionsForDistributionAndCaching)
    ensures EnableDistribution(s, ConfigureForBuildParameters(s, numActions)) <==>
              s.allowDistribution && (numActions < s.minimumActions || numActions > s.minimumActionsForDistributionAndCaching)
  {
  }

  /** With the shipped settings every batch of zero or more actions uses
      FASTBuild, the cache is never used, and distribution is used only for
      more than 25 actions. */
  lemma DefaultsConfigure(numActions: nat)
    ensures ConfigureForBuildParameters(Defaults, numActions).useFastBuild
    ensures !EnableCache(Defaults, ConfigureForBuildParameters(Defaults, numActions))
    ensures EnableDistribution(Defaults, ConfigureForBuildParameters(Defaults, numActions)) <==> numActions > 25
  {
    ConfigureThresholds(Defaults, numActions);
  }

  // ----- the FBuild command line -----

  /** The switches `DispatchFBuild` turns into command-line flags. */
  datatype Flags = Flags(
    distribution: bool, ideMode: bool, buildSummary: bool, buildReport: bool, verbose: bool,
    showCommands: bool, showTargets: bool, cache: bool, cacheGeneration: bool,
    continueOnError: bool, monitor: bool)

  /** The flags under the given settings and configuration. */
  function FlagsOf(s: Settings, c: Configured): Flags {
    Flags(EnableDistribution(s, c), s.ideMode, s.buildSummary, s.buildReport, s.verbose,
          s.showCommands, s.showTargets, EnableCache(s, c), s.cacheGenerationMode,
          s.continueOnError, s.monitorMode)
  }

  /** The words `DispatchFBuild` can put before `-config`. */
  datatype Switch =
    | Dist | Ide | Summary | Report | Verbose | AllCores | ShowCommands | ShowTargets
    | Cache | CacheRead | NoStopOnError | Monitor

  /** How a switch is spelled on the command line. */
  function Word(s: Switch): string {
    match s
    case Dist => "-dist"
    case Ide => "-ide"
    case Summary => "-summary"
    case Report => "-report"
    case Verbose => "-verbose"
    case AllCores => "-j0"
    case ShowCommands => "-showcmds"
    case ShowTargets => "-showtargets"
    case Cache => "-cache"
    case CacheRead => "-cacheread"
    case NoStopOnError => "-nostoponerror"
    case Monitor => "-monitor"
  }

  /** The arguments `DispatchFBuild` starts `FBuild.exe` with; the script is
      `fbuild.bff` under `intermediatePath`. */
  function Arguments(f: Flags, intermediatePath: string): string {
    FlagText(f) + " -config " + intermediatePath + "/fbuild.bff"
  }

  /** Every switch, in the order `DispatchFBuild` appends them. The cache
      piece is `-cache` or `-cacheread`, so both have its place. */
  const CommandLineOrder: seq<Switch> :=
    [Dist, Ide, Summary, Report, Verbose, AllCores, ShowCommands, ShowTargets,
     Cache, CacheRead, NoStopOnError, Monitor]

  /** Whether the flags ask for switch `s`; `-verbose` always comes with
      `-j0`. */
  predicate Enabled(f: Flags, s: Switch) {
    match s
    case Dist => f.distribution
    case Ide => f.ideMode
    case Summary => f.buildSummary
    case Report => f.buildReport
    case Verbose | AllCores => f.verbose
    case ShowCommands => f.showCommands
    case ShowTargets => f.showTargets
    case Cache => f.cache && f.cacheGeneration
    case CacheRead => f.cache && !f.cacheGeneration
    case NoStopOnError => f.continueOnError
    case Monitor => f.monitor
  }

  /** The switches among `ss` that the flags ask for, in order. */
  function EnabledAmong(f: Flags, ss: seq<Switch>): (r: seq<Switch>)
    ensures forall s :: s in r <==> s in ss && Enabled(f, s)
  {
    if |ss| == 0 then []
    else (if Enabled(f, ss[0]) then [ss[0]] else []) + EnabledAmong(f, ss[1..])
  }

  /** The switches a flag set stands for, in command-line order. */
  function Options(f: Flags): seq<Switch> {
    EnabledAmong(f, CommandLineOrder)
  }

  /** The switch a word spells, if any. */
  function Recognize(w: string): Option<Switch> {
    if w == "-dist" then Some(Dist)
    else if w == "-ide" then Some(Ide)
    else if w == "-summary" then Some(Summary)
    else if w == "-report" then Some(Report)
    else if w == "-verbose" then Some(Verbose)
    else if w == "-j0" then Some(AllCores)
    else if w == "-showcmds" then Some(ShowCommands)
    else if w == "-showtargets" then Some(ShowTargets)
    else if w == "-cache" then Some(Cache)
    else if w == "-cacheread" then Some(CacheRead)
    else if w == "-nostoponerror" then Some(NoStopOnError)
    else if w == "-monitor" then Some(Monitor)
    else None
  }

  /** The spellings of switches, in order. */
  function Words(ss: seq<Switch>): (r: seq<string>)
    ensures |r| == |ss|
  {
    if |ss| == 0 then [] else [Word(ss[0])] + Words(ss[1..])
  }

  /** Words each followed by a space. */
  function Spaced(words: seq<string>): string {
    if |words| == 0 then "" else words[0] + " " + Spaced(words[1..])
  }

  /** The flag part of `DispatchFBuild`'s command line: each present
      switch spelled out and followed by a space. */
  function FlagText(f: Flags): string {
    Spaced(Words(Options(f)))
  }

  /** The words `read` recognises, read, in order; other words are ignored. */
  function Recognized(words: seq<string>, read: string -> Option<Switch>): seq<Switch> {
    if |words| == 0 then []
    else
      match read(words[0])
      case Some(s) => [s] + Recognized(words[1..], read)
      case None => Recognized(words[1..], read)
  }

  /** Every switch is spelled without spaces, differently from `-config`,
      and is recognised from its spelling. */
  lemma WordRecognized(s: Switch)
    ensures ' ' !in Word(s) && Word(s) != "-config" && Word(s) != ""
    ensures Recognize(Word(s)) == Some(s)
  {
  }

  /** No spelled switch has a space or is `-config`. */
  lemma {:induction false} WordsPlain(ss: seq<Switch>)
    ensures forall w :: w in Words(ss) ==> ' ' !in w && w != "-config"
    decreases |ss|
  {
    if |ss| > 0 {
      WordsPlain(ss[1..]);
      WordRecognized(ss[0]);
    }
  }

  /** The words before the first `stop`, or all of them. */
  function Before(words: seq<string>, stop: string): (r: seq<string>)
    ensures stop !in r
  {
    if |words| == 0 || words[0] == stop then [] else [words[0]] + Before(words[1..], stop)
  }

  /** The words before `-config` when an empty word and `-config` follow. */
  lemma {:induction false} BeforeConfig(words: seq<string>, more: seq<string>)
    requires "-config" !in words
    ensures Before(words + (["", "-config"] + more), "-config") == words + [""]
    decreases |words|
  {
    var all := words + (["", "-config"] + more);
    if |words| == 0 {
      assert all == ["", "-config"] + more;
      assert all[1..] == ["-config"] + more;
    } else {
      BeforeConfig(words[1..], more);
      assert all[0] == words[0];
      assert all[1..] == words[1..] + (["", "-config"] + more);
      AppendAssoc([words[0]], words[1..], [""]);
      assert words == [words[0]] + words[1..];
    }
  }

  /** The switches a command line gives before `-config`. */
  function SwitchesOf(arguments: string): seq<Switch> {
    Recognized(Before(Split(arguments, ' '), "-config"), Recognize)
  }

  /** The flags a set of switches stands for. */
  function FlagsFrom(ss: seq<Switch>): Flags {
    Flags(Dist in ss, Ide in ss, Summary in ss, Report in ss, Verbose in ss,
          ShowCommands in ss, ShowTargets in ss, Cache in ss || CacheRead in ss,
          Cache in ss, NoStopOnError in ss, Monitor in ss)
  }

  /** Reads the flags back from a command line: the switches before
      `-config`. */
  function ReadFlags(arguments: string): Flags {
    FlagsFrom(SwitchesOf(arguments))
  }

  lemma AppendAssoc<T>(a: seq<T>, b: seq<T>, c: seq<T>)
    ensures a + (b + c) == (a + b) + c
  {
  }

  /** Splitting off the first of the spaced words. */
  lemma SplitSpacedStep(words: seq<string>, rest: string)
    requires |words| > 0 && ' ' !in words[0]
    ensures Split(Spaced(words) + rest, ' ') == [words[0]] + Split(Spaced(words[1..]) + rest, ' ')
  {
    var w := words[0];
    var x := Spaced(words[1..]) + rest;
    assert Spaced(words) + rest == w + [' '] + x;
    SplitAtFirst(w, x, ' ');
  }

  /** Splitting spaced words at the spaces gives the words back. */
  lemma {:induction false} SplitSpaced(words: seq<string>, rest: string)
    requires forall w :: w in words ==> ' ' !in w
    ensures Split(Spaced(words) + rest, ' ') == words + Split(rest, ' ')
    decreases |words|
  {
    if |words| == 0 {
      assert Spaced(words) + rest == rest;
    } else {
      var tail := words[1..];
      assert forall w :: w in tail ==> w in words;
      SplitSpaced(tail, rest);
      SplitSpacedStep(words, rest);
      AppendAssoc([words[0]], tail, Split(rest, ' '));
      assert words == [words[0]] + tail;
    }
  }

  /** Splitting the script option at the spaces. */
  lemma ConfigSplit(c: string, tail: string)
    requires ' ' !in c
    ensures Split([' '] + c + [' '] + tail, ' ') == ["", c] + Split(tail, ' ')
  {
    var x := c + [' '] + tail;
    assert [' '] + c + [' '] + tail == "" + [' '] + x;
    SplitAtFirst("", x, ' ');
    SplitAtFirst(c, tail, ' ');
    assert [""] + ([c] + Split(tail, ' ')) == ["", c] + Split(tail, ' ');
  }

  lemma ConfigText(tail: string)
    ensures " -config " + tail == [' '] + "-config" + [' '] + tail
    ensures ' ' !in "-config"
  {
  }

  /** Splitting spelled switches followed by the script option at the
      spaces: the words before `-config` are the spelled switches and the
      empty word the double space leaves. */
  lemma SpelledWords(ss: seq<Switch>, intermediatePath: string)
    ensures Before(Split(Spaced(Words(ss)) + " -config " + intermediatePath + "/fbuild.bff", ' '), "-config") ==
            Words(ss) + [""]
  {
    var words := Words(ss);
    var text := Spaced(words);
    var tail := intermediatePath + "/fbuild.bff";
    AppendAssoc(text + " -config ", intermediatePath, "/fbuild.bff");
    AppendAssoc(text, " -config ", tail);
    WordsPlain(ss);
    SplitSpaced(words, " -config " + tail);
    ConfigText(tail);
    ConfigSplit("-config", tail);
    BeforeConfig(words, Split(tail, ' '));
  }

  /** The command line's words before `-config` are the spelled options and
      the empty word the double space leaves. */
  lemma ArgumentWords(f: Flags, intermediatePath: string)
    ensures Before(Split(Arguments(f, intermediatePath), ' '), "-config") == Words(Options(f)) + [""]
  {
    SpelledWords(Options(f), intermediatePath);
  }

  /** Reading spelled switches back with a reader that undoes the spelling
      gives the switches, whatever unread word follows. */
  lemma {:induction false} RecognizedWords(ss: seq<Switch>, other: string, read: string -> Option<Switch>)
    requires forall s :: read(Word(s)) == Some(s)
    requires read(other) == None
    ensures Recognized(Words(ss) + [other], read) == ss
    decreases |ss|
  {
    if |ss| == 0 {
      assert Words(ss) + [other] == [other];
    } else {
      RecognizedWords(ss[1..], other, read);
      var words := Words(ss) + [other];
      assert words[0] == Word(ss[0]);
      assert read(words[0]) == Some(ss[0]);
      assert words[1..] == Words(ss[1..]) + [other];
      assert ss == [ss[0]] + ss[1..];
    }
  }

  /** The command line gives back exactly the switches of the flags. */
  lemma ArgumentSwitches(f: Flags, intermediatePath: string)
    ensures SwitchesOf(Arguments(f, intermediatePath)) == Options(f)
  {
    ArgumentWords(f, intermediatePath);
    forall s ensures Recognize(Word(s)) == Some(s) {
      WordRecognized(s);
    }
    RecognizedWords(Options(f), "", Recognize);
  }

  /** A switch is among the options exactly when the flags ask for it. */
  lemma OptionMembers(f: Flags, s: Switch)
    ensures s in Options(f) <==> Enabled(f, s)
  {
    assert s in CommandLineOrder;
  }

  /** The options give back the flags, except that the cache-generation
      choice is only visible when the cache is on. */
  lemma OptionsRoundTrip(f: Flags)
    ensures FlagsFrom(Options(f)) == f.(cacheGeneration := f.cache && f.cacheGeneration)
  {
    OptionMembers(f, Dist);
    OptionMembers(f, Ide);
    OptionMembers(f, Summary);
    OptionMembers(f, Report);
    OptionMembers(f, Verbose);
    OptionMembers(f, ShowCommands);
    OptionMembers(f, ShowTargets);
    OptionMembers(f, Cache);
    OptionMembers(f, CacheRead);
    OptionMembers(f, NoStopOnError);
    OptionMembers(f, Monitor);
  }

  /** The command line carries every flag: reading it back gives the flags,
      except that the cache-generation choice is only visible when the cache
      is on. */
  lemma FlagsRoundTrip(f: Flags, intermediatePath: string)
    ensures ReadFlags(Arguments(f, intermediatePath)) == f.(cacheGeneration := f.cache && f.cacheGeneration)
  {
    ArgumentSwitches(f, intermediatePath);
    OptionsRoundTrip(f);
  }

  // ----- results -----

  /** The exit code of `FBuild.exe` as a result. */
  function ExitResult(exitCode: int): (r: ExecutionResult)
    ensures r != Unavailable
  {
    if exitCode == 0 then TasksSucceeded else TasksFailed
  }

  /** `RunFBuild`: `dispatch` is the exit code of `FBuild.exe`, or the
      exception thrown while writing the script or starting the process,
      which `RunFBuild` turns into `TasksFailed`. */
  function RunFBuild(dispatch: Result<int>): (r: ExecutionResult)
    ensures r == TasksSucceeded <==> dispatch == Success(0)
    ensures r != Unavailable
  {
    match dispatch
    case Success(code) => ExitResult(code)
    case Failure(_) => TasksFailed
  }

  /** `ExecuteActions`: the build succeeded exactly when the result is
      `TasksSucceeded`. */
  function ExecuteActions(result: ExecutionResult): (ok: bool)
    ensures ok <==> result == TasksSucceeded
  {
    match result
    case TasksSucceeded => true
    case TasksFailed => false
    case Unavailable => false
  }

  // ----- the phases -----

  /** Which scripts `ExecuteActionsInternal` generates and runs. */
  datatype Step = CompileObjects | LinkObjects | CompileAndLink

  /** What one `ExecuteActionsInternal` call did: its result and the steps
      whose script it ran, in order. */
  datatype Run = Run(result: ExecutionResult, steps: seq<Step>)

  /** The summary of a batch after gathering: how many actions it had, how
      many link actions found no node, and whether there are object lists
      and link nodes. */
  datatype Batch = Batch(actionCount: nat, unassignedLinks: nat, anyObjects: bool, anyLinks: bool)

  /** Generates the script for `step` and runs it. A failure to generate the
      script is an exception that leaves `ExecuteActionsInternal`; a failure
      while running it is `TasksFailed`. */
  function RunStep(step: Step, script: Step -> Result<string>, dispatch: Step -> Result<int>): (r: Result<ExecutionResult>)
    ensures r.Failure? <==> script(step).Failure?
    ensures r.Success? ==> r.value == RunFBuild(dispatch(step))
  {
    var _ :- script(step);
    Success(RunFBuild(dispatch(step)))
  }

  /** `ExecuteActionsInternal` after the gathering phases. An empty batch
      succeeds at once; an unavailable FASTBuild reports `Unavailable`; a
      link action without a node aborts. In single-pass mode one script
      compiles and links; otherwise the objects are compiled first and the
      libraries linked only when that succeeded. */
  function ExecuteActionsInternal(available: bool, singlePass: bool, batch: Batch,
                                  script: Step -> Result<string>, dispatch: Step -> Result<int>): (r: Result<Run>)
    ensures batch.actionCount == 0 ==> r == Success(Run(TasksSucceeded, []))
    ensures batch.actionCount > 0 && !available ==> r == Success(Run(Unavailable, []))
    ensures batch.actionCount > 0 && available && batch.unassignedLinks > 0 ==> r == Failure(UnaccountedLibrary)
  {
    if batch.actionCount == 0 then Success(Run(TasksSucceeded, []))
    else if !available then Success(Run(Unavailable, []))
    else if batch.unassignedLinks > 0 then Failure(UnaccountedLibrary)
    else if singlePass then
      var result :- RunStep(CompileAndLink, script, dispatch);
      Success(Run(result, [CompileAndLink]))
    else
      var first :- if batch.anyObjects then RunStep(CompileObjects, script, dispatch) else Success(TasksSucceeded);
      var compiled := if batch.anyObjects then [CompileObjects] else [];
      if first == TasksSucceeded && batch.anyLinks then
        var second :- RunStep(LinkObjects, script, dispatch);
        Success(Run(second, compiled + [LinkObjects]))
      else Success(Run(first, compiled))
  }

  /** A batch that reaches the scripts succeeds exactly when every script it
      ran exited with code 0; linking runs only after compiling succeeded or
      when there was nothing to compile; single-pass mode runs one script. */
  lemma PhasesMeaning(available: bool, singlePass: bool, batch: Batch,
                      script: Step -> Result<string>, dispatch: Step -> Result<int>)
    requires batch.actionCount > 0 && available
    ensures var r := ExecuteActionsInternal(available, singlePass, batch, script, dispatch);
      r.Success? ==>
        (r.value.result == TasksSucceeded <==> forall k :: 0 <= k < |r.value.steps| ==> dispatch(r.value.steps[k]) == Success(0)) &&
        (singlePass ==> r.value.steps == [CompileAndLink]) &&
        (LinkObjects in r.value.steps ==> batch.anyLinks && (batch.anyObjects ==> dispatch(CompileObjects) == Success(0))) &&
        (!singlePass ==> (CompileObjects in r.value.steps <==> batch.anyObjects))
  {
    var r := ExecuteActionsInternal(available, singlePass, batch, script, dispatch);
    if r.Success? && singlePass {
      assert r.value.steps == [CompileAndLink];
      assert r.value.result == RunFBuild(dispatch(CompileAndLink));
      assert r.value.steps[0] == CompileAndLink;
      assert (forall k :: 0 <= k < |r.value.steps| ==> dispatch(r.value.steps[k]) == Success(0)) <==>
             dispatch(CompileAndLink) == Success(0);
    } else if r.Success? {
      var steps := r.value.steps;
      var compiled := batch.anyObjects && dispatch(CompileObjects) == Success(0);
      if batch.anyObjects && batch.anyLinks && compiled {
        assert steps == [CompileObjects, LinkObjects];
        assert r.value.result == RunFBuild(dispatch(LinkObjects));
        assert dispatch(steps[0]) == Success(0);
        assert (r.value.result == TasksSucceeded) == (dispatch(steps[1]) == Success(0));
      } else if batch.anyObjects && compiled {
        assert steps == [CompileObjects];
        assert r.value.result == TasksSucceeded;
      } else if batch.anyObjects {
        assert steps == [CompileObjects];
        assert dispatch(steps[0]) != Success(0);
        assert r.value.result != TasksSucceeded;
      } else if batch.anyLinks {
        assert steps == [LinkObjects];
        assert r.value.result == RunFBuild(dispatch(LinkObjects));
        assert (r.value.result == TasksSucceeded) == (dispatch(steps[0]) == Success(0));
      } else {
        assert steps == [];
      }
    }
  }
}
