/** The `.bff` records the node classes print: `ObjectGroup.ToString`,
    `ExecAction.ToString`, `LinkAction.ToString` with its `ToLibString` and
    `ToDllString` halves, and `Compiler.ToString`.

    Every record has the frame `Type('Alias')` newline, `{` newline, its
    fields, and `}` newline. The fields are kept character for character,
    including the stray spaces after some line feeds. */
module Records {
  import opened Outcomes
  import opened Text
  import opened Tools
  import opened Patterns
  import opened Nodes
  import opened ResponseFiles
  import opened Link

  // ----- the record frame -----

  function Header(recordType: string, alias: string): string {
    recordType + "('" + alias + "')\n{\n"
  }

  const Footer: string := "}\n"

  /** A record of type `recordType` named `alias` with the given fields. */
  function Framed(recordType: string, alias: string, fields: string): (r: string)
    ensures StartsWith(r, Header(recordType, alias))
    ensures EndsWith(r, Footer)
  {
    var r := Header(recordType, alias) + fields + Footer;
    assert r[|r| - |Footer|..] == Footer;
    r
  }

  /** Reads a record's name back: the text between the first `('` and the
      next `'`. */
  function RecordAlias(text: string): Option<string> {
    var p := IndexOf(text, "('");
    if p < 0 then None
    else
      var rest := text[p + 2..];
      var q := FindChar(rest, '\'');
      if q < 0 then None else Some(rest[..q])
  }

  /** The first `('` of a text is right after a prefix without `(`. */
  lemma FirstOpenParen(t: string, rest: string)
    requires '(' !in t
    ensures IndexOf(t + "('" + rest, "('") == |t|
  {
    var text := t + "('" + rest;
    assert OccursAt(text, "('", |t|) by {
      assert text[|t|..|t| + 2] == "('";
    }
    forall j | 0 <= j < |t| ensures !OccursAt(text, "('", j) {
      assert text[j] == t[j] != '(';
      assert text[j..j + 2][0] == text[j];
    }
  }

  /** A framed record is its type, `('`, and the name followed by a quote
      and the rest of the record. */
  lemma FramedParts(recordType: string, alias: string, fields: string)
    ensures Framed(recordType, alias, fields) ==
              recordType + "('" + (alias + ['\''] + (")\n{\n" + fields + Footer))
  {
    assert "')\n{\n" == ['\''] + ")\n{\n";
  }

  /** A record names what it was printed for, provided the record type has
      no `(` and the name no `'`. */
  lemma RecordNamesItsNode(recordType: string, alias: string, fields: string)
    requires '(' !in recordType && '\'' !in alias
    ensures RecordAlias(Framed(recordType, alias, fields)) == Some(alias)
  {
    var tail := ")\n{\n" + fields + Footer;
    var rest := alias + ['\''] + tail;
    FramedParts(recordType, alias, fields);
    FirstOpenParen(recordType, rest);
    DropOfAppend(recordType + "('", rest, |recordType + "('"|);
    FindCharAfter(alias, tail, '\'');
    TakeOfAppend(alias, ['\''] + tail, |alias|);
    Assoc(alias, ['\''], tail);
  }

  /** No node alias contains a quote. */
  lemma AliasHasNoQuote(n: Node)
    ensures '\'' !in Alias(n)
  {
    var digits := NatToString(n.aliasIndex);
    assert Alias(n) == NodeType(n.body) + "-" + digits;
    assert forall k :: 0 <= k < |digits| ==> digits[k] != '\'';
  }

  /** Every element wrapped in single quotes. */
  function Quoted(xs: seq<string>): (r: seq<string>)
    ensures |r| == |xs| && forall k :: 0 <= k < |xs| ==> r[k] == "'" + xs[k] + "'"
  {
    seq(|xs|, k requires 0 <= k < |xs| => "'" + xs[k] + "'")
  }

  /** The aliases of the nodes behind a dependency list. */
  function DependencyAliases(store: Store, deps: seq<nat>): (r: seq<string>)
    requires forall d :: d in deps ==> d in store
    ensures |r| == |deps| && forall k :: 0 <= k < |deps| ==> r[k] == Alias(store[deps[k]])
  {
    seq(|deps|, k requires 0 <= k < |deps| => Alias(store[deps[k]]))
  }

  // ----- ExecAction -----

  const EngineMarker: string := "UnrealEngine\\Engine"

  /** `ParseOutputViaRegex` after a match: the quotes are dropped and
      everything up to the end of the first `UnrealEngine\Engine` is replaced
      by `..\`. When the marker is missing, `IndexOf` gives -1 and the cut is
      made 18 characters in. */
  function EngineRelative(captured: string): (r: Result<string>)
    ensures r.Success? ==> StartsWith(r.value, "..\\")
    ensures r.Failure? ==> r.error == SubstringOutOfRange
  {
    var path := ReplaceAll(captured, "\"", "");
    var at := IndexOf(path, EngineMarker) + |EngineMarker|;
    if at > |path| then Failure(SubstringOutOfRange) else Success("..\\" + path[at..])
  }

  /** A quoted path under the engine directory becomes the part after it. */
  lemma EngineRelativeUnderEngine(pre: string, rest: string)
    requires '"' !in pre + EngineMarker + rest
    requires IndexOf(pre + EngineMarker, EngineMarker) == |pre|
    ensures EngineRelative("\"" + pre + EngineMarker + rest + "\"") == Success("..\\" + rest)
  {
    var path := pre + EngineMarker + rest;
    StripQuotes(path);
    assert "\"" + pre + EngineMarker + rest + "\"" == "\"" + path + "\"";
    forall j | 0 <= j < |pre| ensures !OccursAt(path, EngineMarker, j) {
      assert !OccursAt(pre + EngineMarker, EngineMarker, j);
      assert path[j..j + |EngineMarker|] == (pre + EngineMarker)[j..j + |EngineMarker|];
    }
    assert OccursAt(path, EngineMarker, |pre|) by {
      assert path[|pre|..|pre| + |EngineMarker|] == EngineMarker;
    }
    assert IndexOf(path, EngineMarker) == |pre|;
    assert path[|pre| + |EngineMarker|..] == rest;
  }

  /** Without the marker the first 18 characters of the path are cut. */
  lemma EngineRelativeWithoutEngine(path: string)
    requires '"' !in path && !Contains(path, EngineMarker) && |path| >= |EngineMarker| - 1
    ensures EngineRelative("\"" + path + "\"") == Success("..\\" + path[|EngineMarker| - 1..])
  {
    StripQuotes(path);
  }

  /** Removing the quotes around a quote-free text gives the text. */
  lemma StripQuotes(x: string)
    requires '"' !in x
    ensures ReplaceAll("\"" + x + "\"", "\"", "") == x
  {
    var s := "\"" + x + "\"";
    assert OccursAt(s, "\"", 0);
    var t := s[1..];
    assert t == x + "\"";
    forall j | 0 <= j < |x| ensures !OccursAt(t, "\"", j) {
      assert t[j..j + 1] == [x[j]];
    }
    assert OccursAt(t, "\"", |x|);
    assert IndexOf(t, "\"") == |x|;
    assert t[..|x|] == x;
    assert t[|x| + 1..] == "";
    assert ReplaceAll(s, "\"", "") == ReplaceAll(t, "\"", "");
    assert ReplaceAll(t, "\"", "") == x + ReplaceAll("", "\"", "");
  }

  /** `ExecAction.ToString`'s output file: the `/Fo"…"` path, else the
      `/OUT:"…"` path, else an exception. */
  function ExecOutput(arguments: string): (r: Result<string>)
    ensures r.Failure? && r.error == NoOutputToken <==>
              QuotedAfterKeyword(arguments, "/Fo", 0).None? && QuotedAfterKeyword(arguments, "/OUT:", 0).None?
  {
    match QuotedAfterKeyword(arguments, "/Fo", 0)
    case Some(captured) => EngineRelative(captured)
    case None =>
      match QuotedAfterKeyword(arguments, "/OUT:", 0)
      case Some(captured) => EngineRelative(captured)
      case None => Failure(NoOutputToken)
  }

  /** `ExecAction.ToString`. The dependency list, printed only when there are
      dependencies, names each dependency alias once. */
  function ExecRecord(n: Node, store: Store): (r: Result<string>)
    requires n.body.Exec?
    requires forall d :: d in n.dependencies ==> d in store
    ensures r.Success? <==> ExecOutput(n.body.arguments).Success?
    ensures r.Success? ==> RecordAlias(r.value) == Some(Alias(n))
  {
    var output :- ExecOutput(n.body.arguments);
    var deps := Distinct(Quoted(DependencyAliases(store, n.dependencies)));
    var fields :=
      "\t.ExecExecutable\t\t  = '" + n.body.linker.execPath + "' \n " +
      "\t.ExecArguments\t\t  = '" + n.body.arguments + "'\n" +
      "\t.DoNotUseOutput = true\n" +
      "\t.ExecOutput\t\t = '" + output + "'\n" +
      (if |n.dependencies| > 0 then "\t.PreBuildDependencies\t\t= { " + JoinWith("\n\t\t\t", deps) + " } \n " else "");
    AliasHasNoQuote(n);
    RecordNamesItsNode("Exec", Alias(n), fields);
    Success(Framed("Exec", Alias(n), fields))
  }

  // ----- ObjectGroup and Compiler -----

  /** `GetUEGlobalCompilerDefinitions`. */
  function GlobalDefines(appendGlobalDefines: bool): string {
    if appendGlobalDefines then
      "/DUE_BUILD_DEVELOPMENT /DPLATFORM_WINDOWS /DWITH_EDITOR=1 /DWITH_ENGINE=1 /DWITH_UNREAL_DEVELOPER_TOOLS=1 /DWITH_PLUGIN_SUPPORT=1 /DUE_BUILD_MINIMAL=0 /DIS_MONOLITHIC=0 /DIS_PROGRAM=0"
    else ""
  }

  /** `Compiler.GetBffArguments`. */
  function BffArguments(arguments: string, additional: string, appendGlobalDefines: bool): string {
    " .CompilerOptions\t = '" + arguments + additional + " " + GlobalDefines(appendGlobalDefines) + "'\r\n"
  }

  /** The switches that shape the printed records. */
  datatype RecordSettings = RecordSettings(forceBaseIncludePaths: bool, appendGlobalDefines: bool)

  /** `ObjectGroup.ToString`. `compilerAlias` is the `Alias` that
      `GenerateFBuildCompilers` gave the group's compiler. */
  function ObjectListRecord(n: Node, store: Store, settings: RecordSettings, compilerAlias: string): (r: string)
    requires n.body.ObjectList?
    requires forall d :: d in n.dependencies ==> d in store
    ensures RecordAlias(r) == Some(Alias(n))
  {
    var g := n.body.group;
    var additional := if settings.forceBaseIncludePaths && g.compiler.kind == MSVC then " $BaseIncludePaths$" else "";
    var inputs := seq(|g.actionInputs|, k requires 0 <= k < |g.actionInputs| => g.actionInputs[k].1);
    var pch :=
      match g.pch
      case None => ""
      case Some(p) =>
        "\t.PCHInputFile\t\t            = '" + p.input + "' \n " +
        "\t.PCHOutputFile\t\t            = '" + p.output + "' \n " +
        "\t.PCHOptions\t\t            = '" + p.options + additional + "' \n ";
    var aliases := DependencyAliases(store, n.dependencies);
    var dependencyString := Concat(seq(|aliases|, k requires 0 <= k < |aliases| => "\n\t\t\t '" + aliases[k] + "'"));
    var fields :=
      "\t.Compiler\t\t            = '" + compilerAlias + "' \n " +
      "\t.CompilerInputFiles\t\t  = { " + JoinWith("\n\t\t\t", Quoted(inputs)) + " }\n" +
      "\t.CompilerOutputPath\t\t  = '" + g.outputPath + "'\n" +
      "\t.CompilerOutputExtension\t\t  = '" + g.outputExt + "'\n" +
      "\t" + BffArguments(g.compilerArguments, additional, settings.appendGlobalDefines) + "\n" +
      pch +
      (if dependencyString != "" then "\t.PreBuildDependencies\t\t   = { " + dependencyString + " } \n " else "");
    AliasHasNoQuote(n);
    RecordNamesItsNode("ObjectList", Alias(n), fields);
    Framed("ObjectList", Alias(n), fields)
  }

  /** `Compiler.ToString`; the extra files come from `GetExtraFiles`. */
  function CompilerRecord(alias: string, tool: Tool, extraFiles: seq<string>): (r: string)
    requires '\'' !in alias
    ensures RecordAlias(r) == Some(alias)
  {
    var extras := seq(|extraFiles|, k requires 0 <= k < |extraFiles| => "\t\t'" + extraFiles[k] + "'");
    var fields :=
      "\t.Executable\t\t            = '" + tool.execPath + "' \n " +
      "\t.ExtraFiles\t\t  = { " + JoinWith("\n\t\t\t", extras) + " }\n";
    RecordNamesItsNode("Compiler", alias, fields);
    Framed("Compiler", alias, fields)
  }

  // ----- LinkAction -----

  /** `AdditionalArgumentsToString`. The `Unknown` platform that throws is
      never constructed (see `Tools.Platform`). */
  function LibraryPathArgument(forceBaseIncludePaths: bool, platform: Platform): string {
    if !forceBaseIncludePaths then ""
    else if platform == Amd64 then " $BaseLibraryPathsx64$"
    else " $BaseLibraryPathsx86$"
  }

  /** The linker command line and inputs shared by `ToLibString` and
      `ToDllString`, with the sidecar response file written on the way. */
  datatype Invocation = Invocation(options: string, libraryInputs: seq<string>, responseFile: ResponseFile)

  /** The common first half of `ToLibString` and `ToDllString`. The one input
      (the response file) becomes `%1` and the output `%2` in the arguments.
      The response file is split; when it yields inputs, the sidecar is put in
      front of `%1`, otherwise the sidecar itself is the only input. */
  function LinkInvocation(arguments: string, inputs: seq<string>, outputLibrary: string,
                          fs: FileSystem, resolvable: seq<nat>, store: Store): (r: Result<Invocation>)
    ensures r.Failure? <==> |inputs| != 1 || inputs[0] == "" || outputLibrary == "" || inputs[0] !in fs
    ensures |inputs| != 1 ==> r == Failure(UnsupportedInputCount(|inputs|))
    ensures r.Success? ==> Success(r.value.responseFile) == ResponseFileOf(fs, inputs[0], resolvable, store)
    ensures r.Success? ==> |r.value.libraryInputs| > 0
    ensures r.Success? && |r.value.responseFile.inputs| > 0 ==> r.value.libraryInputs == r.value.responseFile.inputs
    ensures r.Success? && |r.value.responseFile.inputs| == 0 ==> r.value.libraryInputs == [inputs[0] + ".fbuild"]
  {
    if |inputs| != 1 then Failure(UnsupportedInputCount(|inputs|))
    else
      var withInput :- Replace(arguments, inputs[0], "%1");
      var withOutput :- Replace(withInput, outputLibrary, "%2");
      var rf :- ResponseFileOf(fs, inputs[0], resolvable, store);
      if |rf.inputs| > 0 then
        Success(Invocation(ReplaceAll(withOutput, "%1", rf.sidecarPath + "\" \"%1"), rf.inputs, rf))
      else
        Success(Invocation(withOutput, [rf.sidecarPath], rf))
  }

  /** `%1` and `%2` can never overlap. */
  lemma PlaceholdersApart()
    ensures Apart("%1", "%2")
  {
    var p, x := "%1", "%2";
    forall d | -2 < d < 2 ensures !Clash(p, x, d) {
      if d < 0 { assert p[0] != x[-d]; }
      else if d == 0 { assert p[1] != x[1]; }
      else { assert p[1] != x[0]; }
    }
  }

  /** The linker options name the response file as `%1` and the output as
      `%2`. When the response file resolves to inputs, the sidecar is put
      back in front of `%1`; otherwise neither path is left in the options.
      Each clause holds for paths that cannot overlap the placeholders or
      each other. */
  lemma LinkOptions(arguments: string, inputs: seq<string>, outputLibrary: string,
                    fs: FileSystem, resolvable: seq<nat>, store: Store)
    requires LinkInvocation(arguments, inputs, outputLibrary, fs, resolvable, store).Success?
    ensures |inputs| == 1
    ensures var r := LinkInvocation(arguments, inputs, outputLibrary, fs, resolvable, store).value;
      var input := inputs[0];
      && r.responseFile.sidecarPath == input + ".fbuild"
      && (|r.responseFile.inputs| > 0 && Contains(arguments, input) && Apart(outputLibrary, "%1") ==>
            Contains(r.options, r.responseFile.sidecarPath + "\" \"%1"))
      && (|r.responseFile.inputs| == 0 && Contains(arguments, input) && Apart(outputLibrary, "%1") ==>
            Contains(r.options, "%1"))
      && (Contains(arguments, outputLibrary) && Apart(input, outputLibrary) ==> Contains(r.options, "%2"))
      && (|r.responseFile.inputs| == 0 && Apart("%1", input) && Apart("%2", input) ==> !Contains(r.options, input))
      && (|r.responseFile.inputs| == 0 && Apart("%2", outputLibrary) ==> !Contains(r.options, outputLibrary))
  {
    var r := LinkInvocation(arguments, inputs, outputLibrary, fs, resolvable, store).value;
    var input := inputs[0];
    var withInput := ReplaceAll(arguments, input, "%1");
    var withOutput := ReplaceAll(withInput, outputLibrary, "%2");
    var resolved := |r.responseFile.inputs| > 0;
    var tail := r.responseFile.sidecarPath + "\" \"%1";
    assert r.options == if resolved then ReplaceAll(withOutput, "%1", tail) else withOutput;
    if Contains(arguments, input) && Apart(outputLibrary, "%1") {
      ReplaceIntroduces(arguments, input, "%1");
      ReplaceKeeps(withInput, outputLibrary, "%2", "%1");
      if resolved {
        ReplaceIntroduces(withOutput, "%1", tail);
      }
    }
    if Contains(arguments, outputLibrary) && Apart(input, outputLibrary) {
      ReplaceKeeps(arguments, input, "%1", outputLibrary);
      ReplaceIntroduces(withInput, outputLibrary, "%2");
      if resolved {
        PlaceholdersApart();
        ReplaceKeeps(withOutput, "%1", tail, "%2");
      }
    }
    if !resolved && Apart("%1", input) && Apart("%2", input) {
      ReplaceRemoves(arguments, input, "%1");
      ReplaceCreatesNone(withInput, outputLibrary, "%2", input);
    }
    if !resolved && Apart("%2", outputLibrary) {
      ReplaceRemoves(withInput, outputLibrary, "%2");
    }
  }

  /** `ToLibString`. `systemInputs` is never filled by
      `GetResponseFileInputs`, so its block is never printed; the additional
      inputs block always is, because the inputs are never empty. */
  function LibRecord(n: Node, inv: Invocation, settings: RecordSettings): (r: string)
    requires n.body.Library?
    ensures RecordAlias(r) == Some(Alias(n))
  {
    var b := n.body;
    var fields :=
      "\t.Compiler\t\t = 'Null'\n" +
      "\t.CompilerOptions\t\t = '%1 %2 %3'\n" +
      "\t.CompilerOutputPath\t\t = ' '\n" +
      "\t.Librarian\t\t            = '" + b.linker.execPath + "' \n " +
      "\t.LibrarianOutput\t\t  =  '" + b.outputLibrary + "' \n" +
      "\t.LibrarianOptions\t\t = '" + inv.options + LibraryPathArgument(settings.forceBaseIncludePaths, b.linker.platform) + "'\n" +
      (if |inv.libraryInputs| > 0
       then "\t.LibrarianAdditionalInputs\t\t   = { " + JoinWith("\n\t\t\t", Quoted(inv.libraryInputs)) + " } \n "
       else "");
    AliasHasNoQuote(n);
    RecordNamesItsNode("Library", Alias(n), fields);
    Framed("Library", Alias(n), fields)
  }

  /** `ToDllString`: as `ToLibString` but the output is replaced once more. */
  function DllRecord(n: Node, inv: Invocation, settings: RecordSettings): (r: string)
    requires n.body.Library? && n.body.outputLibrary != ""
    ensures RecordAlias(r) == Some(Alias(n))
  {
    var b := n.body;
    var options := ReplaceAll(inv.options, b.outputLibrary, "%2");
    var fields :=
      "\t.LinkerLinkObjects\t\t = false\n" +
      "\t.Linker\t\t            = '" + b.linker.execPath + "' \n " +
      "\t.LinkerOutput\t\t  =  '" + b.outputLibrary + "' \n" +
      "\t.LinkerOptions\t\t = '" + options + LibraryPathArgument(settings.forceBaseIncludePaths, b.linker.platform) + "'\n" +
      "\t.Libraries\t\t   = { " + JoinWith("\n\t\t\t", Quoted(inv.libraryInputs)) + " } \n ";
    AliasHasNoQuote(n);
    RecordNamesItsNode("DLL", Alias(n), fields);
    Framed("DLL", Alias(n), fields)
  }

  /** Everything a record needs besides its node: the response files, the
      build mode and the two gathered lists a response-file line may resolve
      to, and the compiler aliases in `Compilers` order. `compilation` is
      `CompilationActions` in gathering order; `linker` is `LinkerActions`,
      which in two-pass mode the link script has already reordered in place
      when the records are printed. */
  datatype RecordContext = RecordContext(
    settings: RecordSettings,
    fs: FileSystem,
    singlePass: bool,
    compilation: seq<nat>,
    linker: seq<nat>,
    compilerKeys: seq<string>)

  /** The nodes a response-file line may resolve to: `AllActions` (the
      compilation list followed by the linker list) in single-pass mode,
      `LinkerActions` alone otherwise. */
  function Resolvable(ctx: RecordContext): (r: seq<nat>)
    ensures ctx.singlePass ==> |r| == |ctx.compilation| + |ctx.linker| && r[..|ctx.compilation|] == ctx.compilation
    ensures ctx.singlePass ==> forall k :: 0 <= k < |ctx.linker| ==> r[|ctx.compilation| + k] == ctx.linker[k]
    ensures !ctx.singlePass ==> r == ctx.linker
  {
    if ctx.singlePass then ctx.compilation + ctx.linker else ctx.linker
  }

  /** In two-pass mode only link nodes are consulted: a response-file line
      is never turned into the alias of an object list, even when an object
      list produces the file it names. */
  lemma TwoPassResolvesOnlyLinks(ctx: RecordContext, store: Store, line: string)
    requires !ctx.singlePass
    requires forall k :: 0 <= k < |ctx.linker| && ctx.linker[k] in store ==> !store[ctx.linker[k]].body.ObjectList?
    ensures var r := FindProducer(Resolvable(ctx), store, Unquoted(line));
      r.Some? ==> store[r.value].body.Library?
    ensures (forall h :: h in store && store[h].body.Library? ==> !Produces(store[h], Unquoted(line))) ==>
              ResolveLine(Resolvable(ctx), store, line) == Unquoted(line)
  {
    var r := FindProducer(Resolvable(ctx), store, Unquoted(line));
    if r.Some? {
      var i :| 0 <= i < |ctx.linker| && ctx.linker[i] == r.value;
    }
  }

  /** In single-pass mode a line naming a file that an object list produces
      resolves to that list's alias when no earlier compilation node
      produces the file. */
  lemma SinglePassResolvesObjects(ctx: RecordContext, store: Store, line: string, i: nat)
    requires ctx.singlePass
    requires i < |ctx.compilation| && ctx.compilation[i] in store
    requires Produces(store[ctx.compilation[i]], Unquoted(line))
    requires forall k :: 0 <= k < i && ctx.compilation[k] in store ==> !Produces(store[ctx.compilation[k]], Unquoted(line))
    ensures ResolveLine(Resolvable(ctx), store, line) == Alias(store[ctx.compilation[i]])
  {
    var all := Resolvable(ctx);
    var path := Unquoted(line);
    assert all[i] == ctx.compilation[i] by {
      assert all[..|ctx.compilation|][i] == all[i];
    }
    forall k | 0 <= k < i ensures all[k] == ctx.compilation[k] {
      assert all[..|ctx.compilation|][k] == all[k];
    }
    var r := FindProducer(all, store, path);
    var j :| 0 <= j < |all| && all[j] == r.value &&
               (forall k :: 0 <= k < j && all[k] in store ==> !Produces(store[all[k]], path));
    assert j <= i;
    assert r.value == all[i];
  }

  /** The first position of `key` in `keys`. */
  function Position(keys: seq<string>, key: string): (r: nat)
    requires key in keys
    ensures r < |keys| && keys[r] == key && key !in keys[..r]
  {
    if keys[0] == key then 0
    else
      var r := Position(keys[1..], key);
      assert keys[..r + 1] == [keys[0]] + keys[1..][..r];
      r + 1
  }

  /** `Compiler.Alias` for the compiler cached under `key`: `Compiler-N` by
      position in `Compilers`; the null alias (printed empty) when it has
      none. */
  function CompilerAlias(keys: seq<string>, key: string): (r: string)
    ensures '\'' !in r
    ensures r == "" <==> key !in keys
  {
    if key !in keys then ""
    else
      var digits := NatToString(Position(keys, key));
      assert forall i :: 0 <= i < |digits| ==> digits[i] != '\'';
      "Compiler-" + digits
  }

  /** `FastbuildAction.ToString` dispatched on the node's class. A link
      action prints as a `Library` when its output ends in `.lib` and as a
      `DLL` otherwise. */
  function NodeRecord(n: Node, store: Store, ctx: RecordContext): (r: Result<string>)
    requires forall d :: d in n.dependencies ==> d in store
    ensures r.Success? ==> RecordAlias(r.value) == Some(Alias(n))
    ensures n.body.ObjectList? ==> r.Success?
    ensures n.body.Exec? ==> (r.Success? <==> ExecOutput(n.body.arguments).Success?)
    ensures n.body.Library? ==>
              (r.Success? <==> LinkInvocation(n.body.arguments, n.body.inputs, n.body.outputLibrary, ctx.fs, Resolvable(ctx), store).Success?)
  {
    match n.body
    case ObjectList(g) => Success(ObjectListRecord(n, store, ctx.settings, CompilerAlias(ctx.compilerKeys, g.compilerKey)))
    case Exec(_, _) => ExecRecord(n, store)
    case Library(arguments, _, outputLibrary, _, inputs, _) =>
      var inv :- LinkInvocation(arguments, inputs, outputLibrary, ctx.fs, Resolvable(ctx), store);
      if LinkerTypeOf(outputLibrary) == Static then Success(LibRecord(n, inv, ctx.settings))
      else Success(DllRecord(n, inv, ctx.settings))
  }
}
