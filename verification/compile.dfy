/** Compile-action normalisation: `ParseCompilerAction`.

    A compile action is normalised into a one-input `ObjectGroup`: its input
    and output paths are replaced by `%1`/`%2`, a `/Yc` precompiled-header
    build is turned into a `/Yu` use, and the output is split into a directory
    and a double extension. */
module Compile {
  import opened Outcomes
  import opened Text
  import opened Paths
  import opened Patterns
  import opened Tools
  import opened Nodes

  const CompilableExtensions: seq<string> := [".c", ".cpp", ".rc", ".inl"]

  /** What the prerequisite term contributes to a match hash. The C# code
      concatenates a lazy LINQ sequence, whose text is its type name and not
      its contents, so it is the same for every action. */
  const PrerequisiteSequenceText: string :=
    "System.Linq.Enumerable+WhereSelectEnumerableIterator`2[UnrealBuildTool.FileItem,System.String]"

  /** The index of the first token ending in one of `exts`, or -1. */
  function FirstIndexWith(tokens: seq<string>, exts: seq<string>): (r: int)
    ensures -1 <= r < |tokens|
    ensures r == -1 <==> forall k :: 0 <= k < |tokens| ==> !EndsWithAny(tokens[k], exts)
    ensures r >= 0 ==> EndsWithAny(tokens[r], exts) && forall k :: 0 <= k < r ==> !EndsWithAny(tokens[k], exts)
  {
    if |tokens| == 0 then -1
    else if EndsWithAny(tokens[0], exts) then 0
    else
      var k := FirstIndexWith(tokens[1..], exts);
      if k < 0 then -1 else k + 1
  }

  /** The quoted tokens the compiler input pattern finds in the arguments. */
  function InputTokens(a: RawAction): seq<string> {
    Matches(a.commandArguments, CompilerInputPattern)
  }

  /** The chosen input: the first token with a compilable extension, `""`
      when there is none. */
  function CompileInput(tokens: seq<string>): (r: string)
    ensures r == "" <==> forall k :: 0 <= k < |tokens| ==> !EndsWithAny(tokens[k], CompilableExtensions)
    ensures r != "" ==> r in tokens && EndsWithAny(r, CompilableExtensions)
  {
    var k := FirstIndexWith(tokens, CompilableExtensions);
    if k < 0 then ""
    else
      EndsWithAnyLength(tokens[k], CompilableExtensions, 2);
      tokens[k]
  }

  /** The output token the compiler's output pattern finds (`""` if none). */
  function OutputToken(a: RawAction, compiler: Tool): string {
    MatchValue(a.commandArguments, CompilerOutputPattern(compiler.kind))
  }

  /** `"." + second-to-last + "." + last` dot-separated piece of the output,
      with `.h.obj` collapsed to `.obj`; an output without a dot has no
      second-to-last piece. */
  function DoubleExtension(output: string): (r: Result<string>)
    ensures r.Failure? <==> '.' !in output
    ensures r.Failure? ==> r.error == IndexOutOfRange
    ensures r.Success? ==> r.value != ".h.obj" && |r.value| >= 1 && r.value[0] == '.'
  {
    var parts := Split(output, '.');
    if |parts| < 2 then Failure(IndexOutOfRange)
    else
      var ext := "." + parts[|parts| - 2] + "." + parts[|parts| - 1];
      Success(if ext == ".h.obj" then ".obj" else ext)
  }

  /** The precompiled-header step: the options of the PCH build (input as
      `%1`, PCH file as `%2`) and the arguments with `/Yc` turned into `/Yu`. */
  function PchStage(args: string, input: string): (r: Result<(string, Option<PchOptions>)>)
    ensures r.Failure? <==> input == "" || MatchValue(args, PchOutputPattern) == ""
    ensures r.Success? ==> r.value.1.Some?
    ensures r.Success? ==> r.value.1.value.input == input && r.value.1.value.output == MatchValue(args, PchOutputPattern)
    ensures r.Success? ==> r.value.0 == ReplaceAll(args, "/Yc", "/Yu")
    ensures r.Success? ==>
              r.value.1.value.options == ReplaceAll(ReplaceAll(args, input, "%1"), MatchValue(args, PchOutputPattern), "%2")
  {
    var pchOutput := MatchValue(args, PchOutputPattern);
    var o1 :- Replace(args, input, "%1");
    var o2 :- Replace(o1, pchOutput, "%2");
    var yu := ReplaceAll(args, "/Yc", "/Yu");
    Success((yu, Some(PchOptions(o2, input, pchOutput))))
  }

  /** What a successfully parsed group is made of. */
  ghost predicate ParsedFrom(a: RawAction, handle: nat, g: ObjectGroup) {
    var input := CompileInput(InputTokens(a));
    var output := OutputToken(a, g.compiler);
    && NewCompiler(a.commandPath) == Success(g.compiler)
    && g.compilerKey == a.commandPath
    && g.actionInputs == [(handle, input)]
    && input != "" && EndsWithAny(input, CompilableExtensions)
    && output != ""
    && g.outputPath == DirectoryName(output) + [DirectorySeparator]
    && DoubleExtension(output) == Success(g.outputExt)
    && g.localOnly == !a.canExecuteRemotely
    && (g.pch.Some? <==> Contains(a.commandArguments, "/Yc"))
    && (g.pch.Some? ==> g.pch.value.input == input && g.pch.value.output == MatchValue(a.commandArguments, PchOutputPattern))
  }

  /** `ParseCompilerAction`: `None` when the arguments hold no quoted token at
      all; a failure when one of the string replacements is handed an empty
      input, output or PCH path, or the output has no dot. */
  function ParseCompilerAction(a: RawAction, handle: nat): (r: Result<Option<ObjectGroup>>)
    ensures NewCompiler(a.commandPath).Failure? ==> r.Failure?
    ensures r == Success(None) <==> NewCompiler(a.commandPath).Success? && |InputTokens(a)| == 0
    ensures NewCompiler(a.commandPath).Success? && |InputTokens(a)| > 0 && CompileInput(InputTokens(a)) == "" ==>
              r == Failure(EmptySearchString)
    ensures NewCompiler(a.commandPath).Success? && |InputTokens(a)| > 0 ==>
              (r.Failure? <==>
                 || CompileInput(InputTokens(a)) == ""
                 || '.' !in OutputToken(a, NewCompiler(a.commandPath).value)
                 || (Contains(a.commandArguments, "/Yc") && MatchValue(a.commandArguments, PchOutputPattern) == ""))
    ensures r.Success? && r.value.Some? ==> ParsedFrom(a, handle, r.value.value)
  {
    var compiler :- NewCompiler(a.commandPath);
    var tokens := InputTokens(a);
    if |tokens| == 0 then Success(None)
    else
      var args := a.commandArguments;
      var input := CompileInput(tokens);
      var output := OutputToken(a, compiler);
      var stage :- if Contains(args, "/Yc") then PchStage(args, input) else Success((args, None));
      var a1 := ReplaceAll(stage.0, " c ", "");
      var a2 :- Replace(a1, output, "%2");
      var a3 :- Replace(a2, input, "%1");
      var ext :- DoubleExtension(output);
      var outputPath := DirectoryName(output) + [DirectorySeparator];
      var pchText := match stage.1 case None => "" case Some(p) => p.options + p.input + p.output;
      var hash := a3 + outputPath + ext + a.commandPath + pchText + PrerequisiteSequenceText;
      Success(Some(ObjectGroup(hash, a3, outputPath, ext, !a.canExecuteRemotely, stage.1,
                               compiler, a.commandPath, [(handle, input)])))
  }

  // ----- what the normalisation does to the arguments -----

  /** The PCH step leaves no `/Yc` behind, and its options name neither the
      input nor the PCH file: they became `%1` and `%2`. */
  lemma PchPlaceholders(args: string, input: string)
    requires PchStage(args, input).Success?
    ensures var r := PchStage(args, input).value;
      && !Contains(r.0, "/Yc")
      && (Contains(args, "/Yc") ==> Contains(r.0, "/Yu"))
      && (Apart("%1", input) && Apart("%2", input) ==> !Contains(r.1.value.options, input))
      && (Apart("%2", r.1.value.output) ==> !Contains(r.1.value.options, r.1.value.output))
      && (Contains(args, input) && Apart(r.1.value.output, "%1") ==> Contains(r.1.value.options, "%1"))
      && (Contains(args, r.1.value.output) && Apart(input, r.1.value.output) ==> Contains(r.1.value.options, "%2"))
  {
    var pch := MatchValue(args, PchOutputPattern);
    var o1 := ReplaceAll(args, input, "%1");
    YuApartFromYc();
    ReplaceRemoves(args, "/Yc", "/Yu");
    if Contains(args, "/Yc") {
      ReplaceIntroduces(args, "/Yc", "/Yu");
    }
    if Apart("%1", input) && Apart("%2", input) {
      ReplaceRemoves(args, input, "%1");
      ReplaceCreatesNone(o1, pch, "%2", input);
    }
    if Apart("%2", pch) {
      ReplaceRemoves(o1, pch, "%2");
    }
    if Contains(args, input) && Apart(pch, "%1") {
      ReplaceIntroduces(args, input, "%1");
      ReplaceKeeps(o1, pch, "%2", "%1");
    }
    if Contains(args, pch) && Apart(input, pch) {
      ReplaceKeeps(args, input, "%1", pch);
      ReplaceIntroduces(o1, pch, "%2");
    }
  }

  /** A path without `%` that does not start with `digit` can never overlap
      the placeholder `%digit`, in either order. */
  lemma PlaceholderApart(p: string, digit: char)
    requires |p| > 0 && '%' !in p && p[0] != digit
    ensures Apart(['%', digit], p) && Apart(p, ['%', digit])
  {
    var m := ['%', digit];
    forall d | -|p| < d < 2 ensures !Clash(m, p, d) {
      if d <= 0 { assert m[0] != p[-d]; }
      else { assert m[1] != p[0]; }
    }
    forall d | -2 < d < |p| ensures !Clash(p, m, d) {
      if d >= 0 { assert p[d] != m[0]; }
      else { assert p[0] != m[1]; }
    }
  }

  /** `/Yu` and `/Yc` can never overlap. */
  lemma YuApartFromYc()
    ensures Apart("/Yu", "/Yc")
  {
    var p, x := "/Yu", "/Yc";
    forall d | -3 < d < 3 ensures !Clash(p, x, d) {
      if d < 0 { assert p[0] != x[-d]; }
      else if d == 0 { assert p[2] != x[2]; }
      else if d == 1 { assert p[1] != x[0]; }
      else { assert p[2] != x[0]; }
    }
  }

  /** A name for the first two rewrites of `ParseCompilerAction`'s arguments
      (`/Yc` to `/Yu` when present, then every ` c ` dropped), so that the
      lemmas below can speak of them. */
  function Cleaned(args: string): string {
    ReplaceAll(if Contains(args, "/Yc") then ReplaceAll(args, "/Yc", "/Yu") else args, " c ", "")
  }

  /** Unfolds `ParseCompilerAction` into the chain of replacements its
      arguments went through; a proof step for `ArgumentsUsePlaceholders`,
      not a property of its own. */
  lemma ParsedArguments(a: RawAction, handle: nat)
    requires ParseCompilerAction(a, handle).Success? && ParseCompilerAction(a, handle).value.Some?
    ensures var g := ParseCompilerAction(a, handle).value.value;
      var input := CompileInput(InputTokens(a));
      var output := OutputToken(a, g.compiler);
      input != "" && output != "" &&
      g.compilerArguments == ReplaceAll(ReplaceAll(Cleaned(a.commandArguments), output, "%2"), input, "%1")
  {
  }

  /** Cleaning keeps every string that can overlap neither `/Yc` nor ` c `. */
  lemma CleanedKeeps(args: string, x: string)
    requires Contains(args, x) && Apart("/Yc", x) && Apart(" c ", x)
    ensures Contains(Cleaned(args), x)
  {
    if Contains(args, "/Yc") {
      ReplaceKeeps(args, "/Yc", "/Yu", x);
    }
    ReplaceKeeps(if Contains(args, "/Yc") then ReplaceAll(args, "/Yc", "/Yu") else args, " c ", "", x);
  }

  /** The normalised arguments name neither the input nor the output, and
      carry `%1` for an input and `%2` for an output that the arguments
      held, provided the paths cannot overlap each other, the placeholders
      or the switches the normalisation rewrites. */
  lemma ArgumentsUsePlaceholders(a: RawAction, handle: nat)
    requires ParseCompilerAction(a, handle).Success? && ParseCompilerAction(a, handle).value.Some?
    ensures var g := ParseCompilerAction(a, handle).value.value;
      var args := a.commandArguments;
      var input := CompileInput(InputTokens(a));
      var output := OutputToken(a, g.compiler);
      && (Apart("%1", input) ==> !Contains(g.compilerArguments, input))
      && (Apart("%2", output) && Apart("%1", output) ==> !Contains(g.compilerArguments, output))
      && (Contains(args, input) && Apart("/Yc", input) && Apart(" c ", input) && Apart(output, input) ==>
            Contains(g.compilerArguments, "%1"))
      && (Contains(args, output) && Apart("/Yc", output) && Apart(" c ", output) && Apart(input, "%2") ==>
            Contains(g.compilerArguments, "%2"))
  {
    var g := ParseCompilerAction(a, handle).value.value;
    var input := CompileInput(InputTokens(a));
    var output := OutputToken(a, g.compiler);
    var a1 := Cleaned(a.commandArguments);
    var a2 := ReplaceAll(a1, output, "%2");
    ParsedArguments(a, handle);
    if Apart("%1", input) {
      ReplaceRemoves(a2, input, "%1");
    }
    if Apart("%2", output) && Apart("%1", output) {
      ReplaceRemoves(a1, output, "%2");
      ReplaceCreatesNone(a2, input, "%1", output);
    }
    if Contains(a.commandArguments, input) && Apart("/Yc", input) && Apart(" c ", input) && Apart(output, input) {
      CleanedKeeps(a.commandArguments, input);
      ReplaceKeeps(a1, output, "%2", input);
      ReplaceIntroduces(a2, input, "%1");
    }
    if Contains(a.commandArguments, output) && Apart("/Yc", output) && Apart(" c ", output) && Apart(input, "%2") {
      CleanedKeeps(a.commandArguments, output);
      ReplaceIntroduces(a1, output, "%2");
      ReplaceKeeps(a2, input, "%1", "%2");
    }
  }

  /** The match hash does not see prerequisites or the remote-execution flag:
      two actions with the same tool and arguments always batch together. */
  lemma MatchHashIgnoresPrerequisites(a: RawAction, b: RawAction, ha: nat, hb: nat)
    requires a.commandPath == b.commandPath && a.commandArguments == b.commandArguments
    requires ParseCompilerAction(a, ha).Success? && ParseCompilerAction(a, ha).value.Some?
    ensures ParseCompilerAction(b, hb).Success? && ParseCompilerAction(b, hb).value.Some?
    ensures ParseCompilerAction(a, ha).value.value.matchHash == ParseCompilerAction(b, hb).value.value.matchHash
  {
    assert InputTokens(a) == InputTokens(b);
  }

  /** `.h.obj` splits at its dots only one way. */
  lemma HeaderObjectExtension(e1: string, e2: string)
    requires '.' !in e1
    ensures "." + e1 + "." + e2 == ".h.obj" ==> e1 == "h" && e2 == "obj"
  {
    var s := "." + e1 + "." + e2;
    if s == ".h.obj" {
      FindCharAfter(e1, e2, '.');
      assert s[1..] == e1 + ['.'] + e2;
      assert FindChar("h.obj", '.') == 1;
      assert |e1| == 1;
      assert e1 == s[1..2];
      assert e2 == s[3..];
    }
  }

  /** The double extension of `….src.obj` is `.src.obj` (`.obj` for a header). */
  lemma DoubleExtensionOf(x: string, e1: string, e2: string)
    requires '.' !in e1 && '.' !in e2
    ensures DoubleExtension(x + "." + e1 + "." + e2) ==
              Success(if e1 == "h" && e2 == "obj" then ".obj" else "." + e1 + "." + e2)
  {
    LastTwoPieces(x, e1, e2, '.');
    HeaderObjectExtension(e1, e2);
  }

  /** The name part of `stem.ext` without its extension is `stem` when the
      extension has no dot. */
  lemma FileStem(dir: string, sep: char, stem: string, ext: string)
    requires IsSeparator(sep)
    requires forall k :: 0 <= k < |stem| ==> !IsSeparator(stem[k])
    requires forall k :: 0 <= k < |ext| ==> !IsSeparator(ext[k])
    requires '.' !in ext
    ensures FileNameWithoutExtension(dir + [sep] + stem + "." + ext) == stem
  {
    var name := stem + "." + ext;
    assert dir + [sep] + stem + "." + ext == dir + [sep] + name;
    DirectoryOfJoined(dir, sep, name);
    var d := LastIndexOfChar(name, '.');
    assert name[|stem|] == '.';
    assert forall k :: |stem| < k < |name| ==> name[k] == ext[k - |stem| - 1];
    assert d == |stem|;
  }

  /** A separator-free name made of three separator-free pieces. */
  lemma NameWithoutSeparators(stem: string, e1: string, e2: string)
    requires forall k :: 0 <= k < |stem| ==> !IsSeparator(stem[k])
    requires forall k :: 0 <= k < |e1| ==> !IsSeparator(e1[k])
    requires forall k :: 0 <= k < |e2| ==> !IsSeparator(e2[k])
    ensures forall k :: 0 <= k < |stem + "." + e1 + "." + e2| ==> !IsSeparator((stem + "." + e1 + "." + e2)[k])
  {
    var name := stem + "." + e1 + "." + e2;
    forall k | 0 <= k < |name| ensures !IsSeparator(name[k]) {
      if k < |stem| { assert name[k] == stem[k]; }
      else if k == |stem| { assert name[k] == '.'; }
      else if k < |stem| + 1 + |e1| { assert name[k] == e1[k - |stem| - 1]; }
      else if k == |stem| + 1 + |e1| { assert name[k] == '.'; }
      else { assert name[k] == e2[k - |stem| - |e1| - 2]; }
    }
  }

  /** An output named `dir\stem.src.obj` yields the output directory `dir\`
      and the extension `.src.obj`, the two parts a group keeps. */
  lemma OutputLayout(dir: string, stem: string, srcExt: string, objExt: string)
    requires forall k :: 0 <= k < |stem| ==> !IsSeparator(stem[k])
    requires forall k :: 0 <= k < |srcExt| ==> !IsSeparator(srcExt[k])
    requires forall k :: 0 <= k < |objExt| ==> !IsSeparator(objExt[k])
    requires '.' !in srcExt && '.' !in objExt
    requires !(srcExt == "h" && objExt == "obj")
    ensures DirectoryName(dir + "\\" + stem + "." + srcExt + "." + objExt) + [DirectorySeparator] == dir + "\\"
    ensures DoubleExtension(dir + "\\" + stem + "." + srcExt + "." + objExt) == Success("." + srcExt + "." + objExt)
  {
    var name := stem + "." + srcExt + "." + objExt;
    NameWithoutSeparators(stem, srcExt, objExt);
    assert dir + "\\" + stem + "." + srcExt + "." + objExt == dir + ['\\'] + name;
    DirectoryOfJoined(dir, '\\', name);
    assert dir + "\\" + stem + "." + srcExt + "." + objExt == (dir + "\\" + stem) + "." + srcExt + "." + objExt;
    DoubleExtensionOf(dir + "\\" + stem, srcExt, objExt);
  }

  /** The object file a group expects for the input `srcdir\stem.src` is
      `dir\stem.src.obj` when the group writes to `dir\` with extension
      `.src.obj`: the output the compile action itself declared. */
  lemma ActionOutputOf(g: ObjectGroup, k: nat, dir: string, srcDir: string,
                       stem: string, srcExt: string, objExt: string)
    requires k < |g.actionInputs|
    requires forall i :: 0 <= i < |stem| ==> !IsSeparator(stem[i])
    requires forall i :: 0 <= i < |srcExt| ==> !IsSeparator(srcExt[i])
    requires '.' !in srcExt
    requires g.outputPath == dir + "\\"
    requires g.outputExt == "." + srcExt + "." + objExt
    requires g.actionInputs[k].1 == srcDir + "\\" + stem + "." + srcExt
    ensures ActionOutputs(g)[k] == dir + "\\" + stem + "." + srcExt + "." + objExt
  {
    FileStem(srcDir, '\\', stem, srcExt);
    assert srcDir + "\\" + stem + "." + srcExt == srcDir + ['\\'] + stem + "." + srcExt;
  }
}
