/** Tool identity: the `Linker` and `Compiler` classes of FastBuild.cs.

    A tool is built from the raw executable path of an action. Its path is
    rewritten into a relocatable form (`$VSBasePath$/…` or
    `$WindowsSDKBasePath$/…`), its family is inferred from the executable
    name, and its architecture from the rewritten path. The per-family tables
    of allowed link inputs/outputs and the per-family extractors live here too. */
module Tools {
  import opened Outcomes
  import opened Text
  import opened Patterns

  datatype CompilerType = MSVC | RC | Clang | OrbisClang | OrbisSnarl

  /** `CompilerPlatform` without `Unknown`: a tool whose platform is unknown is
      never constructed, because `DetectPlatform` throws first. */
  datatype Platform = Amd64 | X86

  datatype Tool = Tool(execPath: string, kind: CompilerType, platform: Platform)

  const VSBasePath: string := "$VSBasePath$"
  const WindowsSDKBasePath: string := "$WindowsSDKBasePath$"

  /** `path.Replace('\\', '/').Split('/')`. */
  function PathSegments(p: string): seq<string> {
    Split(ReplaceChar(p, '\\', '/'), '/')
  }

  /** `Array.FindIndex(segments, row => row == name)`. */
  function FindSegment(segs: seq<string>, name: string): (r: int)
    ensures -1 <= r < |segs|
    ensures r >= 0 ==> segs[r] == name && forall k :: 0 <= k < r ==> segs[k] != name
    ensures r == -1 <==> name !in segs
  {
    if |segs| == 0 then -1
    else if segs[0] == name then 0
    else
      var k := FindSegment(segs[1..], name);
      if k < 0 then -1 else k + 1
  }

  /** `"/" + segment` for every segment, concatenated. */
  function Suffixed(segs: seq<string>): string {
    if |segs| == 0 then "" else "/" + segs[0] + Suffixed(segs[1..])
  }

  /** The path rewrite of the VC toolchain (`cl.exe`, `link.exe`, `lib.exe`):
      `$VSBasePath$` plus the segments after the first `VC` segment when that
      segment is not the first one, the empty string otherwise. */
  function VSRelative(p: string): string {
    var segs := PathSegments(p);
    var i := FindSegment(segs, "VC");
    if i > 0 then VSBasePath + Suffixed(segs[i + 1..]) else ""
  }

  /** The path rewrite of `rc.exe`: `$WindowsSDKBasePath$` plus the segments
      after the first `8.1` segment when that segment is not the first one,
      `$WindowsSDKBasePath$` alone otherwise. */
  function SDKRelative(p: string): string {
    var segs := PathSegments(p);
    var i := FindSegment(segs, "8.1");
    WindowsSDKBasePath + (if i > 0 then Suffixed(segs[i + 1..]) else "")
  }

  /** `Linker.LocaliseLinkerPath`: the rewritten path and the family. A VC
      tool is rebased on `$VSBasePath$` (the empty path when it has no `VC`
      segment past the first) and is `MSVC` when it was rebased; an Orbis
      tool keeps its path; anything else keeps path and family. */
  function LocaliseLinkerPath(p: string, kind: CompilerType): (r: (string, CompilerType))
    ensures Contains(p, "link.exe") || Contains(p, "lib.exe") ==>
              && (r.0 == "" <==> FindSegment(PathSegments(p), "VC") <= 0)
              && (r.0 != "" ==> StartsWith(r.0, VSBasePath) && r.1 == MSVC)
              && (r.0 == "" ==> r.1 == kind)
    ensures !Contains(p, "link.exe") && !Contains(p, "lib.exe") ==> r.0 == p
    ensures r.1 in {kind, MSVC, OrbisSnarl, OrbisClang}
  {
    if Contains(p, "link.exe") || Contains(p, "lib.exe") then
      (VSRelative(p), if FindSegment(PathSegments(p), "VC") > 0 then MSVC else kind)
    else if Contains(p, "orbis-snarl.exe") then (p, OrbisSnarl)
    else if Contains(p, "orbis-clang.exe") then (p, OrbisClang)
    else (p, kind)
  }

  /** `Compiler.LocaliseCompilerPath`: the rewritten path and the family.
      `cl.exe` is rebased like a VC linker; `rc.exe` always becomes `RC` and
      is rebased on `$WindowsSDKBasePath$`; any other tool keeps its path. */
  function LocaliseCompilerPath(p: string, kind: CompilerType): (r: (string, CompilerType))
    ensures Contains(p, "cl.exe") ==>
              && (r.0 == "" <==> FindSegment(PathSegments(p), "VC") <= 0)
              && (r.0 != "" ==> StartsWith(r.0, VSBasePath) && r.1 == MSVC)
              && (r.0 == "" ==> r.1 == kind)
    ensures !Contains(p, "cl.exe") && Contains(p, "rc.exe") ==>
              && r.1 == RC && StartsWith(r.0, WindowsSDKBasePath)
              && (FindSegment(PathSegments(p), "8.1") <= 0 ==> r.0 == WindowsSDKBasePath)
    ensures !Contains(p, "cl.exe") && !Contains(p, "rc.exe") ==> r.0 == p && r.1 in {kind, OrbisClang}
  {
    if Contains(p, "cl.exe") then
      (VSRelative(p), if FindSegment(PathSegments(p), "VC") > 0 then MSVC else kind)
    else if Contains(p, "rc.exe") then (SDKRelative(p), RC)
    else if Contains(p, "orbis-clang.exe") then (p, OrbisClang)
    else (p, kind)
  }

  /** `Linker.DetectPlatform`: architecture from substrings of the path. */
  function DetectPlatform(p: string): (r: Result<Platform>)
    ensures r == Success(Amd64) <==> Contains(p, "amd64") || Contains(p, "x64")
    ensures r == Success(X86) <==> !Contains(p, "amd64") && !Contains(p, "x64") && Contains(p, "x86")
    ensures r.Failure? <==> !Contains(p, "amd64") && !Contains(p, "x64") && !Contains(p, "x86")
  {
    if Contains(p, "amd64") || Contains(p, "x64") then Success(Amd64)
    else if Contains(p, "x86") then Success(X86)
    else Failure(UnknownPlatform(p))
  }

  /** The `Linker` constructor. `Type` starts as `MSVC`, the enum's default;
      the platform is read from the REWRITTEN path. */
  function NewLinker(raw: string): (r: Result<Tool>)
    ensures r.Success? ==> r.value.kind == MSVC || r.value.kind == OrbisClang || r.value.kind == OrbisSnarl
    ensures r.Success? <==> DetectPlatform(LocaliseLinkerPath(raw, MSVC).0).Success?
    ensures r.Success? ==> r.value.execPath == LocaliseLinkerPath(raw, MSVC).0
  {
    var (p, k) := LocaliseLinkerPath(raw, MSVC);
    var plat :- DetectPlatform(p);
    Success(Tool(p, k, plat))
  }

  /** The `Compiler` constructor: the `Linker` constructor first, then the
      compiler rewrite of the already rewritten path. */
  function NewCompiler(raw: string): (r: Result<Tool>)
    ensures r.Success? <==> NewLinker(raw).Success?
    ensures r.Success? ==> r.value.platform == NewLinker(raw).value.platform
    ensures r.Success? ==>
              (r.value.execPath, r.value.kind) == LocaliseCompilerPath(NewLinker(raw).value.execPath, NewLinker(raw).value.kind)
  {
    var linker :- NewLinker(raw);
    var (p, k) := LocaliseCompilerPath(linker.execPath, linker.kind);
    Success(Tool(p, k, linker.platform))
  }

  /** The compiler built from a raw path that names no VC linker: the
      linker rewrite keeps the path, so the compiler rewrite sees the raw
      path itself. A `cl.exe` is rebased on `$VSBasePath$` and is MSVC (or
      has the empty path without a `VC` segment past the first); an
      `rc.exe` is rebased on `$WindowsSDKBasePath$` and is RC; anything
      else keeps its raw path. */
  lemma CompilerFromRawPath(raw: string)
    requires !Contains(raw, "link.exe") && !Contains(raw, "lib.exe")
    ensures NewCompiler(raw).Success? ==> NewCompiler(raw).value.execPath == LocaliseCompilerPath(raw, MSVC).0
    ensures NewCompiler(raw).Success? && Contains(raw, "cl.exe") && FindSegment(PathSegments(raw), "VC") > 0 ==>
              StartsWith(NewCompiler(raw).value.execPath, VSBasePath) && NewCompiler(raw).value.kind == MSVC
    ensures NewCompiler(raw).Success? && Contains(raw, "cl.exe") && FindSegment(PathSegments(raw), "VC") <= 0 ==>
              NewCompiler(raw).value.execPath == ""
    ensures NewCompiler(raw).Success? && !Contains(raw, "cl.exe") && Contains(raw, "rc.exe") ==>
              StartsWith(NewCompiler(raw).value.execPath, WindowsSDKBasePath) && NewCompiler(raw).value.kind == RC
    ensures NewCompiler(raw).Success? && !Contains(raw, "cl.exe") && !Contains(raw, "rc.exe") ==>
              NewCompiler(raw).value.execPath == raw
  {
  }

  /** `Linker.IsKnownLinker`, applied to the raw command path. */
  predicate IsKnownLinker(p: string) {
    Contains(p, "lib.exe") || Contains(p, "link.exe") || Contains(p, "orbis-clang.exe") || Contains(p, "orbis-snarl.exe")
  }

  /** `AllowedInputTypes`; `None` is the null list of the families without one. */
  function AllowedInputTypes(k: CompilerType): Option<seq<string>> {
    match k
    case MSVC => Some([".response", ".lib", ".obj"])
    case OrbisClang => Some([".response", ".a"])
    case OrbisSnarl => Some([".response", ".a"])
    case RC => None
    case Clang => None
  }

  /** `AllowedOutputTypes`; `None` is the null list of the families without one. */
  function AllowedOutputTypes(k: CompilerType): Option<seq<string>> {
    match k
    case MSVC => Some([".dll", ".lib", ".exe"])
    case OrbisClang => Some([".self", ".a", ".so"])
    case OrbisSnarl => Some([".self", ".a", ".so"])
    case RC => None
    case Clang => None
  }

  /** Every family a linker can have carries both extension tables. */
  lemma LinkerTablesExist(raw: string)
    requires NewLinker(raw).Success?
    ensures AllowedInputTypes(NewLinker(raw).value.kind).Some?
    ensures AllowedOutputTypes(NewLinker(raw).value.kind).Some?
  {
  }

  /** `Linker.InputFileRegex`. */
  function LinkInputPattern(k: CompilerType): Pattern {
    if k == OrbisClang then Pattern(["\""], UpToQuote) else Pattern(["@\""], UpToQuote)
  }

  /** `Linker.OutputFileRegex`. */
  function LinkOutputPattern(k: CompilerType): Pattern {
    match k
    case MSVC => Pattern(["/OUT: \"", "/OUT:\""], UpToQuote)
    case RC => Pattern(["/OUT: \"", "/OUT:\""], UpToQuote)
    case Clang => Pattern(["-o \"", "-o\""], UpToQuote)
    case OrbisClang => Pattern(["-o \"", "-o\""], UpToQuote)
    case OrbisSnarl => Pattern(["\""], UpToQuoteAfterA)
  }

  /** `Linker.ImportLibraryRegex`; `None` is the empty pattern `""` returned
      for the non-MSVC families. */
  function ImportLibraryPattern(k: CompilerType): Option<Pattern> {
    if k == MSVC || k == RC then Some(Pattern(["/IMPLIB: \"", "/IMPLIB:\""], UpToQuote)) else None
  }

  /** `Compiler.InputFileRegex`. */
  const CompilerInputPattern: Pattern := Pattern([" \"", "@\""], UpToQuote)

  /** `Compiler.OutputFileRegex`. */
  function CompilerOutputPattern(k: CompilerType): Pattern {
    if k == MSVC || k == RC then Pattern(["/Fo \"", "/Fo\""], UpToQuote) else Pattern(["-o \"", "-o\""], UpToQuote)
  }

  /** `PCHOutputRegex` (the same for every family). */
  const PchOutputPattern: Pattern := Pattern(["/Fp \"", "/Fp\""], UpToQuote)

  // ----- the process-wide caches `Compilers` and `Linkers` -----

  datatype Role = AsCompiler | AsLinker

  function NewTool(role: Role, raw: string): Result<Tool> {
    if role == AsCompiler then NewCompiler(raw) else NewLinker(raw)
  }

  /** Every cached tool is what its constructor builds from its key. */
  ghost predicate Coherent(cache: map<string, Tool>, role: Role) {
    forall k :: k in cache ==> NewTool(role, k) == Success(cache[k])
  }

  /** `Compilers.ContainsKey(path) ? Compilers[path] : (Compilers[path] = new Compiler(path))`. */
  function Lookup(cache: map<string, Tool>, role: Role, raw: string): (r: Result<(Tool, map<string, Tool>)>)
    ensures Coherent(cache, role) ==> (r.Success? <==> NewTool(role, raw).Success?)
    ensures Coherent(cache, role) && r.Success? ==>
              && r.value.0 == NewTool(role, raw).value
              && Coherent(r.value.1, role)
              && r.value.1.Keys == cache.Keys + {raw}
  {
    if raw in cache then Success((cache[raw], cache))
    else
      var t :- NewTool(role, raw);
      Success((t, cache[raw := t]))
  }

  // ----- the path rewrite as a segment-level operation -----

  lemma {:induction false} SplitPartsLackSeparator(s: string, c: char)
    ensures forall k :: 0 <= k < |Split(s, c)| ==> c !in Split(s, c)[k]
    decreases |s|
  {
    var i := FindChar(s, c);
    if i >= 0 {
      var rest := Split(s[i + 1..], c);
      SplitPartsLackSeparator(s[i + 1..], c);
      assert Split(s, c) == [s[..i]] + rest;
      forall k | 1 <= k < |Split(s, c)| ensures c !in Split(s, c)[k] {
        assert Split(s, c)[k] == rest[k - 1];
      }
    }
  }

  lemma {:induction false} SplitPartsWithin(s: string, c: char)
    ensures forall k, ch :: 0 <= k < |Split(s, c)| && ch in Split(s, c)[k] ==> ch in s
    decreases |s|
  {
    var i := FindChar(s, c);
    if i >= 0 {
      var rest := Split(s[i + 1..], c);
      SplitPartsWithin(s[i + 1..], c);
      assert Split(s, c) == [s[..i]] + rest;
      forall k, ch | 0 <= k < |Split(s, c)| && ch in Split(s, c)[k] ensures ch in s {
        if k == 0 {
          assert ch in s[..i];
        } else {
          assert ch in rest[k - 1];
          assert ch in s[i + 1..];
        }
      }
    }
  }

  lemma {:induction false} SuffixedIsJoin(base: string, rest: seq<string>)
    ensures base + Suffixed(rest) == Join([base] + rest, '/')
    decreases |rest|
  {
    if |rest| > 0 {
      SuffixedIsJoin(rest[0], rest[1..]);
      assert ([base] + rest)[1..] == [rest[0]] + rest[1..];
      assert [rest[0]] + rest[1..] == rest;
    }
  }

  /** A path rebased on `base` after its `i`-th segment splits into `base`
      followed by exactly the segments after the `i`-th. */
  lemma RebasedSegments(p: string, base: string, i: nat)
    requires i < |PathSegments(p)|
    requires '/' !in base && '\\' !in base
    ensures PathSegments(base + Suffixed(PathSegments(p)[i + 1..])) == [base] + PathSegments(p)[i + 1..]
  {
    var norm := ReplaceChar(p, '\\', '/');
    var segs := PathSegments(p);
    var rest := segs[i + 1..];
    var parts := [base] + rest;
    SplitPartsLackSeparator(norm, '/');
    SplitPartsWithin(norm, '/');
    assert forall ch :: ch in norm ==> ch != '\\';
    forall k | 0 <= k < |parts| ensures '/' !in parts[k] && '\\' !in parts[k] {
      if k > 0 {
        var j := i + k;
        assert parts[k] == segs[j];
        assert '/' !in segs[j];
        assert forall ch :: ch in segs[j] ==> ch in norm;
      } else {
        assert parts[0] == base;
      }
    }
    SuffixedIsJoin(base, rest);
    var out := base + Suffixed(rest);
    assert out == Join(parts, '/');
    JoinHasNoBackslash(parts);
    assert ReplaceChar(out, '\\', '/') == out;
    SplitJoin(parts, '/');
  }

  /** A rewritten VC path splits into `$VSBasePath$` followed by exactly the
      segments of the raw path that came after its first `VC` segment. */
  lemma VSRelativeSegments(p: string)
    requires FindSegment(PathSegments(p), "VC") > 0
    ensures PathSegments(VSRelative(p)) ==
              [VSBasePath] + PathSegments(p)[FindSegment(PathSegments(p), "VC") + 1..]
  {
    RebasedSegments(p, VSBasePath, FindSegment(PathSegments(p), "VC"));
  }

  /** An `rc.exe` path with an `8.1` segment after the first becomes `RC`
      and splits into `$WindowsSDKBasePath$` followed by exactly the segments
      of the raw path that came after that `8.1`. */
  lemma SDKRelativeSegments(p: string, kind: CompilerType)
    requires !Contains(p, "cl.exe") && Contains(p, "rc.exe")
    requires FindSegment(PathSegments(p), "8.1") > 0
    ensures LocaliseCompilerPath(p, kind).1 == RC
    ensures PathSegments(LocaliseCompilerPath(p, kind).0) ==
              [WindowsSDKBasePath] + PathSegments(p)[FindSegment(PathSegments(p), "8.1") + 1..]
  {
    RebasedSegments(p, WindowsSDKBasePath, FindSegment(PathSegments(p), "8.1"));
  }

  lemma {:induction false} JoinHasNoBackslash(parts: seq<string>)
    requires |parts| >= 1
    requires forall k :: 0 <= k < |parts| ==> '\\' !in parts[k]
    ensures '\\' !in Join(parts, '/')
    decreases |parts|
  {
    if |parts| > 1 {
      JoinHasNoBackslash(parts[1..]);
    }
  }

  /** A `link.exe`/`lib.exe` path without a `VC` segment past the first is
      rewritten to the empty string, on which platform detection throws. */
  lemma VCLinkerNeedsVCSegment(raw: string)
    requires Contains(raw, "link.exe") || Contains(raw, "lib.exe")
    requires FindSegment(PathSegments(raw), "VC") <= 0
    ensures NewLinker(raw).Failure?
  {
    assert LocaliseLinkerPath(raw, MSVC).0 == "";
    assert !Contains("", "amd64") by { assert !OccursAt("", "amd64", IndexOf("", "amd64")); }
    assert !Contains("", "x64") by { assert !OccursAt("", "x64", IndexOf("", "x64")); }
    assert !Contains("", "x86") by { assert !OccursAt("", "x86", IndexOf("", "x86")); }
  }
}
