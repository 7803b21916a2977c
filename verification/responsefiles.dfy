/** `LinkAction.GetResponseFileInputs`: splitting a linker response file into
    the inputs FASTBuild should see and a sidecar response file.

    Every line whose unquoted form is a rooted path is taken out of the
    response file and becomes an input: the alias of the first resolvable
    node that produces it, or the unquoted path itself. The remaining lines
    are written, in order, to the sidecar file `<file>.fbuild`. The file
    system is a parameter: a map from path to the file's lines. */
module ResponseFiles {
  import opened Outcomes
  import opened Text
  import opened Paths
  import opened Nodes

  type FileSystem = map<string, seq<string>>

  /** The line with its quotes stripped. */
  function Unquoted(line: string): (r: string)
    ensures '"' !in r
  {
    ReplaceRemovesChar(line, '"');
    ReplaceAll(line, "\"", "")
  }

  /** A line naming a project file: its unquoted form is rooted. */
  predicate IsProjectLine(line: string) {
    IsPathRooted(Unquoted(line))
  }

  /** Node `n` produces the file `path`: a library with that output or
      import library, or an object list with that object file or with that
      precompiled-header object. */
  predicate Produces(n: Node, path: string) {
    match n.body
    case Library(_, _, outputLibrary, importLibrary, _, _) => importLibrary == Some(path) || outputLibrary == path
    case ObjectList(g) =>
      path in ActionOutputs(g) ||
      (g.pch.Some? && ChangeExtension(g.pch.value.output, g.outputExt) == path)
    case Exec(_, _) => false
  }

  /** The first resolvable node that produces `path`. */
  function FindProducer(resolvable: seq<nat>, store: Store, path: string): (r: Option<nat>)
    ensures r.Some? ==> r.value in resolvable && r.value in store && Produces(store[r.value], path)
    ensures r.None? ==> forall k :: 0 <= k < |resolvable| && resolvable[k] in store ==> !Produces(store[resolvable[k]], path)
    ensures r.Some? ==>
              exists i :: 0 <= i < |resolvable| && resolvable[i] == r.value &&
                (forall k :: 0 <= k < i && resolvable[k] in store ==> !Produces(store[resolvable[k]], path))
  {
    if |resolvable| == 0 then None
    else if resolvable[0] in store && Produces(store[resolvable[0]], path) then
      assert resolvable[0] == resolvable[0];
      Some(resolvable[0])
    else
      var r := FindProducer(resolvable[1..], store, path);
      assert forall k :: 0 < k < |resolvable| ==> resolvable[k] == resolvable[1..][k - 1];
      if r.None? then r
      else
        var i :| 0 <= i < |resolvable[1..]| && resolvable[1..][i] == r.value &&
                   (forall k :: 0 <= k < i && resolvable[1..][k] in store ==> !Produces(store[resolvable[1..][k]], path));
        assert resolvable[i + 1] == r.value;
        r
  }

  /** What a project line becomes among the inputs. */
  function ResolveLine(resolvable: seq<nat>, store: Store, line: string): string {
    var path := Unquoted(line);
    match FindProducer(resolvable, store, path)
    case Some(h) => Alias(store[h])
    case None => path
  }

  /** The lines that stay in the sidecar file, in order. */
  function SidecarLines(lines: seq<string>): (r: seq<string>)
    ensures forall k :: 0 <= k < |r| ==> !IsProjectLine(r[k])
  {
    if |lines| == 0 then []
    else SidecarLines(lines[..|lines| - 1]) + (if IsProjectLine(lines[|lines| - 1]) then [] else [lines[|lines| - 1]])
  }

  /** The project lines, resolved, in order. */
  function ProjectInputs(resolvable: seq<nat>, store: Store, lines: seq<string>): seq<string> {
    if |lines| == 0 then []
    else
      var last := lines[|lines| - 1];
      ProjectInputs(resolvable, store, lines[..|lines| - 1]) +
      (if IsProjectLine(last) then [ResolveLine(resolvable, store, last)] else [])
  }

  datatype ResponseFile = ResponseFile(sidecarPath: string, sidecar: seq<string>, inputs: seq<string>)

  /** What reading and splitting `file` yields: the sidecar `<file>.fbuild`
      with the lines that stay, and the resolved project lines. */
  function ResponseFileOf(fs: FileSystem, file: string, resolvable: seq<nat>, store: Store): (r: Result<ResponseFile>)
    ensures r.Failure? <==> file !in fs
  {
    if file !in fs then Failure(FileNotFound(file))
    else Success(ResponseFile(file + ".fbuild", SidecarLines(fs[file]), ProjectInputs(resolvable, store, fs[file])))
  }

  /** `GetResponseFileInputs`: reads `file`, resolves its project lines
      against `resolvable` and returns the sidecar path (the new value of the
      `ref` parameter), the sidecar's lines and the inputs. */
  method GetResponseFileInputs(fs: FileSystem, file: string, resolvable: seq<nat>, store: Store)
    returns (r: Result<ResponseFile>)
    ensures r.Failure? <==> file !in fs
    ensures r.Failure? ==> r.error == FileNotFound(file)
    ensures r.Success? ==> r.value.sidecarPath == file + ".fbuild"
    ensures r.Success? ==> r.value.sidecar == SidecarLines(fs[file])
    ensures r.Success? ==> r.value.inputs == ProjectInputs(resolvable, store, fs[file])
    ensures r == ResponseFileOf(fs, file, resolvable, store)
  {
    if file !in fs {
      return Failure(FileNotFound(file));
    }
    var lines := fs[file];
    var inputs: seq<string> := [];
    var unresolved := lines;
    for i := 0 to |lines|
      invariant unresolved == SidecarLines(lines[..i]) + lines[i..]
      invariant inputs == ProjectInputs(resolvable, store, lines[..i])
    {
      SidecarStep(lines, i);
      InputsStep(resolvable, store, lines, i);
      var line := lines[i];
      var resolved := Unquoted(line);
      if !IsPathRooted(resolved) {
        continue;
      }
      var m := FindProducer(resolvable, store, resolved);
      unresolved := RemoveFirst(unresolved, line);
      if m.Some? {
        resolved := Alias(store[m.value]);
      }
      inputs := inputs + [resolved];
    }
    assert lines[..|lines|] == lines;
    return Success(ResponseFile(file + ".fbuild", unresolved, inputs));
  }

  /** A project line is never among the sidecar lines. */
  lemma NotAmongSidecarLines(lines: seq<string>, line: string)
    requires IsProjectLine(line)
    ensures line !in SidecarLines(lines)
  {
  }

  /** One iteration of the loop over the lines, on the remaining lines. */
  lemma SidecarStep(lines: seq<string>, i: nat)
    requires i < |lines|
    ensures SidecarLines(lines[..i + 1]) + lines[i + 1..] ==
              if IsProjectLine(lines[i]) then RemoveFirst(SidecarLines(lines[..i]) + lines[i..], lines[i])
              else SidecarLines(lines[..i]) + lines[i..]
  {
    var line := lines[i];
    assert lines[..i + 1][..i] == lines[..i];
    assert lines[i..] == [line] + lines[i + 1..];
    if IsProjectLine(line) {
      assert SidecarLines(lines[..i + 1]) == SidecarLines(lines[..i]);
      NotAmongSidecarLines(lines[..i], line);
      var prefix := SidecarLines(lines[..i]);
      assert prefix + lines[i..] == prefix + [line] + lines[i + 1..];
      RemoveFirstAfterPrefix(prefix, line, lines[i + 1..]);
    } else {
      assert SidecarLines(lines[..i + 1]) == SidecarLines(lines[..i]) + [line];
    }
  }

  /** One iteration of the loop over the lines, on the inputs. */
  lemma InputsStep(resolvable: seq<nat>, store: Store, lines: seq<string>, i: nat)
    requires i < |lines|
    ensures ProjectInputs(resolvable, store, lines[..i + 1]) ==
              ProjectInputs(resolvable, store, lines[..i]) +
              (if IsProjectLine(lines[i]) then [ResolveLine(resolvable, store, lines[i])] else [])
  {
    assert lines[..i + 1][..i] == lines[..i];
  }

  /** Every line goes to exactly one side. */
  lemma {:induction false} LinesPartitioned(resolvable: seq<nat>, store: Store, lines: seq<string>)
    ensures |SidecarLines(lines)| + |ProjectInputs(resolvable, store, lines)| == |lines|
  {
    if |lines| > 0 {
      LinesPartitioned(resolvable, store, lines[..|lines| - 1]);
    }
  }

  /** The sidecar keeps exactly the lines that do not name a rooted path. */
  lemma {:induction false} SidecarMembers(lines: seq<string>, line: string)
    ensures line in SidecarLines(lines) <==> line in lines && !IsProjectLine(line)
  {
    if |lines| > 0 {
      SidecarMembers(lines[..|lines| - 1], line);
      assert lines == lines[..|lines| - 1] + [lines[|lines| - 1]];
    }
  }

  /** With nothing to resolve against, the inputs are the unquoted project
      lines themselves. */
  lemma {:induction false} UnresolvedInputsAreVerbatim(store: Store, lines: seq<string>)
    ensures forall k :: 0 <= k < |ProjectInputs([], store, lines)| ==>
              '"' !in ProjectInputs([], store, lines)[k] && IsPathRooted(ProjectInputs([], store, lines)[k])
  {
    if |lines| > 0 {
      UnresolvedInputsAreVerbatim(store, lines[..|lines| - 1]);
    }
  }
}
