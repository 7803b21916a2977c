/** The parts of `System.IO.Path` that the translator uses, simplified to
    plain string functions on Windows-style paths: both `\` and `/` separate
    directories, no normalisation of separators, no invalid-character checks. */
module Paths {

  /** `Path.DirectorySeparatorChar` on Windows. */
  const DirectorySeparator: char := '\\'

  predicate IsSeparator(c: char) {
    c == '\\' || c == '/'
  }

  /** The index of the last directory separator, or -1. */
  function LastSeparator(p: string): (r: int)
    ensures -1 <= r < |p|
    ensures r >= 0 ==> IsSeparator(p[r])
    ensures forall k :: r < k < |p| ==> !IsSeparator(p[k])
  {
    if |p| == 0 then -1
    else if IsSeparator(p[|p| - 1]) then |p| - 1
    else LastSeparator(p[..|p| - 1])
  }

  /** The index of the last `c`, or -1. */
  function LastIndexOfChar(s: string, c: char): (r: int)
    ensures -1 <= r < |s|
    ensures r >= 0 ==> s[r] == c
    ensures forall k :: r < k < |s| ==> s[k] != c
  {
    if |s| == 0 then -1
    else if s[|s| - 1] == c then |s| - 1
    else LastIndexOfChar(s[..|s| - 1], c)
  }

  /** `Path.GetDirectoryName`: everything before the last separator. */
  function DirectoryName(p: string): string {
    var i := LastSeparator(p);
    if i < 0 then "" else p[..i]
  }

  /** `Path.GetFileName`: everything after the last separator. */
  function FileName(p: string): (r: string)
    ensures forall k :: 0 <= k < |r| ==> !IsSeparator(r[k])
  {
    p[LastSeparator(p) + 1..]
  }

  /** `Path.GetFileNameWithoutExtension`: the file name up to its last dot. */
  function FileNameWithoutExtension(p: string): (r: string)
    ensures forall k :: 0 <= k < |r| ==> !IsSeparator(r[k])
  {
    var f := FileName(p);
    var d := LastIndexOfChar(f, '.');
    if d < 0 then f else f[..d]
  }

  /** `Path.ChangeExtension`: the path without its extension, then `ext`
      (with a dot added when `ext` lacks one). */
  function ChangeExtension(p: string, ext: string): string {
    var f := FileName(p);
    var d := LastIndexOfChar(f, '.');
    var stem := if d < 0 then p else p[..|p| - |f| + d];
    if |ext| > 0 && ext[0] != '.' then stem + "." + ext else stem + ext
  }

  /** `Path.IsPathRooted` as .NET Framework decides it on Windows: a leading
      separator, or a drive letter followed by `:`. */
  predicate IsPathRooted(p: string) {
    (|p| >= 1 && IsSeparator(p[0])) || (|p| >= 2 && p[1] == ':')
  }

  /** A path made of a directory, a separator and a separator-free name has
      that directory. */
  lemma DirectoryOfJoined(dir: string, sep: char, name: string)
    requires IsSeparator(sep)
    requires forall k :: 0 <= k < |name| ==> !IsSeparator(name[k])
    ensures DirectoryName(dir + [sep] + name) == dir
    ensures FileName(dir + [sep] + name) == name
  {
    var p := dir + [sep] + name;
    var i := LastSeparator(p);
    assert p[|dir|] == sep;
    assert forall k :: |dir| < k < |p| ==> p[k] == name[k - |dir| - 1];
    assert i == |dir|;
    assert p[..|dir|] == dir;
    assert p[|dir| + 1..] == name;
  }
}
