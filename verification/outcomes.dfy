/** Failure-compatible results for the operations of the FASTBuild translator.
    Every exception the C# code can throw on the modelled paths becomes a
    `Failure` carrying one of the `Error` cases below. */
module Outcomes {

  datatype Error =
    /** `DetectPlatform` found neither an amd64/x64 nor an x86 token. */
    | UnknownPlatform(path: string)
    /** .NET `String.Replace` was asked to replace the empty string. */
    | EmptySearchString
    /** `pathExtSplit[Length - 2]` on an output path without a dot. */
    | IndexOutOfRange
    /** `Substring` past the end while shortening an Exec output path. */
    | SubstringOutOfRange
    /** `ExecAction.ToString` found neither a `/Fo"…"` nor a `/OUT:"…"` token. */
    | NoOutputToken
    /** A link record was asked for with a number of inputs other than one. */
    | UnsupportedInputCount(count: nat)
    /** `File.ReadAllLines` / `File.ReadAllText` on a missing file. */
    | FileNotFound(path: string)
    /** A linker type without an allowed-extension table (a null list in C#). */
    | NullReference
    /** The reorder loop did not settle within the given number of passes. */
    | ReorderDiverged
    /** A link action was left without a node ("unaccounted for lib"). */
    | UnaccountedLibrary

  datatype Option<+T> = None | Some(value: T)

  datatype Result<+T> = Success(value: T) | Failure(error: Error) {

    predicate IsFailure() {
      Failure?
    }

    function PropagateFailure<U>(): Result<U>
      requires Failure?
    {
      Failure(error)
    }

    function Extract(): T
      requires Success?
    {
      value
    }
  }

  /** `xs` mapped through `f` in order; the first failure aborts the rest,
      as the first exception thrown inside a `foreach` loop does. */
  function MapAll<A, B>(xs: seq<A>, f: A -> Result<B>): (r: Result<seq<B>>)
    ensures r.Success? <==> forall k :: 0 <= k < |xs| ==> f(xs[k]).Success?
    ensures r.Success? ==> |r.value| == |xs| && forall k :: 0 <= k < |xs| ==> f(xs[k]) == Success(r.value[k])
    ensures r.Failure? ==> exists k :: 0 <= k < |xs| && f(xs[k]) == Failure(r.error) && forall m :: 0 <= m < k ==> f(xs[m]).Success?
  {
    if |xs| == 0 then Success([])
    else
      var b :- f(xs[0]);
      var rest := MapAll(xs[1..], f);
      if rest.Failure? then
        var k :| 0 <= k < |xs| - 1 && f(xs[1..][k]) == Failure(rest.error) && forall m :: 0 <= m < k ==> f(xs[1..][m]).Success?;
        assert f(xs[k + 1]) == Failure(rest.error);
        Failure(rest.error)
      else
        assert forall k :: 0 < k < |xs| ==> xs[k] == xs[1..][k - 1];
        Success([b] + rest.value)
  }
}
