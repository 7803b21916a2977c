/** `DeresponsifyActions`: an action whose whole argument string is
    `@"file"` (optionally after one space) gets the contents of that response
    file as its arguments, with every newline turned into a space.

    The response files are a parameter, a map from path to text; a missing
    file is the exception `File.ReadAllText` throws. The newline is
    `Environment.NewLine`, also a parameter. */
module Deresponsify {
  import opened Outcomes
  import opened Text
  import opened Patterns

  /** The arguments begin with `@"` or ` @"`. */
  predicate IsResponseCall(args: string) {
    StartsWith(args, "@\"") || StartsWith(args, " @\"")
  }

  /** The arguments end with a quote and hold exactly two quotes. */
  predicate WellQuoted(args: string) {
    EndsWith(args, "\"") && CountChar(args, '"') == 2
  }

  /** The actions the loop rewrites, when the regex matches. */
  predicate Eligible(args: string) {
    IsResponseCall(args) && WellQuoted(args)
  }

  /** `(?<=@")(.*?)(?=")`. */
  const ResponsePattern: Pattern := Pattern(["@\""], UpToQuote)

  /** The index just after the opening `@"`. */
  function NameStart(args: string): nat {
    if StartsWith(args, "@\"") then 2 else 3
  }

  /** The text between the two quotes of an eligible argument string. */
  function ResponseFileName(args: string): string
    requires Eligible(args)
  {
    EligibleShape(args);
    args[NameStart(args)..|args| - 1]
  }

  /** One action's arguments after the loop body: unchanged when not
      eligible or when the regex finds no file name; otherwise the file's
      text with newlines replaced, or the exception of a missing file. */
  function DeresponsifyArguments(files: map<string, string>, newLine: string, args: string): (r: Result<string>)
    requires |newLine| > 0
    ensures !Eligible(args) ==> r == Success(args)
    ensures r.Failure? ==> r.error.FileNotFound? && r.error.path !in files
  {
    if !IsResponseCall(args) || !WellQuoted(args) then Success(args)
    else
      match FirstMatch(args, ResponsePattern)
      case None => Success(args)
      case Some(file) =>
        if file !in files then Failure(FileNotFound(file))
        else Success(ReplaceAll(files[file], newLine, " "))
  }

  /** `DeresponsifyActions` over the actions' argument strings, in order; the
      first missing file ends the loop with its exception. */
  function DeresponsifyActions(files: map<string, string>, newLine: string, actions: seq<string>): (r: Result<seq<string>>)
    requires |newLine| > 0
    ensures r.Success? ==> |r.value| == |actions|
    ensures r.Success? ==> forall k :: 0 <= k < |actions| && !Eligible(actions[k]) ==> r.value[k] == actions[k]
    ensures r.Success? ==> forall k :: 0 <= k < |actions| ==>
              DeresponsifyArguments(files, newLine, actions[k]) == Success(r.value[k])
    ensures r.Failure? ==> exists k :: 0 <= k < |actions| && DeresponsifyArguments(files, newLine, actions[k]) == Failure(r.error)
  {
    MapAll(actions, a => DeresponsifyArguments(files, newLine, a))
  }

  // ----- the shape of an eligible argument string -----

  lemma {:induction false} CountAppend(a: string, b: string, c: char)
    ensures CountChar(a + b, c) == CountChar(a, c) + CountChar(b, c)
    decreases |a|
  {
    if |a| == 0 {
      assert a + b == b;
    } else {
      CountAppend(a[1..], b, c);
      assert (a + b)[1..] == a[1..] + b;
    }
  }

  lemma {:induction false} CountZero(s: string, c: char)
    requires CountChar(s, c) == 0
    ensures c !in s
    decreases |s|
  {
    if |s| > 0 {
      CountZero(s[1..], c);
    }
  }

  /** An eligible argument string is an opening `@"`, a name without quotes
      and a closing quote. */
  lemma EligibleShape(args: string)
    requires Eligible(args)
    ensures NameStart(args) <= |args| - 1
    ensures args[NameStart(args) - 1] == '"' && args[NameStart(args) - 2] == '@'
    ensures args[|args| - 1] == '"'
    ensures forall k :: NameStart(args) <= k < |args| - 1 ==> args[k] != '"'
    ensures forall k :: 0 <= k < NameStart(args) - 2 ==> args[k] == ' '
  {
    var start := NameStart(args);
    var head := args[..start];
    assert head == if start == 2 then "@\"" else " @\"";
    assert CountChar(head, '"') == 1;
    assert args == head + args[start..];
    CountAppend(head, args[start..], '"');
    assert |args| - 1 >= start;
    assert args[|args| - 1..] == "\"";
    var name := args[start..|args| - 1];
    assert args[start..] == name + "\"";
    CountAppend(name, "\"", '"');
    CountZero(name, '"');
    forall k | start <= k < |args| - 1 ensures args[k] != '"' {
      assert name[k - start] == args[k];
    }
  }

  // ----- the regex on an eligible argument string -----

  /** The first quote from `q` on is at `e` when nothing before it is a quote
      or a line feed. */
  lemma {:induction false} QuoteAt(s: string, q: nat, e: nat)
    requires q <= e < |s| && s[e] == '"'
    requires forall k :: q <= k < e ==> s[k] != '"' && s[k] != '\n'
    ensures QuoteFrom(s, q) == e
    decreases e - q
  {
    if q < e {
      QuoteAt(s, q + 1, e);
    }
  }

  /** A line feed before the first quote from `q` on stops the scan. */
  lemma {:induction false} LineFeedFirst(s: string, q: nat, n: nat)
    requires q <= n < |s| && s[n] == '\n'
    requires forall k :: q <= k < n ==> s[k] != '"'
    ensures QuoteFrom(s, q) == -1
    decreases n - q
  {
    if q < n {
      LineFeedFirst(s, q + 1, n);
    }
  }

  /** The look-behind `@"` ends at `p` only right after a quote. */
  lemma MarkerAfterQuote(s: string, p: int)
    requires AnyMarkerEndsAt(s, ResponsePattern.markers, p)
    ensures 2 <= p <= |s| && s[p - 1] == '"' && s[p - 2] == '@'
  {
    var m := "@\"";
    assert ResponsePattern.markers == [m];
    assert MarkerEndsAt(s, m, p);
    assert Lower(s[p - 1]) == Lower(m[1]) && Lower(s[p - 2]) == Lower(m[0]);
  }

  /** No match starts strictly between the opening quote and the end of the
      string once the scan there failed. */
  lemma {:induction false} NoLaterMatch(args: string, p: nat)
    requires Eligible(args)
    requires NameStart(args) < p
    ensures MatchesFrom(args, ResponsePattern, p) == []
    decreases |args| + 1 - p
  {
    EligibleShape(args);
    if p <= |args| {
      if AnyMarkerEndsAt(args, ResponsePattern.markers, p) {
        MarkerAfterQuote(args, p);
        assert MatchEnd(args, p, UpToQuote) == -1;
      }
      NoLaterMatch(args, p + 1);
    }
  }

  /** No match starts before the opening quote's end. */
  lemma NoEarlyMarker(args: string, p: nat)
    requires Eligible(args)
    requires p < NameStart(args)
    ensures !AnyMarkerEndsAt(args, ResponsePattern.markers, p)
  {
    EligibleShape(args);
    if AnyMarkerEndsAt(args, ResponsePattern.markers, p) {
      MarkerAfterQuote(args, p);
    }
  }

  /** The regex finds the response file's name exactly when the name holds
      no line feed; otherwise it finds nothing. */
  lemma ResponseFileMatch(args: string)
    requires Eligible(args)
    ensures FirstMatch(args, ResponsePattern) == if '\n' in args then None else Some(ResponseFileName(args))
  {
    EligibleShape(args);
    var start := NameStart(args);
    var pat := ResponsePattern;
    NoEarlyMarker(args, 0);
    NoEarlyMarker(args, 1);
    assert MatchesFrom(args, pat, 0) == MatchesFrom(args, pat, 1);
    assert MatchesFrom(args, pat, 1) == MatchesFrom(args, pat, 2);
    if start == 3 {
      NoEarlyMarker(args, 2);
      assert MatchesFrom(args, pat, 2) == MatchesFrom(args, pat, 3);
    }
    assert AnyMarkerEndsAt(args, pat.markers, start) by {
      assert MarkerEndsAt(args, pat.markers[0], start);
    }
    var name := args[start..|args| - 1];
    if '\n' in args {
      var n :| 0 <= n < |args| && args[n] == '\n';
      assert n >= start;
      assert n < |args| - 1;
      LineFeedFirst(args, start, n);
      NoLaterMatch(args, start + 1);
    } else {
      assert forall k :: start <= k < |args| - 1 ==> args[k] != '\n';
      QuoteAt(args, start, |args| - 1);
      assert MatchesFrom(args, pat, start)[0] == name;
    }
  }

  /** An eligible action whose name has no line feed gets the named file's
      text, newlines replaced by spaces, or fails on a missing file. */
  lemma DeresponsifyReads(files: map<string, string>, newLine: string, args: string)
    requires |newLine| > 0
    requires Eligible(args) && '\n' !in args
    ensures var name := ResponseFileName(args);
      DeresponsifyArguments(files, newLine, args) ==
        if name in files then Success(ReplaceAll(files[name], newLine, " ")) else Failure(FileNotFound(name))
  {
    ResponseFileMatch(args);
  }

  /** An eligible action whose name holds a line feed is left unchanged. */
  lemma LineFeedKeepsArguments(files: map<string, string>, newLine: string, args: string)
    requires |newLine| > 0
    requires Eligible(args) && '\n' in args
    ensures DeresponsifyArguments(files, newLine, args) == Success(args)
  {
    ResponseFileMatch(args);
  }
}
