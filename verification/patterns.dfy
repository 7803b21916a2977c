/** The translator's regular expressions, each written out as the left-to-right
    scan the .NET engine performs for it (with `RegexOptions.IgnoreCase`).

    Every extractor in FastBuild.cs has the shape
      `(?<=MARKER)(.*?)(?=")`        — lazily up to the next quote, or
      `(?<=MARKER)(.*?.a)(?=")`      — lazily up to a quote preceded by `a`;
    the look-behind accepts any of a few alternative markers and `.` matches
    anything but a line feed. After a match the scan resumes at its end, one
    character further on when the match was empty. */
module Patterns {
  import opened Outcomes

  /** ASCII case folding, the part of `IgnoreCase` that the markers need. */
  function Lower(c: char): char {
    if 'A' <= c <= 'Z' then (c as int + 32) as char else c
  }

  predicate SameIgnoringCase(a: string, b: string) {
    |a| == |b| && forall k :: 0 <= k < |a| ==> Lower(a[k]) == Lower(b[k])
  }

  /** The look-behind `(?<=m)` holds at position `p`. */
  predicate MarkerEndsAt(s: string, m: string, p: int) {
    |m| <= p <= |s| && SameIgnoringCase(s[p - |m|..p], m)
  }

  predicate AnyMarkerEndsAt(s: string, markers: seq<string>, p: int) {
    exists k :: 0 <= k < |markers| && MarkerEndsAt(s, markers[k], p)
  }

  datatype Tail =
    /** `(.*?)(?=")` */
    | UpToQuote
    /** `(.*?.a)(?=")` */
    | UpToQuoteAfterA

  datatype Pattern = Pattern(markers: seq<string>, tail: Tail)

  /** The first quote at or after `q`, provided no line feed comes before it. */
  function QuoteFrom(s: string, q: nat): (r: int)
    ensures r == -1 || (q <= r < |s| && s[r] == '"')
    ensures r >= 0 ==> forall k :: q <= k <= r ==> s[k] != '\n'
    ensures r >= 0 ==> forall k :: q <= k < r ==> s[k] != '"'
    decreases |s| - q
  {
    if q >= |s| || s[q] == '\n' then -1
    else if s[q] == '"' then q
    else QuoteFrom(s, q + 1)
  }

  /** The end of `(.*?.a)(?=")` started at `p`, scanning candidate ends from `q`. */
  function QuoteAfterAFrom(s: string, p: nat, q: nat): (r: int)
    ensures r == -1 || (q <= r < |s| && p + 2 <= r && s[r] == '"' && Lower(s[r - 1]) == 'a')
    decreases |s| - q
  {
    if q >= |s| || s[q] == '\n' then -1
    else if q >= p + 2 && s[q] == '"' && Lower(s[q - 1]) == 'a' then q
    else QuoteAfterAFrom(s, p, q + 1)
  }

  /** The end (the index of the closing quote) of a match starting at `p`, or -1. */
  function MatchEnd(s: string, p: nat, tail: Tail): (r: int)
    ensures r == -1 || (p <= r < |s| && s[r] == '"')
  {
    match tail
    case UpToQuote => QuoteFrom(s, p)
    case UpToQuoteAfterA => QuoteAfterAFrom(s, p, p)
  }

  /** `Regex.Matches(s, pattern)` from position `p` on, as captured values. */
  function MatchesFrom(s: string, pat: Pattern, p: nat): seq<string>
    decreases |s| + 1 - p
  {
    if p > |s| then []
    else if AnyMarkerEndsAt(s, pat.markers, p) && MatchEnd(s, p, pat.tail) >= 0 then
      var q := MatchEnd(s, p, pat.tail);
      [s[p..q]] + MatchesFrom(s, pat, if q == p then q + 1 else q)
    else MatchesFrom(s, pat, p + 1)
  }

  function Matches(s: string, pat: Pattern): seq<string> {
    MatchesFrom(s, pat, 0)
  }

  /** `Regex.Match(s, pattern)`: the first match, if any. */
  function FirstMatch(s: string, pat: Pattern): Option<string> {
    var ms := Matches(s, pat);
    if |ms| == 0 then None else Some(ms[0])
  }

  /** `Regex.Match(s, pattern).Value`, which is `""` when nothing matched. */
  function MatchValue(s: string, pat: Pattern): string {
    match FirstMatch(s, pat)
    case None => ""
    case Some(v) => v
  }

  /** `Regex.Matches(s, "")`: the empty pattern matches the empty string at
      every position, the end included. */
  function EmptyPatternMatches(s: string): (r: seq<string>)
    ensures |r| == |s| + 1
    ensures forall k :: 0 <= k < |r| ==> r[k] == ""
  {
    seq(|s| + 1, k => "")
  }

  /** The first index at or after `q` holding a quote, CR or LF, provided it is
      a quote; -1 otherwise (`[^"\r\n]*"`). */
  function ClosingQuote(s: string, q: nat): (r: int)
    ensures r == -1 || (q <= r < |s| && s[r] == '"')
    decreases |s| - q
  {
    if q >= |s| || s[q] == '\r' || s[q] == '\n' then -1
    else if s[q] == '"' then q
    else ClosingQuote(s, q + 1)
  }

  /** Group 1 of `KEYWORD("[^"\r\n]*")`: the first quoted token right after the
      keyword, quotes included, searching from position `p`. */
  function QuotedAfterKeyword(s: string, keyword: string, p: nat): Option<string>
    decreases |s| - p
  {
    if p + |keyword| >= |s| then None
    else if SameIgnoringCase(s[p..p + |keyword|], keyword) && s[p + |keyword|] == '"'
            && ClosingQuote(s, p + |keyword| + 1) >= 0 then
      Some(s[p + |keyword|..ClosingQuote(s, p + |keyword| + 1) + 1])
    else QuotedAfterKeyword(s, keyword, p + 1)
  }

  /** The captured values contain no quote: a `(.*?)(?=")` match stops at the first one. */
  lemma {:induction false} UpToQuoteMatchesHaveNoQuote(s: string, markers: seq<string>, p: nat)
    ensures forall k :: 0 <= k < |MatchesFrom(s, Pattern(markers, UpToQuote), p)| ==>
              '"' !in MatchesFrom(s, Pattern(markers, UpToQuote), p)[k]
    decreases |s| + 1 - p
  {
    var pat := Pattern(markers, UpToQuote);
    if p <= |s| {
      if AnyMarkerEndsAt(s, markers, p) && MatchEnd(s, p, UpToQuote) >= 0 {
        var q := MatchEnd(s, p, UpToQuote);
        UpToQuoteMatchesHaveNoQuote(s, markers, if q == p then q + 1 else q);
        var rest := MatchesFrom(s, pat, if q == p then q + 1 else q);
        assert MatchesFrom(s, pat, p) == [s[p..q]] + rest;
        assert forall k :: 0 <= k < q - p ==> s[p..q][k] == s[p + k];
      } else {
        UpToQuoteMatchesHaveNoQuote(s, markers, p + 1);
      }
    }
  }
}
