/** The .NET string operations the translator relies on, with the semantics
    of `System.String`, comparisons modelled as ordinal: left-to-right non-overlapping
    `Replace`, `Split` on a single character, `string.Join`, LINQ `Distinct`. */
module Text {
  import opened Outcomes

  /** `pat` occurs in `s` starting at index `i`. */
  predicate OccursAt(s: string, pat: string, i: int) {
    0 <= i && i + |pat| <= |s| && s[i..i + |pat|] == pat
  }

  function IndexOfFrom(s: string, pat: string, i: nat): (r: int)
    ensures r == -1 || (i <= r && OccursAt(s, pat, r))
    ensures r == -1 ==> forall j :: i <= j ==> !OccursAt(s, pat, j)
    ensures r >= 0 ==> forall j :: i <= j < r ==> !OccursAt(s, pat, j)
    decreases |s| - i
  {
    if i + |pat| > |s| then -1
    else if s[i..i + |pat|] == pat then i
    else IndexOfFrom(s, pat, i + 1)
  }

  /** `String.IndexOf(string)`, modelled as an ordinal search: the first
      occurrence, or -1. */
  function IndexOf(s: string, pat: string): (r: int)
    ensures r == -1 <==> forall j :: !OccursAt(s, pat, j)
    ensures r >= 0 ==> OccursAt(s, pat, r) && forall j :: 0 <= j < r ==> !OccursAt(s, pat, j)
  {
    IndexOfFrom(s, pat, 0)
  }

  /** `String.Contains(string)`. */
  predicate Contains(s: string, pat: string) {
    IndexOf(s, pat) >= 0
  }

  /** `String.StartsWith(string)`, modelled as an ordinal comparison. */
  predicate StartsWith(s: string, p: string) {
    p <= s
  }

  /** `String.EndsWith(string)`, modelled as an ordinal comparison. */
  predicate EndsWith(s: string, p: string) {
    |p| <= |s| && s[|s| - |p|..] == p
  }

  /** A concatenation starts with its first part and ends with its last. */
  lemma Framing(a: string, b: string, c: string)
    ensures StartsWith(a + b + c, a) && EndsWith(a + b + c, c)
  {
    var s := a + b + c;
    assert s[..|a|] == a;
    assert s[|s| - |c|..] == c;
  }

  /** `s` ends with at least one of `exts` (the `Any(a => s.EndsWith(a))` idiom). */
  predicate EndsWithAny(s: string, exts: seq<string>) {
    exists k :: 0 <= k < |exts| && EndsWith(s, exts[k])
  }

  /** A string ending in one of `exts`, each at least `n` long, is at least `n` long. */
  lemma EndsWithAnyLength(s: string, exts: seq<string>, n: nat)
    requires forall e :: 0 <= e < |exts| ==> |exts[e]| >= n
    requires EndsWithAny(s, exts)
    ensures |s| >= n
  {
    var e :| 0 <= e < |exts| && EndsWith(s, exts[e]);
  }

  /** `String.Replace(string, string)` for a non-empty search string: every
      non-overlapping occurrence, found left to right, is replaced. */
  function ReplaceAll(s: string, pat: string, rep: string): string
    requires |pat| > 0
    decreases |s|
  {
    var i := IndexOf(s, pat);
    if i < 0 then s else s[..i] + rep + ReplaceAll(s[i + |pat|..], pat, rep)
  }

  /** `String.Replace(string, string)`, which throws on an empty search string. */
  function Replace(s: string, pat: string, rep: string): (r: Result<string>)
    ensures r.Failure? <==> pat == ""
    ensures r.Success? && !Contains(s, pat) ==> r.value == s
  {
    if pat == "" then Failure(EmptySearchString) else Success(ReplaceAll(s, pat, rep))
  }

  /** Replacing a string by itself changes nothing. */
  lemma {:induction false} ReplaceByItself(s: string, pat: string)
    requires |pat| > 0
    ensures ReplaceAll(s, pat, pat) == s
    decreases |s|
  {
    var i := IndexOf(s, pat);
    if i >= 0 {
      ReplaceByItself(s[i + |pat|..], pat);
      assert s[i..i + |pat|] == pat;
      assert s == s[..i] + pat + s[i + |pat|..];
    }
  }

  /** No occurrence of `[c]` before `i` means no `c` before `i`. */
  lemma NoCharBefore(s: string, c: char, i: nat)
    requires i <= |s|
    requires forall j :: 0 <= j < i ==> !OccursAt(s, [c], j)
    ensures c !in s[..i]
  {
    forall k | 0 <= k < i ensures s[k] != c {
      assert !OccursAt(s, [c], k);
      assert s[k..k + 1] == [s[k]];
    }
  }

  lemma NotInConcat(a: string, b: string, c: char)
    requires c !in a && c !in b
    ensures c !in a + b
  {
  }

  /** Replacing a single character by nothing removes every copy of it. */
  lemma {:induction false} ReplaceRemovesChar(s: string, c: char)
    ensures c !in ReplaceAll(s, [c], "")
    decreases |s|
  {
    var i := IndexOf(s, [c]);
    if i < 0 {
      NoCharBefore(s, c, |s|);
      assert s[..|s|] == s;
    } else {
      ReplaceRemovesChar(s[i + 1..], c);
      NoCharBefore(s, c, i);
      NotInConcat(s[..i], ReplaceAll(s[i + 1..], [c], ""), c);
      assert ReplaceAll(s, [c], "") == s[..i] + "" + ReplaceAll(s[i + 1..], [c], "");
      assert s[..i] + "" == s[..i];
    }
  }

  // ----- what String.Replace keeps, removes and introduces -----

  /** `x`, placed `d` characters after the start of `p`, agrees with `p`
      wherever the two overlap. */
  predicate Clash(p: string, x: string, d: int) {
    forall t :: 0 <= t < |p| && d <= t < d + |x| ==> p[t] == x[t - d]
  }

  /** No occurrence of `p` can share a position with an occurrence of `x`,
      in any string. */
  predicate Apart(p: string, x: string) {
    forall d :: -|x| < d < |p| ==> !Clash(p, x, d)
  }

  /** A piece of a concatenation that lies inside its left part. */
  lemma SliceLeft(a: string, b: string, j: nat, n: nat)
    requires j + n <= |a|
    ensures (a + b)[j..j + n] == a[j..j + n]
  {
  }

  /** A piece of a concatenation that lies inside its right part. */
  lemma SliceRight(a: string, b: string, j: nat, n: nat)
    requires |a| <= j && j + n <= |a| + |b|
    ensures (a + b)[j..j + n] == b[j - |a|..j - |a| + n]
  {
  }

  /** Two occurrences that overlap agree on the overlap. */
  lemma OverlapClashes(s: string, p: string, i: int, x: string, j: int)
    requires OccursAt(s, p, i) && OccursAt(s, x, j)
    ensures -|x| < j - i < |p| ==> Clash(p, x, j - i)
  {
    var d := j - i;
    if -|x| < d < |p| {
      forall t | 0 <= t < |p| && d <= t < d + |x| ensures p[t] == x[t - d] {
        assert p[t] == s[i..i + |p|][t];
        assert x[t - d] == s[j..j + |x|][t - d];
      }
    }
  }

  /** Occurrences of strings that are apart never overlap. */
  lemma ApartWindows(s: string, p: string, i: int, x: string, j: int)
    requires OccursAt(s, p, i) && Apart(p, x)
    ensures OccursAt(s, x, j) ==> j + |x| <= i || i + |p| <= j
  {
    if OccursAt(s, x, j) {
      OverlapClashes(s, p, i, x, j);
    }
  }

  /** An occurrence in a prefix is an occurrence in the whole. */
  lemma OccursInPrefix(s: string, x: string, n: nat, j: int)
    requires n <= |s|
    ensures OccursAt(s[..n], x, j) ==> OccursAt(s, x, j)
  {
    if OccursAt(s[..n], x, j) {
      assert s[..n][j..j + |x|] == s[j..j + |x|];
    }
  }

  /** An occurrence in a suffix is an occurrence in the whole. */
  lemma OccursInSuffix(s: string, x: string, n: nat, j: int)
    requires n <= |s|
    ensures OccursAt(s[n..], x, j) ==> OccursAt(s, x, n + j)
  {
    if OccursAt(s[n..], x, j) {
      assert s[n..][j..j + |x|] == s[n + j..n + j + |x|];
    }
  }

  /** A string that occurs neither in `a` nor in `b` and is apart from `m`
      does not occur in `a + m + b`. */
  lemma NoneAcross(a: string, m: string, b: string, x: string)
    requires !Contains(a, x) && !Contains(b, x) && Apart(m, x)
    ensures !Contains(a + m + b, x)
  {
    var w := a + m + b;
    assert OccursAt(w, m, |a|) by {
      SliceLeft(a + m, b, |a|, |m|);
      SliceRight(a, m, |a|, |m|);
    }
    forall j ensures !OccursAt(w, x, j) {
      ApartWindows(w, m, |a|, x, j);
      if 0 <= j && j + |x| <= |a| {
        SliceLeft(a + m, b, j, |x|);
        SliceLeft(a, m, j, |x|);
        assert !OccursAt(a, x, j);
      } else if |a| + |m| <= j && j + |x| <= |w| {
        SliceRight(a + m, b, j, |x|);
        assert !OccursAt(b, x, j - |a| - |m|);
      }
    }
  }

  /** One replacement step: the text before the first occurrence, the
      replacement, and the rest replaced. */
  lemma ReplaceUnfold(s: string, pat: string, rep: string, i: nat)
    requires |pat| > 0 && i == IndexOf(s, pat)
    ensures ReplaceAll(s, pat, rep) == s[..i] + rep + ReplaceAll(s[i + |pat|..], pat, rep)
  {
  }

  /** Replacing `pat` by a string apart from it leaves no `pat` behind. */
  lemma {:induction false} ReplaceRemoves(s: string, pat: string, rep: string)
    requires |pat| > 0 && Apart(rep, pat)
    ensures !Contains(ReplaceAll(s, pat, rep), pat)
    decreases |s|
  {
    var i := IndexOf(s, pat);
    if i >= 0 {
      var rest := s[i + |pat|..];
      ReplaceRemoves(rest, pat, rep);
      forall j ensures !OccursAt(s[..i], pat, j) {
        OccursInPrefix(s, pat, i, j);
      }
      ReplaceUnfold(s, pat, rep, i);
      NoneAcross(s[..i], rep, ReplaceAll(rest, pat, rep), pat);
    }
  }

  /** Replacing by a string apart from `x` creates no `x`. */
  lemma {:induction false} ReplaceCreatesNone(s: string, pat: string, rep: string, x: string)
    requires |pat| > 0 && Apart(rep, x) && !Contains(s, x)
    ensures !Contains(ReplaceAll(s, pat, rep), x)
    decreases |s|
  {
    var i := IndexOf(s, pat);
    if i >= 0 {
      var rest := s[i + |pat|..];
      forall j ensures !OccursAt(rest, x, j) {
        OccursInSuffix(s, x, i + |pat|, j);
      }
      ReplaceCreatesNone(rest, pat, rep, x);
      forall j ensures !OccursAt(s[..i], x, j) {
        OccursInPrefix(s, x, i, j);
      }
      ReplaceUnfold(s, pat, rep, i);
      NoneAcross(s[..i], rep, ReplaceAll(rest, pat, rep), x);
    }
  }

  /** What occurs in a part occurs in the concatenation. */
  lemma ContainsLeft(a: string, b: string, x: string)
    requires Contains(a, x)
    ensures Contains(a + b, x)
  {
    var j := IndexOf(a, x);
    SliceLeft(a, b, j, |x|);
    assert OccursAt(a + b, x, j);
  }

  lemma ContainsRight(a: string, b: string, x: string)
    requires Contains(b, x)
    ensures Contains(a + b, x)
  {
    var j := IndexOf(b, x);
    SliceRight(a, b, |a| + j, |x|);
    assert OccursAt(a + b, x, |a| + j);
  }

  /** Replacing a string apart from `x` keeps `x`. */
  lemma {:induction false} ReplaceKeeps(s: string, pat: string, rep: string, x: string)
    requires |pat| > 0 && Apart(pat, x) && Contains(s, x)
    ensures Contains(ReplaceAll(s, pat, rep), x)
    decreases |s|
  {
    var i := IndexOf(s, pat);
    if i >= 0 {
      var j := IndexOf(s, x);
      var rest := s[i + |pat|..];
      ReplaceUnfold(s, pat, rep, i);
      ApartWindows(s, pat, i, x, j);
      if j + |x| <= i {
        ContainsBefore(s, i, x, j, rep, ReplaceAll(rest, pat, rep));
      } else {
        ContainsAfter(s, i + |pat|, x, j);
        ReplaceKeeps(rest, pat, rep, x);
        ContainsRight(s[..i] + rep, ReplaceAll(rest, pat, rep), x);
      }
    }
  }

  /** An occurrence that ends before `i` survives whatever follows `s[..i]`. */
  lemma ContainsBefore(s: string, i: nat, x: string, j: int, m: string, b: string)
    requires OccursAt(s, x, j) && j + |x| <= i <= |s|
    ensures Contains(s[..i] + m + b, x)
  {
    assert OccursAt(s[..i], x, j) by {
      assert s[..i][j..j + |x|] == s[j..j + |x|];
    }
    ContainsLeft(s[..i], m, x);
    ContainsLeft(s[..i] + m, b, x);
  }

  /** An occurrence that starts at or after `n` lies in `s[n..]`. */
  lemma ContainsAfter(s: string, n: nat, x: string, j: int)
    requires OccursAt(s, x, j) && n <= j
    ensures Contains(s[n..], x)
  {
    assert OccursAt(s[n..], x, j - n) by {
      assert s[n..][j - n..j - n + |x|] == s[j..j + |x|];
    }
  }

  /** Replacing a string that occurs introduces the replacement. */
  lemma ReplaceIntroduces(s: string, pat: string, rep: string)
    requires |pat| > 0 && Contains(s, pat)
    ensures Contains(ReplaceAll(s, pat, rep), rep)
  {
    var i := IndexOf(s, pat);
    var r := ReplaceAll(s[i + |pat|..], pat, rep);
    ReplaceUnfold(s, pat, rep, i);
    SliceLeft(s[..i] + rep, r, i, |rep|);
    SliceRight(s[..i], rep, i, |rep|);
    assert OccursAt(ReplaceAll(s, pat, rep), rep, i);
  }

  /** `String.Replace(char, char)`. */
  function ReplaceChar(s: string, a: char, b: char): (r: string)
    ensures |r| == |s|
    ensures forall k :: 0 <= k < |s| ==> r[k] == (if s[k] == a then b else s[k])
  {
    if |s| == 0 then [] else [if s[0] == a then b else s[0]] + ReplaceChar(s[1..], a, b)
  }

  /** The number of occurrences of `c` in `s` (`s.Count(f => f == c)`). */
  function CountChar(s: string, c: char): nat {
    if |s| == 0 then 0 else (if s[0] == c then 1 else 0) + CountChar(s[1..], c)
  }

  /** The first index of `c` in `s`, or -1. */
  function FindChar(s: string, c: char): (r: int)
    ensures r == -1 <==> c !in s
    ensures r >= 0 ==> r < |s| && s[r] == c && c !in s[..r]
  {
    if |s| == 0 then -1
    else if s[0] == c then 0
    else
      var k := FindChar(s[1..], c);
      if k < 0 then -1
      else
        assert s[..k + 1] == [s[0]] + s[1..][..k];
        k + 1
  }

  /** `String.Split(char)`: the pieces between the separators, in order. */
  function Split(s: string, c: char): (r: seq<string>)
    ensures |r| >= 1
    decreases |s|
  {
    var i := FindChar(s, c);
    if i < 0 then [s] else [s[..i]] + Split(s[i + 1..], c)
  }

  /** The inverse of `Split`: the pieces glued back with the separator. */
  function Join(parts: seq<string>, c: char): string
    requires |parts| >= 1
  {
    if |parts| == 1 then parts[0] else parts[0] + [c] + Join(parts[1..], c)
  }

  /** A string is the text before index `i`, the character at `i` and the text after. */
  lemma Around(s: string, i: nat)
    requires i < |s|
    ensures s == s[..i] + [s[i]] + s[i + 1..]
  {
  }

  /** Joining a part in front of at least one more part. */
  lemma JoinCons(x: string, rest: seq<string>, c: char)
    requires |rest| >= 1
    ensures Join([x] + rest, c) == x + [c] + Join(rest, c)
  {
    assert ([x] + rest)[1..] == rest;
  }

  /** One step of `JoinSplit`: the piece before a separator, joined to
      pieces that rebuild the rest, rebuilds the whole string. */
  lemma JoinStep(s: string, c: char, i: nat, rest: seq<string>)
    requires i < |s| && s[i] == c
    requires |rest| >= 1 && Join(rest, c) == s[i + 1..]
    ensures Join([s[..i]] + rest, c) == s
  {
    JoinCons(s[..i], rest, c);
    Around(s, i);
  }

  lemma {:induction false} JoinSplit(s: string, c: char)
    ensures Join(Split(s, c), c) == s
    decreases |s|
  {
    var i := FindChar(s, c);
    if i >= 0 {
      JoinSplit(s[i + 1..], c);
      SplitFound(s, c);
      JoinStep(s, c, i, Split(s[i + 1..], c));
    }
  }

  /** The first separator after a part without separators is right after it. */
  lemma {:induction false} FindCharAfter(x: string, y: string, c: char)
    requires c !in x
    ensures FindChar(x + [c] + y, c) == |x|
    decreases |x|
  {
    if |x| > 0 {
      FindCharAfter(x[1..], y, c);
      assert (x + [c] + y)[1..] == x[1..] + [c] + y;
    }
  }

  /** Splitting at a separator that the left part does not contain. */
  lemma SplitAtFirst(x: string, y: string, c: char)
    requires c !in x
    ensures Split(x + [c] + y, c) == [x] + Split(y, c)
  {
    var s := x + [c] + y;
    FindCharAfter(x, y, c);
    assert s[..|x|] == x;
    assert s[|x| + 1..] == y;
  }

  /** The first separator of a string that has one is unaffected by what follows. */
  lemma {:induction false} FindCharPrefix(x: string, z: string, c: char)
    requires c in x
    ensures FindChar(x + z, c) == FindChar(x, c)
    decreases |x|
  {
    if x[0] != c {
      FindCharPrefix(x[1..], z, c);
      assert (x + z)[1..] == x[1..] + z;
    }
  }

  lemma Assoc(a: string, b: string, d: string)
    ensures a + (b + d) == a + b + d
  {
  }

  lemma TakeOfAppend(a: string, b: string, i: nat)
    requires i <= |a|
    ensures (a + b)[..i] == a[..i]
  {
  }

  lemma DropOfAppend(a: string, b: string, i: nat)
    requires i <= |a|
    ensures (a + b)[i..] == a[i..] + b
  {
  }

  /** `Split` at a string's first separator. */
  lemma SplitFound(s: string, c: char)
    requires c in s
    ensures Split(s, c) == [s[..FindChar(s, c)]] + Split(s[FindChar(s, c) + 1..], c)
  {
  }

  /** Appending `[c] + y` to a string that already holds `c` keeps its first
      separator and the text before it. */
  lemma FindCharExtended(x: string, y: string, c: char)
    requires c in x
    ensures var i := FindChar(x, c); var s := x + [c] + y;
            && FindChar(s, c) == i
            && s[..i] == x[..i]
            && s[i + 1..] == x[i + 1..] + [c] + y
  {
    var i := FindChar(x, c);
    Assoc(x, [c], y);
    FindCharPrefix(x, [c] + y, c);
    TakeOfAppend(x, [c] + y, i);
    DropOfAppend(x, [c] + y, i + 1);
    Assoc(x[i + 1..], [c], y);
  }

  lemma ConsSnoc(a: string, middle: seq<string>, b: string)
    ensures [a] + (middle + [b]) == ([a] + middle) + [b]
  {
  }

  /** Splitting at a separator that the right part does not contain. */
  lemma {:induction false} SplitAtLast(x: string, y: string, c: char)
    requires c !in y
    ensures Split(x + [c] + y, c) == Split(x, c) + [y]
    decreases |x|
  {
    if c !in x {
      SplitAtFirst(x, y, c);
    } else {
      var i := FindChar(x, c);
      var tail := x[i + 1..];
      FindCharExtended(x, y, c);
      SplitFound(x + [c] + y, c);
      SplitFound(x, c);
      SplitAtLast(tail, y, c);
      ConsSnoc(x[..i], Split(tail, c), y);
    }
  }

  /** The last two pieces of a string ending in two separated parts without
      separators are those parts. */
  lemma LastTwoPieces(x: string, e1: string, e2: string, c: char)
    requires c !in e1 && c !in e2
    ensures var parts := Split(x + [c] + e1 + [c] + e2, c);
            |parts| >= 2 && parts[|parts| - 2] == e1 && parts[|parts| - 1] == e2
  {
    SplitAtLast(x + [c] + e1, e2, c);
    SplitAtLast(x, e1, c);
  }

  lemma {:induction false} SplitJoin(parts: seq<string>, c: char)
    requires |parts| >= 1
    requires forall k :: 0 <= k < |parts| ==> c !in parts[k]
    ensures Split(Join(parts, c), c) == parts
    decreases |parts|
  {
    if |parts| > 1 {
      SplitJoin(parts[1..], c);
      SplitAtFirst(parts[0], Join(parts[1..], c), c);
    }
  }

  /** `string.Join(sep, parts)`. */
  function JoinWith(sep: string, parts: seq<string>): string {
    if |parts| == 0 then "" else if |parts| == 1 then parts[0] else parts[0] + sep + JoinWith(sep, parts[1..])
  }

  /** Concatenation of all parts (a `+=` loop over a list). */
  function Concat(parts: seq<string>): string {
    if |parts| == 0 then "" else parts[0] + Concat(parts[1..])
  }

  /** The decimal digit for `d`. */
  function Digit(d: nat): (c: char)
    requires d < 10
    ensures '0' <= c <= '9'
  {
    ('0' as int + d) as char
  }

  /** `int.ToString()` for a non-negative number. */
  function NatToString(n: nat): (r: string)
    ensures |r| >= 1
    ensures forall k :: 0 <= k < |r| ==> '0' <= r[k] <= '9'
    ensures |r| == 1 <==> n < 10
  {
    if n < 10 then [Digit(n)] else NatToString(n / 10) + [Digit(n % 10)]
  }

  /** Distinct numbers print differently. */
  lemma {:induction false} NatToStringInjective(a: nat, b: nat)
    requires NatToString(a) == NatToString(b)
    ensures a == b
    decreases a
  {
    if a >= 10 && b >= 10 {
      var sa := NatToString(a);
      assert sa[..|sa| - 1] == NatToString(a / 10);
      assert NatToString(b)[..|sa| - 1] == NatToString(b / 10);
      NatToStringInjective(a / 10, b / 10);
      assert Digit(a % 10) == sa[|sa| - 1] == Digit(b % 10);
    }
  }

  /** LINQ `Distinct`: the first occurrence of every element, in order. */
  function Distinct(xs: seq<string>): (r: seq<string>)
    ensures forall x :: x in r <==> x in xs
    ensures forall i, j :: 0 <= i < j < |r| ==> r[i] != r[j]
  {
    if |xs| == 0 then []
    else
      var d := Distinct(xs[..|xs| - 1]);
      assert forall x :: x in xs <==> x in xs[..|xs| - 1] || x == xs[|xs| - 1];
      if xs[|xs| - 1] in d then d else d + [xs[|xs| - 1]]
  }

  /** `List.Remove(x)`: drops the first element equal to `x`, if any. */
  function RemoveFirst<T(==)>(xs: seq<T>, x: T): (r: seq<T>)
    ensures x !in xs ==> r == xs
    ensures x in xs ==> |r| == |xs| - 1
  {
    if |xs| == 0 then []
    else if xs[0] == x then xs[1..]
    else [xs[0]] + RemoveFirst(xs[1..], x)
  }

  /** Removing an element that sits at the front of the part after a prefix
      without it removes exactly that copy. */
  lemma {:induction false} RemoveFirstAfterPrefix<T>(p: seq<T>, x: T, rest: seq<T>)
    requires x !in p
    ensures RemoveFirst(p + [x] + rest, x) == p + rest
    decreases |p|
  {
    if |p| > 0 {
      RemoveFirstAfterPrefix(p[1..], x, rest);
      assert (p + [x] + rest)[1..] == p[1..] + [x] + rest;
      assert p == [p[0]] + p[1..];
    }
  }
}
