/** String helpers shared by the whole model: the parts of Python's `str`
    and `re` behaviour that the scanners in the other modules rely on.
    Strings are `seq<char>`; whitespace is exactly Python's `str.isspace()`
    set, while case and word characters are ASCII only. */
module Text {

  datatype Option<+T> = None | Some(value: T) {
    function GetOr(default: T): T {
      match this
      case Some(v) => v
      case None => default
    }
  }

  /** Python's `str.isspace()`, which is also what `\s` matches in a `str` pattern. */
  predicate IsSpace(c: char) {
    || ('\U{9}' <= c <= '\U{D}')
    || ('\U{1C}' <= c <= '\U{20}')
    || c == '\U{85}' || c == '\U{A0}' || c == '\U{1680}'
    || ('\U{2000}' <= c <= '\U{200A}')
    || c == '\U{2028}' || c == '\U{2029}' || c == '\U{202F}'
    || c == '\U{205F}' || c == '\U{3000}'
  }

  /** The characters at which `str.splitlines()` ends a line ("\r\n" counts once). */
  predicate IsLineBreak(c: char) {
    || c == '\n' || c == '\r' || c == '\U{B}' || c == '\U{C}'
    || ('\U{1C}' <= c <= '\U{1E}')
    || c == '\U{85}' || c == '\U{2028}' || c == '\U{2029}'
  }

  /** `\w`, restricted to ASCII. */
  predicate IsWordChar(c: char) {
    ('a' <= c <= 'z') || ('A' <= c <= 'Z') || ('0' <= c <= '9') || c == '_'
  }

  function LowerChar(c: char): (r: char)
    ensures 'A' <= c <= 'Z' ==> 'a' <= r <= 'z'
    ensures !('A' <= c <= 'Z') ==> r == c
  {
    if 'A' <= c <= 'Z' then (c as int - 'A' as int + 'a' as int) as char else c
  }

  /** `str.lower()`, ASCII letters only. */
  function Lower(s: string): (r: string)
    ensures |r| == |s|
  {
    if s == [] then [] else [LowerChar(s[0])] + Lower(s[1..])
  }

  lemma {:induction false} LowerAt(s: string, k: nat)
    requires k < |s|
    ensures Lower(s)[k] == LowerChar(s[k])
  {
    if k > 0 { LowerAt(s[1..], k - 1); }
  }

  lemma {:induction false} LowerAppend(a: string, b: string)
    ensures Lower(a + b) == Lower(a) + Lower(b)
  {
    if a == [] {
      assert a + b == b;
    } else {
      assert (a + b)[1..] == a[1..] + b;
      LowerAppend(a[1..], b);
    }
  }

  predicate StartsWith(s: string, prefix: string) {
    |prefix| <= |s| && s[..|prefix|] == prefix
  }

  /** Case-insensitive match of an ASCII keyword at position `i` (what
      `re.IGNORECASE` does for the keywords of the patterns modelled). */
  predicate KeywordAt(s: string, i: nat, keyword: string)
    decreases |keyword|
  {
    i + |keyword| <= |s|
    && (keyword == [] || (LowerChar(s[i]) == LowerChar(keyword[0]) && KeywordAt(s, i + 1, keyword[1..])))
  }

  /** The outcome of trying a pattern at one position: what it captured and
      where the match ends. */
  datatype Found<+T> = NotFound | Found(value: T, end: nat)

  /** End of the run of whitespace that starts at `i` (`\s*`). */
  function SkipSpaces(s: string, i: nat): (j: nat)
    requires i <= |s|
    ensures i <= j <= |s|
    ensures j < |s| ==> !IsSpace(s[j])
    decreases |s| - i
  {
    if i < |s| && IsSpace(s[i]) then SkipSpaces(s, i + 1) else i
  }

  lemma {:induction false} SkipSpacesRun(s: string, i: nat)
    requires i <= |s|
    ensures forall k :: i <= k < SkipSpaces(s, i) ==> IsSpace(s[k])
    decreases |s| - i
  {
    if i < |s| && IsSpace(s[i]) { SkipSpacesRun(s, i + 1); }
  }

  /** End of the run of word characters that starts at `i` (`\w*`). */
  function WordEnd(s: string, i: nat): (j: nat)
    requires i <= |s|
    ensures i <= j <= |s|
    ensures j < |s| ==> !IsWordChar(s[j])
    decreases |s| - i
  {
    if i < |s| && IsWordChar(s[i]) then WordEnd(s, i + 1) else i
  }

  lemma {:induction false} WordEndRun(s: string, i: nat)
    requires i <= |s|
    ensures forall k :: i <= k < WordEnd(s, i) ==> IsWordChar(s[k])
    decreases |s| - i
  {
    if i < |s| && IsWordChar(s[i]) { WordEndRun(s, i + 1); }
  }

  /** End of the run of non-whitespace characters that starts at `i` (`\S*`). */
  function TokenEnd(s: string, i: nat): (j: nat)
    requires i <= |s|
    ensures i <= j <= |s|
    ensures j < |s| ==> IsSpace(s[j])
    decreases |s| - i
  {
    if i < |s| && !IsSpace(s[i]) then TokenEnd(s, i + 1) else i
  }

  lemma {:induction false} TokenEndRun(s: string, i: nat)
    requires i <= |s|
    ensures forall k :: i <= k < TokenEnd(s, i) ==> !IsSpace(s[k])
    decreases |s| - i
  {
    if i < |s| && !IsSpace(s[i]) { TokenEndRun(s, i + 1); }
  }

  /** `KEYWORD\s+` at `i` (case-insensitive): where the whitespace ends. */
  function KeywordThenSpace(s: string, i: nat, keyword: string): (r: Option<nat>)
    requires i <= |s|
    ensures r.Some? ==> i + |keyword| < r.value <= |s|
  {
    if KeywordAt(s, i, keyword) && SkipSpaces(s, i + |keyword|) > i + |keyword|
    then Some(SkipSpaces(s, i + |keyword|)) else None
  }

  /** `KEYWORD1\s+KEYWORD2` at `i` (case-insensitive). */
  predicate TwoKeywordsAt(s: string, i: nat, first: string, second: string) {
    i <= |s| && KeywordThenSpace(s, i, first).Some? && KeywordAt(s, KeywordThenSpace(s, i, first).value, second)
  }

  /** `re.search(r"FIRST\s+SECOND", s, re.IGNORECASE)` finds something. */
  predicate ContainsTwoKeywords(s: string, first: string, second: string) {
    exists i | 0 <= i < |s| :: TwoKeywordsAt(s, i, first, second)
  }

  /** Index of the first `c` at or after `i`, or `|s|`. */
  function IndexOf(s: string, c: char, i: nat): (j: nat)
    requires i <= |s|
    ensures i <= j <= |s|
    ensures j < |s| ==> s[j] == c
    decreases |s| - i
  {
    if i == |s| || s[i] == c then i else IndexOf(s, c, i + 1)
  }

  lemma {:induction false} IndexOfFirst(s: string, c: char, i: nat)
    requires i <= |s|
    ensures forall k :: i <= k < IndexOf(s, c, i) ==> s[k] != c
    decreases |s| - i
  {
    if i < |s| && s[i] != c { IndexOfFirst(s, c, i + 1); }
  }

  /** `s.split(sep)` for a one-character separator. */
  function SplitOn(s: string, sep: char): (parts: seq<string>)
    ensures |parts| >= 1
    decreases |s|
  {
    var k := IndexOf(s, sep, 0);
    if k == |s| then [s] else [s[..k]] + SplitOn(s[k + 1..], sep)
  }

  /** `IndexOf` finds the first `c` at or after `i`. */
  lemma {:induction false} IndexOfAt(s: string, c: char, i: nat, j: nat)
    requires i <= j < |s| && s[j] == c && c !in s[i..j]
    ensures IndexOf(s, c, i) == j
    decreases j - i
  {
    if i < j {
      assert s[i] == s[i..j][0];
      assert s[i + 1..j] == s[i..j][1..];
      IndexOfAt(s, c, i + 1, j);
    }
  }

  lemma IndexOfAbsent(s: string, c: char, i: nat)
    requires i <= |s|
    requires c !in s
    ensures IndexOf(s, c, i) == |s|
  {
  }

  /** Splitting at the first separator. */
  lemma SplitOnFirst(a: string, b: string, sep: char)
    requires sep !in a
    ensures SplitOn(a + ([sep] + b), sep) == [a] + SplitOn(b, sep)
  {
    var s := a + ([sep] + b);
    assert s[0..|a|] == a;
    IndexOfAt(s, sep, 0, |a|);
    assert s[..|a|] == a;
    assert s[|a| + 1..] == b;
  }

  lemma SplitOnNone(s: string, sep: char)
    requires sep !in s
    ensures SplitOn(s, sep) == [s]
  {
    IndexOfAbsent(s, sep, 0);
  }

  lemma SeqAssoc<T>(a: seq<T>, b: seq<T>, c: seq<T>)
    ensures a + b + c == a + (b + c)
  {
  }

  lemma AppendAssoc<T>(xs: seq<T>, x: T, ys: seq<T>)
    ensures xs + [x] + ys == xs + ([x] + ys)
  {
  }

  // ---------------------------------------------------------------- stripping

  function StripStart(s: string): (r: string)
    ensures r == [] || !IsSpace(r[0])
  {
    if |s| > 0 && IsSpace(s[0]) then StripStart(s[1..]) else s
  }

  function StripEnd(s: string): (r: string)
    ensures r == [] || !IsSpace(r[|r| - 1])
  {
    if |s| > 0 && IsSpace(s[|s| - 1]) then StripEnd(s[..|s| - 1]) else s
  }

  /** `str.strip()` with no argument. */
  function Strip(s: string): string {
    StripEnd(StripStart(s))
  }

  /** Stripping the end keeps a prefix. */
  lemma {:induction false} StripEndPrefix(s: string)
    ensures |StripEnd(s)| <= |s| && StripEnd(s) == s[..|StripEnd(s)|]
  {
    if |s| > 0 && IsSpace(s[|s| - 1]) {
      StripEndPrefix(s[..|s| - 1]);
    }
  }

  lemma StripEnds(s: string)
    ensures Strip(s) == [] || (!IsSpace(Strip(s)[0]) && !IsSpace(Strip(s)[|Strip(s)| - 1]))
  {
    var t := StripStart(s);
    StripEndPrefix(t);
    if StripEnd(t) != [] {
      assert StripEnd(t)[0] == t[0];
    }
  }

  lemma StripIdempotent(s: string)
    ensures Strip(Strip(s)) == Strip(s)
  {
    var t := Strip(s);
    StripEnds(s);
    assert StripStart(t) == t;
    assert StripEnd(t) == t;
  }

  /** `str.strip(chars)`: removes leading and trailing characters of `cs`. */
  function StripSet(s: string, cs: set<char>): (r: string)
    ensures |r| <= |s|
    ensures r == [] || (r[0] !in cs && r[|r| - 1] !in cs)
    decreases |s|
  {
    if |s| > 0 && s[0] in cs then StripSet(s[1..], cs)
    else if |s| > 0 && s[|s| - 1] in cs then StripSet(s[..|s| - 1], cs)
    else s
  }

  // ------------------------------------------------------- non-space content

  /** The non-whitespace characters of `s`, in order. */
  function NonSpace(s: string): string {
    if s == [] then [] else (if IsSpace(s[0]) then [] else [s[0]]) + NonSpace(s[1..])
  }

  lemma {:induction false} NonSpaceAppend(a: string, b: string)
    ensures NonSpace(a + b) == NonSpace(a) + NonSpace(b)
  {
    if a == [] {
      assert a + b == b;
    } else {
      assert (a + b)[1..] == a[1..] + b;
      NonSpaceAppend(a[1..], b);
    }
  }

  lemma {:induction false} NonSpaceOfSpaces(s: string)
    requires forall i :: 0 <= i < |s| ==> IsSpace(s[i])
    ensures NonSpace(s) == []
  {
    if s != [] { NonSpaceOfSpaces(s[1..]); }
  }

  lemma {:induction false} NonSpaceStripStart(s: string)
    ensures NonSpace(StripStart(s)) == NonSpace(s)
  {
    if |s| > 0 && IsSpace(s[0]) { NonSpaceStripStart(s[1..]); }
  }

  lemma {:induction false} NonSpaceStripEnd(s: string)
    ensures NonSpace(StripEnd(s)) == NonSpace(s)
  {
    if |s| > 0 && IsSpace(s[|s| - 1]) {
      var u := s[..|s| - 1];
      NonSpaceStripEnd(u);
      assert s == u + [s[|s| - 1]];
      NonSpaceAppend(u, [s[|s| - 1]]);
      NonSpaceOfSpaces([s[|s| - 1]]);
    }
  }

  lemma NonSpaceStrip(s: string)
    ensures NonSpace(Strip(s)) == NonSpace(s)
  {
    NonSpaceStripStart(s);
    NonSpaceStripEnd(StripStart(s));
  }

  // ---------------------------------------------------------- joining, lists

  /** `sep.join(xs)`. */
  function Join(sep: string, xs: seq<string>): string {
    if |xs| == 0 then [] else if |xs| == 1 then xs[0] else xs[0] + sep + Join(sep, xs[1..])
  }

  /** `"".join(xs)`, and the concatenation of any list of lists. */
  function Concat<T>(xs: seq<seq<T>>): seq<T> {
    if xs == [] then [] else xs[0] + Concat(xs[1..])
  }

  lemma {:induction false} ConcatAppend<T>(xs: seq<seq<T>>, ys: seq<seq<T>>)
    ensures Concat(xs + ys) == Concat(xs) + Concat(ys)
  {
    if xs == [] {
      assert xs + ys == ys;
    } else {
      assert (xs + ys)[1..] == xs[1..] + ys;
      ConcatAppend(xs[1..], ys);
    }
  }

  /** Joining with a whitespace separator adds no visible content. */
  lemma {:induction false} NonSpaceJoin(sep: string, xs: seq<string>)
    requires forall i :: 0 <= i < |sep| ==> IsSpace(sep[i])
    ensures NonSpace(Join(sep, xs)) == NonSpace(Concat(xs))
  {
    if |xs| == 1 {
      assert xs[1..] == [];
      assert Concat(xs) == xs[0] + Concat([]) == xs[0];
    } else if |xs| > 1 {
      NonSpaceJoin(sep, xs[1..]);
      NonSpaceAppend(xs[0] + sep, Join(sep, xs[1..]));
      NonSpaceAppend(xs[0], sep);
      NonSpaceOfSpaces(sep);
      NonSpaceAppend(xs[0], Concat(xs[1..]));
    }
  }

  function Digit(d: nat): char
    requires d < 10
  {
    ('0' as int + d) as char
  }

  /** `str(n)` for a non-negative integer. */
  function NatToString(n: nat): (r: string)
    ensures |r| >= 1
    ensures forall i :: 0 <= i < |r| ==> '0' <= r[i] <= '9'
  {
    if n < 10 then [Digit(n)] else NatToString(n / 10) + [Digit(n % 10)]
  }

  // ------------------------------------------------------------ line splitting

  /** Index of the first line break at or after `i`, or `|s|`. */
  function NextBreak(s: string, i: nat): (j: nat)
    requires i <= |s|
    ensures i <= j <= |s|
    ensures j < |s| ==> IsLineBreak(s[j])
    decreases |s| - i
  {
    if i == |s| || IsLineBreak(s[i]) then i else NextBreak(s, i + 1)
  }

  /** Where the line that breaks at `j` resumes: "\r\n" is consumed as one break. */
  function AfterBreak(s: string, j: nat): (next: nat)
    requires j < |s| && IsLineBreak(s[j])
    ensures j < next <= |s|
    ensures next == j + 1 || (next == j + 2 && IsLineBreak(s[j + 1]))
  {
    if s[j] == '\r' && j + 1 < |s| && s[j + 1] == '\n' then j + 2 else j + 1
  }

  /** `str.splitlines()`: no trailing empty line, "\r\n" is one break. */
  function SplitLines(s: string): (lines: seq<string>)
    decreases |s|
  {
    if s == [] then []
    else
      var j := NextBreak(s, 0);
      if j == |s| then [s]
      else [s[..j]] + SplitLines(s[AfterBreak(s, j)..])
  }

  /** A whitespace-only slice has no visible content. */
  lemma {:induction false} NonSpaceOfSpaceRun(s: string, i: nat, j: nat)
    requires i <= j <= |s|
    requires forall k :: i <= k < j ==> IsSpace(s[k])
    ensures NonSpace(s[i..j]) == []
    decreases j - i
  {
    if i < j {
      assert s[i..j][1..] == s[i + 1..j];
      assert s[i..j][0] == s[i];
      NonSpaceOfSpaceRun(s, i + 1, j);
    }
  }

  /** Dropping a whitespace-only middle part keeps the visible content. */
  lemma NonSpaceDropMiddle(s: string, i: nat, j: nat)
    requires i <= j <= |s|
    requires forall k :: i <= k < j ==> IsSpace(s[k])
    ensures NonSpace(s) == NonSpace(s[..i]) + NonSpace(s[j..])
  {
    NonSpaceDropSpaces(s, 0, i, j);
    assert s[0..] == s && s[0..i] == s[..i];
  }

  lemma NonSpaceSnoc(s: string, c: char)
    requires !IsSpace(c)
    ensures NonSpace(s + [c]) == NonSpace(s) + [c]
  {
    NonSpaceAppend(s, [c]);
    assert [c][1..] == [];
  }

  /** Dropping a whitespace-only part `s[i..j]` of a suffix keeps its visible content. */
  lemma NonSpaceDropSpaces(s: string, start: nat, i: nat, j: nat)
    requires start <= i <= j <= |s|
    requires forall k :: i <= k < j ==> IsSpace(s[k])
    ensures NonSpace(s[start..]) == NonSpace(s[start..i]) + NonSpace(s[j..])
  {
    var a, b, c := s[start..i], s[i..j], s[j..];
    assert s[start..] == a + b + c;
    NonSpaceAppend(a + b, c);
    NonSpaceAppend(a, b);
    NonSpaceOfSpaceRun(s, i, j);
  }

  /** A run of whitespace skipped from `i` holds no visible content. */
  lemma NonSpaceSkipSpaces(s: string, start: nat, i: nat)
    requires start <= i <= |s|
    ensures NonSpace(s[start..]) == NonSpace(s[start..i]) + NonSpace(s[SkipSpaces(s, i)..])
  {
    SkipSpacesRun(s, i);
    NonSpaceDropSpaces(s, start, i, SkipSpaces(s, i));
  }

  lemma SplitLinesStep(s: string)
    requires s != [] && NextBreak(s, 0) < |s|
    ensures var j := NextBreak(s, 0);
            Concat(SplitLines(s)) == s[..j] + Concat(SplitLines(s[AfterBreak(s, j)..]))
  {
    var j := NextBreak(s, 0);
    var rest := SplitLines(s[AfterBreak(s, j)..]);
    assert ([s[..j]] + rest)[1..] == rest;
  }

  /** `splitlines` only drops line breaks, which are all whitespace. */
  lemma {:induction false} NonSpaceSplitLines(s: string)
    ensures NonSpace(Concat(SplitLines(s))) == NonSpace(s)
    decreases |s|
  {
    if s != [] {
      var j := NextBreak(s, 0);
      if j == |s| {
        assert [s][1..] == [];
        assert Concat([s]) == s + Concat([]) == s;
      } else {
        var next := AfterBreak(s, j);
        SplitLinesStep(s);
        NonSpaceSplitLines(s[next..]);
        NonSpaceAppend(s[..j], Concat(SplitLines(s[next..])));
        NonSpaceDropMiddle(s, j, next);
      }
    }
  }

  // ------------------------------------------------------ lexicographic order

  /** Python's `<` on `str`: code-point lexicographic order. */
  predicate LexLess(a: string, b: string) {
    |b| > 0 && (|a| == 0 || a[0] < b[0] || (a[0] == b[0] && LexLess(a[1..], b[1..])))
  }

  predicate LexLessEq(a: string, b: string) {
    a == b || LexLess(a, b)
  }

  lemma {:induction false} LexLessIrreflexive(a: string)
    ensures !LexLess(a, a)
  {
    if |a| > 0 { LexLessIrreflexive(a[1..]); }
  }

  lemma {:induction false} LexLessTransitive(a: string, b: string, c: string)
    requires LexLess(a, b) && LexLess(b, c)
    ensures LexLess(a, c)
  {
    if |a| > 0 && a[0] == b[0] && b[0] == c[0] {
      LexLessTransitive(a[1..], b[1..], c[1..]);
    }
  }

  lemma {:induction false} LexLessTotal(a: string, b: string)
    ensures a == b || LexLess(a, b) || LexLess(b, a)
  {
    if |a| > 0 && |b| > 0 && a[0] == b[0] {
      LexLessTotal(a[1..], b[1..]);
      if a[1..] == b[1..] {
        assert a == [a[0]] + a[1..] && b == [b[0]] + b[1..];
      }
    }
  }

  lemma LexLessAsymmetric(a: string, b: string)
    requires LexLess(a, b)
    ensures !LexLess(b, a)
  {
    if LexLess(b, a) {
      LexLessTransitive(a, b, a);
      LexLessIrreflexive(a);
    }
  }

  // ------------------------------------------------------------ subsequences

  /** `xs` is `ys` with some elements left out, the rest in order. */
  predicate Subsequence<T(==)>(xs: seq<T>, ys: seq<T>) {
    if xs == [] then true
    else if ys == [] then false
    else if xs[0] == ys[0] then Subsequence(xs[1..], ys[1..])
    else Subsequence(xs, ys[1..])
  }

  /** A subsequence of the tail of `ys` is a subsequence of `ys`. */
  lemma {:induction false} SubsequenceOfTail<T>(xs: seq<T>, ys: seq<T>)
    requires ys != [] && Subsequence(xs, ys[1..])
    ensures Subsequence(xs, ys)
    decreases |ys|, |xs|
  {
    if xs != [] && xs[0] == ys[0] {
      SubsequenceTail(xs, ys[1..]);
    }
  }

  /** Dropping the first element of a subsequence keeps it a subsequence. */
  lemma {:induction false} SubsequenceTail<T>(xs: seq<T>, ys: seq<T>)
    requires xs != [] && Subsequence(xs, ys)
    ensures Subsequence(xs[1..], ys)
    decreases |ys|, |xs|
  {
    if xs[0] == ys[0] {
      if xs[1..] != [] {
        SubsequenceOfTail(xs[1..], ys);
      }
    } else {
      SubsequenceTail(xs, ys[1..]);
      if xs[1..] != [] {
        SubsequenceOfTail(xs[1..], ys);
      }
    }
  }
}
