/** Strings as the worker and the controller see them: trimming, searching, replacing,
    splitting into lines and joining lines again. A string is a sequence of Unicode
    scalar values. */
module Text {

  datatype Option<+T> = None | Some(value: T)

  datatype Result<+T, +E> = Ok(value: T) | Err(error: E)

  const NEWLINE := "\n"

  /** Python's str.isspace, which is also what \s matches. */
  predicate IsSpace(c: char) {
    || '\t' <= c <= '\r'
    || '\U{1C}' <= c <= ' '
    || c == '\U{85}'
    || c == '\U{A0}'
    || c == '\U{1680}'
    || '\U{2000}' <= c <= '\U{200A}'
    || c == '\U{2028}'
    || c == '\U{2029}'
    || c == '\U{202F}'
    || c == '\U{205F}'
    || c == '\U{3000}'
  }

  /** Go's unicode.IsSpace. */
  predicate IsGoSpace(c: char) {
    IsSpace(c) && !('\U{1C}' <= c <= '\U{1F}')
  }

  /** The characters at which Python's str.splitlines ends a line. */
  predicate IsLineBreak(c: char) {
    || '\n' <= c <= '\r'
    || '\U{1C}' <= c <= '\U{1E}'
    || c == '\U{85}'
    || c == '\U{2028}'
    || c == '\U{2029}'
  }

  predicate IsNewline(c: char) {
    c == '\n'
  }

  // --------------------------------------------------------------------------
  // Trimming
  // --------------------------------------------------------------------------

  predicate AllOf(s: string, p: char -> bool) {
    forall i :: 0 <= i < |s| ==> p(s[i])
  }

  predicate NoneOf(s: string, p: char -> bool) {
    forall i :: 0 <= i < |s| ==> !p(s[i])
  }

  function TrimLeft(s: string, p: char -> bool): (r: string)
    ensures |r| <= |s| && (r == [] || !p(r[0]))
  {
    if s != [] && p(s[0]) then TrimLeft(s[1..], p) else s
  }

  function TrimRight(s: string, p: char -> bool): (r: string)
    ensures |r| <= |s| && (r == [] || !p(r[|r| - 1]))
  {
    if s != [] && p(s[|s| - 1]) then TrimRight(s[..|s| - 1], p) else s
  }

  function Trim(s: string, p: char -> bool): string {
    TrimRight(TrimLeft(s, p), p)
  }

  /** Python's str.strip(), str.lstrip() and str.rstrip(). */
  function Strip(s: string): string {
    Trim(s, IsSpace)
  }

  function StripLeft(s: string): string {
    TrimLeft(s, IsSpace)
  }

  function StripRight(s: string): string {
    TrimRight(s, IsSpace)
  }

  /** Neither end of s is trimmed by p. */
  predicate Trimmed(s: string, p: char -> bool) {
    s == [] || (!p(s[0]) && !p(s[|s| - 1]))
  }

  /** What is left is the end of s, and everything before it was trimmed. */
  lemma {:induction false} TrimLeftPart(s: string, p: char -> bool)
    ensures var r := TrimLeft(s, p); r == s[|s| - |r|..] && AllOf(s[..|s| - |r|], p)
  {
    if s != [] && p(s[0]) {
      TrimLeftPart(s[1..], p);
      var r := TrimLeft(s, p);
      assert s[..|s| - |r|] == [s[0]] + s[1..][..|s| - 1 - |r|];
    }
  }

  lemma {:induction false} TrimRightPart(s: string, p: char -> bool)
    ensures var r := TrimRight(s, p); r == s[..|r|] && AllOf(s[|r|..], p)
  {
    var n := |s| - 1;
    if s != [] && p(s[n]) {
      TrimRightPart(s[..n], p);
      var r := TrimRight(s, p);
      assert s[|r|..] == s[..n][|r|..] + [s[n]];
    }
  }

  lemma {:induction false} TrimLeftIs(a: string, r: string, p: char -> bool)
    requires AllOf(a, p)
    requires r == [] || !p(r[0])
    ensures TrimLeft(a + r, p) == r
  {
    if a == [] {
      assert a + r == r;
    } else {
      assert (a + r)[1..] == a[1..] + r;
      TrimLeftIs(a[1..], r, p);
    }
  }

  lemma {:induction false} TrimRightIs(r: string, a: string, p: char -> bool)
    requires AllOf(a, p)
    requires r == [] || !p(r[|r| - 1])
    ensures TrimRight(r + a, p) == r
  {
    if a == [] {
      assert r + a == r;
    } else {
      assert (r + a)[..|r + a| - 1] == r + a[..|a| - 1];
      TrimRightIs(r, a[..|a| - 1], p);
    }
  }

  lemma AllOfConcat(a: string, b: string, p: char -> bool)
    ensures AllOf(a + b, p) <==> AllOf(a, p) && AllOf(b, p)
  {
    if AllOf(a + b, p) {
      assert forall i :: 0 <= i < |a| ==> a[i] == (a + b)[i];
      assert forall i :: 0 <= i < |b| ==> b[i] == (a + b)[|a| + i];
    }
  }

  lemma NoneOfConcat(a: string, b: string, p: char -> bool)
    ensures NoneOf(a + b, p) <==> NoneOf(a, p) && NoneOf(b, p)
  {
    if NoneOf(a + b, p) {
      assert forall i :: 0 <= i < |a| ==> a[i] == (a + b)[i];
      assert forall i :: 0 <= i < |b| ==> b[i] == (a + b)[|a| + i];
    }
  }

  /** Trimming brings no character in. */
  lemma NoneOfTrim(s: string, p: char -> bool, cut: char -> bool)
    requires NoneOf(s, p)
    ensures NoneOf(TrimLeft(s, cut), p) && NoneOf(TrimRight(s, cut), p) && NoneOf(Trim(s, cut), p)
  {
    hide TrimLeft, TrimRight;
    var l := TrimLeft(s, cut);
    TrimLeftPart(s, cut);
    TrimRightPart(s, cut);
    TrimRightPart(l, cut);
    assert NoneOf(l, p);
  }

  lemma {:induction false} NoneOfJoin(parts: seq<string>, sep: string, p: char -> bool)
    requires NoneOf(sep, p) && forall i :: 0 <= i < |parts| ==> NoneOf(parts[i], p)
    ensures NoneOf(Join(parts, sep), p)
  {
    if |parts| > 1 {
      NoneOfJoin(parts[1..], sep, p);
    }
  }

  lemma {:induction false} TrimLeftConcat(a: string, b: string, p: char -> bool)
    ensures TrimLeft(a + b, p) == if AllOf(a, p) then TrimLeft(b, p) else TrimLeft(a, p) + b
  {
    if a == [] {
      assert a + b == b;
    } else {
      AllOfConcat([a[0]], a[1..], p);
      assert a == [a[0]] + a[1..];
      assert (a + b)[1..] == a[1..] + b;
      if p(a[0]) {
        TrimLeftConcat(a[1..], b, p);
      }
    }
  }

  lemma {:induction false} TrimRightConcat(a: string, b: string, p: char -> bool)
    ensures TrimRight(a + b, p) == if AllOf(b, p) then TrimRight(a, p) else a + TrimRight(b, p)
  {
    if b == [] {
      assert a + b == a;
    } else {
      var n := |b| - 1;
      AllOfConcat(b[..n], [b[n]], p);
      assert b == b[..n] + [b[n]];
      assert (a + b)[..|a + b| - 1] == a + b[..n];
      if p(b[n]) {
        TrimRightConcat(a, b[..n], p);
      }
    }
  }

  lemma TrimmedStays(s: string, p: char -> bool)
    requires Trimmed(s, p)
    ensures TrimLeft(s, p) == s && TrimRight(s, p) == s && Trim(s, p) == s
  {
  }

  lemma {:induction false} TrimIsTrimmed(s: string, p: char -> bool)
    ensures Trimmed(Trim(s, p), p)
    ensures Trim(s, p) == [] <==> AllOf(s, p)
    ensures |Trim(s, p)| <= |s|
  {
    hide TrimLeft, TrimRight;
    TrimLeftPart(s, p);
    TrimRightPart(TrimLeft(s, p), p);
    var l := TrimLeft(s, p);
    var t := TrimRight(l, p);
    var skip := s[..|s| - |l|];
    assert s == skip + l;
    AllOfConcat(skip, l, p);
    if t == [] {
      assert l == l[|t|..];
    } else {
      assert t[0] == l[0];
    }
  }

  /** Trimming around a core that starts and ends with a kept character finds the core. */
  lemma TrimFinds(a: string, core: string, b: string, p: char -> bool)
    requires AllOf(a, p) && AllOf(b, p) && Trimmed(core, p)
    ensures Trim(a + core + b, p) == core
  {
    if core == [] {
      assert a + core + b == (a + b) + [];
      TrimLeftIs(a + b, [], p);
    } else {
      assert a + core + b == a + (core + b);
      TrimLeftIs(a, core + b, p);
      TrimRightIs(core, b, p);
    }
  }

  lemma TrimAllOf(s: string, p: char -> bool)
    requires AllOf(s, p)
    ensures TrimLeft(s, p) == [] && TrimRight(s, p) == [] && Trim(s, p) == []
  {
    assert s == s + [];
    TrimLeftIs(s, [], p);
    assert s == [] + s;
    TrimRightIs([], s, p);
  }

  // --------------------------------------------------------------------------
  // Searching
  // --------------------------------------------------------------------------

  predicate StartsWith(s: string, prefix: string) {
    |prefix| <= |s| && s[..|prefix|] == prefix
  }

  predicate OccursAt(s: string, pat: string, i: int) {
    0 <= i && i + |pat| <= |s| && s[i..i + |pat|] == pat
  }

  /** The number of leading elements before the first one that satisfies p. */
  function FirstIndex<T>(xs: seq<T>, p: T -> bool): (k: nat)
    ensures k <= |xs|
    ensures k < |xs| ==> p(xs[k])
    ensures forall i :: 0 <= i < k ==> !p(xs[i])
  {
    if xs == [] || p(xs[0]) then 0 else 1 + FirstIndex(xs[1..], p)
  }

  lemma FirstIndexIs<T>(xs: seq<T>, p: T -> bool, k: nat)
    requires k <= |xs|
    requires k < |xs| ==> p(xs[k])
    requires forall i :: 0 <= i < k ==> !p(xs[i])
    ensures FirstIndex(xs, p) == k
  {
  }

  /** strings.Index: the first occurrence of pat, if any. */
  function Index(s: string, pat: string): (r: Option<nat>)
    ensures r.Some? ==> OccursAt(s, pat, r.value)
    ensures forall i :: 0 <= i && (r.Some? ==> i < r.value) ==> !OccursAt(s, pat, i)
  {
    IndexFrom(s, pat, 0)
  }

  function IndexFrom(s: string, pat: string, i: nat): (r: Option<nat>)
    ensures r.Some? ==> i <= r.value && OccursAt(s, pat, r.value)
    ensures forall j :: i <= j && (r.Some? ==> j < r.value) ==> !OccursAt(s, pat, j)
    decreases |s| - i
  {
    if i + |pat| > |s| then None
    else if s[i..i + |pat|] == pat then Some(i)
    else IndexFrom(s, pat, i + 1)
  }

  /** strings.LastIndex. */
  function LastIndex(s: string, pat: string): (r: Option<nat>)
    ensures r.Some? ==> OccursAt(s, pat, r.value)
    ensures forall i :: 0 <= i && (r.Some? ==> r.value < i) ==> !OccursAt(s, pat, i)
  {
    if |pat| <= |s| then LastIndexUpTo(s, pat, |s| - |pat|) else None
  }

  function LastIndexUpTo(s: string, pat: string, i: nat): (r: Option<nat>)
    requires i + |pat| <= |s|
    ensures r.Some? ==> r.value <= i && OccursAt(s, pat, r.value)
    ensures forall j :: 0 <= j <= i && (r.Some? ==> r.value < j) ==> !OccursAt(s, pat, j)
  {
    if s[i..i + |pat|] == pat then Some(i)
    else if i == 0 then None
    else LastIndexUpTo(s, pat, i - 1)
  }

  predicate Contains(s: string, pat: string) {
    Index(s, pat).Some?
  }

  lemma ContainsIff(s: string, pat: string)
    ensures Contains(s, pat) <==> exists i :: OccursAt(s, pat, i)
    ensures Contains(s, pat) <==> LastIndex(s, pat).Some?
  {
    var first, last := Index(s, pat), LastIndex(s, pat);
    if first.Some? {
      assert OccursAt(s, pat, first.value);
    }
    if last.Some? {
      assert OccursAt(s, pat, last.value);
    }
  }

  lemma LastIndexIs(s: string, pat: string, k: nat)
    requires OccursAt(s, pat, k)
    requires forall i :: k < i ==> !OccursAt(s, pat, i)
    ensures LastIndex(s, pat) == Some(k)
  {
    var r := LastIndex(s, pat);
    assert r.Some?;
    assert OccursAt(s, pat, r.value);
  }

  lemma IndexIs(s: string, pat: string, k: nat)
    requires OccursAt(s, pat, k)
    requires forall i :: 0 <= i < k ==> !OccursAt(s, pat, i)
    ensures Index(s, pat) == Some(k)
  {
    var r := Index(s, pat);
    assert r.Some?;
    assert OccursAt(s, pat, r.value);
  }

  /** An occurrence inside the left or the right part is one in the concatenation. */
  lemma OccursInParts(a: string, b: string, pat: string, i: int)
    ensures OccursAt(a, pat, i) ==> OccursAt(a + b, pat, i)
    ensures OccursAt(b, pat, i) ==> OccursAt(a + b, pat, |a| + i)
    ensures i + |pat| <= |a| && OccursAt(a + b, pat, i) ==> OccursAt(a, pat, i)
    ensures |a| <= i && OccursAt(a + b, pat, i) ==> OccursAt(b, pat, i - |a|)
  {
    if 0 <= i && i + |pat| <= |a| {
      assert (a + b)[i..i + |pat|] == a[i..i + |pat|];
    }
    if 0 <= i && i + |pat| <= |b| {
      assert (a + b)[|a| + i..|a| + i + |pat|] == b[i..i + |pat|];
    }
    if |a| <= i && i + |pat| <= |a + b| {
      assert (a + b)[i..i + |pat|] == b[i - |a|..i - |a| + |pat|];
    }
  }

  // --------------------------------------------------------------------------
  // Replacing
  // --------------------------------------------------------------------------

  /** str.replace and strings.ReplaceAll: left to right, without overlap. */
  function ReplaceAll(s: string, pat: string, sub: string): string
    requires pat != []
  {
    if |s| < |pat| then s
    else if s[..|pat|] == pat then sub + ReplaceAll(s[|pat|..], pat, sub)
    else [s[0]] + ReplaceAll(s[1..], pat, sub)
  }

  lemma ReplaceSkipsChar(c: char, rest: string, pat: string, sub: string)
    requires pat != [] && !StartsWith([c] + rest, pat)
    ensures ReplaceAll([c] + rest, pat, sub) == [c] + ReplaceAll(rest, pat, sub)
  {
    var s := [c] + rest;
    assert s[1..] == rest;
    if |s| < |pat| {
      assert ReplaceAll(rest, pat, sub) == rest;
    }
  }

  /** Text without the pattern's first character is copied. */
  lemma {:induction false} ReplaceSkips(a: string, rest: string, pat: string, sub: string)
    requires pat != [] && pat[0] !in a
    ensures ReplaceAll(a + rest, pat, sub) == a + ReplaceAll(rest, pat, sub)
  {
    if a == [] {
      assert a + rest == rest;
    } else {
      ReplaceSkips(a[1..], rest, pat, sub);
      assert a + rest == [a[0]] + (a[1..] + rest);
      assert !StartsWith([a[0]] + (a[1..] + rest), pat) by {
        assert ([a[0]] + (a[1..] + rest))[..1] == [a[0]];
      }
      ReplaceSkipsChar(a[0], a[1..] + rest, pat, sub);
      assert a == [a[0]] + a[1..];
    }
  }

  lemma ReplaceHits(rest: string, pat: string, sub: string)
    requires pat != []
    ensures ReplaceAll(pat + rest, pat, sub) == sub + ReplaceAll(rest, pat, sub)
  {
    assert (pat + rest)[..|pat|] == pat;
    assert (pat + rest)[|pat|..] == rest;
  }

  // --------------------------------------------------------------------------
  // Splitting and joining
  // --------------------------------------------------------------------------

  function Join(parts: seq<string>, sep: string): string {
    if parts == [] then []
    else if |parts| == 1 then parts[0]
    else parts[0] + sep + Join(parts[1..], sep)
  }

  /** str.split with a one-character separator. */
  function SplitOn(s: string, sep: char): (r: seq<string>)
    ensures |r| > 0
  {
    var k := FirstIndex(s, c => c == sep);
    if k == |s| then [s] else [s[..k]] + SplitOn(s[k + 1..], sep)
  }

  /** Every line followed by a newline. */
  function Unlines(lines: seq<string>): string {
    if lines == [] then [] else lines[0] + NEWLINE + Unlines(lines[1..])
  }

  predicate OneLine(s: string) {
    NoneOf(s, IsLineBreak)
  }

  predicate AllOneLine(lines: seq<string>) {
    forall i :: 0 <= i < |lines| ==> OneLine(lines[i])
  }

  lemma OneLineConcat(a: string, b: string)
    ensures OneLine(a + b) <==> OneLine(a) && OneLine(b)
  {
    NoneOfConcat(a, b, IsLineBreak);
  }

  /** Where the line after the break at position k starts. */
  function NextLine(s: string, k: nat): (n: nat)
    requires k < |s|
    ensures k < n <= |s|
  {
    if s[k] == '\r' && k + 1 < |s| && s[k + 1] == '\n' then k + 2 else k + 1
  }

  /** Python's str.splitlines. */
  function SplitLines(s: string): (r: seq<string>)
    ensures AllOneLine(r)
  {
    if s == [] then []
    else
      var k := FirstIndex(s, IsLineBreak);
      if k == |s| then [s] else [s[..k]] + SplitLines(s[NextLine(s, k)..])
  }

  lemma SplitLinesStep(s: string, k: nat)
    requires k < |s| && FirstIndex(s, IsLineBreak) == k
    ensures SplitLines(s) == [s[..k]] + SplitLines(s[NextLine(s, k)..])
  {
  }

  lemma SplitLinesEmpty()
    ensures SplitLines("") == []
  {
  }

  lemma {:induction false} SplitLinesOfUnlines(lines: seq<string>)
    requires AllOneLine(lines)
    ensures SplitLines(Unlines(lines)) == lines
  {
    if lines != [] {
      hide SplitLines, FirstIndex, OneLine;
      SplitLinesOfUnlines(lines[1..]);
      FirstLineCut(lines[0], Unlines(lines[1..]));
      assert Unlines(lines) == lines[0] + NEWLINE + Unlines(lines[1..]);
      assert lines == [lines[0]] + lines[1..];
    }
  }

  lemma FirstLineCut(line: string, rest: string)
    requires OneLine(line)
    ensures SplitLines(line + NEWLINE + rest) == [line] + SplitLines(rest)
  {
    hide SplitLines, FirstIndex;
    var s, k := line + NEWLINE + rest, |line|;
    assert s[k] == '\n' && IsLineBreak('\n');
    assert forall i :: 0 <= i < k ==> s[i] == line[i];
    FirstIndexIs(s, IsLineBreak, k);
    SplitLinesStep(s, k);
    assert s[..k] == line && s[k + 1..] == rest;
  }

  lemma {:induction false} JoinIsUnlines(lines: seq<string>)
    requires lines != []
    ensures Join(lines, NEWLINE) + NEWLINE == Unlines(lines)
  {
    if |lines| > 1 {
      JoinIsUnlines(lines[1..]);
      assert Join(lines, NEWLINE) + NEWLINE == lines[0] + NEWLINE + (Join(lines[1..], NEWLINE) + NEWLINE);
    } else {
      assert Unlines(lines[1..]) == [];
      assert lines[0] + NEWLINE + [] == lines[0] + NEWLINE;
    }
  }

  lemma {:induction false} JoinConcat(a: seq<string>, b: seq<string>, sep: string)
    ensures Join(a + b, sep) ==
            if a == [] then Join(b, sep) else if b == [] then Join(a, sep) else Join(a, sep) + sep + Join(b, sep)
  {
    if a == [] {
      assert a + b == b;
    } else if b == [] {
      assert a + b == a;
    } else if |a| == 1 {
      assert (a + b)[1..] == b;
    } else {
      JoinConcat(a[1..], b, sep);
      assert (a + b)[1..] == a[1..] + b;
      assert Join(a + b, sep) == a[0] + sep + (Join(a[1..], sep) + sep + Join(b, sep));
    }
  }

  /** What is left of a document's lines once trailing white space is cut from its end. */
  function TrimTail(lines: seq<string>): (r: seq<string>)
    requires lines != []
    ensures r != [] && |r| <= |lines|
  {
    var last := StripRight(lines[|lines| - 1]);
    if last == [] && |lines| > 1 then TrimTail(lines[..|lines| - 1])
    else lines[..|lines| - 1] + [last]
  }

  /** A non-blank line shields everything before it from the trimming. */
  lemma {:induction false} TrimTailConcat(a: seq<string>, b: seq<string>)
    requires b != [] && (exists i :: 0 <= i < |b| && StripRight(b[i]) != [])
    ensures TrimTail(a + b) == a + TrimTail(b)
  {
    var n := |b| - 1;
    var last := StripRight(b[n]);
    assert (a + b)[|a + b| - 1] == b[n];
    if last == [] {
      var i :| 0 <= i < |b| && StripRight(b[i]) != [];
      assert i < n;
      assert b[..n][i] == b[i];
      assert (a + b)[..|a + b| - 1] == a + b[..n];
      TrimTailConcat(a, b[..n]);
    } else {
      assert (a + b)[..|a + b| - 1] + [last] == a + (b[..n] + [last]);
    }
  }
}
