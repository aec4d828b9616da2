/** Items that may hold line breaks of their own: joined with line feeds, trimmed at the end, and
    split into lines again. */
module Items {
  import opened Text

  lemma {:induction false} SplitLinesAt(x: string, y: string)
    ensures SplitLines(x + NEWLINE + y) == SplitLines(x + NEWLINE) + SplitLines(y)
    decreases |x|
  {
    hide SplitLines, FirstIndex;
    var s, s0 := x + NEWLINE + y, x + NEWLINE;
    assert IsLineBreak('\n') && s0[|x|] == '\n';
    hide IsLineBreak;
    var k := FirstIndex(s0, IsLineBreak);
    assert forall i :: 0 <= i <= |x| ==> s[i] == s0[i];
    FirstIndexIs(s, IsLineBreak, k);
    assert s[..k] == s0[..k];
    var next := NextLine(s0, k);
    assert next == NextLine(s, k);
    SplitLinesStep(s0, k);
    SplitLinesStep(s, k);
    if next == |x| + 1 {
      assert s0[next..] == [] && s[next..] == y;
      SplitLinesEmpty();
    } else {
      SplitLinesAt(x[next..], y);
      assert s[next..] == x[next..] + NEWLINE + y;
      assert s0[next..] == x[next..] + NEWLINE;
    }
  }

  /** The lines that an item of a joined list contributes. */
  function ItemLines(item: string): (r: seq<string>)
    ensures AllOneLine(r)
  {
    SplitLines(item + NEWLINE)
  }

  /** The lines that a list of items contributes. */
  function Expand(items: seq<string>): seq<string> {
    if items == [] then [] else ItemLines(items[0]) + Expand(items[1..])
  }

  lemma {:induction false} ExpandConcat(a: seq<string>, b: seq<string>)
    ensures Expand(a + b) == Expand(a) + Expand(b)
  {
    hide ItemLines;
    if a == [] {
      assert a + b == b;
    } else {
      assert (a + b)[1..] == a[1..] + b;
      ExpandConcat(a[1..], b);
    }
  }

  lemma ExpandItem(item: string)
    ensures Expand([item]) == ItemLines(item)
  {
    hide ItemLines;
    assert [item][1..] == [];
    assert Expand([]) == [];
  }

  lemma {:induction false} ExpandOneLine(items: seq<string>)
    ensures AllOneLine(Expand(items))
  {
    hide ItemLines, OneLine;
    if items != [] {
      ExpandOneLine(items[1..]);
    }
  }

  /** Items of one line each are lines. */
  lemma {:induction false} ExpandLines(lines: seq<string>)
    requires AllOneLine(lines)
    ensures Expand(lines) == lines
  {
    if lines != [] {
      OneLineItem(lines[0]);
      hide ItemLines, OneLine;
      ExpandLines(lines[1..]);
      assert lines == [lines[0]] + lines[1..];
    }
  }

  lemma {:induction false} SplitJoined(items: seq<string>)
    requires items != []
    ensures SplitLines(Join(items, NEWLINE) + NEWLINE) == Expand(items)
  {
    hide SplitLines;
    if |items| == 1 {
      ExpandItem(items[0]);
      assert items == [items[0]];
    } else {
      var rest := Join(items[1..], NEWLINE) + NEWLINE;
      SplitJoined(items[1..]);
      SplitLinesAt(items[0], rest);
      assert Join(items, NEWLINE) + NEWLINE == items[0] + NEWLINE + rest;
    }
  }

  // --------------------------------------------------------------------------
  // Line by line
  // --------------------------------------------------------------------------

  function LineEnd(x: string): (k: nat)
    ensures k <= |x|
  {
    FirstIndex(x, IsLineBreak)
  }

  /** Where the second line of an item starts; behind its end if it has one line only. */
  function SecondLine(x: string): (n: nat)
    ensures LineEnd(x) < n <= |x| + 1
  {
    var k := LineEnd(x);
    if k == |x| || (x[k] == '\r' && k + 1 == |x|) then |x| + 1 else NextLine(x, k)
  }

  lemma ItemLinesStep(x: string)
    ensures ItemLines(x) == [x[..LineEnd(x)]] + if SecondLine(x) > |x| then [] else ItemLines(x[SecondLine(x)..])
  {
    hide SplitLines, FirstIndex;
    var s, k, n := x + NEWLINE, LineEnd(x), SecondLine(x);
    assert IsLineBreak('\n') && s[|x|] == '\n';
    hide IsLineBreak;
    assert forall i :: 0 <= i < |x| ==> s[i] == x[i];
    FirstIndexIs(s, IsLineBreak, k);
    SplitLinesStep(s, k);
    assert s[..k] == x[..k];
    SecondLineIs(x);
    if n > |x| {
      assert s[n..] == [];
      SplitLinesEmpty();
    } else {
      assert s[n..] == x[n..] + NEWLINE;
    }
  }

  lemma SecondLineIs(x: string)
    ensures var s, k := x + NEWLINE, LineEnd(x); k < |s| && NextLine(s, k) == SecondLine(x)
  {
    hide LineEnd;
    var s, k := x + NEWLINE, LineEnd(x);
    assert k < |x| ==> s[k] == x[k];
    assert k + 1 < |x| ==> s[k + 1] == x[k + 1];
    assert s[|x|] == '\n';
  }

  lemma BreaksAreSpace(x: string)
    ensures AllOf(x[LineEnd(x)..if SecondLine(x) > |x| then |x| else SecondLine(x)], IsSpace)
    ensures OneLine(x[..LineEnd(x)])
  {
  }

  lemma OneLineItem(line: string)
    requires OneLine(line)
    ensures ItemLines(line) == [line]
  {
    hide ItemLines, IsLineBreak;
    FirstIndexIs(line, IsLineBreak, |line|);
    ItemLinesStep(line);
    assert line[..|line|] == line;
  }

  ghost predicate AllBlank(lines: seq<string>) {
    forall i :: 0 <= i < |lines| ==> AllOf(lines[i], IsSpace)
  }

  /** An item is blank when all its lines are. */
  lemma {:induction false} BlankItem(x: string)
    ensures AllBlank(ItemLines(x)) <==> AllOf(x, IsSpace)
    decreases |x|
  {
    hide ItemLines, IsSpace, LineEnd, SecondLine, AllOf;
    ItemLinesStep(x);
    BreaksAreSpace(x);
    var k, n := LineEnd(x), SecondLine(x);
    var first, end := x[..k], if n > |x| then |x| else n;
    assert x == first + x[k..];
    AllOfConcat(first, x[k..], IsSpace);
    assert x[k..] == x[k..end] + x[end..];
    AllOfConcat(x[k..end], x[end..], IsSpace);
    if n > |x| {
      AllOfEmpty(x[end..]);
      AllBlankCons(first, []);
    } else {
      BlankItem(x[n..]);
      AllBlankCons(first, ItemLines(x[n..]));
    }
  }

  lemma AllOfEmpty(s: string)
    requires s == []
    ensures AllOf(s, IsSpace)
  {
  }

  lemma AllBlankCons(line: string, lines: seq<string>)
    ensures AllBlank([line] + lines) <==> AllOf(line, IsSpace) && AllBlank(lines)
  {
    hide AllOf;
    var all := [line] + lines;
    assert all[0] == line;
    assert forall i :: 0 <= i < |lines| ==> all[i + 1] == lines[i];
  }

  lemma {:induction false} TrimTailBlank(line: string, lines: seq<string>)
    requires AllBlank(lines)
    ensures TrimTail([line] + lines) == [StripRight(line)]
  {
    hide StripRight, IsSpace, AllOf;
    if lines == [] {
      assert [line] + lines == [line];
      assert [line][..0] + [StripRight(line)] == [StripRight(line)];
    } else {
      var n := |lines| - 1;
      NothingLeft(lines[n]);
      assert lines == lines[..n] + [lines[n]];
      assert ([line] + lines)[..|lines|] == [line] + lines[..n];
      TrimTailBlank(line, lines[..n]);
    }
  }

  lemma SomeNotBlank(x: string)
    requires !AllOf(x, IsSpace)
    ensures exists i :: 0 <= i < |ItemLines(x)| && StripRight(ItemLines(x)[i]) != []
  {
    BlankItem(x);
    hide AllOf, ItemLines, StripRight;
    var i :| 0 <= i < |ItemLines(x)| && !AllOf(ItemLines(x)[i], IsSpace);
    NothingLeft(ItemLines(x)[i]);
  }

  lemma NothingLeft(s: string)
    ensures StripRight(s) == [] <==> AllOf(s, IsSpace)
  {
    hide IsSpace, TrimRight;
    TrimRightPart(s, IsSpace);
    if AllOf(s, IsSpace) {
      TrimAllOf(s, IsSpace);
    } else {
      assert s[0..] == s;
    }
  }

  /** What is left of x when only the text from n on is trimmed. */
  lemma StripRightFrom(x: string, n: nat)
    requires n <= |x|
    ensures StripRight(x) == if AllOf(x[n..], IsSpace) then StripRight(x[..n]) else x[..n] + StripRight(x[n..])
  {
    assert x == x[..n] + x[n..];
    TrimRightConcat(x[..n], x[n..], IsSpace);
  }

  lemma StripRightOneLine(line: string)
    requires OneLine(line)
    ensures OneLine(StripRight(line))
  {
    NoneOfTrim(line, IsLineBreak, IsSpace);
  }

  /** Where the first line ends does not depend on what follows the second line's start. */
  lemma SameFirstLine(x: string, z: string)
    requires SecondLine(x) <= |x| && z != [] && z[0] == (x[SecondLine(x)..] + NEWLINE)[0]
    ensures var y := x[..SecondLine(x)] + z; LineEnd(y) == LineEnd(x) && SecondLine(y) == SecondLine(x)
  {
    hide IsLineBreak;
    var n := SecondLine(x);
    var y := x[..n] + z;
    assert forall i :: 0 <= i < n ==> y[i] == x[i];
    FirstIndexIs(y, IsLineBreak, LineEnd(x));
    assert y[n] == z[0];
  }

  /** Trimming the end of an item trims the end of its lines. */
  lemma {:induction false} TrimmedItem(x: string)
    ensures ItemLines(StripRight(x)) == TrimTail(ItemLines(x))
    decreases |x|
  {
    hide ItemLines, IsSpace, LineEnd, SecondLine, StripRight, OneLine, AllOf, TrimTail;
    ItemLinesStep(x);
    BreaksAreSpace(x);
    var k, n := LineEnd(x), SecondLine(x);
    var first := x[..k];
    StripRightFrom(x, k);
    if n > |x| {
      assert x[k..|x|] == x[k..];
      LastLineTrimmed(first, []);
    } else {
      var rest := x[n..];
      assert x[k..] == x[k..n] + rest;
      AllOfConcat(x[k..n], rest, IsSpace);
      if AllOf(rest, IsSpace) {
        BlankItem(rest);
        LastLineTrimmed(first, ItemLines(rest));
      } else {
        StripRightFrom(x, n);
        TrimmedItem(rest);
        SomeNotBlank(rest);
        TrimTailConcat([first], ItemLines(rest));
        var z := StripRight(rest);
        StripRightFront(rest);
        var y := x[..n] + z;
        SameFirstLine(x, z);
        ItemLinesStep(y);
        assert y[..k] == first && y[n..] == z;
      }
    }
  }

  lemma LastLineTrimmed(first: string, blank: seq<string>)
    requires OneLine(first) && AllBlank(blank)
    ensures ItemLines(StripRight(first)) == TrimTail([first] + blank)
  {
    StripRightOneLine(first);
    OneLineItem(StripRight(first));
    TrimTailBlank(first, blank);
  }

  lemma StripRightFront(s: string)
    requires !AllOf(s, IsSpace)
    ensures StripRight(s) != [] && s != [] && StripRight(s)[0] == s[0]
  {
    NothingLeft(s);
    hide IsSpace, TrimRight;
    TrimRightPart(s, IsSpace);
  }

  /** Writing items and reading the lines back only trims the end of the document. */
  lemma RereadItems(items: seq<string>)
    requires items != []
    ensures SplitLines(StripRight(Join(items, NEWLINE)) + NEWLINE) == TrimTail(Expand(items))
  {
    hide SplitLines, StripRight, Expand, TrimTail, Join;
    SplitJoined(items);
    TrimmedItem(Join(items, NEWLINE));
  }

  /** An item whose last character is visible shields what stands before it, and itself. */
  lemma SolidItem(a: seq<string>, item: string)
    requires item != [] && !IsSpace(item[|item| - 1])
    ensures TrimTail(a + ItemLines(item)) == a + ItemLines(item)
  {
    TrimmedItem(item);
    assert !AllOf(item, IsSpace);
    SomeNotBlank(item);
    hide IsSpace, ItemLines;
    TrimTailConcat(a, ItemLines(item));
  }
}
