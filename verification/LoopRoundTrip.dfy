/** Writing a Loop plan and parsing it back. */
module LoopRoundTrip {
  import opened Text
  import opened Items
  import opened Dag
  import opened TaskLine
  import opened PlanText
  import opened PlanLayout
  import opened PlanRoundTrip

  // --------------------------------------------------------------------------
  // Numbers
  // --------------------------------------------------------------------------

  lemma {:induction false} NumberRoundTrip(n: nat)
    ensures AllOf(NatToString(n), IsDigit) && ParseNat(NatToString(n)) == n
  {
    if n >= 10 {
      NumberRoundTrip(n / 10);
      var front := NatToString(n / 10);
      assert (front + [Digit(n % 10)])[..|front|] == front;
    } else {
      assert NatToString(n)[..0] == [];
    }
  }

  lemma DigitIsPlain(c: char)
    ensures IsDigit(c) ==> !IsSpace(c) && c != '/'
    ensures !IsDigit(' ') && IsSpace(' ') && !IsSpace('/')
  {
  }

  lemma NumberThenRest(n: nat, rest: string)
    requires rest == [] || !IsDigit(rest[0])
    ensures var s := NatToString(n) + rest;
            DigitRun(s) == |NatToString(n)| && s[..DigitRun(s)] == NatToString(n) && s[DigitRun(s)..] == rest
            && NatToString(n) != [] && StripLeft(s) == s
  {
    NatToStringPlain(n);
    DigitIsPlain(NatToString(n)[0]);
    hide IsDigit, NatToString, IsSpace;
    var d := NatToString(n);
    var s := d + rest;
    assert s[0] == d[0];
    FirstIndexIs(s, NotDigit, |d|);
  }

  lemma IterationRoundTrip(current: nat, max: nat)
    ensures ParseIteration(NatToString(current) + " / " + NatToString(max)) == Some((current, max))
  {
    hide IsDigit, NatToString, IsSpace, TrimLeft, DigitRun, ParseNat, AllOf;
    DigitIsPlain(' ');
    NumberRoundTrip(current);
    NumberRoundTrip(max);
    var a, c := NatToString(current), NatToString(max);
    NumberThenRest(current, " / " + c);
    NumberThenRest(max, "");
    assert a + " / " + c == a + (" / " + c);
    SlashThenNumber(c);
    assert c + "" == c;
    SpaceThenNumber(max);
    AllOfNothing();
  }

  lemma AllOfNothing()
    ensures AllOf("", IsSpace)
  {
  }

  lemma SlashThenNumber(c: string)
    ensures StripLeft(" / " + c) == "/ " + c && ("/ " + c)[1..] == " " + c
  {
    DigitIsPlain(' ');
    hide IsSpace, TrimLeft;
    assert " / " + c == " " + ("/ " + c);
    SkipOneSpace("/ " + c);
  }

  lemma SpaceThenNumber(n: nat)
    ensures StripLeft(" " + NatToString(n)) == NatToString(n)
  {
    NatToStringPlain(n);
    DigitIsPlain(NatToString(n)[0]);
    hide NatToString, IsDigit, IsSpace, TrimLeft;
    SkipOneSpace(NatToString(n));
  }

  // --------------------------------------------------------------------------
  // Fields
  // --------------------------------------------------------------------------

  lemma StripAround(w: string, s: string, v: string)
    requires AllOf(w, IsSpace) && AllOf(v, IsSpace)
    ensures Strip(w + s + v) == Strip(s)
  {
    hide IsSpace, TrimLeft, TrimRight;
    var l := TrimLeft(s, IsSpace);
    assert w + s + v == w + (s + v);
    TrimLeftConcat(w, s + v, IsSpace);
    TrimLeftConcat(s, v, IsSpace);
    TrimRightConcat(l, v, IsSpace);
    if AllOf(s, IsSpace) {
      TrimAllOf(s, IsSpace);
      TrimAllOf(v, IsSpace);
    }
  }

  lemma FieldFound(pre: seq<string>, f: seq<string>, j: nat, rest: seq<string>, key: string, value: string)
    requires forall i :: 0 <= i < |pre| ==> !StartsWith(pre[i], key)
    requires j < |f| && forall i :: 0 <= i < j ==> !StartsWith(f[i], key)
    requires f[j] == key + " " + value
    ensures PlanField(pre + f + rest, key) == Strip(value)
  {
    hide StartsWith, Strip;
    var lines := pre + f + rest;
    FieldStarts(key, value);
    assert lines[|pre| + j] == f[j];
    FirstIndexIs(lines, line => StartsWith(line, key), |pre| + j);
  }

  lemma FieldStarts(key: string, value: string)
    ensures StartsWith(key + " " + value, key)
    ensures Strip((key + " " + value)[|key|..]) == Strip(value)
  {
    var s := key + " " + value;
    assert s[..|key|] == key && s[|key|..] == " " + value + "";
    StripAround(" ", value, "");
  }

  /** The five labels and the loop heading differ in their third character. */
  lemma ThirdCharacters()
    ensures LOOP_HEADING[2] == ' ' && LOOP_TYPE[2] == 'P' && LOOP_STATUS[2] == 'L'
    ensures ITERATION[2] == 'I' && GOAL[2] == 'G' && STOP[2] == 'S'
    ensures |LOOP_HEADING| > 2 && |LOOP_TYPE| > 2 && |LOOP_STATUS| > 2 && |ITERATION| > 2 && |GOAL| > 2 && |STOP| > 2
  {
  }

  lemma OtherLine(line: string, key: string)
    requires |key| > 2 && (|line| <= 2 || line[2] != key[2])
    ensures !StartsWith(line, key)
  {
    assert |key| <= |line| ==> line[..|key|][2] == line[2];
  }

  predicate IsFieldKey(key: string) {
    key == LOOP_STATUS || key == ITERATION || key == GOAL || key == STOP
  }

  predicate IsLoopHeading(h: string) {
    h == TEMPLATE_HEADING || h == CURRENT_HEADING || h == HISTORY_HEADING
  }

  /** No field, plan type or loop heading in front of the managed section. */
  ghost predicate CleanForLoop(prefix: seq<string>) {
    && PlanTypeOf(prefix) == None
    && (forall i, key :: 0 <= i < |prefix| && IsFieldKey(key) ==> !StartsWith(prefix[i], key))
    && (forall i :: 0 <= i < |prefix| ==> !IsLoopHeading(Strip(prefix[i])))
  }

  lemma FieldKeys()
    ensures IsFieldKey(LOOP_STATUS) && IsFieldKey(ITERATION) && IsFieldKey(GOAL) && IsFieldKey(STOP)
  {
  }

  lemma FieldOrder(loop: LoopPlan)
    ensures var f := LoopFields(loop);
            && f[3] == LOOP_STATUS + " " + loop.status
            && f[4] == ITERATION + " " + (NatToString(loop.currentIteration) + " / " + NatToString(loop.maxIterations))
            && f[5] == GOAL + " " + SingleLine(loop.goal)
            && f[6] == STOP + " " + SingleLine(loop.stopCondition)
            && (forall i :: 0 <= i < 3 ==> !StartsWith(f[i], LOOP_STATUS))
            && (forall i :: 0 <= i < 4 ==> !StartsWith(f[i], ITERATION))
            && (forall i :: 0 <= i < 5 ==> !StartsWith(f[i], GOAL))
            && (forall i :: 0 <= i < 6 ==> !StartsWith(f[i], STOP))
  {
    ThirdCharacters();
    hide StartsWith, LOOP_HEADING, LOOP_TYPE, LOOP_STATUS, ITERATION, GOAL, STOP, NatToString, SingleLine;
    var f := LoopFields(loop);
    forall i | 0 <= i < 3 ensures !StartsWith(f[i], LOOP_STATUS) { OtherLine(f[i], LOOP_STATUS); }
    forall i | 0 <= i < 4 ensures !StartsWith(f[i], ITERATION) { OtherLine(f[i], ITERATION); }
    forall i | 0 <= i < 5 ensures !StartsWith(f[i], GOAL) { OtherLine(f[i], GOAL); }
    forall i | 0 <= i < 6 ensures !StartsWith(f[i], STOP) { OtherLine(f[i], STOP); }
  }

  lemma FieldsReread(prefix: seq<string>, loop: LoopPlan, rest: seq<string>)
    requires CleanForLoop(prefix)
    ensures var lines := prefix + LoopFields(loop) + rest;
            && PlanField(lines, LOOP_STATUS) == Strip(loop.status)
            && PlanField(lines, ITERATION) == NatToString(loop.currentIteration) + " / " + NatToString(loop.maxIterations)
            && PlanField(lines, GOAL) == SingleLine(loop.goal)
            && PlanField(lines, STOP) == SingleLine(loop.stopCondition)
  {
    hide StartsWith, LOOP_STATUS, ITERATION, GOAL, STOP, NatToString, SingleLine, LoopFields, PlanField, IsFieldKey, Strip;
    FieldKeys();
    FieldOrder(loop);
    var f := LoopFields(loop);
    LoopFieldsLength(loop);
    var iteration := NatToString(loop.currentIteration) + " / " + NatToString(loop.maxIterations);
    FieldFound(prefix, f, 3, rest, LOOP_STATUS, loop.status);
    FieldFound(prefix, f, 4, rest, ITERATION, iteration);
    FieldFound(prefix, f, 5, rest, GOAL, SingleLine(loop.goal));
    FieldFound(prefix, f, 6, rest, STOP, SingleLine(loop.stopCondition));
    SingleLineStripped(loop.goal);
    SingleLineStripped(loop.stopCondition);
    IterationStripped(loop);
  }

  lemma LoopFieldsLength(loop: LoopPlan)
    ensures |LoopFields(loop)| == 8
  {
  }

  lemma SingleLineStripped(s: string)
    ensures Strip(SingleLine(s)) == SingleLine(s)
  {
    hide IsSpace, Collapse;
    TrimIsTrimmed(Collapse(s), IsSpace);
    TrimmedStays(SingleLine(s), IsSpace);
  }

  lemma IterationStripped(loop: LoopPlan)
    ensures var s := NatToString(loop.currentIteration) + " / " + NatToString(loop.maxIterations); Strip(s) == s
  {
    var a, c := NatToString(loop.currentIteration), NatToString(loop.maxIterations);
    NatToStringPlain(loop.currentIteration);
    NatToStringPlain(loop.maxIterations);
    DigitIsPlain(a[0]);
    DigitIsPlain(c[|c| - 1]);
    hide NatToString, IsDigit, IsSpace;
    var s := a + " / " + c;
    assert s[0] == a[0] && s[|s| - 1] == c[|c| - 1];
    TrimmedStays(s, IsSpace);
  }

  predicate IsWord(s: string) {
    s != [] && forall i :: 0 <= i < |s| ==> 'a' <= s[i] <= 'z' || s[i] == '_'
  }

  lemma StatusIsWord(status: string)
    requires IsLoopStatus(status)
    ensures IsWord(status)
  {
  }

  lemma WordStays(s: string)
    requires IsWord(s)
    ensures Strip(s) == s && OneLine(s) && Lower(s) == s
  {
    assert !IsSpace(s[0]) && !IsSpace(s[|s| - 1]);
    TrimmedStays(s, IsSpace);
    hide IsSpace, Trim;
    assert |Lower(s)| == |s| && forall i :: 0 <= i < |s| ==> Lower(s)[i] == s[i];
  }

  lemma StatusReread(status: string)
    requires IsLoopStatus(status)
    ensures Strip(status) == status && status != [] && OneLine(status)
    ensures SafeLoopStatus(status) == Some(status)
  {
    StatusIsWord(status);
    WordStays(status);
    hide Strip, Lower, IsLoopStatus, OneLine;
  }

  // --------------------------------------------------------------------------
  // Sections
  // --------------------------------------------------------------------------

  /** No line of the list is, once trimmed, the heading h. */
  ghost predicate Lacks(lines: seq<string>, h: string) {
    forall i :: 0 <= i < |lines| ==> Strip(lines[i]) != h
  }

  ghost predicate NoSection(lines: seq<string>) {
    forall i :: 0 <= i < |lines| ==> !IsSection(lines[i])
  }

  lemma SectionFound(a: seq<string>, line: string, heading: string, body: seq<string>, b: seq<string>)
    requires Strip(line) == heading && Lacks(a, heading)
    requires NoSection(body) && (b == [] || IsSection(b[0]))
    ensures SectionLines(a + [line] + body + b, heading) == body
  {
    hide Strip, IsSection;
    var lines := a + [line] + body + b;
    assert lines[|a|] == line;
    FirstIndexIs(lines, l => Strip(l) == heading, |a|);
    assert lines[|a| + 1..] == body + b;
    FirstIndexIs(body + b, IsSection, |body|);
  }

  /** The template's lines, as they are written. */
  function TemplateLines(loop: LoopPlan): (r: seq<string>)
    ensures AllOneLine(r)
  {
    ItemLines(Strip(loop.template))
  }

  /** A template whose lines neither open a section nor repeat, indented, one of the two later
      headings. */
  ghost predicate QuietTemplate(loop: LoopPlan) {
    var lines := TemplateLines(loop);
    NoSection(lines) && Lacks(lines, CURRENT_HEADING) && Lacks(lines, HISTORY_HEADING)
  }

  /** Tasks whose lines neither open a section nor repeat the history's heading. */
  ghost predicate QuietTasks(tasks: seq<Task>) {
    NoSection(TaskLines(tasks)) && Lacks(TaskLines(tasks), HISTORY_HEADING)
  }

  function NormalTemplate(template: string): string {
    Strip(Join(ItemLines(Strip(template)), NEWLINE))
  }

  lemma JoinAround(a: seq<string>, mid: seq<string>, b: seq<string>)
    requires a != [] && mid != [] && b != []
    ensures Join(a + mid + b, NEWLINE) == Join(a, NEWLINE) + NEWLINE + (Join(mid, NEWLINE) + NEWLINE + Join(b, NEWLINE))
  {
    JoinConcat(a + mid, b, NEWLINE);
    JoinConcat(a, mid, NEWLINE);
  }

  lemma JoinOfOne(item: string)
    ensures Join([item], NEWLINE) == item
  {
  }

  lemma ItemLinesNonEmpty(item: string)
    ensures ItemLines(item) != []
  {
    ItemLinesStep(item);
  }

  lemma TemplateReread(template: string)
    ensures Strip(Join([""] + ItemLines(Strip(template)) + [""], NEWLINE)) == NormalTemplate(template)
  {
    var lines := ItemLines(Strip(template));
    ItemLinesNonEmpty(Strip(template));
    hide IsSpace, Join, ItemLines, Strip;
    JoinAround([""], lines, [""]);
    JoinOfOne("");
    var j := Join(lines, NEWLINE);
    assert "" + NEWLINE + (j + NEWLINE + "") == NEWLINE + j + NEWLINE;
    NewlineIsSpace();
    StripAround(NEWLINE, j, NEWLINE);
  }

  lemma NewlineIsSpace()
    ensures AllOf(NEWLINE, IsSpace) && AllOf("", IsSpace)
  {
  }

  /** Line feeds are the only line breaks. */
  predicate OnlyNewlines(s: string) {
    NoneOf(s, IsOtherBreak)
  }

  predicate IsOtherBreak(c: char) {
    IsLineBreak(c) && c != '\n'
  }

  lemma UnlinesCons(line: string, rest: seq<string>)
    ensures Unlines([line] + rest) == line + NEWLINE + Unlines(rest)
  {
    assert ([line] + rest)[1..] == rest;
  }

  lemma CutAtNewline(s: string, k: nat)
    requires k < |s| && s[k] == '\n'
    ensures s == s[..k] + NEWLINE + s[k + 1..]
    ensures NextLine(s, k) == k + 1
  {
  }

  lemma FirstNewline(s: string)
    requires OnlyNewlines(s)
    ensures var s0 := s + NEWLINE; var k := FirstIndex(s0, IsLineBreak);
            k <= |s| && s0[k] == '\n' && (k < |s| ==> OnlyNewlines(s[k + 1..]) && s0[k + 1..] == s[k + 1..] + NEWLINE)
  {
    var s0 := s + NEWLINE;
    assert IsLineBreak('\n') && s0[|s|] == '\n';
    hide IsLineBreak, FirstIndex;
    var k := FirstIndex(s0, IsLineBreak);
    assert k <= |s|;
    assert k < |s| ==> s0[k] == s[k];
  }

  lemma {:induction false} UnlinesOfSplit(s: string)
    requires OnlyNewlines(s)
    ensures Unlines(SplitLines(s + NEWLINE)) == s + NEWLINE
    decreases |s|
  {
    hide IsLineBreak, SplitLines, Unlines, OnlyNewlines, FirstIndex, NextLine;
    var s0 := s + NEWLINE;
    FirstNewline(s);
    var k := FirstIndex(s0, IsLineBreak);
    CutAtNewline(s0, k);
    SplitLinesStep(s0, k);
    UnlinesCons(s0[..k], SplitLines(s0[k + 1..]));
    if k == |s| {
      assert s0[k + 1..] == [];
      SplitLinesEmpty();
      UnlinesNothing();
    } else {
      UnlinesOfSplit(s[k + 1..]);
    }
  }

  lemma UnlinesNothing()
    ensures Unlines([]) == []
  {
  }

  /** A template whose lines end in line feeds only comes back as it was, trimmed. */
  lemma TemplateStays(template: string)
    requires OnlyNewlines(template)
    ensures NormalTemplate(template) == Strip(template)
  {
    var t := Strip(template);
    StripOnlyNewlines(template);
    ItemLinesNonEmpty(t);
    UnlinesOfSplit(t);
    JoinIsUnlines(ItemLines(t));
    TrimIsTrimmed(template, IsSpace);
    hide IsSpace, SplitLines, Join, Unlines, Trim, IsLineBreak;
    assert Join(ItemLines(t), NEWLINE) + NEWLINE == t + NEWLINE;
    SameBeforeNewline(Join(ItemLines(t), NEWLINE), t);
    TrimmedStays(t, IsSpace);
  }

  lemma SameBeforeNewline(a: string, b: string)
    requires a + NEWLINE == b + NEWLINE
    ensures a == b
  {
    assert (a + NEWLINE)[..|a|] == a;
    assert (b + NEWLINE)[..|b|] == b;
    assert |a + NEWLINE| == |a| + 1 && |b + NEWLINE| == |b| + 1;
  }

  lemma StripOnlyNewlines(s: string)
    requires OnlyNewlines(s)
    ensures OnlyNewlines(Strip(s))
  {
    NoneOfTrim(s, IsOtherBreak, IsSpace);
  }

  // --------------------------------------------------------------------------
  // History
  // --------------------------------------------------------------------------

  lemma {:induction false} HistoryConcat(a: seq<string>, b: seq<string>)
    ensures HistoryOf(a + b) == HistoryOf(a) + HistoryOf(b)
  {
    hide HistoryOfLine;
    if a == [] {
      assert a + b == b;
    } else {
      assert (a + b)[1..] == a[1..] + b;
      HistoryConcat(a[1..], b);
    }
  }

  lemma HistoryOne(line: string)
    ensures HistoryOf([line]) == HistoryOfLine(line)
  {
    hide HistoryOfLine;
    assert [line][1..] == [];
    assert HistoryOf([]) == [];
  }

  /** Trimming the end of a line does not change the entry it holds. */
  lemma HistoryLineTrimmed(line: string)
    ensures HistoryOfLine(StripRight(line)) == HistoryOfLine(line)
  {
    hide IsSpace, TrimLeft, TrimRight;
    var r := StripRight(line);
    StripOfStripRight(line);
    TrimIsTrimmed(r, IsSpace);
    if StartsWith(Strip(line), "- ") && |r| >= 2 {
      var w := line[|r|..];
      TrimRightPart(line, IsSpace);
      assert line == r + w;
      assert line[2..] == "" + r[2..] + w;
      StripAround("", r[2..], w);
    }
  }

  lemma BlankHasNoHistory(line: string)
    requires StripRight(line) == []
    ensures HistoryOfLine(line) == []
  {
    StripOfStripRight(line);
    hide IsSpace;
    assert Strip("") == "";
  }

  lemma {:induction false} HistoryTrimmed(lines: seq<string>)
    requires lines != []
    ensures HistoryOf(TrimTail(lines)) == HistoryOf(lines)
  {
    hide HistoryOfLine, StripRight;
    var n := |lines| - 1;
    var last := StripRight(lines[n]);
    assert lines == lines[..n] + [lines[n]];
    HistoryConcat(lines[..n], [lines[n]]);
    HistoryOne(lines[n]);
    if last == [] && n > 0 {
      BlankHasNoHistory(lines[n]);
      HistoryTrimmed(lines[..n]);
    } else {
      HistoryConcat(lines[..n], [last]);
      HistoryOne(last);
      HistoryLineTrimmed(lines[n]);
    }
  }

  lemma DashItem(item: string)
    ensures Strip("- " + item) == if Strip(item) == [] then "-" else "- " + StripRight(item)
  {
    var line := "- " + item;
    assert !IsSpace('-') && line[0] == '-';
    DashBlank();
    StripIsStripRight(line);
    hide IsSpace, TrimLeft, TrimRight;
    TrimRightConcat("- ", item, IsSpace);
    TrimIsTrimmed(item, IsSpace);
  }

  lemma HistoryItem(item: string)
    ensures HistoryOfLine("- " + item) == if Strip(item) == [] then [] else [Strip(item)]
  {
    hide Strip, StripRight;
    DashItem(item);
    DashBlank();
    assert ("- " + item)[2..] == item;
    assert ("- " + StripRight(item))[..2] == "- ";
  }

  lemma DashBlank()
    ensures StripRight("- ") == "-" && !StartsWith("-", "- ")
  {
    assert "- "[..1] == "-";
  }

  lemma {:induction false} HistoryRendered(history: seq<string>)
    ensures HistoryOf(RenderHistory(history)) == NonBlank(history)
  {
    if history != [] {
      hide HistoryOfLine, Strip;
      HistoryItem(history[0]);
      HistoryRendered(history[1..]);
      HistoryStep(history);
      hide HistoryOf;
    }
  }

  lemma HistoryStep(history: seq<string>)
    requires history != []
    ensures HistoryOf(RenderHistory(history)) == HistoryOfLine("- " + history[0]) + HistoryOf(RenderHistory(history[1..]))
  {
    hide HistoryOfLine;
    assert RenderHistory(history)[1..] == RenderHistory(history[1..]);
    assert RenderHistory(history)[0] == "- " + history[0];
  }

  lemma PlainHistory(line: string)
    requires line == [] || line[0] == '#'
    ensures HistoryOfLine(line) == []
  {
    hide Strip, StripRight;
    if line == [] {
      StripNothing();
    } else {
      HashIsVisible();
      StripIsStripRight(line);
      StripRightKeeps(line, 0);
      StripRightIsPrefix(line);
      assert Strip(line)[0] == '#';
    }
    StartsWithFirst(Strip(line), "- ");
  }

  lemma HashIsVisible()
    ensures !IsSpace('#')
  {
  }

  lemma StripNothing()
    ensures Strip("") == "" && StripRight("") == ""
  {
  }

  // --------------------------------------------------------------------------
  // The whole plan
  // --------------------------------------------------------------------------

  /** The lines after the history heading. */
  function HistoryPart(loop: LoopPlan, suffix: seq<string>): seq<string> {
    if suffix == [] then TrimTail([HISTORY_HEADING, ""] + RenderHistory(loop.history))[1..]
    else [""] + RenderHistory(loop.history) + [""] + TrimTail(suffix)
  }

  function TemplatePart(loop: LoopPlan): seq<string> {
    [""] + TemplateLines(loop) + [""]
  }

  function TasksPart(loop: LoopPlan): seq<string> {
    [""] + TaskLines(loop.tasks) + [""]
  }

  function LoopFront(loop: LoopPlan): seq<string> {
    LoopFields(loop) + [TEMPLATE_HEADING] + TemplatePart(loop) + [CURRENT_HEADING] + TasksPart(loop)
  }

  /** All lines of a written loop plan. */
  function LoopLines(prefix: seq<string>, loop: LoopPlan, suffix: seq<string>): seq<string> {
    prefix + LoopFront(loop) + ([HISTORY_HEADING] + HistoryPart(loop, suffix))
  }

  lemma HistoryHead(loop: LoopPlan)
    ensures var h := [HISTORY_HEADING, ""] + RenderHistory(loop.history);
            TrimTail(h) == [HISTORY_HEADING] + TrimTail(h)[1..]
  {
    ManagedHeading(HISTORY_HEADING);
    hide HISTORY_HEADING, StripRight;
    var h := [HISTORY_HEADING, ""] + RenderHistory(loop.history);
    TrimTailShape(h);
    assert TrimTail(h)[0] == HISTORY_HEADING;
  }

  lemma SectionSplit(loop: LoopPlan)
    ensures LoopSectionLines(loop) == LoopFront(loop) + ([HISTORY_HEADING, ""] + RenderHistory(loop.history))
  {
    hide LoopFields, TEMPLATE_HEADING, CURRENT_HEADING, HISTORY_HEADING, ItemLines, Strip, TaskLines;
  }

  lemma SectionIsVisible(loop: LoopPlan)
    ensures HasVisible(LoopSectionLines(loop)) && LoopSection(loop, [Strip(loop.template)]) != []
  {
    ManagedHeading(LOOP_HEADING);
    LoopFieldsShape(loop);
    hide TEMPLATE_HEADING, CURRENT_HEADING, HISTORY_HEADING, LOOP_HEADING, ItemLines, Strip, TaskLines, StripRight, LoopFields,
      RenderHistory;
    assert LoopSectionLines(loop)[0] == LOOP_HEADING;
  }

  lemma LoopWritten(plan: string, loop: LoopPlan)
    requires PlainLoop(loop)
    ensures SplitLines(ReplaceLoop(plan, loop)) == LoopLines(PlanPrefix(plan), loop, PlanSuffix(plan))
  {
    var lines := SplitLines(plan);
    hide SplitLines, TrimTail, WritePlan, IsForeign, IsExecutionHeading, LoopSection, StripRight, Strip, ItemLines, Expand,
      LoopLines, PrefixOf, SuffixOf, OneLine, LoopSectionLines, HasVisible;
    LayoutOfLines(lines);
    PartsOneLine(lines);
    LoopExpanded(loop);
    SectionIsVisible(loop);
    WrittenLines(PrefixOf(lines), LoopSection(loop, [Strip(loop.template)]), SuffixOf(lines));
    LoopLinesAre(PrefixOf(lines), loop, SuffixOf(lines));
  }

  lemma PartsOneLine(lines: seq<string>)
    requires AllOneLine(lines)
    ensures AllOneLine(PrefixOf(lines)) && AllOneLine(SuffixOf(lines))
  {
    hide OneLine, ExecutionIndex;
  }

  lemma LoopLinesAre(prefix: seq<string>, loop: LoopPlan, suffix: seq<string>)
    ensures var m := LoopSectionLines(loop);
            LoopLines(prefix, loop, suffix) ==
            if suffix == [] then prefix + TrimTail(m) else prefix + m + [""] + TrimTail(suffix)
  {
    hide TrimTail, LoopSectionLines, StripRight, LoopFront, HISTORY_HEADING;
    SectionSplit(loop);
    HistoryHead(loop);
    HeadingNotBlank();
    var h := [HISTORY_HEADING, ""] + RenderHistory(loop.history);
    assert h[0] == HISTORY_HEADING;
    TrimTailConcat(LoopFront(loop), h);
    RegroupTail(prefix, LoopFront(loop), HISTORY_HEADING, RenderHistory(loop.history), if suffix == [] then [] else TrimTail(suffix));
  }

  lemma RegroupTail(p: seq<string>, f: seq<string>, h: string, r: seq<string>, t: seq<string>)
    ensures p + f + ([h] + ([""] + r + [""] + t)) == p + (f + ([h, ""] + r)) + [""] + t
  {
  }

  lemma HeadingNotBlank()
    ensures StripRight(HISTORY_HEADING) != []
  {
    ManagedHeading(HISTORY_HEADING);
  }

  // The three sections, found again

  lemma LacksConcat(a: seq<string>, b: seq<string>, h: string)
    ensures Lacks(a + b, h) <==> Lacks(a, h) && Lacks(b, h)
  {
    hide Strip;
    if Lacks(a + b, h) {
      assert forall i :: 0 <= i < |a| ==> a[i] == (a + b)[i];
      assert forall i :: 0 <= i < |b| ==> b[i] == (a + b)[|a| + i];
    }
  }

  lemma LoopHeadingsDiffer()
    ensures TEMPLATE_HEADING != CURRENT_HEADING && TEMPLATE_HEADING != HISTORY_HEADING && CURRENT_HEADING != HISTORY_HEADING
    ensures LOOP_HEADING != TEMPLATE_HEADING && LOOP_HEADING != CURRENT_HEADING && LOOP_HEADING != HISTORY_HEADING
  {
    assert TEMPLATE_HEADING[3] == 'I' && CURRENT_HEADING[3] == 'C' && LOOP_HEADING[3] == 'L';
    assert TEMPLATE_HEADING[13] == 'T' && HISTORY_HEADING[13] == 'H';
  }

  lemma HeadingHash(h: string)
    requires IsLoopHeading(h)
    ensures h != [] && h[0] == '#'
  {
  }

  lemma LoopHeadingLacks(h: string)
    requires IsLoopHeading(h)
    ensures Lacks([LOOP_HEADING], h)
  {
    LoopHeadingsDiffer();
    hide LOOP_HEADING, TEMPLATE_HEADING, CURRENT_HEADING, HISTORY_HEADING, Strip;
    ManagedHeading(LOOP_HEADING);
  }

  lemma PlainLacks(line: string, h: string)
    requires line == [] || (line[0] != '#' && !IsSpace(line[0]))
    requires h != [] && h[0] == '#'
    ensures Lacks([line], h)
  {
    if line == [] {
      StripNothing();
    } else {
      StripIsStripRight(line);
      StripRightIsPrefix(line);
    }
  }

  lemma VisibleMarks()
    ensures !IsSpace('*') && !IsSpace('-') && !IsSpace('#')
  {
  }

  lemma LacksAll(lines: seq<string>, h: string)
    requires forall i :: 0 <= i < |lines| ==> Lacks([lines[i]], h)
    ensures Lacks(lines, h)
  {
    hide Strip;
    forall i | 0 <= i < |lines| ensures Strip(lines[i]) != h {
      assert [lines[i]][0] == lines[i];
    }
  }

  lemma FieldsLack(loop: LoopPlan, h: string)
    requires IsLoopHeading(h)
    ensures Lacks(LoopFields(loop), h)
  {
    hide LoopFields, LOOP_HEADING, IsLoopHeading, Lacks, IsSpace;
    HeadingHash(h);
    FieldStars(loop);
    VisibleMarks();
    LoopHeadingLacks(h);
    var f := LoopFields(loop);
    forall i | 0 <= i < |f| ensures Lacks([f[i]], h) {
      if i > 0 {
        PlainLacks(f[i], h);
      }
    }
    LacksAll(f, h);
  }

  lemma FieldStars(loop: LoopPlan)
    ensures LoopFields(loop)[0] == LOOP_HEADING
    ensures forall i :: 0 < i < |LoopFields(loop)| ==> LoopFields(loop)[i] == [] || LoopFields(loop)[i][0] == '*'
  {
    LabelsAreLines();
    hide LOOP_HEADING, SingleLine, NatToString;
  }

  lemma BlankIsQuiet(h: string)
    requires IsLoopHeading(h)
    ensures Lacks([""], h) && NoSection([""])
  {
    HeadingHash(h);
    PlainIsNoSection("");
    PlainLacks("", h);
  }

  lemma NoSectionConcat(a: seq<string>, b: seq<string>)
    ensures NoSection(a + b) <==> NoSection(a) && NoSection(b)
  {
    hide IsSection;
    if NoSection(a + b) {
      assert forall i :: 0 <= i < |a| ==> a[i] == (a + b)[i];
      assert forall i :: 0 <= i < |b| ==> b[i] == (a + b)[|a| + i];
    }
  }

  /** Blank lines around a text add neither a section nor a heading. */
  lemma PaddedQuiet(lines: seq<string>, h: string)
    requires IsLoopHeading(h)
    ensures NoSection([""] + lines + [""]) <==> NoSection(lines)
    ensures NoSection(lines + [""]) <==> NoSection(lines)
    ensures Lacks([""] + lines + [""], h) <==> Lacks(lines, h)
    ensures Lacks([""] + lines, h) <==> Lacks(lines, h)
  {
    BlankIsQuiet(h);
    hide NoSection, Lacks;
    NoSectionConcat([""], lines);
    NoSectionConcat([""] + lines, [""]);
    NoSectionConcat(lines, [""]);
    LacksConcat([""], lines, h);
    LacksConcat([""] + lines, [""], h);
  }

  lemma OneLineTasksQuiet(tasks: seq<Task>)
    requires OneLineTasks(tasks)
    ensures QuietTasks(tasks)
  {
    OneLineTaskLines(tasks);
    RenderedChars(tasks);
    HistoryIsOwn();
    HeadingHash(HISTORY_HEADING);
    VisibleMarks();
    hide OneLine, RenderTask, IsSection, HISTORY_HEADING, Lacks, IsSpace, TaskLines;
    var r := RenderTasks(tasks);
    forall i | 0 <= i < |r| ensures !IsSection(r[i]) && Lacks([r[i]], HISTORY_HEADING) {
      PlainIsNoSection(r[i]);
      PlainLacks(r[i], HISTORY_HEADING);
    }
    LacksAll(r, HISTORY_HEADING);
  }

  lemma HistoryIsOwn()
    ensures IsLoopHeading(HISTORY_HEADING)
  {
  }

  lemma OtherHeadingLacks(h: string, other: string)
    requires IsLoopHeading(h) && IsLoopHeading(other) && h != other
    ensures Lacks([other], h)
  {
    hide TEMPLATE_HEADING, CURRENT_HEADING, HISTORY_HEADING, Strip;
    ManagedHeading(other);
  }

  lemma OwnHeadings()
    ensures IsLoopHeading(TEMPLATE_HEADING) && IsLoopHeading(CURRENT_HEADING) && IsLoopHeading(HISTORY_HEADING)
    ensures forall h :: IsLoopHeading(h) ==> Strip(h) == h && IsSection(h)
  {
    HeadingsAreSections();
    hide Strip, TEMPLATE_HEADING, CURRENT_HEADING, HISTORY_HEADING, IsSection;
    forall h | IsLoopHeading(h) ensures Strip(h) == h && IsSection(h) {
      ManagedHeading(h);
    }
  }

  lemma HeadingsAreSections()
    ensures IsSection(TEMPLATE_HEADING) && IsSection(CURRENT_HEADING) && IsSection(HISTORY_HEADING)
  {
    assert TEMPLATE_HEADING[..3] == SECTION && CURRENT_HEADING[..3] == SECTION && HISTORY_HEADING[..3] == SECTION;
  }

  lemma TemplateSection(prefix: seq<string>, loop: LoopPlan, suffix: seq<string>)
    requires CleanForLoop(prefix) && NoSection(TemplateLines(loop))
    ensures SectionLines(LoopLines(prefix, loop, suffix), TEMPLATE_HEADING) == TemplatePart(loop)
  {
    OwnHeadings();
    hide TEMPLATE_HEADING, CURRENT_HEADING, HISTORY_HEADING, LoopFields, TemplateLines, TasksPart, HistoryPart, Strip, NoSection,
      SectionLines, IsFieldKey, Lacks, IsSection;
    var a := prefix + LoopFields(loop);
    var b := [CURRENT_HEADING] + TasksPart(loop) + ([HISTORY_HEADING] + HistoryPart(loop, suffix));
    FieldsLack(loop, TEMPLATE_HEADING);
    PrefixLacks(prefix, TEMPLATE_HEADING);
    PaddedQuiet(TemplateLines(loop), TEMPLATE_HEADING);
    LacksConcat(prefix, LoopFields(loop), TEMPLATE_HEADING);
    assert b[0] == CURRENT_HEADING;
    SectionFound(a, TEMPLATE_HEADING, TEMPLATE_HEADING, TemplatePart(loop), b);
    assert LoopLines(prefix, loop, suffix) == a + [TEMPLATE_HEADING] + TemplatePart(loop) + b;
  }

  lemma PrefixLacks(prefix: seq<string>, h: string)
    requires CleanForLoop(prefix) && IsLoopHeading(h)
    ensures Lacks(prefix, h)
  {
  }

  /** The first section line of a template ends what is read of it. */
  lemma TemplateCut(prefix: seq<string>, loop: LoopPlan, suffix: seq<string>, j: nat)
    requires CleanForLoop(prefix)
    requires j < |TemplateLines(loop)| && IsSection(TemplateLines(loop)[j]) && NoSection(TemplateLines(loop)[..j])
    ensures SectionLines(LoopLines(prefix, loop, suffix), TEMPLATE_HEADING) == [""] + TemplateLines(loop)[..j]
  {
    OwnHeadings();
    hide TEMPLATE_HEADING, CURRENT_HEADING, HISTORY_HEADING, LoopFields, TemplateLines, TasksPart, HistoryPart, Strip, NoSection,
      SectionLines, IsFieldKey, Lacks, IsSection;
    var t := TemplateLines(loop);
    var a := prefix + LoopFields(loop);
    var b := t[j..] + [""] + [CURRENT_HEADING] + TasksPart(loop) + ([HISTORY_HEADING] + HistoryPart(loop, suffix));
    FieldsLack(loop, TEMPLATE_HEADING);
    PrefixLacks(prefix, TEMPLATE_HEADING);
    BlankIsQuiet(TEMPLATE_HEADING);
    NoSectionConcat([""], t[..j]);
    LacksConcat(prefix, LoopFields(loop), TEMPLATE_HEADING);
    assert b[0] == t[j];
    assert t == t[..j] + t[j..];
    SectionFound(a, TEMPLATE_HEADING, TEMPLATE_HEADING, [""] + t[..j], b);
    assert LoopLines(prefix, loop, suffix) == a + [TEMPLATE_HEADING] + ([""] + t[..j]) + b;
  }

  lemma {:induction false} JoinedNoLonger(x: string)
    ensures |Join(ItemLines(x), NEWLINE)| <= |x|
    decreases |x|
  {
    hide ItemLines, LineEnd, SecondLine;
    ItemLinesStep(x);
    var k, n := LineEnd(x), SecondLine(x);
    JoinOfOne(x[..k]);
    if n <= |x| {
      JoinedNoLonger(x[n..]);
      ItemLinesNonEmpty(x[n..]);
      JoinConcat([x[..k]], ItemLines(x[n..]), NEWLINE);
    }
  }

  lemma FrontStripped(front: seq<string>)
    ensures |Strip(Join([""] + front, NEWLINE))| <= |Join(front, NEWLINE)|
  {
    hide Join, Strip, IsSpace;
    var text := Join(front, NEWLINE);
    JoinConcat([""], front, NEWLINE);
    JoinOfOne("");
    if front == [] {
      StripNoLonger("");
    } else {
      NewlineIsSpace();
      StripAround(NEWLINE, text, "");
      assert NEWLINE + text + "" == "" + NEWLINE + text;
      StripNoLonger(text);
    }
  }

  lemma JoinOfMore(front: seq<string>, line: string, back: seq<string>)
    requires line != []
    ensures |Join(front, NEWLINE)| < |Join(front + ([line] + back), NEWLINE)|
  {
    hide Join;
    JoinConcat([line], back, NEWLINE);
    JoinOfOne(line);
    JoinConcat(front, [line] + back, NEWLINE);
    if front == [] {
      JoinOfNothing();
    }
  }

  lemma JoinOfNothing()
    ensures Join([], NEWLINE) == []
  {
  }

  lemma StripNoLonger(s: string)
    ensures |Strip(s)| <= |s|
  {
    hide IsSpace;
    TrimIsTrimmed(s, IsSpace);
  }

  /** A template with a section line in it never comes back as it was. */
  lemma CutTemplateDiffers(prefix: seq<string>, loop: LoopPlan, suffix: seq<string>)
    requires CleanForLoop(prefix) && !NoSection(TemplateLines(loop))
    ensures Strip(Join(SectionLines(LoopLines(prefix, loop, suffix), TEMPLATE_HEADING), NEWLINE)) != loop.template
  {
    hide TEMPLATE_HEADING, Strip, Join, IsSection, CleanForLoop, SectionLines, LoopLines, ItemLines;
    var t := TemplateLines(loop);
    var j := FirstIndex(t, IsSection);
    TemplateCut(prefix, loop, suffix, j);
    SectionChars(t[j]);
    FrontStripped(t[..j]);
    JoinOfMore(t[..j], t[j], t[j + 1..]);
    assert t == t[..j] + ([t[j]] + t[j + 1..]);
    JoinedNoLonger(Strip(loop.template));
    StripNoLonger(loop.template);
  }

  /** What is read as the current iteration: the rest of the template, when that repeats the
      heading. */
  function CurrentPart(loop: LoopPlan): seq<string> {
    var t := TemplateLines(loop);
    var j := HeadingIndex(t, CURRENT_HEADING);
    if j < |t| then t[j + 1..] + [""] else TasksPart(loop)
  }

  lemma HeadingIndexIs(lines: seq<string>, h: string)
    ensures var j := HeadingIndex(lines, h); (j == |lines| <==> Lacks(lines, h)) && Lacks(lines[..j], h)
    ensures var j := HeadingIndex(lines, h); j < |lines| ==> Strip(lines[j]) == h
  {
    hide Strip;
  }

  lemma FrontLacksCurrent(prefix: seq<string>, loop: LoopPlan)
    requires CleanForLoop(prefix)
    ensures Lacks(prefix + LoopFields(loop) + [TEMPLATE_HEADING], CURRENT_HEADING)
  {
    OwnHeadings();
    LoopHeadingsDiffer();
    hide TEMPLATE_HEADING, CURRENT_HEADING, HISTORY_HEADING, LoopFields, Strip, IsFieldKey, Lacks;
    var f := LoopFields(loop);
    FieldsLack(loop, CURRENT_HEADING);
    PrefixLacks(prefix, CURRENT_HEADING);
    OtherHeadingLacks(CURRENT_HEADING, TEMPLATE_HEADING);
    LacksConcat(prefix, f, CURRENT_HEADING);
    LacksConcat(prefix + f, [TEMPLATE_HEADING], CURRENT_HEADING);
  }

  /** A section inside a text without sections, found at an indented heading. */
  lemma InnerSection(c: seq<string>, t: seq<string>, h: string, b: seq<string>)
    requires IsLoopHeading(h) && Lacks(c, h) && NoSection(t) && HeadingIndex(t, h) < |t|
    requires b != [] && IsSection(b[0])
    ensures SectionLines(c + ([""] + t + [""]) + b, h) == t[HeadingIndex(t, h) + 1..] + [""]
  {
    hide Lacks, NoSection, HeadingIndex, SectionLines, IsSection, IsLoopHeading, Strip;
    var j := HeadingIndex(t, h);
    var before, after := [""] + t[..j], t[j + 1..] + [""];
    HeadingIndexIs(t, h);
    PaddedQuiet(t[..j], h);
    LacksConcat(c, before, h);
    PaddedQuiet(t[j + 1..], h);
    NoSectionConcat(t[..j + 1], t[j + 1..]);
    assert t == t[..j + 1] + t[j + 1..];
    SectionFound(c + before, t[j], h, after, b);
    InnerShape(c, t, j, b);
  }

  lemma InnerShape(c: seq<string>, t: seq<string>, j: nat, b: seq<string>)
    requires j < |t|
    ensures c + ([""] + t + [""]) + b == (c + ([""] + t[..j])) + [t[j]] + (t[j + 1..] + [""]) + b
  {
    assert t == t[..j] + [t[j]] + t[j + 1..];
  }

  lemma CurrentSection(prefix: seq<string>, loop: LoopPlan, suffix: seq<string>)
    requires CleanForLoop(prefix) && NoSection(TemplateLines(loop)) && QuietTasks(loop.tasks)
    ensures SectionLines(LoopLines(prefix, loop, suffix), CURRENT_HEADING) == CurrentPart(loop)
  {
    OwnHeadings();
    hide TEMPLATE_HEADING, CURRENT_HEADING, HISTORY_HEADING, LoopFields, TemplateLines, HistoryPart, Strip, IsSection, NoSection,
      SectionLines, IsFieldKey, TaskLines, Lacks, HeadingIndex;
    var t, k := TemplateLines(loop), TaskLines(loop.tasks);
    var c := prefix + LoopFields(loop) + [TEMPLATE_HEADING];
    FrontLacksCurrent(prefix, loop);
    HeadingIndexIs(t, CURRENT_HEADING);
    var b := [HISTORY_HEADING] + HistoryPart(loop, suffix);
    assert LoopLines(prefix, loop, suffix) == c + TemplatePart(loop) + [CURRENT_HEADING] + TasksPart(loop) + b;
    if HeadingIndex(t, CURRENT_HEADING) < |t| {
      InnerSection(c, t, CURRENT_HEADING, [CURRENT_HEADING] + TasksPart(loop) + b);
      assert c + TemplatePart(loop) + [CURRENT_HEADING] + TasksPart(loop) + b ==
             c + TemplatePart(loop) + ([CURRENT_HEADING] + TasksPart(loop) + b);
    } else {
      PaddedQuiet(t, CURRENT_HEADING);
      LacksConcat(c, TemplatePart(loop), CURRENT_HEADING);
      PaddedQuiet(k, CURRENT_HEADING);
      SectionFound(c + TemplatePart(loop), CURRENT_HEADING, CURRENT_HEADING, TasksPart(loop), b);
    }
  }

  lemma PlainIsNoSection(line: string)
    requires line == [] || line[0] != '#'
    ensures !IsSection(line)
  {
    StartsWithFirst(line, SECTION);
  }

  lemma FrontLacksHistory(prefix: seq<string>, loop: LoopPlan)
    requires CleanForLoop(prefix) && Lacks(TemplateLines(loop), HISTORY_HEADING) && QuietTasks(loop.tasks)
    ensures Lacks(prefix + LoopFront(loop), HISTORY_HEADING)
  {
    OwnHeadings();
    LoopHeadingsDiffer();
    hide TEMPLATE_HEADING, CURRENT_HEADING, HISTORY_HEADING, LoopFields, TemplateLines, Strip, IsFieldKey, TaskLines, Lacks;
    var f, t, h := LoopFields(loop), TemplatePart(loop), HISTORY_HEADING;
    FieldsLack(loop, h);
    PrefixLacks(prefix, h);
    PaddedQuiet(TemplateLines(loop), h);
    PaddedQuiet(TaskLines(loop.tasks), h);
    OtherHeadingLacks(h, TEMPLATE_HEADING);
    OtherHeadingLacks(h, CURRENT_HEADING);
    LacksConcat(f, [TEMPLATE_HEADING], h);
    LacksConcat(f + [TEMPLATE_HEADING], t, h);
    LacksConcat(f + [TEMPLATE_HEADING] + t, [CURRENT_HEADING], h);
    LacksConcat(f + [TEMPLATE_HEADING] + t + [CURRENT_HEADING], TasksPart(loop), h);
    LacksConcat(prefix, LoopFront(loop), h);
  }

  /** What follows the history heading, up to the next section. */
  function HistorySection(loop: LoopPlan, suffix: seq<string>): seq<string> {
    if suffix != [] && IsSection(TrimTail(suffix)[0]) then [""] + RenderHistory(loop.history) + [""]
    else HistoryPart(loop, suffix)
  }

  lemma HistoryIsNoSection(history: seq<string>)
    ensures forall i :: 0 <= i < |history| ==> !IsSection("- " + history[i])
  {
    forall i | 0 <= i < |history| ensures !IsSection("- " + history[i]) {
      PlainIsNoSection("- " + history[i]);
    }
  }

  lemma SectionBeforeTrim(line: string)
    requires IsSection(StripRight(line))
    ensures IsSection(line)
  {
    hide IsSpace;
    var r := StripRight(line);
    TrimRightPart(line, IsSpace);
    assert line[..|r|] == r;
    assert line[..|SECTION|] == r[..|SECTION|];
  }

  /** Trimming the end of a list of lines makes no section out of one that was none. */
  lemma TrimmedNoSection(h: seq<string>)
    requires h != [] && forall i :: 1 <= i < |h| ==> !IsSection(h[i])
    ensures forall i :: 1 <= i < |TrimTail(h)| ==> !IsSection(TrimTail(h)[i])
  {
    hide IsSection, StripRight, TrimTail;
    TrimTailShape(h);
    var t := TrimTail(h);
    forall i | 1 <= i < |t| ensures !IsSection(t[i]) {
      assert !IsSection(h[i]);
      if IsSection(t[i]) && i == |t| - 1 {
        SectionBeforeTrim(h[i]);
      }
    }
  }

  lemma HistoryEndNoSection(loop: LoopPlan)
    ensures var p := HistoryPart(loop, []); forall i :: 0 <= i < |p| ==> !IsSection(p[i])
  {
    HistoryIsNoSection(loop.history);
    PlainIsNoSection("");
    hide IsSection, HISTORY_HEADING, TrimTail;
    var h := [HISTORY_HEADING, ""] + RenderHistory(loop.history);
    assert forall i :: 1 <= i < |h| ==> !IsSection(h[i]);
    TrimmedNoSection(h);
  }

  lemma HistorySectionFound(prefix: seq<string>, loop: LoopPlan, suffix: seq<string>)
    requires CleanForLoop(prefix) && Lacks(TemplateLines(loop), HISTORY_HEADING) && QuietTasks(loop.tasks)
    requires suffix == [] || IsForeign(suffix[0])
    ensures SectionLines(LoopLines(prefix, loop, suffix), HISTORY_HEADING) == HistorySection(loop, suffix)
  {
    hide HISTORY_HEADING, Strip, IsSection, SectionLines, LoopFront, TrimTail, IsFieldKey, CleanForLoop, QuietTasks, IsForeign,
      HistoryPart, Lacks, TemplateLines;
    OwnHeadings();
    FrontLacksHistory(prefix, loop);
    var a, body := prefix + LoopFront(loop), HistorySection(loop, suffix);
    HistorySectionQuiet(loop, suffix);
    if suffix != [] && IsSection(TrimTail(suffix)[0]) {
      SectionFound(a, HISTORY_HEADING, HISTORY_HEADING, body, TrimTail(suffix));
      HistoryPartSplit(loop, suffix);
      assert LoopLines(prefix, loop, suffix) == a + [HISTORY_HEADING] + body + TrimTail(suffix);
    } else {
      SectionFound(a, HISTORY_HEADING, HISTORY_HEADING, body, []);
      assert LoopLines(prefix, loop, suffix) == a + [HISTORY_HEADING] + body + [];
    }
  }

  /** A template that repeats the history's heading has the rest of itself read as history. */
  lemma HistoryInTemplate(prefix: seq<string>, loop: LoopPlan, suffix: seq<string>)
    requires CleanForLoop(prefix) && NoSection(TemplateLines(loop)) && !Lacks(TemplateLines(loop), HISTORY_HEADING)
    ensures SectionLines(LoopLines(prefix, loop, suffix), HISTORY_HEADING) ==
            TemplateLines(loop)[HeadingIndex(TemplateLines(loop), HISTORY_HEADING) + 1..] + [""]
  {
    OwnHeadings();
    LoopHeadingsDiffer();
    hide TEMPLATE_HEADING, CURRENT_HEADING, HISTORY_HEADING, LoopFields, TemplateLines, HistoryPart, Strip, IsSection, NoSection,
      SectionLines, IsFieldKey, TasksPart, Lacks, HeadingIndex;
    var f, h := LoopFields(loop), HISTORY_HEADING;
    var c := prefix + f + [TEMPLATE_HEADING];
    HeadingIndexIs(TemplateLines(loop), h);
    FieldsLack(loop, h);
    PrefixLacks(prefix, h);
    OtherHeadingLacks(h, TEMPLATE_HEADING);
    LacksConcat(prefix, f, h);
    LacksConcat(prefix + f, [TEMPLATE_HEADING], h);
    var b := [CURRENT_HEADING] + TasksPart(loop) + ([HISTORY_HEADING] + HistoryPart(loop, suffix));
    InnerSection(c, TemplateLines(loop), h, b);
    assert LoopLines(prefix, loop, suffix) == c + TemplatePart(loop) + b;
  }

  lemma HistoryPartSplit(loop: LoopPlan, suffix: seq<string>)
    requires suffix != []
    ensures HistoryPart(loop, suffix) == ([""] + RenderHistory(loop.history) + [""]) + TrimTail(suffix)
  {
    hide TrimTail;
  }

  lemma HistorySectionQuiet(loop: LoopPlan, suffix: seq<string>)
    requires suffix == [] || IsForeign(suffix[0])
    ensures NoSection(HistorySection(loop, suffix))
  {
    hide IsSection, TrimTail, IsForeign, HISTORY_HEADING;
    HistoryIsNoSection(loop.history);
    PlainIsNoSection("");
    HistoryEndNoSection(loop);
    if suffix != [] && !IsSection(TrimTail(suffix)[0]) {
      LoneSuffix(suffix);
    }
  }

  /** A suffix that stops being a section when trimmed is a single line by then. */
  lemma LoneSuffix(suffix: seq<string>)
    requires suffix != [] && IsForeign(suffix[0]) && !IsSection(TrimTail(suffix)[0])
    ensures |TrimTail(suffix)| == 1 && StartsWith(TrimTail(suffix)[0], "##") && !IsSpace('#')
  {
    TrimTailShape(suffix);
    SectionChars(suffix[0]);
    StripRightKeeps(suffix[0], 1);
    StripRightIsPrefix(suffix[0]);
  }

  lemma HistoryReread(loop: LoopPlan, suffix: seq<string>)
    requires suffix == [] || IsForeign(suffix[0])
    ensures HistoryOf(HistorySection(loop, suffix)) == NonBlank(loop.history)
  {
    hide HistoryOfLine, HistoryOf, IsForeign, IsSection, TrimTail, NonBlank, RenderHistory;
    HistoryRendered(loop.history);
    PlainHistory("");
    HistoryOne("");
    var r := RenderHistory(loop.history);
    HistoryConcat([""], r);
    HistoryConcat([""] + r, [""]);
    if suffix == [] {
      HistoryAtEnd(loop);
    } else if !IsSection(TrimTail(suffix)[0]) {
      LoneHistory(suffix);
      HistoryConcat([""] + r + [""], TrimTail(suffix));
    }
  }

  lemma LoneHistory(suffix: seq<string>)
    requires suffix != [] && IsForeign(suffix[0]) && !IsSection(TrimTail(suffix)[0])
    ensures HistoryOf(TrimTail(suffix)) == []
  {
    hide HistoryOfLine, HistoryOf, IsForeign, IsSection, TrimTail;
    LoneSuffix(suffix);
    var line := TrimTail(suffix)[0];
    StartsWithFirst(line, "##");
    PlainHistory(line);
    HistoryOne(line);
    assert TrimTail(suffix) == [line];
  }

  lemma HistoryAtEnd(loop: LoopPlan)
    ensures HistoryOf(HistoryPart(loop, [])) == NonBlank(loop.history)
  {
    hide HistoryOfLine, HistoryOf, HISTORY_HEADING, TrimTail, NonBlank, RenderHistory, HistoryPart;
    var h := [HISTORY_HEADING, ""] + RenderHistory(loop.history);
    HistoryPartAtEnd(loop);
    HistoryHead(loop);
    HistoryTrimmed(h);
    HeadingHistory();
    HistoryConcat([HISTORY_HEADING], HistoryPart(loop, []));
    HistoryConcat([HISTORY_HEADING, ""], RenderHistory(loop.history));
    HistoryRendered(loop.history);
    var p, r := HistoryOf(HistoryPart(loop, [])), HistoryOf(RenderHistory(loop.history));
    assert [] + p == p && [] + r == r;
  }

  lemma HistoryPartAtEnd(loop: LoopPlan)
    ensures HistoryPart(loop, []) == TrimTail([HISTORY_HEADING, ""] + RenderHistory(loop.history))[1..]
  {
  }

  lemma HeadingHistory()
    ensures HistoryOf([HISTORY_HEADING]) == [] && HistoryOf([HISTORY_HEADING, ""]) == []
  {
    OwnHeadings();
    HeadingHash(HISTORY_HEADING);
    hide HistoryOfLine, HistoryOf, HISTORY_HEADING;
    PlainHistory("");
    PlainHistory(HISTORY_HEADING);
    HistoryOne("");
    HistoryOne(HISTORY_HEADING);
    HistoryConcat([HISTORY_HEADING], [""]);
    assert [HISTORY_HEADING] + [""] == [HISTORY_HEADING, ""];
  }

  /** A loop rewrite always keeps the lines before the section, and keeps the foreign sections
      exactly when no line of the written template and tasks imitates one. */
  lemma LoopKeepsIff(plan: string, loop: LoopPlan)
    requires HasHeading(plan) && PlainLoop(loop)
    ensures PlanPrefix(ReplaceLoop(plan, loop)) == PlanPrefix(plan)
    ensures PlanSuffix(ReplaceLoop(plan, loop)) == Kept(PlanSuffix(plan)) <==>
            NoForeign(TemplateLines(loop)) && NoForeign(TaskLines(loop.tasks))
  {
    hide HasHeading, PlanPrefix, PlanSuffix, ReplaceLoop, Writable, TaskLines, IsForeign, NoForeign, Kept, SplitLines, PrefixOf, SuffixOf,
      HistoryPart, HISTORY_HEADING, LOOP_HEADING, IsExecutionHeading, NoExecution, TemplateLines, LoopFront, PlainLoop;
    LoopWritable(loop);
    TemplateLinesAre(loop);
    LoopWritten(plan, loop);
    PlanPrefixPlain(plan);
    PlanPrefixIs(ReplaceLoop(plan, loop));
    var prefix, front, suffix := PlanPrefix(plan), LoopFront(loop), PlanSuffix(plan);
    var rest := [HISTORY_HEADING] + HistoryPart(loop, suffix);
    FrontHeading(loop);
    PrefixFound(prefix, front, rest);
    KeptIsNoLonger(suffix);
    RestIsLonger(loop, suffix);
    if NoForeign(TemplateLines(loop)) && NoForeign(TaskLines(loop.tasks)) {
      RewriteOnce(plan, ToLoop(loop));
    } else {
      var i := ForeignInFront(loop);
      ForeignInside(prefix, front, rest, i);
    }
  }

  lemma TemplateLinesAre(loop: LoopPlan)
    ensures TemplateLines(loop) == ItemLines(Strip(loop.template))
  {
  }

  lemma FrontHeading(loop: LoopPlan)
    ensures LoopFront(loop) != [] && IsExecutionHeading(LoopFront(loop)[0])
  {
    ManagedHeading(LOOP_HEADING);
    hide LOOP_HEADING, IsExecutionHeading, StatusLine, IterationLine, GoalLine, StopLine, TemplatePart, TasksPart, TEMPLATE_HEADING,
      CURRENT_HEADING;
    LoopFieldsShape(loop);
  }

  lemma RestIsLonger(loop: LoopPlan, suffix: seq<string>)
    ensures |HistoryPart(loop, suffix)| >= if suffix == [] then 0 else |TrimTail(suffix)|
  {
    hide TrimTail, HISTORY_HEADING;
  }

  lemma ForeignInFront(loop: LoopPlan) returns (i: nat)
    requires !(NoForeign(TemplateLines(loop)) && NoForeign(TaskLines(loop.tasks)))
    ensures 0 < i < |LoopFront(loop)| && IsForeign(LoopFront(loop)[i])
  {
    hide IsForeign, TaskLines, TemplateLines, LoopFields, TEMPLATE_HEADING, CURRENT_HEADING, NoForeign;
    LoopFieldsLength(loop);
    var f, t := LoopFields(loop), TemplateLines(loop);
    if !NoForeign(t) {
      var j := ForeignAt(t);
      i := |f| + 2 + j;
      assert LoopFront(loop)[i] == t[j];
    } else {
      var j := ForeignAt(TaskLines(loop.tasks));
      i := |f| + |t| + 5 + j;
      assert LoopFront(loop)[i] == TaskLines(loop.tasks)[j];
    }
  }

  // --------------------------------------------------------------------------
  // The round trip
  // --------------------------------------------------------------------------

  /** What is read of the history. */
  function HistoryAsRead(loop: LoopPlan): seq<string> {
    var t := TemplateLines(loop);
    var j := HeadingIndex(t, HISTORY_HEADING);
    if j < |t| then HistoryOf(t[j + 1..]) else NonBlank(loop.history)
  }

  /** What a loop plan becomes by being written and read. */
  function AsRead(loop: LoopPlan): LoopPlan {
    loop.(goal := SingleLine(loop.goal),
          stopCondition := SingleLine(loop.stopCondition),
          template := NormalTemplate(loop.template),
          tasks := CollectTasks(CurrentPart(loop)),
          history := HistoryAsRead(loop))
  }

  lemma HistoryFound(prefix: seq<string>, loop: LoopPlan, suffix: seq<string>)
    requires CleanForLoop(prefix) && NoSection(TemplateLines(loop)) && QuietTasks(loop.tasks)
    requires suffix == [] || IsForeign(suffix[0])
    ensures HistoryOf(SectionLines(LoopLines(prefix, loop, suffix), HISTORY_HEADING)) == HistoryAsRead(loop)
  {
    hide HISTORY_HEADING, SectionLines, LoopLines, IsForeign, CleanForLoop, QuietTasks, NoSection, TemplateLines, HistoryOf, NonBlank,
      HistorySection, HistoryOfLine, Lacks, HeadingIndex;
    var t := TemplateLines(loop);
    HeadingIndexIs(t, HISTORY_HEADING);
    var j := HeadingIndex(t, HISTORY_HEADING);
    if j < |t| {
      HistoryInTemplate(prefix, loop, suffix);
      HistoryConcat(t[j + 1..], [""]);
      PlainHistory("");
      HistoryOne("");
    } else {
      HistorySectionFound(prefix, loop, suffix);
      HistoryReread(loop, suffix);
    }
  }

  lemma LoopTypeReread(prefix: seq<string>, loop: LoopPlan, suffix: seq<string>)
    requires PlanTypeOf(prefix) == None
    ensures PlanTypeOf(LoopLines(prefix, loop, suffix)) == Some(LoopKind)
  {
    hide PlanTypeOf, LOOP_HEADING, LOOP_TYPE, HistoryPart, TemplatePart, TasksPart, HISTORY_HEADING, TEMPLATE_HEADING,
      CURRENT_HEADING;
    HeadTypes();
    LoopFrontHead(loop);
    var front := LoopFront(loop);
    hide LoopFront;
    var rest := [HISTORY_HEADING] + HistoryPart(loop, suffix);
    var head := [LOOP_HEADING, "", LOOP_TYPE];
    assert prefix + front + rest == prefix + (head + (front[3..] + rest));
    PlanTypeConcat(head, front[3..] + rest);
    PlanTypeConcat(prefix, head + (front[3..] + rest));
  }

  lemma LoopFrontHead(loop: LoopPlan)
    ensures |LoopFront(loop)| > 3 && LoopFront(loop)[..3] == [LOOP_HEADING, "", LOOP_TYPE]
  {
    hide LOOP_HEADING, LOOP_TYPE, StatusLine, IterationLine, GoalLine, StopLine, TemplatePart, TasksPart, TEMPLATE_HEADING,
      CURRENT_HEADING;
  }

  /** What the parser makes of a written loop plan. */
  lemma ParsedFields(plan: string, loop: LoopPlan)
    requires PlainLoop(loop) && IsLoopStatus(loop.status) && CleanForLoop(PlanPrefix(plan))
    ensures var lines := LoopLines(PlanPrefix(plan), loop, PlanSuffix(plan));
            && SplitLines(ReplaceLoop(plan, loop)) == lines
            && ParsePlanType(ReplaceLoop(plan, loop)) == LoopKind
            && ParseLoopTasks(ReplaceLoop(plan, loop)) == CollectTasks(SectionLines(lines, CURRENT_HEADING))
            && ParseLoopPlan(ReplaceLoop(plan, loop)) ==
               Ok(Some(LoopPlan(SingleLine(loop.goal), SingleLine(loop.stopCondition),
                                Strip(Join(SectionLines(lines, TEMPLATE_HEADING), NEWLINE)),
                                loop.maxIterations, loop.currentIteration, loop.status,
                                CollectTasks(SectionLines(lines, CURRENT_HEADING)),
                                HistoryOf(SectionLines(lines, HISTORY_HEADING)))))
  {
    hide LoopLines, PlanField, SectionLines, HistoryOf, CollectTasks, IsLoopStatus, CleanForLoop, SplitLines, ReplaceLoop,
      PlanTypeOf, SafeLoopStatus, ParseIteration, Strip, Join, NatToString, SingleLine, LOOP_STATUS, ITERATION, GOAL, STOP,
      TEMPLATE_HEADING, CURRENT_HEADING, HISTORY_HEADING, PlainLoop, PlanPrefix, PlanSuffix;
    var prefix, suffix := PlanPrefix(plan), PlanSuffix(plan);
    LoopWritten(plan, loop);
    CleanHasNoType(prefix);
    LoopTypeReread(prefix, loop, suffix);
    FieldsOfLoop(prefix, loop, suffix);
    StatusReread(loop.status);
    IterationRoundTrip(loop.currentIteration, loop.maxIterations);
    IterationVisible(loop);
  }

  /** A loop plan written into a plan that holds nothing loop-like in front of the section is
      read back, with its goal and stop condition on one line, its template trimmed, the tasks that
      its task lines stand for, and its history without blank entries. A template that repeats a
      later heading, indented, has its own rest read in that heading's place. */
  lemma LoopReread(plan: string, loop: LoopPlan)
    requires PlainLoop(loop) && IsLoopStatus(loop.status) && CleanForLoop(PlanPrefix(plan))
    requires NoSection(TemplateLines(loop)) && QuietTasks(loop.tasks)
    ensures ParseLoopPlan(ReplaceLoop(plan, loop)) == Ok(Some(AsRead(loop)))
    ensures ParseLoopTasks(ReplaceLoop(plan, loop)) == AsRead(loop).tasks
    ensures ParsePlanType(ReplaceLoop(plan, loop)) == LoopKind
  {
    hide LoopLines, SectionLines, HistoryOf, CollectTasks, IsLoopStatus, CleanForLoop, ReplaceLoop, Strip, Join, CurrentPart,
      SingleLine, TEMPLATE_HEADING, CURRENT_HEADING, HISTORY_HEADING, PlainLoop, PlanPrefix, PlanSuffix, ParseLoopPlan,
      ParsePlanType, ParseLoopTasks, NormalTemplate, TemplatePart, HistoryAsRead, NoSection, QuietTasks, TemplateLines, SplitLines;
    var prefix, suffix := PlanPrefix(plan), PlanSuffix(plan);
    ParsedFields(plan, loop);
    SuffixForeign(plan);
    TemplateSection(prefix, loop, suffix);
    TemplatePartReread(loop);
    CurrentSection(prefix, loop, suffix);
    HistoryFound(prefix, loop, suffix);
  }

  lemma CleanHasNoType(prefix: seq<string>)
    requires CleanForLoop(prefix)
    ensures PlanTypeOf(prefix) == None
  {
  }

  lemma SuffixForeign(plan: string)
    ensures PlanSuffix(plan) == [] || IsForeign(PlanSuffix(plan)[0])
  {
    LayoutOfLines(SplitLines(plan));
  }

  lemma IterationVisible(loop: LoopPlan)
    ensures NatToString(loop.currentIteration) + " / " + NatToString(loop.maxIterations) != []
  {
  }

  lemma TemplatePartReread(loop: LoopPlan)
    ensures Strip(Join(TemplatePart(loop), NEWLINE)) == NormalTemplate(loop.template)
  {
    TemplateReread(loop.template);
  }

  lemma FieldsOfLoop(prefix: seq<string>, loop: LoopPlan, suffix: seq<string>)
    requires CleanForLoop(prefix)
    ensures var lines := LoopLines(prefix, loop, suffix);
            && PlanField(lines, LOOP_STATUS) == Strip(loop.status)
            && PlanField(lines, ITERATION) == NatToString(loop.currentIteration) + " / " + NatToString(loop.maxIterations)
            && PlanField(lines, GOAL) == SingleLine(loop.goal)
            && PlanField(lines, STOP) == SingleLine(loop.stopCondition)
  {
    hide LoopFields, TemplatePart, TasksPart, HistoryPart, PlanField, Strip, SingleLine, NatToString, LOOP_STATUS, ITERATION, GOAL,
      STOP, TEMPLATE_HEADING, CURRENT_HEADING, HISTORY_HEADING, CleanForLoop;
    var rest := [TEMPLATE_HEADING] + TemplatePart(loop) + [CURRENT_HEADING] + TasksPart(loop)
      + ([HISTORY_HEADING] + HistoryPart(loop, suffix));
    assert LoopLines(prefix, loop, suffix) == prefix + LoopFields(loop) + rest;
    FieldsReread(prefix, loop, rest);
  }

  /** The template is in normal form and opens no section. */
  ghost predicate TemplateKept(loop: LoopPlan) {
    NoSection(TemplateLines(loop)) && NormalTemplate(loop.template) == loop.template
  }

  /** The tasks can be carried by one line each; or, in a template that repeats their heading, the
      rest of the template holds just these tasks. */
  ghost predicate TasksKept(loop: LoopPlan) {
    var t := TemplateLines(loop);
    var j := HeadingIndex(t, CURRENT_HEADING);
    if j < |t| then CollectTasks(t[j + 1..]) == loop.tasks else AllReadable(loop.tasks) && OneLineTasks(loop.tasks)
  }

  /** The loop plans that the text can carry. */
  ghost predicate KeptByPlan(loop: LoopPlan) {
    && SingleLine(loop.goal) == loop.goal && SingleLine(loop.stopCondition) == loop.stopCondition
    && TemplateKept(loop) && TasksKept(loop) && HistoryAsRead(loop) == loop.history
  }

  lemma SectionOneLine(lines: seq<string>, h: string)
    requires AllOneLine(lines)
    ensures AllOneLine(SectionLines(lines, h))
  {
    hide OneLine, HeadingIndex, IsSection;
  }

  /** Tasks with a line break in them do not come back. */
  lemma BrokenTasksDiffer(lines: seq<string>, tasks: seq<Task>)
    requires AllOneLine(lines) && AllFromPayload(tasks) && !OneLineTasks(tasks)
    ensures CollectTasks(lines) != tasks
  {
    hide OneLine, FromPayload, RenderTask, CollectTasks;
    var i :| 0 <= i < |tasks| && !OneLine(RenderTask(tasks[i]));
    CollectedOneLine(lines);
    RenderedOneLine(tasks[i]);
  }

  lemma BrokenTasksNotKept(loop: LoopPlan)
    requires AllFromPayload(loop.tasks) && !OneLineTasks(loop.tasks)
    ensures !TasksKept(loop)
  {
    hide TemplateLines, HeadingIndex, AllFromPayload, OneLineTasks, CollectTasks, OneLine, AllReadable, CURRENT_HEADING;
    var t := TemplateLines(loop);
    var j := HeadingIndex(t, CURRENT_HEADING);
    if j < |t| {
      BrokenTasksDiffer(t[j + 1..], loop.tasks);
    }
  }

  lemma TasksKeptIff(loop: LoopPlan)
    requires AllFromPayload(loop.tasks)
    ensures CollectTasks(CurrentPart(loop)) == loop.tasks <==> TasksKept(loop)
  {
    hide TemplateLines, HeadingIndex, AllFromPayload, OneLineTasks, CollectTasks, OneLine, AllReadable, CURRENT_HEADING, TaskLines;
    DagHead();
    CollectWritten(loop.tasks);
    var t, k := TemplateLines(loop), TaskLines(loop.tasks);
    var j := HeadingIndex(t, CURRENT_HEADING);
    if j < |t| {
      CollectConcat(t[j + 1..], [""]);
    } else {
      CollectConcat([""], k);
      CollectConcat([""] + k, [""]);
    }
  }

  /** A loop plan comes back unchanged exactly when the text can carry it. */
  lemma LoopRoundTripExact(plan: string, loop: LoopPlan)
    requires PlainLoop(loop) && IsLoopStatus(loop.status) && CleanForLoop(PlanPrefix(plan))
    requires AllFromPayload(loop.tasks)
    ensures ParseLoopPlan(ReplaceLoop(plan, loop)) == Ok(Some(loop)) <==> KeptByPlan(loop)
  {
    hide CleanForLoop, ParseLoopPlan, ReplaceLoop, SingleLine, NormalTemplate, AllFromPayload, OneLineTasks, PlanPrefix, PlanSuffix,
      IsLoopStatus, PlainLoop, NoSection, TemplateLines, TasksKept, HistoryAsRead, CurrentPart, LoopLines, SectionLines, SplitLines,
      TEMPLATE_HEADING, CURRENT_HEADING, HISTORY_HEADING, CollectTasks, Strip, Join, QuietTasks, HistoryOf, OneLine, ParseLoopTasks,
      ParsePlanType;
    var lines := LoopLines(PlanPrefix(plan), loop, PlanSuffix(plan));
    ParsedFields(plan, loop);
    if !NoSection(TemplateLines(loop)) {
      CutTemplateDiffers(PlanPrefix(plan), loop, PlanSuffix(plan));
    } else if !OneLineTasks(loop.tasks) {
      SectionOneLine(lines, CURRENT_HEADING);
      BrokenTasksDiffer(SectionLines(lines, CURRENT_HEADING), loop.tasks);
      BrokenTasksNotKept(loop);
    } else {
      OneLineTasksQuiet(loop.tasks);
      LoopReread(plan, loop);
      TasksKeptIff(loop);
    }
  }

  /** For a template with line feeds only and no line that imitates a heading, what the text can
      carry depends on each field alone. */
  lemma KeptByPlanQuiet(loop: LoopPlan)
    requires QuietTemplate(loop) && OnlyNewlines(loop.template)
    ensures KeptByPlan(loop) <==>
            && SingleLine(loop.goal) == loop.goal && SingleLine(loop.stopCondition) == loop.stopCondition
            && Strip(loop.template) == loop.template && NonBlank(loop.history) == loop.history
            && AllReadable(loop.tasks) && OneLineTasks(loop.tasks)
  {
    hide SingleLine, Strip, NonBlank, NormalTemplate, OnlyNewlines, AllReadable, OneLineTasks, HeadingIndex, TemplateLines, NoSection,
      Lacks, CURRENT_HEADING, HISTORY_HEADING;
    HeadingIndexIs(TemplateLines(loop), CURRENT_HEADING);
    HeadingIndexIs(TemplateLines(loop), HISTORY_HEADING);
    TemplateStays(loop.template);
  }
}
