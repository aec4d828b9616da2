/** What rewriting a plan's managed section leaves alone: the lines before the section and the
    lines from the first foreign heading on. */
module PlanLayout {
  import opened Text
  import opened Items
  import opened Dag
  import opened TaskLine
  import opened PlanText

  // --------------------------------------------------------------------------
  // Lines and trimming
  // --------------------------------------------------------------------------

  lemma StripOfStripRight(s: string)
    ensures Strip(StripRight(s)) == Strip(s)
  {
    hide IsSpace;
    var r := StripRight(s);
    var w := s[|r|..];
    TrimRightPart(s, IsSpace);
    assert s == r + w;
    TrimLeftConcat(r, w, IsSpace);
    if AllOf(r, IsSpace) {
      TrimAllOf(w, IsSpace);
      TrimAllOf(r, IsSpace);
    } else {
      TrimRightConcat(TrimLeft(r, IsSpace), w, IsSpace);
    }
  }

  lemma ForeignBeforeTrim(line: string)
    requires IsForeign(StripRight(line))
    ensures IsForeign(line)
  {
    SameManaged(line);
    StripRightIsPrefix(line);
    hide StripRight, IsManagedHeading;
    var r := StripRight(line);
    assert line[..|SECTION|] == r[..|SECTION|];
  }

  lemma StripRightKeeps(s: string, i: nat)
    requires i < |s| && !IsSpace(s[i])
    ensures i < |StripRight(s)|
  {
    hide IsSpace;
    var r := StripRight(s);
    TrimRightPart(s, IsSpace);
    forall j | |r| <= j < |s| ensures IsSpace(s[j]) {
      assert s[|r|..][j - |r|] == s[j];
    }
  }

  lemma SectionChars(line: string)
    requires IsSection(line)
    ensures |line| >= 3 && line[0] == '#' && line[1] == '#' && line[2] == ' ' && !IsSpace('#')
  {
    assert line[..3] == SECTION;
  }

  lemma StripIsStripRight(s: string)
    requires s != [] && !IsSpace(s[0])
    ensures Strip(s) == StripRight(s)
  {
  }

  lemma SectionPrefix(line: string, n: nat)
    requires IsSection(line) && 2 <= n <= |line|
    ensures IsSection(line[..n]) <==> line[..n] != "##"
  {
    SectionChars(line);
    if n >= 3 {
      assert line[..n][..3] == line[..3];
    } else {
      assert line[..n] == "##";
    }
  }

  /** A foreign heading stays one at the end of the file unless nothing follows its marks. */
  lemma BareHeading(line: string)
    requires IsForeign(line)
    ensures IsForeign(StripRight(line)) <==> Strip(line) != "##"
  {
    hide IsSpace, IsManagedHeading, StripRight, Strip, IsSection;
    SectionChars(line);
    StripIsStripRight(line);
    StripRightKeeps(line, 1);
    SameManaged(line);
    StripRightIsPrefix(line);
    SectionPrefix(line, |StripRight(line)|);
  }

  lemma StripRightIsPrefix(s: string)
    ensures |StripRight(s)| <= |s| && StripRight(s) == s[..|StripRight(s)|]
  {
    TrimRightPart(s, IsSpace);
  }

  lemma SameManaged(line: string)
    ensures IsManagedHeading(StripRight(line)) == IsManagedHeading(line)
  {
    StripOfStripRight(line);
  }

  lemma {:induction false} TrimTailShape(lines: seq<string>)
    requires lines != []
    ensures var t := TrimTail(lines);
            && (forall i :: 0 <= i < |t| - 1 ==> t[i] == lines[i])
            && t[|t| - 1] == StripRight(lines[|t| - 1])
  {
    var n := |lines| - 1;
    if StripRight(lines[n]) == [] && n > 0 {
      TrimTailShape(lines[..n]);
    }
  }

  lemma TrimTailIdempotent(lines: seq<string>)
    requires lines != []
    ensures TrimTail(TrimTail(lines)) == TrimTail(lines)
  {
    var t := TrimTail(lines);
    TrimTailShape(lines);
    TrimTailLast(lines);
    var last := StripRight(lines[|t| - 1]);
    TrimmedEnd(lines[|t| - 1]);
    assert t == t[..|t| - 1] + [last];
  }

  lemma TrimmedEnd(s: string)
    ensures StripRight(StripRight(s)) == StripRight(s)
  {
  }

  lemma {:induction false} TrimTailLast(lines: seq<string>)
    requires lines != []
    ensures var t := TrimTail(lines); |t| == 1 || t[|t| - 1] != []
  {
    var n := |lines| - 1;
    if StripRight(lines[n]) == [] && n > 0 {
      TrimTailLast(lines[..n]);
    }
  }

  // --------------------------------------------------------------------------
  // Finding the parts again
  // --------------------------------------------------------------------------

  lemma ExecutionIndexIs(lines: seq<string>)
    ensures ExecutionIndex(lines) == FirstIndex(lines, IsExecutionHeading)
  {
    hide Strip;
    FirstIndexIs(lines, IsExecutionHeading, ExecutionIndex(lines));
  }

  ghost predicate NoExecution(lines: seq<string>) {
    forall i :: 0 <= i < |lines| ==> !IsExecutionHeading(lines[i])
  }

  ghost predicate NoForeign(lines: seq<string>) {
    forall i :: 0 <= i < |lines| ==> !IsForeign(lines[i])
  }

  /** Three parts that a rewriter recognises as prefix, managed section and suffix. */
  ghost predicate IsLayout(prefix: seq<string>, managed: seq<string>, suffix: seq<string>) {
    && NoExecution(prefix)
    && managed != [] && IsExecutionHeading(managed[0]) && NoForeign(managed[1..])
    && (suffix == [] || IsForeign(suffix[0]))
  }

  lemma LayoutFound(prefix: seq<string>, managed: seq<string>, suffix: seq<string>)
    requires IsLayout(prefix, managed, suffix)
    ensures PrefixOf(prefix + managed + suffix) == prefix
    ensures SuffixOf(prefix + managed + suffix) == suffix
  {
    hide IsExecutionHeading, IsForeign, FirstIndex, ExecutionIndex;
    var lines := prefix + managed + suffix;
    HeadingFound(prefix, managed, suffix);
    var rest := lines[|prefix| + 1..];
    assert rest == managed[1..] + suffix;
    FirstIndexIs(rest, IsForeign, |managed| - 1);
    assert lines[|prefix| + |managed|..] == suffix;
  }

  lemma HeadingFound(prefix: seq<string>, managed: seq<string>, suffix: seq<string>)
    requires NoExecution(prefix) && managed != [] && IsExecutionHeading(managed[0])
    ensures ExecutionIndex(prefix + managed + suffix) == |prefix|
  {
    hide IsExecutionHeading, FirstIndex, ExecutionIndex;
    var lines := prefix + managed + suffix;
    ExecutionIndexIs(lines);
    assert lines[|prefix|] == managed[0];
    FirstIndexIs(lines, IsExecutionHeading, |prefix|);
  }

  lemma LayoutOfLines(lines: seq<string>)
    ensures NoExecution(PrefixOf(lines))
    ensures SuffixOf(lines) == [] || IsForeign(SuffixOf(lines)[0])
  {
    hide IsForeign, IsExecutionHeading, ExecutionIndex, FirstIndex;
    ExecutionIndexIs(lines);
  }

  // --------------------------------------------------------------------------
  // One rewrite
  // --------------------------------------------------------------------------

  function TrimmedSuffix(suffix: seq<string>): seq<string> {
    if suffix == [] then [] else TrimTail(suffix)
  }

  /** The suffix still starts with a foreign heading once the file's end is trimmed. */
  predicate Durable(suffix: seq<string>) {
    suffix == [] || IsForeign(TrimTail(suffix)[0])
  }

  /** What a rewrite that imitates no foreign heading leaves of the suffix. */
  function Kept(suffix: seq<string>): seq<string> {
    if Durable(suffix) then TrimmedSuffix(suffix) else []
  }

  /** The lines of a section a rewriter may write: an execution heading first, a third line that
      is not blank, no foreign heading. */
  ghost predicate IsSectionText(lines: seq<string>) {
    && |lines| > 2 && IsExecutionHeading(lines[0]) && StripRight(lines[2]) != []
    && NoForeign(lines[1..])
  }

  ghost predicate HasVisible(lines: seq<string>) {
    exists i :: 0 <= i < |lines| && StripRight(lines[i]) != []
  }

  lemma ExpandAround(prefix: seq<string>, managed: seq<string>, suffix: seq<string>)
    requires AllOneLine(prefix) && AllOneLine(suffix)
    ensures Expand(prefix + managed + Separated(suffix)) == prefix + Expand(managed) + Separated(suffix)
  {
    assert OneLine("");
    hide Expand, OneLine;
    ExpandLines(prefix);
    ExpandLines(Separated(suffix));
    ExpandConcat(prefix + managed, Separated(suffix));
    ExpandConcat(prefix, managed);
  }

  /** A plan is written as the lines before the section, the lines of its items, and the lines
      after it, trimmed at the end. */
  lemma WrittenLines(prefix: seq<string>, managed: seq<string>, suffix: seq<string>)
    requires AllOneLine(prefix) && AllOneLine(suffix)
    requires managed != [] && HasVisible(Expand(managed))
    requires suffix == [] || IsForeign(suffix[0])
    ensures SplitLines(WritePlan(prefix, managed, suffix)) ==
            if suffix == [] then prefix + TrimTail(Expand(managed)) else prefix + Expand(managed) + [""] + TrimTail(suffix)
  {
    hide SplitLines, Join, TrimTail, IsSpace, Expand;
    var lines := Expand(managed);
    RereadItems(prefix + managed + Separated(suffix));
    ExpandAround(prefix, managed, suffix);
    var all := prefix + lines + Separated(suffix);
    if suffix == [] {
      assert all == prefix + lines;
      TrimTailConcat(prefix, lines);
    } else {
      assert all == (prefix + lines + [""]) + suffix;
      ForeignNotBlank(suffix[0]);
      TrimTailConcat(prefix + lines + [""], suffix);
    }
  }

  lemma ForeignNotBlank(line: string)
    requires IsForeign(line)
    ensures StripRight(line) != []
  {
    SectionChars(line);
    StripRightKeeps(line, 0);
  }

  lemma TrimTailNoForeign(lines: seq<string>)
    requires lines != [] && NoForeign(lines)
    ensures NoForeign(TrimTail(lines))
  {
    hide IsForeign, TrimTail;
    TrimTailShape(lines);
    var t := TrimTail(lines);
    forall i | 0 <= i < |t| ensures !IsForeign(t[i]) {
      if i == |t| - 1 && IsForeign(t[i]) {
        ForeignBeforeTrim(lines[i]);
      }
    }
  }

  lemma TrimTailManaged(managed: seq<string>)
    requires IsSectionText(managed)
    ensures TrimTail(managed)[0] == managed[0] && NoForeign(TrimTail(managed)[1..])
  {
    hide IsForeign, IsExecutionHeading, TrimTail;
    var a, b := [managed[0]], managed[1..];
    assert managed == a + b && b[1] == managed[2];
    TrimTailConcat(a, b);
    TrimTailNoForeign(b);
    assert TrimTail(managed)[1..] == TrimTail(b);
  }

  /** The three ways in which a written plan falls into its parts again. */
  lemma PartsWithoutSuffix(prefix: seq<string>, managed: seq<string>)
    requires NoExecution(prefix) && IsSectionText(managed)
    ensures var lines := prefix + TrimTail(managed);
            PrefixOf(lines) == prefix && SuffixOf(lines) == [] && ExecutionIndex(lines) < |lines|
  {
    hide IsForeign, IsExecutionHeading, OneLine, TrimTail, PrefixOf, SuffixOf, ExecutionIndex;
    TrimTailManaged(managed);
    LayoutFound(prefix, TrimTail(managed), []);
    HeadingPresent(prefix, TrimTail(managed), []);
    assert prefix + TrimTail(managed) + [] == prefix + TrimTail(managed);
  }

  lemma PartsWithDurableSuffix(prefix: seq<string>, managed: seq<string>, t: seq<string>)
    requires NoExecution(prefix) && IsSectionText(managed) && t != [] && IsForeign(t[0])
    ensures var lines := prefix + managed + [""] + t;
            PrefixOf(lines) == prefix && SuffixOf(lines) == t && ExecutionIndex(lines) < |lines|
  {
    hide IsForeign, IsExecutionHeading, OneLine, PrefixOf, SuffixOf, ExecutionIndex;
    BlankIsNotForeign();
    assert (managed + [""])[1..] == managed[1..] + [""];
    LayoutFound(prefix, managed + [""], t);
    HeadingPresent(prefix, managed + [""], t);
    assert prefix + (managed + [""]) + t == prefix + managed + [""] + t;
  }

  lemma PartsWithLostSuffix(prefix: seq<string>, managed: seq<string>, line: string)
    requires NoExecution(prefix) && IsSectionText(managed) && !IsForeign(line)
    ensures var lines := prefix + managed + [""] + [line];
            PrefixOf(lines) == prefix && SuffixOf(lines) == [] && ExecutionIndex(lines) < |lines|
  {
    hide IsForeign, IsExecutionHeading, OneLine, PrefixOf, SuffixOf, ExecutionIndex;
    BlankIsNotForeign();
    var m := managed + [""] + [line];
    assert m[1..] == managed[1..] + [""] + [line];
    LayoutFound(prefix, m, []);
    HeadingPresent(prefix, m, []);
    assert prefix + m + [] == prefix + managed + [""] + [line];
  }

  /** One rewrite keeps the prefix, and keeps the suffix recognisable exactly when it is
      durable. */
  lemma AfterWrite(prefix: seq<string>, managed: seq<string>, suffix: seq<string>)
    requires AllOneLine(prefix) && AllOneLine(suffix) && NoExecution(prefix)
    requires managed != [] && IsSectionText(Expand(managed))
    requires suffix == [] || IsForeign(suffix[0])
    ensures var lines := SplitLines(WritePlan(prefix, managed, suffix));
            && PrefixOf(lines) == prefix
            && SuffixOf(lines) == Kept(suffix)
            && ExecutionIndex(lines) < |lines|
  {
    hide IsForeign, IsExecutionHeading, OneLine, TrimTail, PrefixOf, SuffixOf, WritePlan, SplitLines, ExecutionIndex, NoExecution,
      StripRight, Expand;
    SectionVisible(Expand(managed));
    WrittenLines(prefix, managed, suffix);
    if suffix == [] {
      PartsWithoutSuffix(prefix, Expand(managed));
    } else if Durable(suffix) {
      PartsWithDurableSuffix(prefix, Expand(managed), TrimTail(suffix));
    } else {
      TrimTailShape(suffix);
      assert TrimTail(suffix) == [TrimTail(suffix)[0]];
      PartsWithLostSuffix(prefix, Expand(managed), TrimTail(suffix)[0]);
    }
  }

  lemma SectionVisible(lines: seq<string>)
    requires IsSectionText(lines)
    ensures HasVisible(lines)
  {
    hide StripRight;
    assert StripRight(lines[2]) != [];
  }

  lemma HeadingPresent(prefix: seq<string>, managed: seq<string>, suffix: seq<string>)
    requires managed != [] && IsExecutionHeading(managed[0])
    ensures ExecutionIndex(prefix + managed + suffix) < |prefix + managed + suffix|
  {
    hide IsExecutionHeading;
    var lines := prefix + managed + suffix;
    ExecutionIndexIs(lines);
    assert lines[|prefix|] == managed[0];
  }

  lemma BlankIsNotForeign()
    ensures !IsForeign("")
  {
  }

  // --------------------------------------------------------------------------
  // The sections that the two rewriters write
  // --------------------------------------------------------------------------

  lemma PlainLineNotForeign(line: string)
    requires line == [] || line[0] != '#'
    ensures !IsForeign(line)
  {
    if IsSection(line) {
      SectionChars(line);
    }
  }

  /** Starts and ends with a visible character and has no line break. */
  predicate IsHeadingText(h: string) {
    h != [] && !IsSpace(h[0]) && !IsSpace(h[|h| - 1]) && OneLine(h)
  }

  lemma DagHeadingIsText()
    ensures IsHeadingText(DAG_HEADING)
  {
  }

  lemma LoopHeadingIsText()
    ensures IsHeadingText(LOOP_HEADING)
  {
  }

  lemma TemplateHeadingIsText()
    ensures IsHeadingText(TEMPLATE_HEADING)
  {
  }

  lemma CurrentHeadingIsText()
    ensures IsHeadingText(CURRENT_HEADING)
  {
  }

  lemma HistoryHeadingIsText()
    ensures IsHeadingText(HISTORY_HEADING)
  {
  }

  lemma HeadingTextStays(h: string)
    requires IsHeadingText(h)
    ensures Strip(h) == h && StripRight(h) == h
  {
    hide IsSpace;
    TrimmedStays(h, IsSpace);
  }

  predicate IsOwnHeading(h: string) {
    h == DAG_HEADING || h == LOOP_HEADING || h == TEMPLATE_HEADING || h == CURRENT_HEADING || h == HISTORY_HEADING
  }

  lemma ManagedHeading(h: string)
    requires IsOwnHeading(h)
    ensures IsHeadingText(h) && Strip(h) == h && StripRight(h) == h && !IsForeign(h)
    ensures h == DAG_HEADING || h == LOOP_HEADING ==> IsExecutionHeading(h)
  {
    DagHeadingIsText();
    LoopHeadingIsText();
    TemplateHeadingIsText();
    CurrentHeadingIsText();
    HistoryHeadingIsText();
    hide IsHeadingText, Strip, StripRight;
    HeadingTextStays(h);
  }

  lemma PlanTypeLines()
    ensures StripRight(DAG_TYPE) != [] && StripRight(LOOP_TYPE) != []
    ensures OneLine(DAG_TYPE) && OneLine(LOOP_TYPE)
  {
  }

  /** The lines that a list of tasks is written as. */
  function TaskLines(tasks: seq<Task>): (r: seq<string>)
    ensures AllOneLine(r)
  {
    ExpandOneLine(RenderTasks(tasks));
    Expand(RenderTasks(tasks))
  }

  ghost predicate OneLineTasks(tasks: seq<Task>) {
    forall i :: 0 <= i < |tasks| ==> OneLine(RenderTask(tasks[i]))
  }

  lemma OneLineTaskLines(tasks: seq<Task>)
    requires OneLineTasks(tasks)
    ensures TaskLines(tasks) == RenderTasks(tasks)
  {
    hide OneLine, Expand, RenderTask;
    ExpandLines(RenderTasks(tasks));
  }

  /** The lines of a DAG section. */
  function DagLines(tasks: seq<Task>): seq<string> {
    [DAG_HEADING, "", DAG_TYPE, ""] + TaskLines(tasks)
  }

  lemma ExpandHead(head: seq<string>, rest: seq<string>)
    requires AllOneLine(head)
    ensures Expand(head + rest) == head + Expand(rest)
  {
    hide Expand, OneLine;
    ExpandConcat(head, rest);
    ExpandLines(head);
  }

  lemma DagHeadingLine()
    ensures OneLine(DAG_HEADING) && IsExecutionHeading(DAG_HEADING)
  {
    ManagedHeading(DAG_HEADING);
  }

  lemma DagHeadLines()
    ensures AllOneLine([DAG_HEADING, "", DAG_TYPE, ""]) && AllOneLine([LOOP_HEADING, "", LOOP_TYPE])
  {
    ManagedHeading(DAG_HEADING);
    ManagedHeading(LOOP_HEADING);
    PlanTypeLines();
    LabelsAreLines();
    hide DAG_HEADING, DAG_TYPE, LOOP_HEADING, LOOP_TYPE, OneLine;
  }

  lemma DagExpanded(tasks: seq<Task>)
    ensures Expand(DagSection(tasks)) == DagLines(tasks)
  {
    DagHeadLines();
    hide Expand, RenderTasks, OneLine, DAG_HEADING, DAG_TYPE;
    ExpandHead([DAG_HEADING, "", DAG_TYPE, ""], RenderTasks(tasks));
  }

  lemma SectionFromHead(head: string, kind: string, rest: seq<string>)
    requires IsExecutionHeading(head) && StripRight(kind) != [] && NoForeign([head, "", kind] + rest)
    ensures IsSectionText([head, "", kind] + rest)
  {
    hide IsForeign, IsExecutionHeading, StripRight;
    var all := [head, "", kind] + rest;
    assert all[2] == kind;
    forall i | 0 <= i < |all[1..]| ensures !IsForeign(all[1..][i]) {
      assert all[1..][i] == all[i + 1];
    }
  }

  lemma RenderedChars(tasks: seq<Task>)
    ensures forall i :: 0 <= i < |tasks| ==> RenderTask(tasks[i]) != [] && RenderTask(tasks[i])[0] == '-'
  {
  }

  lemma SingleLineIsOneLine(s: string)
    ensures OneLine(SingleLine(s))
  {
    CollapseOneLine(s);
    hide IsSpace, IsLineBreak, Collapse, TrimLeft, TrimRight;
    var c := Collapse(s);
    var l := TrimLeft(c, IsSpace);
    TrimLeftPart(c, IsSpace);
    assert c == c[..|c| - |l|] + l;
    OneLineConcat(c[..|c| - |l|], l);
    var t := TrimRight(l, IsSpace);
    TrimRightPart(l, IsSpace);
    assert l == t + l[|t|..];
    OneLineConcat(t, l[|t|..]);
  }

  lemma {:induction false} CollapseOneLine(s: string)
    ensures OneLine(Collapse(s))
    decreases |s|
  {
    if s != [] {
      LineBreakIsSpace(s[0]);
      hide IsSpace, IsLineBreak;
      if IsSpace(s[0]) {
        CollapseOneLine(StripLeft(s[1..]));
      } else {
        CollapseOneLine(s[1..]);
      }
    }
  }

  lemma LineBreakIsSpace(c: char)
    ensures IsLineBreak(c) ==> IsSpace(c)
    ensures !IsLineBreak(' ')
  {
  }

  lemma {:induction false} NatToStringPlain(n: nat)
    ensures OneLine(NatToString(n)) && NatToString(n) != [] && AllOf(NatToString(n), IsDigit)
  {
    if n >= 10 {
      NatToStringPlain(n / 10);
    }
  }

  /** Single lines that no rewriter mistakes for a foreign heading. */
  ghost predicate Harmless(lines: seq<string>) {
    AllOneLine(lines) && NoForeign(lines)
  }

  lemma HarmlessConcat(a: seq<string>, b: seq<string>)
    ensures Harmless(a + b) <==> Harmless(a) && Harmless(b)
  {
    hide OneLine, IsForeign;
    if Harmless(a + b) {
      assert forall i :: 0 <= i < |a| ==> a[i] == (a + b)[i];
      assert forall i :: 0 <= i < |b| ==> b[i] == (a + b)[|a| + i];
    }
  }

  lemma HarmlessLine(line: string)
    requires OneLine(line) && (line == [] || line[0] != '#')
    ensures Harmless([line])
  {
    PlainLineNotForeign(line);
  }

  lemma HarmlessHeading(h: string)
    requires IsOwnHeading(h)
    ensures Harmless(["", h, ""]) && Harmless([h, ""])
  {
    ManagedHeading(h);
    PlainLineNotForeign("");
  }

  lemma HarmlessTasks(tasks: seq<Task>)
    requires OneLineTasks(tasks)
    ensures NoForeign(TaskLines(tasks))
  {
    OneLineTaskLines(tasks);
    RenderedChars(tasks);
    hide OneLine, IsForeign, RenderTask, TaskLines;
    forall i | 0 <= i < |tasks| ensures !IsForeign(RenderTask(tasks[i])) {
      PlainLineNotForeign(RenderTask(tasks[i]));
    }
  }

  lemma HarmlessHistory(history: seq<string>)
    requires AllOneLine(history)
    ensures Harmless(RenderHistory(history))
  {
    assert OneLine("- ");
    hide OneLine, IsForeign;
    forall i | 0 <= i < |history| ensures OneLine("- " + history[i]) && !IsForeign("- " + history[i]) {
      OneLineConcat("- ", history[i]);
      PlainLineNotForeign("- " + history[i]);
    }
  }

  lemma LabelsAreLines()
    ensures OneLine(LOOP_STATUS + " ") && OneLine(GOAL + " ") && OneLine(STOP + " ") && OneLine(ITERATION + " ")
    ensures OneLine(" / ") && OneLine("")
    ensures LOOP_STATUS[0] == GOAL[0] == STOP[0] == ITERATION[0] == LOOP_TYPE[0] == DAG_TYPE[0] == '*'
  {
  }

  lemma HarmlessField(caption: string, value: string)
    requires OneLine(caption) && OneLine(value) && caption != [] && caption[0] == '*'
    ensures Harmless([caption + value])
  {
    OneLineConcat(caption, value);
    PlainLineNotForeign(caption + value);
  }

  lemma HarmlessIteration(loop: LoopPlan)
    ensures Harmless([IterationLine(loop)])
  {
    LabelsAreLines();
    NatToStringPlain(loop.currentIteration);
    NatToStringPlain(loop.maxIterations);
    OneLineConcat(NatToString(loop.currentIteration) + " / ", NatToString(loop.maxIterations));
    OneLineConcat(NatToString(loop.currentIteration), " / ");
    HarmlessField(ITERATION + " ", NatToString(loop.currentIteration) + " / " + NatToString(loop.maxIterations));
  }

  lemma HarmlessGoals(loop: LoopPlan)
    ensures Harmless([GoalLine(loop)]) && Harmless([StopLine(loop)])
  {
    LabelsAreLines();
    SingleLineIsOneLine(loop.goal);
    SingleLineIsOneLine(loop.stopCondition);
    HarmlessField(GOAL + " ", SingleLine(loop.goal));
    HarmlessField(STOP + " ", SingleLine(loop.stopCondition));
  }

  lemma HarmlessSeven(a: string, b: string, c: string, d: string, e: string, f: string, g: string)
    requires Harmless([a]) && Harmless([b]) && Harmless([c]) && Harmless([d])
    requires Harmless([e]) && Harmless([f]) && Harmless([g])
    ensures Harmless([a, b, c, d, e, f, g])
  {
    hide Harmless;
    HarmlessConcat([a], [b]);
    HarmlessConcat([a, b], [c]);
    HarmlessConcat([a, b, c], [d]);
    HarmlessConcat([a, b, c, d], [e]);
    HarmlessConcat([a, b, c, d, e], [f]);
    HarmlessConcat([a, b, c, d, e, f], [g]);
    assert [a] + [b] == [a, b];
    assert [a, b] + [c] == [a, b, c];
    assert [a, b, c] + [d] == [a, b, c, d];
    assert [a, b, c, d] + [e] == [a, b, c, d, e];
    assert [a, b, c, d, e] + [f] == [a, b, c, d, e, f];
    assert [a, b, c, d, e, f] + [g] == [a, b, c, d, e, f, g];
  }

  lemma HarmlessFields(loop: LoopPlan)
    requires OneLine(loop.status)
    ensures Harmless(LoopFields(loop))
  {
    LabelsAreLines();
    PlanTypeLines();
    ManagedHeading(LOOP_HEADING);
    HarmlessLine("");
    HarmlessLine(LOOP_TYPE);
    HarmlessField(LOOP_STATUS + " ", loop.status);
    HarmlessIteration(loop);
    HarmlessGoals(loop);
    HarmlessSeven("", LOOP_TYPE, StatusLine(loop), IterationLine(loop), GoalLine(loop), StopLine(loop), "");
    LoopFieldsShape(loop);
    hide OneLine, IsForeign, LOOP_HEADING, LOOP_TYPE, IterationLine, GoalLine, StopLine, StatusLine, LoopFields;
    assert Harmless([LOOP_HEADING]);
    hide Harmless;
    HarmlessConcat([LOOP_HEADING], ["", LOOP_TYPE, StatusLine(loop), IterationLine(loop), GoalLine(loop), StopLine(loop), ""]);
  }

  lemma LoopFieldsShape(loop: LoopPlan)
    ensures LoopFields(loop) ==
            [LOOP_HEADING] + ["", LOOP_TYPE, StatusLine(loop), IterationLine(loop), GoalLine(loop), StopLine(loop), ""]
    ensures LoopFields(loop) ==
            [LOOP_HEADING, "", LOOP_TYPE] + [StatusLine(loop), IterationLine(loop), GoalLine(loop), StopLine(loop), ""]
  {
    hide LOOP_HEADING, LOOP_TYPE, StatusLine, IterationLine, GoalLine, StopLine;
  }

  /** What every operation writes as a single line: it comes from a fixed list, or from a line. */
  predicate PlainLoop(loop: LoopPlan) {
    OneLine(loop.status) && AllOneLine(loop.history)
  }

  function LoopRestLines(loop: LoopPlan): seq<string> {
    ["", CURRENT_HEADING, ""] + TaskLines(loop.tasks) + ["", HISTORY_HEADING, ""] + RenderHistory(loop.history)
  }

  /** The lines of a loop section. */
  function LoopSectionLines(loop: LoopPlan): seq<string> {
    LoopFields(loop) + [TEMPLATE_HEADING, ""] + ItemLines(Strip(loop.template)) + LoopRestLines(loop)
  }

  lemma RestExpanded(loop: LoopPlan)
    requires PlainLoop(loop)
    ensures Expand(LoopRest(loop)) == LoopRestLines(loop)
  {
    HarmlessHeading(CURRENT_HEADING);
    HarmlessHeading(HISTORY_HEADING);
    HarmlessHistory(loop.history);
    hide Expand, OneLine, IsForeign, CURRENT_HEADING, HISTORY_HEADING, RenderTasks, RenderHistory;
    var c, h, r := ["", CURRENT_HEADING, ""], ["", HISTORY_HEADING, ""], RenderHistory(loop.history);
    var t := RenderTasks(loop.tasks);
    ExpandLines(c);
    ExpandLines(h);
    ExpandLines(r);
    ExpandConcat(c, t);
    ExpandConcat(c + t, h);
    ExpandConcat(c + t + h, r);
  }

  lemma LoopExpanded(loop: LoopPlan)
    requires PlainLoop(loop)
    ensures Expand(LoopSection(loop, [Strip(loop.template)])) == LoopSectionLines(loop)
  {
    HarmlessFields(loop);
    HarmlessHeading(TEMPLATE_HEADING);
    RestExpanded(loop);
    hide Expand, OneLine, IsForeign, LoopFields, TEMPLATE_HEADING, LoopRest, Strip, ItemLines, LoopRestLines;
    var f, h, t, r := LoopFields(loop), [TEMPLATE_HEADING, ""], [Strip(loop.template)], LoopRest(loop);
    ExpandLines(f);
    ExpandLines(h);
    ExpandItem(Strip(loop.template));
    ExpandConcat(f, h);
    ExpandConcat(f + h, t);
    ExpandConcat(f + h + t, r);
  }

  lemma NoForeignConcat(a: seq<string>, b: seq<string>)
    ensures NoForeign(a + b) <==> NoForeign(a) && NoForeign(b)
  {
    hide IsForeign;
    if NoForeign(a + b) {
      assert forall i :: 0 <= i < |a| ==> a[i] == (a + b)[i];
      assert forall i :: 0 <= i < |b| ==> b[i] == (a + b)[|a| + i];
    }
  }

  // --------------------------------------------------------------------------
  // Any number of rewrites
  // --------------------------------------------------------------------------

  datatype Rewrite = ToDag(tasks: seq<Task>) | ToLoop(loop: LoopPlan)

  function Rewritten(plan: string, rw: Rewrite): string {
    match rw
    case ToDag(tasks) => ReplaceDag(plan, tasks)
    case ToLoop(loop) => ReplaceLoop(plan, loop)
  }

  function RewrittenBy(plan: string, rws: seq<Rewrite>): string
    decreases |rws|
  {
    if rws == [] then plan else RewrittenBy(Rewritten(plan, rws[0]), rws[1..])
  }

  /** What a rewriter puts between prefix and suffix. */
  function Managed(rw: Rewrite): seq<string> {
    match rw
    case ToDag(tasks) => DagSection(tasks)
    case ToLoop(loop) => LoopSection(loop, [Strip(loop.template)])
  }

  /** None of the lines that are written imitates a foreign heading. */
  ghost predicate Writable(rw: Rewrite) {
    NoForeign(Expand(Managed(rw)))
  }

  /** Only the tasks of a DAG can: by a line of their own inside a title or an assignee. */
  lemma DagWritable(tasks: seq<Task>)
    ensures Writable(ToDag(tasks)) <==> NoForeign(TaskLines(tasks))
    ensures OneLineTasks(tasks) ==> Writable(ToDag(tasks))
  {
    hide IsForeign, DAG_HEADING, DAG_TYPE, TaskLines, DagSection, OneLineTasks, Expand, NoForeign;
    DagExpanded(tasks);
    DagHeadHarmless();
    if OneLineTasks(tasks) {
      HarmlessTasks(tasks);
    }
    NoForeignConcat([DAG_HEADING, "", DAG_TYPE, ""], TaskLines(tasks));
  }

  lemma DagTypeIsHarmless()
    ensures !IsForeign(DAG_TYPE)
  {
    LabelsAreLines();
    PlainLineNotForeign(DAG_TYPE);
  }

  lemma DagHeadHarmless()
    ensures NoForeign([DAG_HEADING, "", DAG_TYPE, ""])
  {
    hide IsForeign, DAG_HEADING, DAG_TYPE, IsHeadingText, Strip, StripRight, IsExecutionHeading;
    ManagedHeading(DAG_HEADING);
    PlainLineNotForeign("");
    DagTypeIsHarmless();
  }

  /** Of a loop only the template and the tasks can. */
  lemma LoopWritable(loop: LoopPlan)
    requires PlainLoop(loop)
    ensures Writable(ToLoop(loop)) <==> NoForeign(ItemLines(Strip(loop.template))) && NoForeign(TaskLines(loop.tasks))
  {
    LoopExpanded(loop);
    HarmlessFields(loop);
    HarmlessHeading(TEMPLATE_HEADING);
    HarmlessHeading(CURRENT_HEADING);
    HarmlessHeading(HISTORY_HEADING);
    HarmlessHistory(loop.history);
    hide OneLine, IsForeign, LoopFields, TEMPLATE_HEADING, CURRENT_HEADING, HISTORY_HEADING, LoopSection, Strip, ItemLines, TaskLines,
      RenderHistory, NoForeign;
    var f, h, t := LoopFields(loop), [TEMPLATE_HEADING, ""], ItemLines(Strip(loop.template));
    var c, k, e, r := ["", CURRENT_HEADING, ""], TaskLines(loop.tasks), ["", HISTORY_HEADING, ""], RenderHistory(loop.history);
    NoForeignConcat(f, h);
    NoForeignConcat(f + h, t);
    NoForeignConcat(f + h + t, c + k + e + r);
    NoForeignConcat(c, k);
    NoForeignConcat(c + k, e);
    NoForeignConcat(c + k + e, r);
  }

  lemma ManagedText(rw: Rewrite)
    requires Writable(rw)
    ensures Managed(rw) != [] && IsSectionText(Expand(Managed(rw)))
  {
    var head, kind, rest := ManagedHead(rw);
    ManagedHeading(head);
    PlanTypeLines();
    DagHeadLines();
    hide IsForeign, IsExecutionHeading, StripRight, OneLine, Expand, DAG_HEADING, DAG_TYPE, LOOP_HEADING, LOOP_TYPE, Managed;
    ExpandHead([head, "", kind], rest);
    SectionFromHead(head, kind, Expand(rest));
  }

  lemma ManagedHead(rw: Rewrite) returns (head: string, kind: string, rest: seq<string>)
    ensures Managed(rw) == [head, "", kind] + rest
    ensures (head == DAG_HEADING && kind == DAG_TYPE) || (head == LOOP_HEADING && kind == LOOP_TYPE)
  {
    hide DAG_HEADING, DAG_TYPE, LOOP_HEADING, LOOP_TYPE, RenderTasks, LoopRest, TEMPLATE_HEADING, Strip, LoopFields;
    match rw {
      case ToDag(tasks) =>
        head, kind, rest := DAG_HEADING, DAG_TYPE, [""] + RenderTasks(tasks);
      case ToLoop(loop) =>
        LoopFieldsShape(loop);
        var fields := [StatusLine(loop), IterationLine(loop), GoalLine(loop), StopLine(loop), ""];
        head, kind, rest := LOOP_HEADING, LOOP_TYPE, fields + [TEMPLATE_HEADING, ""] + [Strip(loop.template)] + LoopRest(loop);
    }
  }

  predicate HasHeading(plan: string) {
    ExecutionIndex(SplitLines(plan)) < |SplitLines(plan)|
  }

  function PlanPrefix(plan: string): seq<string> {
    PrefixOf(SplitLines(plan))
  }

  function PlanSuffix(plan: string): seq<string> {
    SuffixOf(SplitLines(plan))
  }

  lemma RewriteOnce(plan: string, rw: Rewrite)
    requires Writable(rw) && HasHeading(plan)
    ensures var plan' := Rewritten(plan, rw);
            && HasHeading(plan')
            && PlanPrefix(plan') == PlanPrefix(plan)
            && PlanSuffix(plan') == Kept(PlanSuffix(plan))
  {
    var lines := SplitLines(plan);
    LayoutOfLines(lines);
    ManagedText(rw);
    RewrittenIs(plan, rw);
    hide IsForeign, IsExecutionHeading, WritePlan, SplitLines, OneLine, ExecutionIndex, Managed, Expand, Rewritten, IsSectionText;
    AfterWrite(PrefixOf(lines), Managed(rw), SuffixOf(lines));
  }

  lemma RewrittenIs(plan: string, rw: Rewrite)
    requires HasHeading(plan)
    ensures Rewritten(plan, rw) == WritePlan(PlanPrefix(plan), Managed(rw), PlanSuffix(plan))
  {
    hide SplitLines, ExecutionIndex, WritePlan, DagSection, LoopSection, SuffixOf;
  }

  lemma TrimmedSuffixStays(suffix: seq<string>)
    ensures TrimmedSuffix(TrimmedSuffix(suffix)) == TrimmedSuffix(suffix)
    ensures Durable(suffix) ==> Durable(TrimmedSuffix(suffix))
  {
    hide TrimTail;
    if suffix != [] {
      TrimTailIdempotent(suffix);
    }
  }

  /** Rewriting a plan any number of times, switching between the two forms at will, keeps the
      lines before its execution heading, and keeps its foreign sections up to trailing white
      space exactly when these still start with a foreign heading after trimming. */
  lemma {:induction false} RewritesPreserve(plan: string, rws: seq<Rewrite>)
    requires HasHeading(plan) && forall i :: 0 <= i < |rws| ==> Writable(rws[i])
    ensures HasHeading(RewrittenBy(plan, rws))
    ensures PlanPrefix(RewrittenBy(plan, rws)) == PlanPrefix(plan)
    ensures rws != [] ==>
              (TrimmedSuffix(PlanSuffix(RewrittenBy(plan, rws))) == TrimmedSuffix(PlanSuffix(plan)) <==> Durable(PlanSuffix(plan)))
    ensures rws != [] ==>
              PlanSuffix(RewrittenBy(plan, rws)) == Kept(PlanSuffix(plan))
    decreases |rws|
  {
    hide HasHeading, PlanPrefix, PlanSuffix, Writable, Rewritten, Durable;
    if rws != [] {
      RewriteOnce(plan, rws[0]);
      var plan' := Rewritten(plan, rws[0]);
      TrimmedSuffixStays(PlanSuffix(plan));
      NothingIsDurable();
      RewritesPreserve(plan', rws[1..]);
    }
  }

  lemma KeptIsNoLonger(suffix: seq<string>)
    ensures |Kept(suffix)| <= if suffix == [] then 0 else |TrimTail(suffix)|
  {
  }

  /** A foreign heading inside the written section starts the suffix that is found next. */
  lemma ForeignInside(prefix: seq<string>, section: seq<string>, rest: seq<string>, i: nat)
    requires NoExecution(prefix) && section != [] && IsExecutionHeading(section[0])
    requires 0 < i < |section| && IsForeign(section[i])
    ensures |SuffixOf(prefix + section + rest)| > |rest|
  {
    hide IsExecutionHeading, IsForeign, ExecutionIndex, FirstIndex;
    var lines := prefix + section + rest;
    HeadingFound(prefix, section, rest);
    var tail := lines[|prefix| + 1..];
    assert tail[i - 1] == section[i];
    var k := FirstIndex(tail, IsForeign);
    assert k <= i - 1;
  }

  lemma PrefixFound(prefix: seq<string>, section: seq<string>, rest: seq<string>)
    requires NoExecution(prefix) && section != [] && IsExecutionHeading(section[0])
    ensures PrefixOf(prefix + section + rest) == prefix
  {
    hide IsExecutionHeading, ExecutionIndex;
    HeadingFound(prefix, section, rest);
    assert (prefix + section + rest)[..|prefix|] == prefix;
  }

  lemma PlanPrefixPlain(plan: string)
    ensures NoExecution(PlanPrefix(plan))
  {
    LayoutOfLines(SplitLines(plan));
  }

  lemma NothingIsDurable()
    ensures Durable([])
  {
  }
}
