/** Writing a plan and parsing it back. */
module PlanRoundTrip {
  import opened Text
  import opened Items
  import opened Dag
  import opened TaskLine
  import opened PlanText
  import opened PlanLayout

  // --------------------------------------------------------------------------
  // Task lists
  // --------------------------------------------------------------------------

  lemma {:induction false} CollectConcat(a: seq<string>, b: seq<string>)
    ensures CollectTasks(a + b) == CollectTasks(a) + CollectTasks(b)
  {
    hide ParseTaskLine;
    if a == [] {
      assert a + b == b;
    } else {
      assert (a + b)[1..] == a[1..] + b;
      CollectConcat(a[1..], b);
    }
  }

  lemma NotATask(line: string)
    requires line == [] || (!IsSpace(line[0]) && line[0] != '-')
    ensures ParseTaskLine(line) == None
  {
  }

  lemma CollectNotATask(line: string)
    requires line == [] || (!IsSpace(line[0]) && line[0] != '-')
    ensures CollectTasks([line]) == []
  {
    NotATask(line);
    hide ParseTaskLine;
    assert CollectTasks([]) == [];
    assert [line][1..] == [];
  }

  ghost predicate AllFromPayload(tasks: seq<Task>) {
    forall i :: 0 <= i < |tasks| ==> FromPayload(tasks[i])
  }

  ghost predicate AllReadable(tasks: seq<Task>) {
    forall i :: 0 <= i < |tasks| ==> Readable(tasks[i])
  }

  lemma ConsEqual<T>(x: T, xs: seq<T>, y: T, ys: seq<T>)
    ensures [x] + xs == [y] + ys <==> x == y && xs == ys
  {
    if [x] + xs == [y] + ys {
      assert ([x] + xs)[0] == x && ([y] + ys)[0] == y;
      assert ([x] + xs)[1..] == xs && ([y] + ys)[1..] == ys;
    }
  }

  lemma ListStep<T>(all: seq<T>, got: seq<T>, x: T, rest: seq<T>, headOk: bool, restOk: bool)
    requires got == [x] + rest && all != []
    requires x == all[0] <==> headOk
    requires rest == all[1..] <==> restOk
    ensures got == all <==> headOk && restOk
  {
    assert all == [all[0]] + all[1..];
    ConsEqual(x, rest, all[0], all[1..]);
  }

  lemma AllReadableCons(tasks: seq<Task>)
    requires tasks != []
    ensures AllReadable(tasks) <==> Readable(tasks[0]) && AllReadable(tasks[1..])
    ensures AllFromPayload(tasks) <==> FromPayload(tasks[0]) && AllFromPayload(tasks[1..])
  {
    hide Readable, FromPayload;
    assert tasks == [tasks[0]] + tasks[1..];
  }

  lemma {:induction false} CollectCount(lines: seq<string>)
    ensures |CollectTasks(lines)| <= |lines|
  {
    hide ParseTaskLine;
    if lines != [] {
      CollectCount(lines[1..]);
    }
  }

  /** A list of rendered tasks is collected as it was exactly when every task is readable. */
  lemma {:induction false} CollectRendered(tasks: seq<Task>)
    requires AllFromPayload(tasks)
    ensures CollectTasks(RenderTasks(tasks)) == tasks <==> AllReadable(tasks)
  {
    if tasks == [] {
      assert RenderTasks(tasks) == [];
    } else {
      hide FromPayload, Readable, RenderTask, RenderTasks, ParseTaskLine, CollectTasks, AllReadable, AllFromPayload;
      AllReadableCons(tasks);
      LineRoundTrip(tasks[0]);
      CollectRendered(tasks[1..]);
      CollectStep(tasks);
      var head, rest := ParseTaskLine(RenderTask(tasks[0])), CollectTasks(RenderTasks(tasks[1..]));
      if head.Some? {
        ListStep(tasks, [head.value] + rest, head.value, rest, Readable(tasks[0]), AllReadable(tasks[1..]));
      } else {
        CollectCount(RenderTasks(tasks[1..]));
      }
    }
  }

  lemma CollectStep(tasks: seq<Task>)
    requires tasks != []
    ensures var head, rest := ParseTaskLine(RenderTask(tasks[0])), CollectTasks(RenderTasks(tasks[1..]));
            CollectTasks(RenderTasks(tasks)) == if head.Some? then [head.value] + rest else rest
  {
    hide ParseTaskLine, RenderTask;
    assert RenderTasks(tasks)[1..] == RenderTasks(tasks[1..]);
  }

  /** Tasks read from lines have a title and an assignee without line break. */
  lemma {:induction false} CollectedOneLine(lines: seq<string>)
    requires AllOneLine(lines)
    ensures forall i :: 0 <= i < |CollectTasks(lines)| ==>
              OneLine(CollectTasks(lines)[i].title) && OneLine(CollectTasks(lines)[i].assignedTo)
  {
    hide ParseTaskLine, IsLineBreak;
    if lines != [] {
      CollectedOneLine(lines[1..]);
      if ParseTaskLine(lines[0]).Some? {
        ParsedPart(lines[0], IsLineBreak);
      }
    }
  }

  lemma HeadFrame(status: Status)
    ensures OneLine("- [" + [MarkerOf(status)] + "] ") && OneLine(" " + DASH + " ") && OneLine(" (") && OneLine(")")
  {
  }

  /** A rendered task is one line when its title and its assignee are. */
  lemma RenderedOneLine(task: Task)
    requires FromPayload(task)
    ensures OneLine(RenderTask(task)) <==> OneLine(task.title) && OneLine(task.assignedTo)
  {
    HeadFrame(task.status);
    SafeIdIsPlain(task.taskId);
    DetailsLines(task);
    hide OneLine, MarkerOf, Details, SafeId, AllSafe, Trimmed, IsNewline, DASH;
    var a, b, c := "- [" + [MarkerOf(task.status)] + "] ", " " + DASH + " ", Details(task);
    assert RenderTask(task) == a + task.taskId + b + task.title + " (" + c + ")";
    OneLineConcat(a + task.taskId + b + task.title + " (" + c, ")");
    OneLineConcat(a + task.taskId + b + task.title + " (", c);
    OneLineConcat(a + task.taskId + b + task.title, " (");
    OneLineConcat(a + task.taskId + b, task.title);
    OneLineConcat(a + task.taskId, b);
    OneLineConcat(a, task.taskId);
  }

  /** A list of tasks, written in any number of lines, is collected as it was exactly when every
      task is readable and takes one line. */
  lemma CollectWritten(tasks: seq<Task>)
    requires AllFromPayload(tasks)
    ensures CollectTasks(TaskLines(tasks)) == tasks <==> AllReadable(tasks) && OneLineTasks(tasks)
  {
    if CollectTasks(TaskLines(tasks)) == tasks {
      CollectedOneLine(TaskLines(tasks));
      forall i | 0 <= i < |tasks| ensures OneLine(RenderTask(tasks[i])) {
        RenderedOneLine(tasks[i]);
      }
    }
    hide FromPayload, Readable, RenderTask, TaskLines, CollectTasks, OneLine;
    if OneLineTasks(tasks) {
      OneLineTaskLines(tasks);
      CollectRendered(tasks);
    }
  }

  // --------------------------------------------------------------------------
  // The DAG plan
  // --------------------------------------------------------------------------

  lemma RenderedEnd(task: Task)
    ensures var r := RenderTask(task); r != [] && r[|r| - 1] == ')' && !IsSpace(')')
  {
  }

  lemma HeadLinesAreNoTasks()
    ensures CollectTasks([DAG_HEADING]) == [] && CollectTasks([""]) == [] && CollectTasks([DAG_TYPE]) == []
  {
    VisibleStart();
    hide DAG_HEADING, DAG_TYPE, CollectTasks, IsSpace;
    CollectNotATask(DAG_HEADING);
    CollectNotATask("");
    CollectNotATask(DAG_TYPE);
  }

  lemma VisibleStart()
    ensures DAG_HEADING != [] && DAG_HEADING[0] == '#' && !IsSpace('#')
    ensures DAG_TYPE != [] && DAG_TYPE[0] == '*' && !IsSpace('*')
  {
  }

  lemma DagHead()
    ensures CollectTasks([DAG_HEADING, "", DAG_TYPE, ""]) == [] && CollectTasks([DAG_HEADING, "", DAG_TYPE]) == []
    ensures CollectTasks([""]) == []
  {
    hide DAG_HEADING, DAG_TYPE, CollectTasks;
    HeadLinesAreNoTasks();
    CollectConcat([DAG_HEADING], [""]);
    CollectConcat([DAG_HEADING, ""], [DAG_TYPE]);
    CollectConcat([DAG_HEADING, "", DAG_TYPE], [""]);
    assert [DAG_HEADING] + [""] == [DAG_HEADING, ""];
    assert [DAG_HEADING, ""] + [DAG_TYPE] == [DAG_HEADING, "", DAG_TYPE];
    assert [DAG_HEADING, "", DAG_TYPE] + [""] == [DAG_HEADING, "", DAG_TYPE, ""];
  }

  /** The DAG section as it stands when nothing follows it. */
  lemma DagSectionTrimmed(tasks: seq<Task>)
    ensures TrimTail(DagLines(tasks)) == if tasks == [] then [DAG_HEADING, "", DAG_TYPE] else DagLines(tasks)
  {
    var head := [DAG_HEADING, "", DAG_TYPE, ""];
    var m := DagLines(tasks);
    if tasks == [] {
      assert m == head;
      DagTypeEnd();
      hide DAG_HEADING, DAG_TYPE;
      assert head[3] == "" && StripRight("") == "";
      assert head[..3] == [DAG_HEADING, "", DAG_TYPE];
    } else {
      hide DAG_HEADING, DAG_TYPE, RenderTask, TaskLines, TrimTail;
      var n := |tasks| - 1;
      LastTaskLines(tasks);
      RenderedEnd(tasks[n]);
      var last := RenderTask(tasks[n]);
      assert m == (head + TaskLines(tasks[..n])) + ItemLines(last);
      SolidItem(head + TaskLines(tasks[..n]), last);
    }
  }

  lemma LastTaskLines(tasks: seq<Task>)
    requires tasks != []
    ensures TaskLines(tasks) == TaskLines(tasks[..|tasks| - 1]) + ItemLines(RenderTask(tasks[|tasks| - 1]))
  {
    hide RenderTask, Expand, ItemLines, OneLine;
    var n := |tasks| - 1;
    var front, last := RenderTasks(tasks[..n]), RenderTask(tasks[n]);
    assert RenderTasks(tasks) == front + [last];
    ExpandConcat(front, [last]);
    ExpandItem(last);
  }

  lemma DagTypeEnd()
    ensures StripRight(DAG_TYPE) == DAG_TYPE && DAG_TYPE != []
  {
    assert DAG_TYPE[|DAG_TYPE| - 1] == 'g' && !IsSpace('g');
    NothingToCut(DAG_TYPE);
  }

  lemma CollectDagSection(tasks: seq<Task>)
    ensures CollectTasks(DagLines(tasks)) == CollectTasks(TaskLines(tasks))
    ensures CollectTasks(TrimTail(DagLines(tasks))) == CollectTasks(TaskLines(tasks))
  {
    DagHead();
    DagSectionTrimmed(tasks);
    NoTaskLines();
    hide DAG_HEADING, DAG_TYPE, TrimTail, TaskLines;
    CollectConcat([DAG_HEADING, "", DAG_TYPE, ""], TaskLines(tasks));
    CollectNothing();
  }

  lemma NoTaskLines()
    ensures TaskLines([]) == []
  {
    assert RenderTasks([]) == [];
  }

  lemma CollectNothing()
    ensures CollectTasks([]) == []
  {
  }

  /** The lines in front of the section that a DAG rewrite writes. */
  function DagPrefix(plan: string): seq<string> {
    if HasHeading(plan) then PlanPrefix(plan) else SplitLines(plan) + [""]
  }

  lemma CollectThree(a: seq<string>, b: seq<string>, c: seq<string>)
    ensures CollectTasks(a + b) == CollectTasks(a) + CollectTasks(b)
    ensures CollectTasks(a + b + [""] + c) == CollectTasks(a) + CollectTasks(b) + CollectTasks(c)
  {
    DagHead();
    hide CollectTasks;
    CollectConcat(a, b);
    CollectConcat(a + b, [""]);
    CollectConcat(a + b + [""], c);
  }

  /** A rewritten DAG plan parses to the tasks before the section, those that the written lines
      stand for, and those after it. */
  lemma DagReread(plan: string, tasks: seq<Task>)
    ensures ParseDagTasks(ReplaceDag(plan, tasks)) ==
            CollectTasks(DagPrefix(plan)) + CollectTasks(TaskLines(tasks)) + CollectTasks(TrimmedSuffix(PlanSuffix(plan)))
  {
    hide TrimTail, DagLines, SplitLines, DagPrefix, PlanSuffix, ReplaceDag, TaskLines;
    DagWritten(plan, tasks);
    var prefix, suffix, m := DagPrefix(plan), PlanSuffix(plan), DagLines(tasks);
    CollectDagSection(tasks);
    if suffix == [] {
      CollectThree(prefix, TrimTail(m), []);
      CollectNothing();
    } else {
      CollectThree(prefix, m, TrimTail(suffix));
    }
    hide CollectTasks;
  }

  lemma DagVisible(tasks: seq<Task>)
    ensures HasVisible(DagLines(tasks))
  {
    PlanTypeLines();
    hide TaskLines, DAG_HEADING, DAG_TYPE, StripRight;
    assert DagLines(tasks)[2] == DAG_TYPE;
  }

  lemma DagWritten(plan: string, tasks: seq<Task>)
    ensures var m, suffix := DagLines(tasks), PlanSuffix(plan);
            SplitLines(ReplaceDag(plan, tasks)) ==
            if suffix == [] then DagPrefix(plan) + TrimTail(m) else DagPrefix(plan) + m + [""] + TrimTail(suffix)
  {
    var lines := SplitLines(plan);
    LayoutOfLines(lines);
    assert OneLine("");
    assert AllOneLine(lines + [""]);
    DagVisible(tasks);
    DagExpanded(tasks);
    hide SplitLines, TrimTail, WritePlan, IsForeign, OneLine, IsExecutionHeading, DagLines, StripRight, Expand;
    WrittenLines(DagPrefix(plan), DagSection(tasks), PlanSuffix(plan));
  }

  lemma DagPrefixIs(plan: string)
    requires HasHeading(plan)
    ensures DagPrefix(plan) == PlanPrefix(plan)
  {
    hide HasHeading, PlanPrefix;
  }

  /** The written section, and what follows it. */
  lemma DagParts(plan: string, tasks: seq<Task>) returns (section: seq<string>, rest: seq<string>)
    requires HasHeading(plan)
    ensures SplitLines(ReplaceDag(plan, tasks)) == PlanPrefix(plan) + section + rest
    ensures section != [] && section[0] == DAG_HEADING && (tasks != [] ==> section == DagLines(tasks))
    ensures |Kept(PlanSuffix(plan))| <= |rest|
  {
    hide HasHeading, PlanPrefix, ReplaceDag, PlanSuffix, TaskLines, Kept, SplitLines, TrimTail, DAG_HEADING, DAG_TYPE;
    DagWritten(plan, tasks);
    DagPrefixIs(plan);
    DagSectionTrimmed(tasks);
    KeptIsNoLonger(PlanSuffix(plan));
    var m, suffix := DagLines(tasks), PlanSuffix(plan);
    section, rest := if suffix == [] then TrimTail(m) else m, if suffix == [] then [] else [""] + TrimTail(suffix);
  }

  lemma ForeignTaskLine(tasks: seq<Task>) returns (i: nat)
    requires !NoForeign(TaskLines(tasks))
    ensures tasks != [] && 0 < i < |DagLines(tasks)| && IsForeign(DagLines(tasks)[i])
  {
    hide IsForeign, TaskLines, DAG_HEADING, DAG_TYPE;
    NoTaskLines();
    var j := ForeignAt(TaskLines(tasks));
    i := 4 + j;
  }

  /** A DAG rewrite always keeps the lines before the section, and keeps the foreign sections
      exactly when no line of the written tasks imitates one. */
  lemma DagKeepsIff(plan: string, tasks: seq<Task>)
    requires HasHeading(plan)
    ensures PlanPrefix(ReplaceDag(plan, tasks)) == PlanPrefix(plan)
    ensures PlanSuffix(ReplaceDag(plan, tasks)) == Kept(PlanSuffix(plan)) <==> NoForeign(TaskLines(tasks))
  {
    hide HasHeading, PlanPrefix, PlanSuffix, ReplaceDag, Writable, TaskLines, IsForeign, NoForeign, Kept, SplitLines, PrefixOf, SuffixOf,
      DAG_HEADING, IsExecutionHeading, NoExecution, DagLines;
    DagWritable(tasks);
    PlanPrefixPlain(plan);
    DagHeadingLine();
    PlanPrefixIs(ReplaceDag(plan, tasks));
    var section, rest := DagParts(plan, tasks);
    PrefixFound(PlanPrefix(plan), section, rest);
    if NoForeign(TaskLines(tasks)) {
      RewriteOnce(plan, ToDag(tasks));
    } else {
      var i := ForeignTaskLine(tasks);
      ForeignInside(PlanPrefix(plan), section, rest, i);
    }
  }

  lemma PlanPrefixIs(plan: string)
    ensures PlanPrefix(plan) == PrefixOf(SplitLines(plan)) && PlanSuffix(plan) == SuffixOf(SplitLines(plan))
  {
  }

  lemma ForeignAt(lines: seq<string>) returns (j: nat)
    requires !NoForeign(lines)
    ensures j < |lines| && IsForeign(lines[j])
  {
    j :| 0 <= j < |lines| && IsForeign(lines[j]);
  }

  /** With no task lines outside the managed section, the tasks written are the tasks read,
      exactly when all of them are readable and take one line each. */
  lemma DagRoundTrip(plan: string, tasks: seq<Task>)
    requires AllFromPayload(tasks)
    requires CollectTasks(DagPrefix(plan)) == [] && CollectTasks(TrimmedSuffix(PlanSuffix(plan))) == []
    ensures ParseDagTasks(ReplaceDag(plan, tasks)) == tasks <==> AllReadable(tasks) && OneLineTasks(tasks)
  {
    hide CollectTasks, ParseDagTasks, ReplaceDag, TrimmedSuffix, DagPrefix, TaskLines, AllReadable, OneLineTasks, AllFromPayload,
      PlanSuffix;
    DagReread(plan, tasks);
    CollectWritten(tasks);
    var r := CollectTasks(TaskLines(tasks));
    assert [] + r + [] == r;
  }

  // --------------------------------------------------------------------------
  // The plan type
  // --------------------------------------------------------------------------

  lemma {:induction false} PlanTypeConcat(a: seq<string>, b: seq<string>)
    ensures PlanTypeOf(a + b) == if PlanTypeOf(a).Some? then PlanTypeOf(a) else PlanTypeOf(b)
  {
    hide PlanTypeOfLine;
    if a == [] {
      assert a + b == b;
    } else {
      assert (a + b)[1..] == a[1..] + b;
      PlanTypeConcat(a[1..], b);
    }
  }

  lemma TypeLine(value: string)
    requires value != [] && !IsSpace(value[0]) && !IsSpace(value[|value| - 1])
    ensures PlanTypeOfLine(PLAN_TYPE + (" " + value)) ==
            (if Lower(value) == "dag" then Some(DagPlan) else if Lower(value) == "loop" then Some(LoopKind) else None)
  {
    hide IsSpace, Lower, Trim, PLAN_TYPE;
    PunctuationIsNoSpace();
    var line := PLAN_TYPE + (" " + value);
    assert line[..|PLAN_TYPE|] == PLAN_TYPE && line[|PLAN_TYPE|..] == " " + value + "";
    TrimFinds(" ", value, "", IsSpace);
  }

  lemma LowerWords()
    ensures Lower("dag") == "dag" && Lower("loop") == "loop"
    ensures "dag" != "loop" && !IsSpace('d') && !IsSpace('g') && !IsSpace('l') && !IsSpace('p')
  {
  }

  lemma TypeLines()
    ensures PlanTypeOfLine(DAG_TYPE) == Some(DagPlan) && PlanTypeOfLine(LOOP_TYPE) == Some(LoopKind)
  {
    LowerWords();
    assert DAG_TYPE == PLAN_TYPE + (" " + "dag");
    assert LOOP_TYPE == PLAN_TYPE + (" " + "loop");
    hide IsSpace, Lower, PlanTypeOfLine, PLAN_TYPE;
    TypeLine("dag");
    TypeLine("loop");
  }

  lemma HeadTypes()
    ensures PlanTypeOf([DAG_HEADING, "", DAG_TYPE]) == Some(DagPlan)
    ensures PlanTypeOf([LOOP_HEADING, "", LOOP_TYPE]) == Some(LoopKind)
  {
    TypeLines();
    assert DAG_HEADING[0] == '#' && LOOP_HEADING[0] == '#' && PLAN_TYPE[0] == '*';
    NoPlanType(DAG_HEADING);
    NoPlanType(LOOP_HEADING);
    NoPlanType("");
    hide PlanTypeOfLine, DAG_HEADING, LOOP_HEADING, DAG_TYPE, LOOP_TYPE;
    TypeOfThree(DAG_HEADING, "", DAG_TYPE);
    TypeOfThree(LOOP_HEADING, "", LOOP_TYPE);
  }

  lemma NoPlanType(line: string)
    requires line == [] || line[0] != '*'
    ensures PlanTypeOfLine(line) == None
  {
    StartsWithFirst(line, PLAN_TYPE);
    assert PLAN_TYPE[0] == '*';
  }

  lemma StartsWithFirst(s: string, prefix: string)
    requires prefix != []
    ensures StartsWith(s, prefix) ==> s != [] && s[0] == prefix[0]
  {
    if StartsWith(s, prefix) {
      assert s[..|prefix|][0] == s[0];
    }
  }

  lemma TypeOfThree(a: string, b: string, c: string)
    requires PlanTypeOfLine(a).None? && PlanTypeOfLine(b).None? && PlanTypeOfLine(c).Some?
    ensures PlanTypeOf([a, b, c]) == PlanTypeOfLine(c)
  {
    hide PlanTypeOfLine;
    assert [a, b, c][1..] == [b, c];
    assert [b, c][1..] == [c];
    assert PlanTypeOf([c]) == PlanTypeOfLine(c);
    assert PlanTypeOf([b, c]) == PlanTypeOf([c]);
  }

  lemma DagSectionHead(tasks: seq<Task>)
    ensures var m, head := DagLines(tasks), [DAG_HEADING, "", DAG_TYPE];
            |m| > 3 && m[..3] == head && |TrimTail(m)| >= 3 && TrimTail(m)[..3] == head
  {
    DagSectionTrimmed(tasks);
    hide DAG_HEADING, DAG_TYPE, TrimTail, TaskLines;
  }

  /** A rewrite to a DAG is read as a DAG, unless a plan type stands in front of the section. */
  lemma DagTypeReread(plan: string, tasks: seq<Task>)
    requires PlanTypeOf(DagPrefix(plan)) == None
    ensures ParsePlanType(ReplaceDag(plan, tasks)) == DagPlan
  {
    hide PlanTypeOf, TrimTail, SplitLines, DagPrefix, PlanSuffix, ReplaceDag, DAG_HEADING, DAG_TYPE, DagLines;
    DagWritten(plan, tasks);
    HeadTypes();
    DagSectionHead(tasks);
    var m, suffix, head := DagLines(tasks), PlanSuffix(plan), [DAG_HEADING, "", DAG_TYPE];
    if suffix == [] {
      TypeAfterHead(DagPrefix(plan), head, TrimTail(m), []);
    } else {
      TypeAfterHead(DagPrefix(plan), head, m, TrimTail(suffix));
    }
  }

  lemma TypeAfterHead(prefix: seq<string>, head: seq<string>, m: seq<string>, rest: seq<string>)
    requires PlanTypeOf(prefix) == None && PlanTypeOf(head).Some?
    requires |head| <= |m| && m[..|head|] == head
    ensures PlanTypeOf(prefix + m) == PlanTypeOf(head)
    ensures PlanTypeOf(prefix + m + [""] + rest) == PlanTypeOf(head)
  {
    hide PlanTypeOf;
    assert m == head + m[|head|..];
    PlanTypeConcat(head, m[|head|..]);
    PlanTypeConcat(prefix, m);
    PlanTypeConcat(prefix + m, [""] + rest);
    assert prefix + m + [""] + rest == prefix + m + ([""] + rest);
  }
}
