/** The task store and the operations of the Leader's task flow
    (copaw/src/copaw_worker/task.py). */
module Taskflow {
  import opened Text
  import opened Lists
  import opened Dag
  import opened TaskLine
  import opened PlanText
  import opened PlanLayout
  import opened PlanRoundTrip
  import opened LoopRoundTrip
  import opened PlanRuns
  import Scheduler

  datatype ProjectMeta = ProjectMeta(
    projectId: string,
    title: string,
    status: string,
    source: Option<string>,
    requester: Option<string>,
    parentTaskId: Option<string>,
    createdAt: Option<string>)

  datatype TaskMeta = TaskMeta(
    taskId: string,
    projectId: string,
    title: string,
    assignedTo: string,
    roomId: Option<string>,
    dependsOn: seq<string>,
    assignedAt: string)

  datatype Failure =
    | BadProjectId
    | ProjectExists
    | NoMeta
    | NoPlan
    | BadPayload(payload: PayloadError)
    | BadGraph(graph: DagError<string>)
    | NotADag
    | NoSpec
    | PausedProject
    | BadTaskId
    | NotDelegable(why: Scheduler.DelegateError)
    | NotALoop
    | BrokenLoop(loop: LoopError)
    | BadIteration
    | BadDecision

  const PAUSED := "paused"
  const ACTIVE := "active"

  // --------------------------------------------------------------------------
  // Loop decisions
  // --------------------------------------------------------------------------

  datatype Decision = Continue | Replan | AskUser | StopSuccess | StopBlocked

  /** _safe_loop_decision */
  function DecisionOf(value: string): Option<Decision> {
    var text := Lower(Strip(value));
    if text == "continue" then Some(Continue)
    else if text == "stop_success" then Some(StopSuccess)
    else if text == "stop_blocked" then Some(StopBlocked)
    else if text == "ask_user" then Some(AskUser)
    else if text == "replan" then Some(Replan)
    else None
  }

  function DecisionName(d: Decision): string {
    match d
    case Continue => "continue"
    case Replan => "replan"
    case AskUser => "ask_user"
    case StopSuccess => "stop_success"
    case StopBlocked => "stop_blocked"
  }

  function StatusAfter(d: Decision): string {
    match d
    case Continue => "running"
    case Replan => "running"
    case AskUser => "waiting_user"
    case StopSuccess => "completed"
    case StopBlocked => "blocked"
  }

  datatype Record = Record(iteration: nat, decision: Decision, summary: string, next: Option<string>)

  predicate HasNext(rec: Record) {
    rec.next.Some? && Strip(rec.next.value) != []
  }

  /** The history entry of one recorded decision. */
  function Detail(rec: Record): string {
    "Iteration " + NatToString(rec.iteration) + ": " + DecisionName(rec.decision) + " " + DASH + " " + SingleLine(rec.summary)
    + if HasNext(rec) then " Next: " + SingleLine(rec.next.value) else ""
  }

  function Recorded(loop: LoopPlan, rec: Record): LoopPlan {
    loop.(currentIteration := if loop.currentIteration < rec.iteration then rec.iteration else loop.currentIteration,
          status := StatusAfter(rec.decision),
          history := loop.history + [Detail(rec)])
  }

  function AllRecorded(loop: LoopPlan, recs: seq<Record>): LoopPlan {
    if recs == [] then loop else Recorded(AllRecorded(loop, recs[..|recs| - 1]), recs[|recs| - 1])
  }

  /** Any sequence of accepted decisions only appends to the history, one entry each, never lets
      the counter run backwards or past the limit, leaves goal, stop condition, template, limit
      and tasks alone, and ends in the status of the last decision. */
  lemma {:induction false} RecordsAccumulate(loop: LoopPlan, recs: seq<Record>)
    requires loop.currentIteration <= loop.maxIterations
    requires forall i :: 0 <= i < |recs| ==> 1 <= recs[i].iteration <= loop.maxIterations
    ensures var r := AllRecorded(loop, recs);
            && r.(currentIteration := loop.currentIteration, status := loop.status, history := loop.history) == loop
            && |r.history| == |loop.history| + |recs| && loop.history <= r.history
            && (forall i :: 0 <= i < |recs| ==> r.history[|loop.history| + i] == Detail(recs[i]))
            && loop.currentIteration <= r.currentIteration <= loop.maxIterations
            && (forall i :: 0 <= i < |recs| ==> recs[i].iteration <= r.currentIteration)
            && (r.currentIteration == loop.currentIteration || exists i :: 0 <= i < |recs| && r.currentIteration == recs[i].iteration)
            && (recs != [] ==>
                  var d := recs[|recs| - 1].decision;
                  && (r.status == "running" <==> d.Continue? || d.Replan?) && (r.status == "waiting_user" <==> d.AskUser?)
                  && (r.status == "completed" <==> d.StopSuccess?) && (r.status == "blocked" <==> d.StopBlocked?))
  {
    StatusesAfter();
    hide Detail, StatusAfter;
    if recs != [] {
      var n := |recs| - 1;
      RecordsAccumulate(loop, recs[..n]);
      var before := AllRecorded(loop, recs[..n]);
      var r := AllRecorded(loop, recs);
      assert r == Recorded(before, recs[n]);
      assert recs[n].iteration <= loop.maxIterations;
      forall i | 0 <= i < |recs|
        ensures r.history[|loop.history| + i] == Detail(recs[i]) && recs[i].iteration <= r.currentIteration
      {
        assert i < n ==> recs[..n][i] == recs[i];
      }
      if before.currentIteration < recs[n].iteration {
        assert r.currentIteration == recs[n].iteration;
      } else if before.currentIteration != loop.currentIteration {
        var i :| 0 <= i < n && before.currentIteration == recs[..n][i].iteration;
        assert r.currentIteration == recs[i].iteration;
      }
    }
  }

  lemma StatusesAfter()
    ensures forall d {:trigger StatusAfter(d)} ::
              && (StatusAfter(d) == "running" <==> d.Continue? || d.Replan?) && (StatusAfter(d) == "waiting_user" <==> d.AskUser?)
              && (StatusAfter(d) == "completed" <==> d.StopSuccess?) && (StatusAfter(d) == "blocked" <==> d.StopBlocked?)
  {
    assert "running"[0] == 'r' && "waiting_user"[0] == 'w' && "completed"[0] == 'c' && "blocked"[0] == 'b';
  }

  const DECISIONS := {"continue", "replan", "ask_user", "stop_success", "stop_blocked"}

  lemma DecisionTexts()
    ensures |"continue"| == 8 && |"replan"| == 6 && |"ask_user"| == 8 && |"stop_success"| == 12 && |"stop_blocked"| == 12
    ensures "continue"[0] == 'c' && "ask_user"[0] == 'a' && "stop_success"[5] == 's' && "stop_blocked"[5] == 'b'
  {
  }

  /** A decision is one of five words, whatever their case and the white space around; it is recorded
      under this word, and decides the loop's status. */
  lemma DecisionIs(value: string)
    ensures var text := Lower(Strip(value));
            && (DecisionOf(value).Some? <==> text in DECISIONS)
            && (DecisionOf(value).Some? ==>
                  var d := DecisionOf(value).value;
                  && DecisionName(d) == text
                  && StatusAfter(d) == (if text == "continue" || text == "replan" then "running"
                                        else if text == "ask_user" then "waiting_user"
                                        else if text == "stop_success" then "completed"
                                        else "blocked"))
  {
    DecisionTexts();
    hide Lower, Strip;
  }

  lemma LoopStatusIs(s: string)
    ensures IsLoopStatus(s) <==> s in {"running", "waiting_results", "evaluating", "waiting_user", "completed", "blocked"}
  {
  }

  lemma StatusAfterIsStatus(d: Decision)
    ensures IsLoopStatus(StatusAfter(d))
  {
  }

  lemma DecisionNamePlain(d: Decision)
    ensures OneLine(DecisionName(d))
  {
  }

  lemma DetailFrame()
    ensures OneLine("Iteration ") && OneLine(": ") && OneLine(" " + DASH + " ") && OneLine(" Next: ") && !IsSpace('I')
    ensures (" " + DASH + " ")[2] == ' ' && IsSpace(' ')
  {
  }

  function DetailHead(rec: Record): string {
    "Iteration " + NatToString(rec.iteration) + ": " + DecisionName(rec.decision) + (" " + DASH + " ")
  }

  lemma DetailParts(rec: Record)
    ensures Detail(rec) == DetailHead(rec) + SingleLine(rec.summary) + (if HasNext(rec) then " Next: " + SingleLine(rec.next.value) else "")
    ensures OneLine(DetailHead(rec)) && |DetailHead(rec)| > 0 && DetailHead(rec)[0] == 'I' && DetailHead(rec)[|DetailHead(rec)| - 1] == ' '
  {
    DetailFrame();
    DecisionNamePlain(rec.decision);
    NatToStringPlain(rec.iteration);
    hide OneLine, NatToString, DecisionName, SingleLine, HasNext;
    OneLineConcat("Iteration ", NatToString(rec.iteration));
    OneLineConcat("Iteration " + NatToString(rec.iteration), ": ");
    OneLineConcat("Iteration " + NatToString(rec.iteration) + ": ", DecisionName(rec.decision));
    OneLineConcat("Iteration " + NatToString(rec.iteration) + ": " + DecisionName(rec.decision), " " + DASH + " ");
  }

  lemma {:induction false} SingleLineBlank(s: string)
    ensures SingleLine(s) == [] <==> Strip(s) == []
    ensures Trimmed(SingleLine(s), IsSpace)
  {
    CollapseBlank(s);
    hide IsSpace, Collapse;
    TrimIsTrimmed(Collapse(s), IsSpace);
    TrimIsTrimmed(s, IsSpace);
  }

  lemma {:induction false} CollapseBlank(s: string)
    ensures AllOf(Collapse(s), IsSpace) <==> AllOf(s, IsSpace)
    decreases |s|
  {
    if s != [] {
      assert IsSpace(' ');
      hide IsSpace;
      AllOfConcat([s[0]], s[1..], IsSpace);
      assert s == [s[0]] + s[1..];
      if IsSpace(s[0]) {
        var t := StripLeft(s[1..]);
        TrimLeftPart(s[1..], IsSpace);
        CollapseBlank(t);
        AllOfConcat(" ", Collapse(t), IsSpace);
        var skip := s[1..][..|s[1..]| - |t|];
        assert s[1..] == skip + t;
        AllOfConcat(skip, t, IsSpace);
      } else {
        AllOfConcat([s[0]], Collapse(s[1..]), IsSpace);
      }
    }
  }

  /** An entry survives the plan's text unless both its summary and its next action are blank. */
  lemma DetailStays(rec: Record)
    ensures OneLine(Detail(rec))
    ensures Strip(Detail(rec)) != []
    ensures Strip(Detail(rec)) == Detail(rec) <==> Strip(rec.summary) != [] || HasNext(rec)
  {
    DetailFrame();
    DetailParts(rec);
    SingleLineIsOneLine(rec.summary);
    SingleLineBlank(rec.summary);
    var head, summary := DetailHead(rec), SingleLine(rec.summary);
    var tail := if HasNext(rec) then " Next: " + SingleLine(rec.next.value) else "";
    if HasNext(rec) {
      SingleLineIsOneLine(rec.next.value);
      SingleLineBlank(rec.next.value);
    }
    hide DetailHead, SingleLine, IsSpace, IsLineBreak, Detail, Strip;
    OneLineConcat(head, summary);
    OneLineConcat(" Next: ", tail[if HasNext(rec) then 7 else 0..]);
    OneLineConcat(head + summary, tail);
    var d := head + summary + tail;
    assert d[0] == 'I';
    EndDecides(d);
    if tail != [] {
      assert d[|d| - 1] == tail[|tail| - 1];
    } else if summary != [] {
      assert d[|d| - 1] == summary[|summary| - 1];
    } else {
      assert d[|d| - 1] == head[|head| - 1];
    }
  }

  lemma EndDecides(d: string)
    requires d != [] && !IsSpace(d[0])
    ensures Strip(d) != [] && (Strip(d) == d <==> !IsSpace(d[|d| - 1]))
  {
    StripIsStripRight(d);
    StripRightKeeps(d, 0);
    hide IsSpace;
    if !IsSpace(d[|d| - 1]) {
      NothingToCut(d);
    }
  }

  /** In a template that does not imitate the history's heading, a recorded decision is read back
      as recorded exactly when the text could carry the loop before, and summary and next action
      are not both blank: then the entry comes back without its trailing space. */
  lemma RecordReread(plan: string, loop: LoopPlan, rec: Record)
    requires PlainLoop(loop) && AllFromPayload(loop.tasks) && CleanForLoop(PlanPrefix(plan))
    requires Lacks(TemplateLines(loop), HISTORY_HEADING)
    ensures ParseLoopPlan(ReplaceLoop(plan, Recorded(loop, rec))) == Ok(Some(Recorded(loop, rec))) <==>
            KeptByPlan(loop) && (Strip(rec.summary) != [] || HasNext(rec))
  {
    hide CleanForLoop, ParseLoopPlan, ReplaceLoop, PlanPrefix, IsLoopStatus, AllFromPayload, OneLine, Detail, SingleLine, TemplateLines,
      NormalTemplate, NonBlank, Strip, StatusAfter, HasNext, HeadingIndex, Lacks, HISTORY_HEADING, CURRENT_HEADING, AllReadable,
      OneLineTasks, NoSection, CollectTasks;
    DetailStays(rec);
    StatusAfterIsStatus(rec.decision);
    StatusReread(StatusAfter(rec.decision));
    var r := Recorded(loop, rec);
    SameTemplateLines(loop, r);
    HeadingIndexIs(TemplateLines(loop), HISTORY_HEADING);
    LoopRoundTripExact(plan, r);
    HistoryOneMore(loop.history, Detail(rec));
  }

  lemma SameTemplateLines(a: LoopPlan, b: LoopPlan)
    requires a.template == b.template
    ensures TemplateLines(a) == TemplateLines(b)
  {
  }

  lemma SameTemplateQuiet(a: LoopPlan, b: LoopPlan)
    requires a.template == b.template
    ensures QuietTemplate(a) == QuietTemplate(b)
  {
    hide NoSection, Lacks, TemplateLines;
    SameTemplateLines(a, b);
  }

  lemma HistoryOneMore(history: seq<string>, entry: string)
    requires Strip(entry) != []
    ensures NonBlank(history + [entry]) == history + [entry] <==> NonBlank(history) == history && Strip(entry) == entry
  {
    hide Strip;
    NonBlankConcat(history, [entry]);
    NonBlankOne(entry);
    var kept := NonBlank(history);
    assert |kept + [Strip(entry)]| == |kept| + 1 && |history + [entry]| == |history| + 1;
    if kept + [Strip(entry)] == history + [entry] {
      assert (kept + [Strip(entry)])[..|kept|] == kept && (history + [entry])[..|history|] == history;
      assert (kept + [Strip(entry)])[|kept|] == Strip(entry) && (history + [entry])[|history|] == entry;
    }
  }

  lemma NonBlankOne(part: string)
    ensures NonBlank([part]) == if Strip(part) == [] then [] else [Strip(part)]
  {
    hide Strip;
    assert [part][1..] == [];
    NonBlankNil();
  }

  lemma {:induction false} NonBlankConcat(a: seq<string>, b: seq<string>)
    ensures NonBlank(a + b) == NonBlank(a) + NonBlank(b)
  {
    hide Strip;
    if a == [] {
      assert a + b == b;
    } else {
      assert (a + b)[1..] == a[1..] + b;
      NonBlankConcat(a[1..], b);
    }
  }

  // --------------------------------------------------------------------------
  // Ready nodes of a loop
  // --------------------------------------------------------------------------

  predicate LoopStands(loop: LoopPlan) {
    loop.status == "completed" || loop.status == "blocked" || loop.status == "waiting_user"
  }

  /** ready_loop_nodes of an unpaused project */
  function ReadyInLoop(loop: LoopPlan): seq<Task> {
    if LoopStands(loop) then [] else Scheduler.Ready(loop.tasks)
  }

  /** delegate_task does not look at the loop's status: in a loop that has stopped it still
      hands out nodes that ready_loop_nodes no longer offers, and nowhere else do the two
      differ. */
  lemma LoopDelegation(loop: LoopPlan, id: string)
    requires Distinct(Ids(loop.tasks))
    ensures Scheduler.Delegate(loop.tasks, id).Ok? <==>
            id in Ids(ReadyInLoop(loop)) || (LoopStands(loop) && id in Ids(Scheduler.Ready(loop.tasks)))
    ensures (Scheduler.Delegate(loop.tasks, id).Ok? <==> id in Ids(ReadyInLoop(loop))) <==>
            !LoopStands(loop) || id !in Ids(Scheduler.Ready(loop.tasks))
  {
    hide Scheduler.Ready, Scheduler.Delegate, LoopStands;
    Scheduler.DelegateIffReady(loop.tasks, id);
  }

  // --------------------------------------------------------------------------
  // Replanning
  // --------------------------------------------------------------------------

  /** plan_dag and plan_loop: the payload replaces the graph, known ids keep their status. */
  function ReplanRaw(existing: seq<Task>, raws: seq<Payload>): Result<seq<Task>, PayloadError> {
    if raws == [] then Ok([])
    else
      match ReplanRaw(existing, raws[..|raws| - 1])
      case Err(e) => Err(e)
      case Ok(done) => ReplanOne(existing, done, raws[|raws| - 1])
  }

  function ReplanOne(existing: seq<Task>, done: seq<Task>, raw: Payload): Result<seq<Task>, PayloadError> {
    match TaskFromPayload(raw)
    case Err(e) => Err(e)
    case Ok(task) =>
      if task.taskId in Ids(done) then Err(DuplicateId(task.taskId))
      else
        var k := Scheduler.IndexOf(existing, task.taskId);
        Ok(done + [if k < |existing| then task.(status := existing[k].status) else task])
  }

  /** Payloads that can replace a graph: acceptable, with distinct ids. */
  ghost predicate CanReplan(raws: seq<Payload>) {
    (forall i :: 0 <= i < |raws| ==> Acceptable(raws[i])) && Distinct(PayloadIds(raws))
  }

  /** The status that the id's last task among those known has; that of a new task otherwise. */
  function StatusBefore(known: seq<Task>, id: string): Status {
    match Scheduler.LastWith(known, id)
    case None => Pending
    case Some(t) => t.status
  }

  /** The payloads as tasks, one by one, each in the status that its id had before. */
  ghost predicate Replanned(known: seq<Task>, raws: seq<Payload>, r: seq<Task>) {
    && |r| == |raws|
    && forall i :: 0 <= i < |raws| ==> Carries(r[i], raws[i]) && r[i].status == StatusBefore(known, Strip(raws[i].taskId))
  }

  lemma ReplanOneIs(known: seq<Task>, done: seq<Task>, raw: Payload)
    ensures var one := ReplanOne(Scheduler.ToDict(known), done, raw);
            && (one.Ok? <==> Acceptable(raw) && Strip(raw.taskId) !in Ids(done))
            && (one.Ok? ==>
                  && |one.value| == |done| + 1 && one.value[..|done|] == done
                  && Carries(one.value[|done|], raw) && one.value[|done|].status == StatusBefore(known, Strip(raw.taskId)))
  {
    hide TaskFromPayload, Acceptable, Strip, Scheduler.ToDict, Ids;
    PayloadAccepted(raw);
    if Acceptable(raw) {
      PayloadIsCarried(raw);
      Scheduler.DictLookup(known, Strip(raw.taskId));
    }
  }

  lemma ReplanUnfold(existing: seq<Task>, raws: seq<Payload>)
    requires raws != []
    ensures var before := ReplanRaw(existing, raws[..|raws| - 1]);
            ReplanRaw(existing, raws) == if before.Err? then before else ReplanOne(existing, before.value, raws[|raws| - 1])
  {
    hide ReplanOne;
  }

  lemma ReplannedIds(known: seq<Task>, raws: seq<Payload>, r: seq<Task>)
    requires Replanned(known, raws, r)
    ensures Ids(r) == PayloadIds(raws)
  {
    hide Strip, StatusBefore;
  }

  /** The shared loop of plan_dag and plan_loop: when it accepts, and what it then returns. */
  lemma {:induction false} ReplanIs(known: seq<Task>, raws: seq<Payload>)
    ensures var r := ReplanRaw(Scheduler.ToDict(known), raws);
            && (r.Ok? <==> CanReplan(raws))
            && (r.Ok? ==> Replanned(known, raws, r.value))
  {
    if raws == [] {
      assert PayloadIds(raws) == [];
      hide Scheduler.ToDict;
    } else {
      hide Acceptable, Strip, Scheduler.ToDict, Distinct, Ids, ReplanRaw, ReplanOne, Carries, StatusBefore, Replanned, PayloadIds;
      var n := |raws| - 1;
      var dict := Scheduler.ToDict(known);
      ReplanIs(known, raws[..n]);
      ReplanUnfold(dict, raws);
      PayloadIdsSplit(raws);
      var before := ReplanRaw(dict, raws[..n]);
      if before.Ok? {
        ReplannedIds(known, raws[..n], before.value);
        ReplanOneIs(known, before.value, raws[n]);
        if ReplanRaw(dict, raws).Ok? {
          ReplannedOneMore(known, raws, before.value, ReplanRaw(dict, raws).value);
        }
      }
    }
  }

  lemma ReplannedOneMore(known: seq<Task>, raws: seq<Payload>, done: seq<Task>, r: seq<Task>)
    requires raws != [] && Replanned(known, raws[..|raws| - 1], done)
    requires |r| == |done| + 1 && r[..|done|] == done
    requires Carries(r[|done|], raws[|done|]) && r[|done|].status == StatusBefore(known, Strip(raws[|done|].taskId))
    ensures Replanned(known, raws, r)
  {
    hide Carries, StatusBefore, Strip;
    forall i | 0 <= i < |raws| ensures Carries(r[i], raws[i]) && r[i].status == StatusBefore(known, Strip(raws[i].taskId)) {
      if i < |done| {
        assert r[..|done|][i] == r[i] && raws[..|raws| - 1][i] == raws[i];
      }
    }
  }

  lemma ReplannedOnce(known: seq<Task>, raws: seq<Payload>, a: seq<Task>, b: seq<Task>)
    requires Replanned(known, raws, a) && Replanned(known, raws, b)
    ensures a == b
  {
    hide Carries, StatusBefore, Strip;
    forall i | 0 <= i < |raws| ensures a[i] == b[i] {
      CarriedOnce(a[i], b[i], raws[i]);
    }
  }

  /** The tasks whose statuses plan_loop carries over, and the history. */
  function LoopBefore(plan: string): (seq<Task>, seq<string>)
    requires ParseLoopPlan(plan).Ok?
  {
    match ParseLoopPlan(plan).value
    case None => (ParseLoopTasks(plan), [])
    case Some(loop) => (loop.tasks, loop.history)
  }

  /** Single spaces are the only white space. */
  ghost predicate Collapsed(s: string) {
    forall i :: 0 <= i < |s| && IsSpace(s[i]) ==> s[i] == ' ' && (i + 1 < |s| ==> !IsSpace(s[i + 1]))
  }

  lemma {:induction false} CollapseCollapses(s: string)
    ensures Collapsed(Collapse(s))
    ensures s != [] && !IsSpace(s[0]) ==> Collapse(s) != [] && !IsSpace(Collapse(s)[0])
    ensures s == [] ==> Collapse(s) == []
    decreases |s|
  {
    if s != [] {
      assert IsSpace(' ');
      hide IsSpace;
      if IsSpace(s[0]) {
        CollapseCollapses(StripLeft(s[1..]));
      } else {
        CollapseCollapses(s[1..]);
      }
    }
  }

  lemma {:induction false} CollapseStays(s: string)
    requires Collapsed(s)
    ensures Collapse(s) == s
  {
    if s != [] {
      hide IsSpace;
      assert s == [s[0]] + s[1..];
      assert forall i :: 0 <= i < |s[1..]| ==> s[1..][i] == s[i + 1];
      CollapseStays(s[1..]);
      if IsSpace(s[0]) {
        assert s[1..] == [] || !IsSpace(s[1..][0]);
        assert StripLeft(s[1..]) == s[1..];
      }
    }
  }

  lemma SingleLineIdempotent(s: string)
    ensures SingleLine(SingleLine(s)) == SingleLine(s)
  {
    CollapseCollapses(s);
    hide IsSpace, Collapse;
    var c := Collapse(s);
    var l := TrimLeft(c, IsSpace);
    var t := TrimRight(l, IsSpace);
    hide TrimLeft, TrimRight;
    TrimLeftPart(c, IsSpace);
    TrimRightPart(l, IsSpace);
    assert forall i :: 0 <= i < |t| ==> t[i] == c[|c| - |l| + i];
    CollapseStays(t);
    SingleLineStripped(s);
  }

  /** An entry of a history section is a stripped, non-empty line. */
  lemma {:induction false} ParsedHistory(lines: seq<string>)
    requires AllOneLine(lines)
    ensures NonBlank(HistoryOf(lines)) == HistoryOf(lines) && AllOneLine(HistoryOf(lines))
  {
    hide HistoryOfLine, Strip, OneLine;
    if lines == [] {
      NonBlankNil();
    } else {
      ParsedEntry(lines[0]);
      ParsedHistory(lines[1..]);
      NonBlankConcat(HistoryOfLine(lines[0]), HistoryOf(lines[1..]));
    }
  }

  lemma ParsedEntry(line: string)
    requires OneLine(line)
    ensures NonBlank(HistoryOfLine(line)) == HistoryOfLine(line) && AllOneLine(HistoryOfLine(line))
  {
    hide IsSpace, IsLineBreak, TrimLeft, TrimRight, NonBlank;
    NonBlankNil();
    if StartsWith(Strip(line), "- ") && |line| >= 2 {
      EntryVisible(line);
      var entry := Strip(line[2..]);
      NoneOfTrim(line[2..], IsLineBreak, IsSpace);
      TrimIsTrimmed(line[2..], IsSpace);
      TrimmedStays(entry, IsSpace);
      NonBlankOne(entry);
    }
  }

  /** A stripped line that starts with a dash and a space holds more than these. */
  lemma EntryVisible(line: string)
    requires StartsWith(Strip(line), "- ") && |line| >= 2
    ensures Strip(line[2..]) != []
  {
    hide IsSpace, TrimLeft, TrimRight, Trim;
    TrimIsTrimmed(line, IsSpace);
    TrimIsTrimmed(line[2..], IsSpace);
    SecondIsSpace(Strip(line));
    if AllOf(line[2..], IsSpace) {
      FewVisible(line);
    }
  }

  lemma SecondIsSpace(core: string)
    requires StartsWith(core, "- ") && (core == [] || !IsSpace(core[|core| - 1]))
    ensures |core| > 2
  {
    assert core[..2] == "- ";
    assert core[1] == ' ';
  }

  /** Without visible characters behind its second one, a line has no third after stripping. */
  lemma FewVisible(line: string)
    requires |line| >= 2 && AllOf(line[2..], IsSpace)
    ensures |Strip(line)| <= 2
  {
    hide IsSpace, TrimLeft, TrimRight;
    assert line == line[..2] + line[2..] + "";
    assert line == "" + line[..2] + line[2..];
    StripAround("", line[..2], line[2..]);
    TrimIsTrimmed(line[..2], IsSpace);
  }

  lemma HistoryBefore(plan: string)
    requires ParseLoopPlan(plan).Ok?
    ensures var history := LoopBefore(plan).1; NonBlank(history) == history && AllOneLine(history)
  {
    hide ParseLoopPlan, ParseLoopTasks, OneLine, SplitLines, SectionLines, HistoryOf, NonBlank, HISTORY_HEADING;
    NonBlankNil();
    SectionOneLine(SplitLines(plan), HISTORY_HEADING);
    ParsedHistory(SectionLines(SplitLines(plan), HISTORY_HEADING));
    HistoryIsParsed(plan);
  }

  lemma HistoryIsParsed(plan: string)
    ensures ParseLoopPlan(plan).Ok? && ParseLoopPlan(plan).value.Some? ==>
              ParseLoopPlan(plan).value.value.history == HistoryOf(SectionLines(SplitLines(plan), HISTORY_HEADING))
  {
    hide SplitLines, PlanField, SectionLines, ParseIteration, SafeLoopStatus, ParsePlanType, HistoryOf, CollectTasks, Join, Strip;
  }

  /** For a template with line feeds only and no line that imitates a heading, what plan_loop
      returns is what the plan it wrote says, exactly when all its tasks are readable and take one
      line each. */
  lemma PlannedLoopReread(plan: string, loop: LoopPlan, goal: string, stop: string, template: string)
    requires CleanForLoop(PlanPrefix(plan)) && QuietTemplate(loop) && OnlyNewlines(template)
    requires loop.goal == SingleLine(goal) && loop.stopCondition == SingleLine(stop) && loop.template == Strip(template)
    requires IsLoopStatus(loop.status) && AllFromPayload(loop.tasks)
    requires ParseLoopPlan(plan).Ok? && loop.history == LoopBefore(plan).1
    ensures ParseLoopPlan(ReplaceLoop(plan, loop)) == Ok(Some(loop)) <==> AllReadable(loop.tasks) && OneLineTasks(loop.tasks)
  {
    hide CleanForLoop, PlanPrefix, ParseLoopPlan, ReplaceLoop, SingleLine, NonBlank, OnlyNewlines, Trim, IsSpace, QuietTemplate,
      LoopBefore, AllReadable, OneLineTasks, AllFromPayload, IsLoopStatus, OneLine, KeptByPlan;
    SingleLineIdempotent(goal);
    SingleLineIdempotent(stop);
    StripOnlyNewlines(template);
    TrimIsTrimmed(template, IsSpace);
    TrimmedStays(Strip(template), IsSpace);
    HistoryBefore(plan);
    StatusReread(loop.status);
    LoopRoundTripExact(plan, loop);
    KeptByPlanQuiet(loop);
  }

  lemma LoopPlanPresent(plan: string)
    requires ParsePlanType(plan) == LoopKind && ParseLoopPlan(plan).Ok?
    ensures ParseLoopPlan(plan).value.Some?
  {
    hide SplitLines, PlanField, SectionLines, ParseIteration, SafeLoopStatus, ParsePlanType;
  }

  lemma DelegatedTask(tasks: seq<Task>, id: string)
    requires Scheduler.Delegate(tasks, id).Ok?
    ensures var k := Scheduler.IndexOf(tasks, id); k < |tasks| && tasks[k].taskId == id
  {
    hide Scheduler.DependenciesMet;
  }

  predicate IsQuoteMark(c: char) {
    c == '`' || c == '\'' || c == '"'
  }

  predicate IsColon(c: char) {
    c == ':'
  }

  predicate IsSeparator(c: char) {
    c == ':' || c == ',' || c == ';'
  }

  /** canonical_worker_id */
  function CanonicalWorkerId(value: string): string {
    var text := Strip(value);
    var token := Trim(text[..FirstIndex(text, IsSpace)], IsQuoteMark);
    var bare := if token != [] && token[0] == '@' then token[1..] else token;
    Trim(bare[..FirstIndex(bare, IsColon)], IsSeparator)
  }

  /** Part of a worker's name: no white space, no quotes, no separators and no at sign. */
  predicate IsNamePart(c: char) {
    !IsSpace(c) && !IsQuoteMark(c) && !IsSeparator(c) && c != '@'
  }

  lemma WorkerFound(before: string, left: string, at: bool, name: string, domain: string, right: string, after: string)
    requires AllOf(before, IsSpace) && (after == [] || IsSpace(after[0]))
    requires AllOf(left, IsQuoteMark) && AllOf(right, IsQuoteMark)
    requires name != [] && AllOf(name, IsNamePart)
    requires domain == [] || IsColon(domain[0]) || AllOf(domain, IsSeparator)
    requires NoneOf(domain, IsSpace) && (domain == [] || !IsQuoteMark(domain[|domain| - 1]))
    ensures CanonicalWorkerId(before + (left + ((if at then "@" else "") + name + domain) + right) + after) == name
  {
    hide IsSpace, IsQuoteMark, IsSeparator, IsColon, IsNamePart, Trim, FirstIndex, Strip;
    var core := (if at then "@" else "") + name + domain;
    WordPlain(left, at, name, domain, right);
    FirstWord(before, left + core + right, after);
    TrimFinds(left, core, right, IsQuoteMark);
    NameCut(name, domain);
    if at {
      assert core[1..] == name + domain;
    } else {
      assert core == name + domain && core[0] == name[0];
    }
  }

  lemma MarksAre()
    ensures forall c :: (IsQuoteMark(c) <==> c in "`'\"") && (IsSeparator(c) <==> c in ":,;") && (IsColon(c) <==> c == ':')
    ensures forall c :: IsNamePart(c) <==> !IsSpace(c) && c !in "`'\":,;@"
  {
    hide IsSpace;
  }

  /** The worker named by the first word of a text: the name may stand in quotes, be a mention, and carry
      a domain or a separator behind it. */
  lemma WorkerIs(before: string, left: string, at: bool, name: string, domain: string, right: string, after: string)
    requires AllOf(before, IsSpace) && (after == [] || IsSpace(after[0]))
    requires forall c :: c in left || c in right ==> c in "`'\""
    requires name != [] && forall c :: c in name ==> !IsSpace(c) && c !in "`'\":,;@"
    requires domain == [] || domain[0] == ':' || forall c :: c in domain ==> c in ":,;"
    requires NoneOf(domain, IsSpace) && (domain == [] || domain[|domain| - 1] !in "`'\"")
    ensures CanonicalWorkerId(before + (left + ((if at then "@" else "") + name + domain) + right) + after) == name
  {
    hide CanonicalWorkerId, IsSpace;
    MarksAre();
    WorkerFound(before, left, at, name, domain, right, after);
  }

  lemma WordPlain(left: string, at: bool, name: string, domain: string, right: string)
    requires AllOf(left, IsQuoteMark) && AllOf(right, IsQuoteMark)
    requires name != [] && AllOf(name, IsNamePart)
    requires NoneOf(domain, IsSpace) && (domain == [] || !IsQuoteMark(domain[|domain| - 1]))
    ensures var core := (if at then "@" else "") + name + domain;
            && core != [] && Trimmed(core, IsQuoteMark) && NoneOf(left + core + right, IsSpace) && name[0] != '@'
  {
    var mention := if at then "@" else "";
    assert NoneOf(left, IsSpace) && NoneOf(right, IsSpace) && NoneOf(mention, IsSpace) && NoneOf(name, IsSpace);
    var core := mention + name + domain;
    assert core[0] == if at then '@' else name[0];
    assert core[|core| - 1] == if domain == [] then name[|name| - 1] else domain[|domain| - 1];
    hide IsSpace;
    NoneOfConcat(mention, name, IsSpace);
    NoneOfConcat(mention + name, domain, IsSpace);
    NoneOfConcat(left, core, IsSpace);
    NoneOfConcat(left + core, right, IsSpace);
  }

  lemma FirstWord(before: string, word: string, after: string)
    requires AllOf(before, IsSpace) && word != [] && NoneOf(word, IsSpace) && (after == [] || IsSpace(after[0]))
    ensures var text := Strip(before + word + after); text[..FirstIndex(text, IsSpace)] == word
  {
    hide IsSpace, FirstIndex, TrimLeft, TrimRight;
    assert before + word + after == before + (word + after);
    TrimLeftIs(before, word + after, IsSpace);
    TrimRightConcat(word, after, IsSpace);
    TrimmedStays(word, IsSpace);
    TrimRightPart(after, IsSpace);
    var rest := TrimRight(after, IsSpace);
    if AllOf(after, IsSpace) {
      FirstIndexIs(word, IsSpace, |word|);
    } else {
      assert rest != [] && rest[0] == after[0];
      FirstIndexIs(word + rest, IsSpace, |word|);
    }
  }

  lemma NameCut(name: string, domain: string)
    requires name != [] && AllOf(name, IsNamePart)
    requires domain == [] || IsColon(domain[0]) || AllOf(domain, IsSeparator)
    ensures var bare := name + domain; Trim(bare[..FirstIndex(bare, IsColon)], IsSeparator) == name
  {
    var bare := name + domain;
    var k := FirstIndex(bare, IsColon);
    assert forall i :: 0 <= i < |name| ==> !IsColon(bare[i]);
    assert domain != [] && IsColon(domain[0]) ==> IsColon(bare[|name|]);
    assert |name| <= k;
    assert bare[..k] == "" + name + domain[..k - |name|];
    TrimFinds("", name, domain[..k - |name|], IsSeparator);
  }

  // --------------------------------------------------------------------------
  // The store
  // --------------------------------------------------------------------------

  class TaskStore {
    var metas: map<string, ProjectMeta>
    var plans: map<string, string>
    var taskMetas: map<string, TaskMeta>
    var specs: map<string, string>

    constructor ()
      ensures metas == map[] && plans == map[] && taskMetas == map[] && specs == map[]
    {
      metas, plans, taskMetas, specs := map[], map[], map[], map[];
    }

    function ReadMeta(projectId: string): Result<ProjectMeta, Failure>
      reads this`metas
    {
      match SafeIdOf(projectId)
      case None => Err(BadProjectId)
      case Some(id) => if id in metas then Ok(metas[id]) else Err(NoMeta)
    }

    function ReadPlan(projectId: string): (r: Result<string, Failure>)
      reads this`plans
      ensures r.Ok? ==> SafeIdOf(projectId).Some?
    {
      match SafeIdOf(projectId)
      case None => Err(BadProjectId)
      case Some(id) => if id in plans then Ok(plans[id]) else Err(NoPlan)
    }

    method CreateProject(projectId: string, title: string, source: Option<string>, requester: Option<string>,
                         parentTaskId: Option<string>, now: string)
      returns (r: Result<ProjectMeta, Failure>)
      modifies this`metas, this`plans
      ensures r.Ok? <==> SafeIdOf(projectId).Some? && SafeIdOf(projectId).value !in old(metas)
      ensures r.Ok? ==>
                var id := SafeIdOf(projectId).value;
                && r.value == ProjectMeta(id, title, ACTIVE, source, requester, parentTaskId, Some(now))
                && metas == old(metas)[id := r.value]
                && plans == old(plans)[id := InitialPlan(id, title, now)]
      ensures r.Err? ==> metas == old(metas) && plans == old(plans)
    {
      var safe := SafeIdOf(projectId);
      if safe.None? {
        return Err(BadProjectId);
      }
      if safe.value in metas {
        return Err(ProjectExists);
      }
      var meta := ProjectMeta(safe.value, title, ACTIVE, source, requester, parentTaskId, Some(now));
      metas := metas[safe.value := meta];
      plans := plans[safe.value := InitialPlan(safe.value, title, now)];
      return Ok(meta);
    }

    /** The plan gets the payloads' tasks, pending, beside the tasks it held. */
    method AddTasks(projectId: string, raws: seq<Payload>) returns (r: Result<seq<Task>, Failure>)
      modifies this`plans
      ensures r.Ok? <==>
              && old(ReadPlan(projectId)).Ok?
              && var parsed := ParseDagTasks(old(ReadPlan(projectId)).value);
              CanEnter(parsed, raws) && exists tasks :: WithPayloads(parsed, raws, tasks) && ValidDag(tasks)
      ensures r.Ok? ==>
                var plan := old(ReadPlan(projectId)).value;
                && WithPayloads(ParseDagTasks(plan), raws, r.value) && ValidDag(r.value)
                && plans == old(plans)[SafeIdOf(projectId).value := ReplaceDag(plan, r.value)]
      ensures r.Err? ==> plans == old(plans)
    {
      hide AddRawOne, ParseDagTasks, Scheduler.ToDict, ValidDag, ReplaceDag, SafeIdOf, CanEnter, WithPayloads;
      var read := ReadPlan(projectId);
      if read.Err? {
        return Err(read.error);
      }
      var plan := read.value;
      var existing := Scheduler.ToDict(ParseDagTasks(plan));
      var tasks, seen := existing, [];
      AddRawEnters(ParseDagTasks(plan), raws);
      for n := 0 to |raws|
        invariant AddRaw(existing, raws[..n]) == Ok((tasks, seen))
        invariant plans == old(plans)
      {
        assert raws[..n + 1][..n] == raws[..n];
        var one := AddRawOne(tasks, seen, raws[n]);
        assert AddRaw(existing, raws[..n + 1]) == one;
        if one.Err? {
          AddRawFails(existing, raws, n + 1);
          return Err(BadPayload(one.error));
        }
        tasks, seen := one.value.0, one.value.1;
      }
      assert raws[..|raws|] == raws;
      var valid, _, _ := ValidateDag(tasks);
      if valid.Err? {
        forall other | WithPayloads(ParseDagTasks(plan), raws, other) ensures !ValidDag(other) {
          WithPayloadsOnce(ParseDagTasks(plan), raws, tasks, other);
        }
        return Err(BadGraph(valid.error));
      }
      plans := plans[SafeIdOf(projectId).value := ReplaceDag(plan, tasks)];
      return Ok(tasks);
    }

    /** The graph gets the payload's shape; known tasks keep their status. */
    method PlanDag(projectId: string, raws: seq<Payload>) returns (r: Result<seq<Task>, Failure>)
      modifies this`plans
      ensures r.Ok? <==>
              && old(ReadPlan(projectId)).Ok? && CanReplan(raws)
              && var parsed := ParseDagTasks(old(ReadPlan(projectId)).value);
              exists tasks :: Replanned(parsed, raws, tasks) && ValidDag(tasks)
      ensures r.Ok? ==>
                var plan := old(ReadPlan(projectId)).value;
                && Replanned(ParseDagTasks(plan), raws, r.value) && ValidDag(r.value)
                && plans == old(plans)[SafeIdOf(projectId).value := ReplaceDag(plan, r.value)]
      ensures r.Err? ==> plans == old(plans)
    {
      hide ParseDagTasks, ValidDag, ReplaceDag, SafeIdOf, CanReplan, Replanned;
      var read := ReadPlan(projectId);
      if read.Err? {
        return Err(read.error);
      }
      var replanned := CollectPlan(ParseDagTasks(read.value), raws);
      if replanned.Err? {
        return Err(replanned.error);
      }
      plans := plans[SafeIdOf(projectId).value := ReplaceDag(read.value, replanned.value)];
      return replanned;
    }

    /** The loop that plan_dag and plan_loop share, with the graph check after it. */
    static method CollectPlan(known: seq<Task>, raws: seq<Payload>) returns (r: Result<seq<Task>, Failure>)
      ensures r.Ok? <==> CanReplan(raws) && exists tasks :: Replanned(known, raws, tasks) && ValidDag(tasks)
      ensures r.Ok? ==> Replanned(known, raws, r.value) && ValidDag(r.value)
      ensures r.Err? ==> r.error.BadPayload? || r.error.BadGraph?
    {
      hide ReplanOne, ValidDag, CanReplan, Replanned, Scheduler.ToDict;
      var existing := Scheduler.ToDict(known);
      var tasks := [];
      ReplanIs(known, raws);
      for n := 0 to |raws|
        invariant ReplanRaw(existing, raws[..n]) == Ok(tasks)
      {
        assert raws[..n + 1][..n] == raws[..n];
        var one := ReplanOne(existing, tasks, raws[n]);
        assert ReplanRaw(existing, raws[..n + 1]) == one;
        if one.Err? {
          ReplanFails(existing, raws, n + 1);
          return Err(BadPayload(one.error));
        }
        tasks := one.value;
      }
      assert raws[..|raws|] == raws;
      var valid, _, _ := ValidateDag(tasks);
      if valid.Err? {
        forall other | Replanned(known, raws, other) ensures !ValidDag(other) {
          ReplannedOnce(known, raws, tasks, other);
        }
        return Err(BadGraph(valid.error));
      }
      return Ok(tasks);
    }

    method PlanLoop(projectId: string, goal: string, stop: string, template: string, maxIterations: int, currentIteration: int,
                    status: string, raws: seq<Payload>)
      returns (r: Result<LoopPlan, Failure>)
      modifies this`plans
      ensures r.Err? ==> plans == old(plans)
      ensures r.Ok? <==>
              && 0 <= currentIteration <= maxIterations && 1 <= maxIterations
              && old(ReadPlan(projectId)).Ok?
              && ParseLoopPlan(old(ReadPlan(projectId)).value).Ok?
              && Lower(Strip(status)) in {"running", "waiting_results", "evaluating", "waiting_user", "completed", "blocked"}
              && CanReplan(raws)
              && var loop := ParseLoopPlan(old(ReadPlan(projectId)).value).value;
              var known := if loop.Some? then loop.value.tasks else ParseLoopTasks(old(ReadPlan(projectId)).value);
              exists tasks :: Replanned(known, raws, tasks) && ValidDag(tasks)
      ensures r.Ok? ==>
                var plan := old(ReadPlan(projectId)).value;
                var loop := ParseLoopPlan(plan).value;
                && r.value.goal == SingleLine(goal) && r.value.stopCondition == SingleLine(stop)
                && r.value.template == Strip(template)
                && r.value.maxIterations == maxIterations && r.value.currentIteration == currentIteration
                && r.value.status == Lower(Strip(status))
                && Replanned(if loop.Some? then loop.value.tasks else ParseLoopTasks(plan), raws, r.value.tasks)
                && ValidDag(r.value.tasks)
                && r.value.history == (if loop.Some? then loop.value.history else [])
                && plans == old(plans)[SafeIdOf(projectId).value := ReplaceLoop(plan, r.value)]
    {
      hide ParseLoopPlan, ParseLoopTasks, ValidDag, ReplaceLoop, SafeIdOf, SingleLine, Strip, Lower, IsLoopStatus, CanReplan, Replanned;
      LoopStatusIs(Lower(Strip(status)));
      if maxIterations < 1 || currentIteration < 0 || currentIteration > maxIterations {
        return Err(BadIteration);
      }
      var read := ReadPlan(projectId);
      if read.Err? {
        return Err(read.error);
      }
      var parsed := ParseLoopPlan(read.value);
      if parsed.Err? {
        return Err(BrokenLoop(parsed.error));
      }
      var (known, history) := LoopBefore(read.value);
      var replanned := CollectPlan(known, raws);
      if replanned.Err? {
        return Err(replanned.error);
      }
      var safe := SafeLoopStatus(status);
      if safe.None? {
        return Err(BrokenLoop(InvalidStatus));
      }
      var loop := LoopPlan(SingleLine(goal), SingleLine(stop), Strip(template), maxIterations, currentIteration, safe.value,
                           replanned.value, history);
      plans := plans[SafeIdOf(projectId).value := ReplaceLoop(read.value, loop)];
      return Ok(loop);
    }

    method ReadyNodes(projectId: string) returns (r: Result<seq<Task>, Failure>)
      ensures ReadMeta(projectId).Err? ==> r == Err(ReadMeta(projectId).error)
      ensures ReadMeta(projectId).Ok? && ReadMeta(projectId).value.status == PAUSED ==> r == Ok([])
      ensures ReadMeta(projectId).Ok? && ReadMeta(projectId).value.status != PAUSED ==>
                match ReadPlan(projectId)
                case Err(e) => r == Err(e)
                case Ok(plan) =>
                  if ParsePlanType(plan) != DagPlan then r == Err(NotADag)
                  else if ValidDag(ParseDagTasks(plan)) then r == Ok(Scheduler.Ready(ParseDagTasks(plan)))
                  else r.Err? && r.error.BadGraph?
    {
      hide ParseDagTasks, ParsePlanType, ValidDag, SafeIdOf, Scheduler.Ready;
      var meta := ReadMeta(projectId);
      if meta.Err? {
        return Err(meta.error);
      }
      if meta.value.status == PAUSED {
        return Ok([]);
      }
      var plan := ReadPlan(projectId);
      if plan.Err? {
        return Err(plan.error);
      }
      if ParsePlanType(plan.value) != DagPlan {
        return Err(NotADag);
      }
      var tasks := ParseDagTasks(plan.value);
      var valid, _, _ := ValidateDag(tasks);
      if valid.Err? {
        return Err(BadGraph(valid.error));
      }
      return Ok(Scheduler.Ready(tasks));
    }

    method ReadyLoopNodes(projectId: string) returns (r: Result<seq<Task>, Failure>)
      ensures ReadMeta(projectId).Err? ==> r == Err(ReadMeta(projectId).error)
      ensures ReadMeta(projectId).Ok? && ReadMeta(projectId).value.status == PAUSED ==> r == Ok([])
      ensures ReadMeta(projectId).Ok? && ReadMeta(projectId).value.status != PAUSED ==>
                match ReadPlan(projectId)
                case Err(e) => r == Err(e)
                case Ok(plan) =>
                  match ParseLoopPlan(plan)
                  case Err(e) => r == Err(BrokenLoop(e))
                  case Ok(None) => r == Err(NotALoop)
                  case Ok(Some(loop)) =>
                    if LoopStands(loop) || ValidDag(loop.tasks) then r == Ok(ReadyInLoop(loop))
                    else r.Err? && r.error.BadGraph?
    {
      hide ParseLoopPlan, ValidDag, SafeIdOf, Scheduler.Ready;
      var meta := ReadMeta(projectId);
      if meta.Err? {
        return Err(meta.error);
      }
      if meta.value.status == PAUSED {
        return Ok([]);
      }
      var plan := ReadPlan(projectId);
      if plan.Err? {
        return Err(plan.error);
      }
      var parsed := ParseLoopPlan(plan.value);
      if parsed.Err? {
        return Err(BrokenLoop(parsed.error));
      }
      if parsed.value.None? {
        return Err(NotALoop);
      }
      var loop := parsed.value.value;
      if LoopStands(loop) {
        return Ok([]);
      }
      var valid, _, _ := ValidateDag(loop.tasks);
      if valid.Err? {
        return Err(BadGraph(valid.error));
      }
      return Ok(Scheduler.Ready(loop.tasks));
    }

    /** The tasks that delegate_task looks at. */
    static function DelegableTasks(plan: string): seq<Task> {
      if ParsePlanType(plan) == LoopKind then ParseLoopTasks(plan) else ParseDagTasks(plan)
    }

    /** Everything that must hold before anything is written. */
    predicate MayDelegate(projectId: string, taskId: string, spec: string)
      reads this`metas, this`plans
    {
      && Strip(spec) != []
      && ReadMeta(projectId).Ok? && ReadMeta(projectId).value.status != PAUSED
      && ReadPlan(projectId).Ok?
      && SafeIdOf(taskId).Some?
      && Scheduler.Delegate(DelegableTasks(ReadPlan(projectId).value), SafeIdOf(taskId).value).Ok?
    }

    /** A loop plan that cannot be parsed is only noticed after the task's own files are
        written; in every other failure nothing changes. */
    method DelegateTask(projectId: string, taskId: string, spec: string, roomId: Option<string>, now: string)
      returns (r: Result<TaskMeta, Failure>)
      modifies this`plans, this`taskMetas, this`specs
      ensures !old(MayDelegate(projectId, taskId, spec)) ==>
                r.Err? && plans == old(plans) && taskMetas == old(taskMetas) && specs == old(specs)
      ensures old(MayDelegate(projectId, taskId, spec)) ==>
                var id, plan := SafeIdOf(taskId).value, old(ReadPlan(projectId)).value;
                var tasks := DelegableTasks(plan);
                var k := Scheduler.IndexOf(tasks, id);
                k < |tasks| &&
                var handed := Scheduler.Delegate(tasks, id).value;
                var meta := TaskMeta(id, projectId, tasks[k].title, CanonicalWorkerId(tasks[k].assignedTo), roomId, tasks[k].dependsOn, now);
                && taskMetas == old(taskMetas)[id := meta] && specs == old(specs)[id := spec]
                && (if ParsePlanType(plan) == LoopKind then
                      match ParseLoopPlan(plan)
                      case Err(e) => r == Err(BrokenLoop(e)) && plans == old(plans)
                      case Ok(loop) =>
                        && loop.Some? && r == Ok(meta)
                        && plans == old(plans)[SafeIdOf(projectId).value := ReplaceLoop(plan, loop.value.(tasks := handed))]
                    else
                      r == Ok(meta) && plans == old(plans)[SafeIdOf(projectId).value := ReplaceDag(plan, handed)])
    {
      hide ParsePlanType, ParseLoopPlan, SafeIdOf, Strip, ReplaceDag, ReplaceLoop, Scheduler.Delegate, Scheduler.IndexOf, DelegableTasks,
        CanonicalWorkerId;
      if Strip(spec) == [] {
        return Err(NoSpec);
      }
      var project := ReadMeta(projectId);
      if project.Err? {
        return Err(project.error);
      }
      if project.value.status == PAUSED {
        return Err(PausedProject);
      }
      var read := ReadPlan(projectId);
      if read.Err? {
        return Err(read.error);
      }
      var plan := read.value;
      var tasks := DelegableTasks(plan);
      var safe := SafeIdOf(taskId);
      if safe.None? {
        return Err(BadTaskId);
      }
      var handed := Scheduler.Delegate(tasks, safe.value);
      if handed.Err? {
        return Err(NotDelegable(handed.error));
      }
      DelegatedTask(tasks, safe.value);
      var task := tasks[Scheduler.IndexOf(tasks, safe.value)];
      var meta := TaskMeta(task.taskId, projectId, task.title, CanonicalWorkerId(task.assignedTo), roomId, task.dependsOn, now);
      taskMetas := taskMetas[task.taskId := meta];
      specs := specs[task.taskId := spec];
      if ParsePlanType(plan) == LoopKind {
        var parsed := ParseLoopPlan(plan);
        if parsed.Err? {
          return Err(BrokenLoop(parsed.error));
        }
        LoopPlanPresent(plan);
        plans := plans[SafeIdOf(projectId).value := ReplaceLoop(plan, parsed.value.value.(tasks := handed.value))];
      } else {
        plans := plans[SafeIdOf(projectId).value := ReplaceDag(plan, handed.value)];
      }
      return Ok(meta);
    }

    method SetProjectStatus(projectId: string, status: string) returns (r: Result<ProjectMeta, Failure>)
      modifies this`metas
      ensures r.Ok? <==> old(ReadMeta(projectId)).Ok?
      ensures r.Ok? ==> r.value == old(ReadMeta(projectId)).value.(status := status)
      ensures r.Ok? ==> metas == old(metas)[SafeIdOf(projectId).value := r.value]
      ensures r.Err? ==> metas == old(metas)
    {
      hide SafeIdOf;
      var meta := ReadMeta(projectId);
      if meta.Err? {
        return Err(meta.error);
      }
      var updated := meta.value.(status := status);
      metas := metas[SafeIdOf(projectId).value := updated];
      return Ok(updated);
    }

    method PauseProject(projectId: string) returns (r: Result<ProjectMeta, Failure>)
      modifies this`metas
      ensures r.Ok? <==> old(ReadMeta(projectId)).Ok?
      ensures r.Ok? ==> metas == old(metas)[SafeIdOf(projectId).value := old(ReadMeta(projectId)).value.(status := PAUSED)]
      ensures r.Err? ==> metas == old(metas)
    {
      r := SetProjectStatus(projectId, PAUSED);
    }

    method ResumeProject(projectId: string) returns (r: Result<ProjectMeta, Failure>)
      modifies this`metas
      ensures r.Ok? <==> old(ReadMeta(projectId)).Ok?
      ensures r.Ok? ==> metas == old(metas)[SafeIdOf(projectId).value := old(ReadMeta(projectId)).value.(status := ACTIVE)]
      ensures r.Err? ==> metas == old(metas)
    {
      r := SetProjectStatus(projectId, ACTIVE);
    }

    method RecordLoopIteration(projectId: string, iteration: int, decision: string, summary: string, next: Option<string>)
      returns (r: Result<LoopPlan, Failure>)
      modifies this`plans
      ensures r.Err? ==> plans == old(plans)
      ensures r.Ok? <==>
              && iteration >= 1
              && old(ReadPlan(projectId)).Ok?
              && ParseLoopPlan(old(ReadPlan(projectId)).value).Ok?
              && ParseLoopPlan(old(ReadPlan(projectId)).value).value.Some?
              && iteration <= ParseLoopPlan(old(ReadPlan(projectId)).value).value.value.maxIterations
              && Lower(Strip(decision)) in {"continue", "replan", "ask_user", "stop_success", "stop_blocked"}
      ensures r.Ok? ==>
                var plan := old(ReadPlan(projectId)).value;
                var loop, text := ParseLoopPlan(plan).value.value, Lower(Strip(decision));
                && r.value.status == (if text == "continue" || text == "replan" then "running"
                                      else if text == "ask_user" then "waiting_user"
                                      else if text == "stop_success" then "completed"
                                      else "blocked")
                && r.value.currentIteration == (if iteration > loop.currentIteration then iteration else loop.currentIteration)
                && r.value.history ==
                   loop.history + ["Iteration " + NatToString(iteration) + ": " + text + " " + DASH + " " + SingleLine(summary)
                                   + if next.Some? && Strip(next.value) != "" then " Next: " + SingleLine(next.value) else ""]
                && r.value == loop.(currentIteration := r.value.currentIteration, status := r.value.status, history := r.value.history)
                && plans == old(plans)[SafeIdOf(projectId).value := ReplaceLoop(plan, r.value)]
    {
      hide ParseLoopPlan, SafeIdOf, ReplaceLoop, DecisionOf, Lower, Strip, SingleLine, NatToString, DecisionName, StatusAfter;
      DecisionIs(decision);
      if iteration < 1 {
        return Err(BadIteration);
      }
      var read := ReadPlan(projectId);
      if read.Err? {
        return Err(read.error);
      }
      var parsed := ParseLoopPlan(read.value);
      if parsed.Err? {
        return Err(BrokenLoop(parsed.error));
      }
      if parsed.value.None? {
        return Err(NotALoop);
      }
      var loop := parsed.value.value;
      if iteration > loop.maxIterations {
        return Err(BadIteration);
      }
      var safe := DecisionOf(decision);
      if safe.None? {
        return Err(BadDecision);
      }
      var updated := Recorded(loop, Record(iteration, safe.value, summary, next));
      plans := plans[SafeIdOf(projectId).value := ReplaceLoop(read.value, updated)];
      return Ok(updated);
    }

    // ------------------------------------------------------------------------
    // The store and the runs of the stored text
    // ------------------------------------------------------------------------

    predicate Known(projectId: string)
      reads this`metas, this`plans
    {
      ReadMeta(projectId).Ok? && ReadPlan(projectId).Ok?
    }

    /** What the store holds of a project that matters to its task graph. */
    function ProjectOf(projectId: string): Project
      requires Known(projectId)
      reads this`metas, this`plans
    {
      Project(ReadPlan(projectId).value, ReadMeta(projectId).value.status == PAUSED)
    }

    /** On the plan of a valid graph, delegation is allowed exactly for the nodes that ready_nodes
        answers with. */
    lemma MayDelegateIffReady(projectId: string, taskId: string, spec: string)
      requires Known(projectId) && !ProjectOf(projectId).paused
      requires ParsePlanType(ProjectOf(projectId).plan) == DagPlan && ValidDag(ParseDagTasks(ProjectOf(projectId).plan))
      ensures MayDelegate(projectId, taskId, spec) <==>
              && Strip(spec) != [] && SafeIdOf(taskId).Some?
              && SafeIdOf(taskId).value in Ids(Scheduler.Ready(ParseDagTasks(ProjectOf(projectId).plan)))
    {
      hide ParsePlanType, ParseDagTasks, SafeIdOf, Strip, ValidDag, Scheduler.Ready, Scheduler.Delegate;
      var tasks := ParseDagTasks(ProjectOf(projectId).plan);
      Scheduler.ValidHasDistinct(tasks);
      if SafeIdOf(taskId).Some? {
        Scheduler.DelegateIffReady(tasks, SafeIdOf(taskId).value);
      }
    }

    /** On a tidy plan of a valid graph: what is handed out stood among the ready nodes, and these
        are afterwards the same ones without it. */
    method ReadyDelegateReady(projectId: string, taskId: string, spec: string, roomId: Option<string>, now: string)
      returns (before: Result<seq<Task>, Failure>, r: Result<TaskMeta, Failure>, after: Result<seq<Task>, Failure>)
      requires Known(projectId) && !ProjectOf(projectId).paused
      requires Tidy(ProjectOf(projectId).plan) && ValidDag(ParseDagTasks(ProjectOf(projectId).plan))
      modifies this`plans, this`taskMetas, this`specs
      ensures before.Ok? && after.Ok?
      ensures r.Ok? <==> Strip(spec) != [] && SafeIdOf(taskId).Some? && SafeIdOf(taskId).value in Ids(before.value)
      ensures after.value == if r.Ok? then Scheduler.WithoutId(before.value, SafeIdOf(taskId).value) else before.value
    {
      hide ParsePlanType, ParseDagTasks, SafeIdOf, Strip, ValidDag, Scheduler.Ready, Scheduler.Delegate, TidyAround, AllStorable, ReplaceDag,
        ReplaceLoop, ParseLoopPlan, CanonicalWorkerId;
      ghost var s, tasks := ProjectOf(projectId), ParseDagTasks(ProjectOf(projectId).plan);
      before := ReadyNodes(projectId);
      MayDelegateIffReady(projectId, taskId, spec);
      r := DelegateTask(projectId, taskId, spec, roomId, now);
      if r.Ok? {
        ghost var id := SafeIdOf(taskId).value;
        TidyParts(s.plan);
        HandedStorable(tasks, id);
        DelegateSets(tasks, id);
        RewriteTidy(s.plan, Scheduler.Delegate(tasks, id).value);
        Scheduler.DelegateEffect(tasks, id);
      }
      after := ReadyNodes(projectId);
    }

    /** On a tidy plan of a valid graph: when the added tasks can be stored, ready_nodes answers
        afterwards with an added task exactly when each dependency that its payload names is the id
        of a completed task. */
    method AddThenReady(projectId: string, raws: seq<Payload>)
      returns (added: Result<seq<Task>, Failure>, ready: Result<seq<Task>, Failure>)
      requires Known(projectId) && !ProjectOf(projectId).paused && StorablePayloads(raws)
      requires Tidy(ProjectOf(projectId).plan) && ValidDag(ParseDagTasks(ProjectOf(projectId).plan))
      modifies this`plans
      ensures ready.Ok?
      ensures added.Ok? ==>
                forall i :: 0 <= i < |raws| ==>
                  (Strip(raws[i].taskId) in Ids(ready.value) <==> NamesCompleted(raws[i], added.value))
    {
      hide ParsePlanType, ParseDagTasks, SafeIdOf, Strip, ValidDag, Scheduler.Ready, TidyAround, AllStorable, ReplaceDag, AddRaw,
        Scheduler.ToDict, WithPayloads, Acceptable, StorablePayloads, Distinct, NamesCompleted;
      ghost var s, parsed := ProjectOf(projectId), ParseDagTasks(ProjectOf(projectId).plan);
      AddRawEnters(parsed, raws);
      added := AddTasks(projectId, raws);
      if added.Ok? {
        ghost var final := AddRaw(Scheduler.ToDict(parsed), raws).value.0;
        WithPayloadsOnce(parsed, raws, added.value, final);
        AddIsReadBack(s, raws, s.(plan := ReplaceDag(s.plan, final)));
        Scheduler.ValidHasDistinct(added.value);
        AcceptableHasList(raws);
        forall i | 0 <= i < |raws|
          ensures Strip(raws[i].taskId) in Ids(Scheduler.Ready(added.value)) <==> NamesCompleted(raws[i], added.value)
        {
          PayloadReady(parsed, raws, added.value, i);
        }
      }
      ready := ReadyNodes(projectId);
    }

    /** On a loop plan of a valid graph of storable tasks: a decision that stops the loop leaves
        nothing ready; one that goes on leaves exactly the pending tasks all of whose dependencies are
        completed. */
    method RecordThenReady(projectId: string, iteration: int, decision: string, summary: string, next: Option<string>)
      returns (recorded: Result<LoopPlan, Failure>, ready: Result<seq<Task>, Failure>)
      requires Known(projectId) && !ProjectOf(projectId).paused && CleanForLoop(PlanPrefix(ProjectOf(projectId).plan))
      requires ParseLoopPlan(ProjectOf(projectId).plan).Ok? && ParseLoopPlan(ProjectOf(projectId).plan).value.Some?
      requires var loop := ParseLoopPlan(ProjectOf(projectId).plan).value.value;
               QuietTemplate(loop) && AllStorable(loop.tasks) && ValidDag(loop.tasks)
      modifies this`plans
      ensures ready.Ok?
      ensures recorded.Ok? ==>
                var text, tasks := Lower(Strip(decision)), old(ParseLoopPlan(ProjectOf(projectId).plan).value.value.tasks);
                && (text in {"ask_user", "stop_success", "stop_blocked"} ==> ready.value == [])
                && (text in {"continue", "replan"} ==>
                      forall t :: t in ready.value <==>
                        && t in tasks && t.status == Pending
                        && forall d :: d in t.dependsOn ==> exists u :: u in tasks && u.taskId == d && u.status == Completed)
    {
      hide ParseLoopPlan, SafeIdOf, Strip, Lower, ValidDag, AllStorable, ReplaceLoop, CleanForLoop, PlanPrefix, QuietTemplate, SingleLine,
        NatToString, DASH;
      ghost var plan := ProjectOf(projectId).plan;
      ghost var loop := ParseLoopPlan(plan).value.value;
      recorded := RecordLoopIteration(projectId, iteration, decision, summary, next);
      if recorded.Ok? {
        HistoryBefore(plan);
        RecordedIsPlain(loop, recorded.value, iteration, decision, summary, next);
        SameTemplateQuiet(loop, recorded.value);
        WrittenLoopIsRead(plan, recorded.value);
      }
      ready := ReadyLoopNodes(projectId);
      ReadyHas(loop.tasks);
    }

    /** One call, as an operation on the stored text. */
    method Perform(projectId: string, op: Operation, spec: string, roomId: Option<string>, now: string) returns (ok: bool)
      requires Known(projectId) && !op.Leader? && Strip(spec) != []
      requires ParsePlanType(ProjectOf(projectId).plan) == DagPlan
      modifies this
      ensures Known(projectId)
      ensures ok ==> Stored(old(ProjectOf(projectId)), op, ProjectOf(projectId))
      ensures !ok ==> ProjectOf(projectId) == old(ProjectOf(projectId))
    {
      hide ParsePlanType, ParseDagTasks, SafeIdOf, Strip, ValidDag, Scheduler.Delegate, ReplaceDag, ReplaceLoop, ParseLoopPlan,
        CanonicalWorkerId, AddRaw, Scheduler.ToDict, WithPayloads, CanEnter;
      match op {
        case AddTasks(raws) =>
          ghost var parsed := ParseDagTasks(ProjectOf(projectId).plan);
          AddRawEnters(parsed, raws);
          var r := AddTasks(projectId, raws);
          ok := r.Ok?;
          if ok {
            WithPayloadsOnce(parsed, raws, r.value, AddRaw(Scheduler.ToDict(parsed), raws).value.0);
          }
        case DelegateTask(taskId) =>
          var r := DelegateTask(projectId, taskId, spec, roomId, now);
          ok := r.Ok?;
        case Pause =>
          var r := PauseProject(projectId);
          ok := r.Ok?;
        case Resume =>
          var r := ResumeProject(projectId);
          ok := r.Ok?;
      }
    }

    /** A new project and any calls on it: those that succeed are a run on the stored text, so that
        ready_nodes finds a valid graph at the end, if every added task is storable. */
    method PerformAll(projectId: string, title: string, createdAt: string, ops: seq<Operation>, spec: string, now: string)
      returns (created: Result<ProjectMeta, Failure>, states: seq<Project>, done: seq<Operation>)
      requires HeaderLines(TitleLines(title)) && OneLine(createdAt) && Strip(spec) != []
      requires forall i :: 0 <= i < |ops| ==> !ops[i].Leader? && StorableOperation(ops[i])
      modifies this
      ensures created.Ok? ==>
                && Known(projectId) && |states| > 0 && states[|states| - 1] == ProjectOf(projectId)
                && states[0] == Project(InitialPlan(SafeIdOf(projectId).value, title, createdAt), false)
                && IsStoredRun(states, done) && (forall op :: op in done ==> op in ops)
                && ValidDag(ParseDagTasks(ProjectOf(projectId).plan))
    {
      hide ParsePlanType, ParseDagTasks, Strip, ValidDag, InitialPlan, HeaderLines, OneLine, Stored, TidyAround, AllStorable,
        StorableOperation, SafeIdOf, TitleLines, PAUSED, ACTIVE;
      created := CreateProject(projectId, title, None, None, None, createdAt);
      states, done := [], [];
      if created.Ok? {
        ghost var id := SafeIdOf(projectId).value;
        IdIsOneLine(projectId);
        NewIsActive();
        states := [ProjectOf(projectId)];
        RunIsTidy(id, title, createdAt, states, done);
        for n := 0 to |ops|
          invariant Known(projectId) && |states| > 0 && states[|states| - 1] == ProjectOf(projectId)
          invariant states[0] == Project(InitialPlan(id, title, createdAt), false)
          invariant IsStoredRun(states, done) && (forall op :: op in done ==> op in ops)
          invariant forall i :: 0 <= i < |done| ==> StorableOperation(done[i])
          invariant ParsePlanType(ProjectOf(projectId).plan) == DagPlan && ValidDag(ParseDagTasks(ProjectOf(projectId).plan))
        {
          var ok := Perform(projectId, ops[n], spec, None, now);
          if ok {
            states, done := states + [ProjectOf(projectId)], done + [ops[n]];
            RunIsTidy(id, title, createdAt, states, done);
          }
        }
      }
    }
  }

  lemma IdIsOneLine(value: string)
    requires SafeIdOf(value).Some?
    ensures OneLine(SafeIdOf(value).value)
  {
    SafeIdIsPlain(SafeIdOf(value).value);
  }

  lemma NewIsActive()
    ensures ACTIVE != PAUSED
  {
    assert ACTIVE[0] == 'a' && PAUSED[0] == 'p';
  }

  lemma RunIsTidy(id: string, title: string, createdAt: string, states: seq<Project>, done: seq<Operation>)
    requires HeaderLines(TitleLines(title)) && OneLine(id) && OneLine(createdAt)
    requires IsStoredRun(states, done) && states[0].plan == InitialPlan(id, title, createdAt)
    requires forall i :: 0 <= i < |done| ==> StorableOperation(done[i])
    ensures ParsePlanType(states[|states| - 1].plan) == DagPlan && ValidDag(ParseDagTasks(states[|states| - 1].plan))
  {
    hide TidyAround, AllStorable, ParsePlanType, ParseDagTasks, ValidDag, InitialPlan, HeaderLines, OneLine, Stored, StorableOperation,
      TitleLines;
    RunStaysTidy(id, title, createdAt, states, done, |states| - 1);
  }

  lemma AcceptableHasList(raws: seq<Payload>)
    requires forall i :: 0 <= i < |raws| ==> Acceptable(raws[i])
    ensures forall i :: 0 <= i < |raws| ==> raws[i].dependsOn.Some?
  {
  }

  /** The recorded loop is one that the text can hold line by line, and its status decides whether
      it stands. */
  lemma RecordedIsPlain(loop: LoopPlan, r: LoopPlan, iteration: nat, decision: string, summary: string, next: Option<string>)
    requires AllOneLine(loop.history) && Lower(Strip(decision)) in DECISIONS
    requires r.history == loop.history + ["Iteration " + NatToString(iteration) + ": " + Lower(Strip(decision)) + " " + DASH + " "
                                          + SingleLine(summary)
                                          + if next.Some? && Strip(next.value) != "" then " Next: " + SingleLine(next.value) else ""]
    requires var text := Lower(Strip(decision));
             r.status == (if text == "continue" || text == "replan" then "running"
                          else if text == "ask_user" then "waiting_user"
                          else if text == "stop_success" then "completed"
                          else "blocked")
    ensures PlainLoop(r) && IsLoopStatus(r.status)
    ensures LoopStands(r) <==> Lower(Strip(decision)) !in {"continue", "replan"}
  {
    hide Lower, Strip, SingleLine, NatToString, DASH, OneLine, Detail, StatusAfter, DecisionOf, IsLoopStatus;
    DecisionIs(decision);
    var rec := Record(iteration, DecisionOf(decision).value, summary, next);
    DetailText(rec, Lower(Strip(decision)));
    DetailStays(rec);
    StandingStatuses();
    StatusAfterIsStatus(rec.decision);
    StatusReread(r.status);
    assert r.history[|loop.history|] == Detail(rec);
  }

  lemma DetailText(rec: Record, text: string)
    requires DecisionName(rec.decision) == text
    ensures Detail(rec) == "Iteration " + NatToString(rec.iteration) + ": " + text + " " + DASH + " " + SingleLine(rec.summary)
                           + if rec.next.Some? && Strip(rec.next.value) != "" then " Next: " + SingleLine(rec.next.value) else ""
  {
    hide NatToString, SingleLine, Strip, DASH, DecisionName;
  }

  lemma StandingStatuses()
    ensures "running" != "completed" && "running" != "blocked" && "running" != "waiting_user"
  {
    assert "running"[0] == 'r' && "waiting_user"[0] == 'w' && "completed"[0] == 'c' && "blocked"[0] == 'b';
  }

  lemma WrittenLoopIsRead(plan: string, loop: LoopPlan)
    requires CleanForLoop(PlanPrefix(plan)) && QuietTemplate(loop) && AllStorable(loop.tasks)
    requires PlainLoop(loop) && IsLoopStatus(loop.status)
    ensures var p := ParseLoopPlan(ReplaceLoop(plan, loop));
            p.Ok? && p.value.Some? && p.value.value.tasks == loop.tasks && p.value.value.status == loop.status
  {
    hide CleanForLoop, PlanPrefix, ParseLoopPlan, ReplaceLoop, SingleLine, AllStorable, AllReadable, OneLineTasks, AllFromPayload,
      IsLoopStatus, PlainLoop, HeadingIndex, TemplateLines, NoSection, Lacks, QuietTasks, CURRENT_HEADING, HISTORY_HEADING, CurrentPart,
      CollectTasks, NormalTemplate, HistoryAsRead, ParseLoopTasks, ParsePlanType;
    StorableParts(loop.tasks);
    OneLineTasksQuiet(loop.tasks);
    HeadingIndexIs(TemplateLines(loop), CURRENT_HEADING);
    TasksKeptIff(loop);
    LoopReread(plan, loop);
  }

  lemma ReadyHas(tasks: seq<Task>)
    ensures forall t :: t in Scheduler.Ready(tasks) <==>
              && t in tasks && t.status == Pending
              && forall d :: d in t.dependsOn ==> exists u :: u in tasks && u.taskId == d && u.status == Completed
  {
    hide Scheduler.ReadyAmong;
    CompletedIds(tasks);
    hide Scheduler.Effective;
    forall t ensures t in Scheduler.Ready(tasks) <==>
              && t in tasks && t.status == Pending
              && forall d :: d in t.dependsOn ==> exists u :: u in tasks && u.taskId == d && u.status == Completed
    {
      Scheduler.ReadyAmongHas(tasks, Scheduler.Effective(tasks), t);
    }
  }

  lemma {:induction false} AddRawFails(existing: seq<Task>, raws: seq<Payload>, n: nat)
    requires n <= |raws| && AddRaw(existing, raws[..n]).Err?
    ensures AddRaw(existing, raws).Err?
    decreases |raws| - n
  {
    hide AddRawOne;
    if n == |raws| {
      assert raws[..n] == raws;
    } else {
      assert raws[..n + 1][..n] == raws[..n];
      AddRawFails(existing, raws, n + 1);
    }
  }

  lemma {:induction false} ReplanFails(existing: seq<Task>, raws: seq<Payload>, n: nat)
    requires n <= |raws| && ReplanRaw(existing, raws[..n]).Err?
    ensures ReplanRaw(existing, raws).Err?
    decreases |raws| - n
  {
    hide ReplanOne;
    if n == |raws| {
      assert raws[..n] == raws;
    } else {
      assert raws[..n + 1][..n] == raws[..n];
      ReplanFails(existing, raws, n + 1);
    }
  }
}
