/** The Markdown project plan: reading and rewriting its managed section
    (parse_*, replace_dag_tasks, replace_loop_plan in copaw/src/copaw_worker/task.py). */
module PlanText {
  import opened Text
  import opened Dag
  import opened TaskLine

  const DAG_HEADING := "## DAG Task Plan"
  const LOOP_HEADING := "## Loop Plan"
  const TEMPLATE_HEADING := "## Iteration Template"
  const CURRENT_HEADING := "## Current Iteration"
  const HISTORY_HEADING := "## Iteration History"
  const SECTION := "## "
  const PLAN_TYPE := "**Plan Type**:"
  const DAG_TYPE := "**Plan Type**: dag"
  const LOOP_TYPE := "**Plan Type**: loop"
  const LOOP_STATUS := "**Loop Status**:"
  const ITERATION := "**Iteration**:"
  const GOAL := "**Goal**:"
  const STOP := "**Stop Condition**:"

  datatype LoopPlan = LoopPlan(
    goal: string,
    stopCondition: string,
    template: string,
    maxIterations: nat,
    currentIteration: nat,
    status: string,
    tasks: seq<Task>,
    history: seq<string>)

  datatype LoopError = InvalidIteration | InvalidStatus

  datatype PlanType = DagPlan | LoopKind

  // --------------------------------------------------------------------------
  // Small texts: single lines, numbers, lower case
  // --------------------------------------------------------------------------

  /** re.sub(r"\s+", " ", s) */
  function Collapse(s: string): string
    decreases |s|
  {
    if s == [] then []
    else if IsSpace(s[0]) then " " + Collapse(StripLeft(s[1..]))
    else [s[0]] + Collapse(s[1..])
  }

  /** _single_line */
  function SingleLine(s: string): string {
    Strip(Collapse(s))
  }

  /** The longest stretches of a text without white space, in order. */
  function Words(s: string): seq<string>
    decreases |s|
  {
    var t := StripLeft(s);
    if t == [] then []
    else
      var k := FirstIndex(t, IsSpace);
      [t[..k]] + Words(t[k..])
  }

  /** A text on a single line is its words with one space between each two. */
  lemma SingleLineIs(s: string)
    ensures SingleLine(s) == Join(Words(s), " ")
  {
    assert IsSpace(' ');
    hide IsSpace, FirstIndex;
    var t := StripLeft(s);
    if t != [] {
      CollapsedWords(t);
      SameWords(s, t);
      TrimLeftIs(if IsSpace(s[0]) then " " else "", Collapse(t), IsSpace);
      assert Collapse(s) == (if IsSpace(s[0]) then " " else "") + Collapse(t);
    } else if s != [] {
      assert IsSpace(s[0]) && StripLeft(s[1..]) == [];
      assert Collapse(s) == " ";
      TrimAllOf(" ", IsSpace);
    }
  }

  lemma {:induction false} CollapsedWords(t: string)
    requires t != [] && !IsSpace(t[0])
    ensures Collapse(t) != [] && Collapse(t)[0] == t[0] && StripRight(Collapse(t)) == Join(Words(t), " ")
    decreases |t|
  {
    assert IsSpace(' ');
    hide IsSpace;
    var k := FirstIndex(t, IsSpace);
    var w, r := t[..k], t[k..];
    assert t == w + r && k > 0;
    CollapseWord(w, r);
    WordsStep(t);
    hide FirstIndex;
    if r == [] {
      assert w + Collapse(r) == w && Words(r) == [];
      TrimmedStays(w, IsSpace);
    } else {
      var u := StripLeft(r);
      assert u == StripLeft(r[1..]) && Collapse(r) == " " + Collapse(u);
      if u == [] {
        assert Collapse(u) == [] && Words(r) == [];
        TrimRightIs(w, " ", IsSpace);
      } else {
        CollapsedWords(u);
        SameWords(r, u);
        assert Collapse(t) == (w + " ") + Collapse(u);
        hide Collapse, Words;
        TrimRightConcat(w + " ", Collapse(u), IsSpace);
        assert Words(t)[1..] == Words(u);
      }
    }
  }

  lemma SameWords(s: string, t: string)
    requires t == StripLeft(s) && t != []
    ensures !IsSpace(t[0]) && Words(t) == Words(s) != []
  {
    hide IsSpace, FirstIndex;
  }

  lemma WordsStep(t: string)
    requires t != [] && !IsSpace(t[0])
    ensures var k := FirstIndex(t, IsSpace); Words(t) == [t[..k]] + Words(t[k..])
  {
    hide IsSpace, FirstIndex;
  }

  lemma {:induction false} CollapseWord(w: string, r: string)
    requires NoneOf(w, IsSpace)
    ensures Collapse(w + r) == w + Collapse(r)
  {
    hide IsSpace;
    if w == [] {
      assert w + r == r;
    } else {
      assert (w + r)[1..] == w[1..] + r && (w + r)[0] == w[0];
      CollapseWord(w[1..], r);
    }
  }

  predicate IsDigit(c: char) {
    '0' <= c <= '9'
  }

  predicate NotDigit(c: char) {
    !IsDigit(c)
  }

  function Digit(n: nat): char
    requires n < 10
  {
    '0' + n as char
  }

  function NatToString(n: nat): string {
    if n < 10 then [Digit(n)] else NatToString(n / 10) + [Digit(n % 10)]
  }

  function ParseNat(s: string): nat
    requires AllOf(s, IsDigit)
  {
    if s == [] then 0
    else
      assert IsDigit(s[|s| - 1]);
      10 * ParseNat(s[..|s| - 1]) + (s[|s| - 1] as int - '0' as int)
  }

  /** str.lower() as far as it can produce an ASCII letter: besides the capital letters only
      the Kelvin sign does. */
  function LowerChar(c: char): char {
    if 'A' <= c <= 'Z' then c + 32 as char else if c == '\U{212A}' then 'k' else c
  }

  function Lower(s: string): string {
    seq(|s|, i requires 0 <= i < |s| => LowerChar(s[i]))
  }

  /** A text is a word in lower case exactly when it is this word in any case. */
  lemma LowerIff(s: string, word: string)
    requires forall c :: c in word ==> 'a' <= c <= 'z' || c == '_'
    ensures Lower(s) == word <==>
            && |s| == |word|
            && forall i :: 0 <= i < |s| ==>
                 s[i] == word[i] || (word[i] != '_' && s[i] as int + 32 == word[i] as int) || (word[i] == 'k' && s[i] == '\U{212A}')
  {
    assert forall i :: 0 <= i < |word| ==> word[i] in word;
    assert |s| == |word| ==> (Lower(s) == word <==> forall i :: 0 <= i < |s| ==> LowerChar(s[i]) == word[i]);
  }

  // --------------------------------------------------------------------------
  // Reading
  // --------------------------------------------------------------------------

  predicate IsSection(line: string) {
    StartsWith(line, SECTION)
  }

  /** The headings the rewriter owns. */
  predicate IsManagedHeading(line: string) {
    var h := Strip(line);
    h == DAG_HEADING || h == LOOP_HEADING || h == TEMPLATE_HEADING || h == CURRENT_HEADING || h == HISTORY_HEADING
  }

  predicate IsForeign(line: string) {
    IsSection(line) && !IsManagedHeading(line)
  }

  predicate IsExecutionHeading(line: string) {
    Strip(line) == DAG_HEADING || Strip(line) == LOOP_HEADING
  }

  /** _heading_index, with |lines| for None. */
  function HeadingIndex(lines: seq<string>, heading: string): (k: nat)
    ensures k <= |lines|
  {
    FirstIndex(lines, line => Strip(line) == heading)
  }

  /** _execution_heading_index: the smaller of the two heading positions. */
  function ExecutionIndex(lines: seq<string>): (k: nat)
    ensures k <= |lines|
  {
    var dag, loop := HeadingIndex(lines, DAG_HEADING), HeadingIndex(lines, LOOP_HEADING);
    if dag < loop then dag else loop
  }

  /** The first foreign section heading after position h. */
  function SuffixIndex(lines: seq<string>, h: nat): (k: nat)
    ensures k <= |lines|
  {
    if h < |lines| then h + 1 + FirstIndex(lines[h + 1..], IsForeign) else |lines|
  }

  /** What a rewrite must not touch. */
  function PrefixOf(lines: seq<string>): seq<string> {
    lines[..ExecutionIndex(lines)]
  }

  function SuffixOf(lines: seq<string>): seq<string> {
    lines[SuffixIndex(lines, ExecutionIndex(lines))..]
  }

  function CollectTasks(lines: seq<string>): seq<Task> {
    if lines == [] then []
    else
      (match ParseTaskLine(lines[0])
       case None => []
       case Some(task) => [task]) + CollectTasks(lines[1..])
  }

  /** parse_dag_tasks */
  function ParseDagTasks(plan: string): seq<Task> {
    CollectTasks(SplitLines(plan))
  }

  /** _section_lines */
  function SectionLines(lines: seq<string>, heading: string): seq<string> {
    var start := HeadingIndex(lines, heading);
    if start == |lines| then []
    else
      var rest := lines[start + 1..];
      rest[..FirstIndex(rest, IsSection)]
  }

  /** parse_loop_tasks */
  function ParseLoopTasks(plan: string): seq<Task> {
    CollectTasks(SectionLines(SplitLines(plan), CURRENT_HEADING))
  }

  function PlanTypeOfLine(line: string): Option<PlanType> {
    if !StartsWith(line, PLAN_TYPE) then None
    else
      var value := Lower(Strip(line[|PLAN_TYPE|..]));
      if value == "dag" then Some(DagPlan) else if value == "loop" then Some(LoopKind) else None
  }

  function PlanTypeOf(lines: seq<string>): Option<PlanType> {
    if lines == [] then None
    else if PlanTypeOfLine(lines[0]).Some? then PlanTypeOfLine(lines[0])
    else PlanTypeOf(lines[1..])
  }

  /** parse_plan_type */
  function ParsePlanType(plan: string): PlanType {
    match PlanTypeOf(SplitLines(plan))
    case None => DagPlan
    case Some(t) => t
  }

  /** _plan_field, with "" for None: both are replaced by the caller's default. */
  function PlanField(lines: seq<string>, prefix: string): string {
    var k := FirstIndex(lines, line => StartsWith(line, prefix));
    if k == |lines| then "" else Strip(lines[k][|prefix|..])
  }

  function HistoryOfLine(line: string): seq<string> {
    if StartsWith(Strip(line), "- ") && |line| >= 2 then [Strip(line[2..])] else []
  }

  function HistoryOf(lines: seq<string>): seq<string> {
    if lines == [] then [] else HistoryOfLine(lines[0]) + HistoryOf(lines[1..])
  }

  function DigitRun(s: string): (n: nat)
    ensures n <= |s| && AllOf(s[..n], IsDigit)
    ensures n < |s| ==> !IsDigit(s[n])
  {
    FirstIndex(s, NotDigit)
  }

  /** _parse_iteration: "current / max". */
  function ParseIteration(value: string): Option<(nat, nat)> {
    var a := StripLeft(value);
    var n := DigitRun(a);
    var b := StripLeft(a[n..]);
    if n == 0 || b == [] || b[0] != '/' then None
    else
      var c := StripLeft(b[1..]);
      var m := DigitRun(c);
      if m == 0 || !AllOf(c[m..], IsSpace) then None
      else Some((ParseNat(a[..n]), ParseNat(c[..m])))
  }

  predicate IsLoopStatus(s: string) {
    s == "running" || s == "waiting_results" || s == "evaluating" || s == "waiting_user" || s == "completed" || s == "blocked"
  }

  /** _safe_loop_status */
  function SafeLoopStatus(value: string): Option<string> {
    var text := Lower(Strip(value));
    if IsLoopStatus(text) then Some(text) else None
  }

  function OrElse(s: string, default: string): string {
    if s == [] then default else s
  }

  /** parse_loop_plan */
  function ParseLoopPlan(plan: string): Result<Option<LoopPlan>, LoopError> {
    var lines := SplitLines(plan);
    if ParsePlanType(plan) != LoopKind then Ok(None)
    else
      var status := SafeLoopStatus(OrElse(PlanField(lines, LOOP_STATUS), "running"));
      match ParseIteration(OrElse(PlanField(lines, ITERATION), "0 / 1"))
      case None => Err(InvalidIteration)
      case Some((current, max)) =>
        if status.None? then Err(InvalidStatus)
        else
          Ok(Some(LoopPlan(
                    PlanField(lines, GOAL),
                    PlanField(lines, STOP),
                    Strip(Join(SectionLines(lines, TEMPLATE_HEADING), NEWLINE)),
                    max, current, status.value,
                    CollectTasks(SectionLines(lines, CURRENT_HEADING)),
                    HistoryOf(SectionLines(lines, HISTORY_HEADING)))))
  }

  // --------------------------------------------------------------------------
  // Rewriting
  // --------------------------------------------------------------------------

  function RenderTasks(tasks: seq<Task>): (r: seq<string>)
    ensures |r| == |tasks| && forall i :: 0 <= i < |r| ==> r[i] == RenderTask(tasks[i])
  {
    seq(|tasks|, i requires 0 <= i < |tasks| => RenderTask(tasks[i]))
  }

  function DagSection(tasks: seq<Task>): seq<string> {
    [DAG_HEADING, "", DAG_TYPE, ""] + RenderTasks(tasks)
  }

  function RenderHistory(history: seq<string>): (r: seq<string>)
    ensures |r| == |history| && forall i :: 0 <= i < |r| ==> r[i] == "- " + history[i]
  {
    seq(|history|, i requires 0 <= i < |history| => "- " + history[i])
  }

  function StatusLine(loop: LoopPlan): string {
    LOOP_STATUS + " " + loop.status
  }

  function IterationLine(loop: LoopPlan): string {
    ITERATION + " " + (NatToString(loop.currentIteration) + " / " + NatToString(loop.maxIterations))
  }

  function GoalLine(loop: LoopPlan): string {
    GOAL + " " + SingleLine(loop.goal)
  }

  function StopLine(loop: LoopPlan): string {
    STOP + " " + SingleLine(loop.stopCondition)
  }

  function LoopFields(loop: LoopPlan): seq<string> {
    [LOOP_HEADING, "", LOOP_TYPE, StatusLine(loop), IterationLine(loop), GoalLine(loop), StopLine(loop), ""]
  }

  /** The loop section around a given rendering of the template. */
  function LoopSection(loop: LoopPlan, template: seq<string>): seq<string> {
    LoopFields(loop) + [TEMPLATE_HEADING, ""] + template + LoopRest(loop)
  }

  function LoopRest(loop: LoopPlan): seq<string> {
    ["", CURRENT_HEADING, ""] + RenderTasks(loop.tasks) + ["", HISTORY_HEADING, ""] + RenderHistory(loop.history)
  }

  /** A suffix follows the managed section after one blank line. */
  function Separated(suffix: seq<string>): seq<string> {
    if suffix == [] then [] else [""] + suffix
  }

  function WritePlan(prefix: seq<string>, managed: seq<string>, suffix: seq<string>): string {
    StripRight(Join(prefix + managed + Separated(suffix), NEWLINE)) + NEWLINE
  }

  /** replace_dag_tasks. A plan without execution heading gets one after a blank line. */
  function ReplaceDag(plan: string, tasks: seq<Task>): string {
    var lines := SplitLines(plan);
    var prefix := if ExecutionIndex(lines) == |lines| then lines + [""] else PrefixOf(lines);
    WritePlan(prefix, DagSection(tasks), SuffixOf(lines))
  }

  /** replace_loop_plan. The template is one item of the joined list, whatever its lines. */
  function ReplaceLoop(plan: string, loop: LoopPlan): string {
    var lines := SplitLines(plan);
    WritePlan(PrefixOf(lines), LoopSection(loop, [Strip(loop.template)]), SuffixOf(lines))
  }
}
