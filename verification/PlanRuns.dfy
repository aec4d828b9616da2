/** Projects as they are stored: every operation reads the plan's text and writes it anew. The
    runs of the text are runs of the task graph. */
module PlanRuns {
  import opened Text
  import opened Items
  import opened Lists
  import opened Dag
  import opened TaskLine
  import opened PlanText
  import opened PlanLayout
  import opened PlanRoundTrip
  import Scheduler

  // --------------------------------------------------------------------------
  // Payloads
  // --------------------------------------------------------------------------

  /** A task as a caller hands it over. dependsOn is None when it is not a list. */
  datatype Payload = Payload(taskId: string, title: string, assignedTo: string, dependsOn: Option<seq<string>>)

  datatype PayloadError =
    | DependsNotAList
    | InvalidId(id: string)
    | IncompleteTask
    | DuplicateId(id: string)
    | StartedTask(id: string)

  /** _safe_id */
  function SafeIdOf(value: string): Option<string> {
    if SafeId(Strip(value)) then Some(Strip(value)) else None
  }

  function SafeIds(values: seq<string>): (r: Result<seq<string>, PayloadError>)
    ensures r.Ok? ==> |r.value| == |values| && AllSafe(r.value)
    ensures r.Ok? ==> forall j :: 0 <= j < |values| ==> r.value[j] == Strip(values[j])
  {
    if values == [] then Ok([])
    else
      match SafeIdOf(values[0])
      case None => Err(InvalidId(values[0]))
      case Some(id) =>
        match SafeIds(values[1..])
        case Err(e) => Err(e)
        case Ok(ids) => Ok([id] + ids)
  }

  /** The task has the fields that the payload names, each stripped. */
  predicate Carries(task: Task, raw: Payload) {
    && task.taskId == Strip(raw.taskId) && task.title == Strip(raw.title) && task.assignedTo == Strip(raw.assignedTo)
    && raw.dependsOn.Some? && |task.dependsOn| == |raw.dependsOn.value|
    && forall j :: 0 <= j < |task.dependsOn| ==> task.dependsOn[j] == Strip(raw.dependsOn.value[j])
  }

  predicate Acceptable(raw: Payload) {
    && raw.dependsOn.Some?
    && (forall j :: 0 <= j < |raw.dependsOn.value| ==> SafeId(Strip(raw.dependsOn.value[j])))
    && SafeId(Strip(raw.taskId)) && Strip(raw.title) != [] && Strip(raw.assignedTo) != []
  }

  /** _dag_task_from_payload. An accepted task passes the format's requirements. */
  function TaskFromPayload(p: Payload): (r: Result<Task, PayloadError>)
    ensures r.Ok? ==> FromPayload(r.value) && r.value.status == Pending && Carries(r.value, p)
  {
    var id, title, assignee := Strip(p.taskId), Strip(p.title), Strip(p.assignedTo);
    TrimIsTrimmed(p.title, IsSpace);
    TrimIsTrimmed(p.assignedTo, IsSpace);
    if p.dependsOn.None? then Err(DependsNotAList)
    else
      match SafeIds(p.dependsOn.value)
      case Err(e) => Err(e)
      case Ok(deps) =>
        if id == [] || title == [] || assignee == [] then Err(IncompleteTask)
        else if !SafeId(id) then Err(InvalidId(id))
        else Ok(DagTask(id, title, assignee, deps, Pending))
  }

  /** The payload check fails exactly on unusable ids or missing fields. */
  lemma PayloadAccepted(p: Payload)
    ensures TaskFromPayload(p).Ok? <==> Acceptable(p)
  {
    hide Strip, SafeId, Trimmed;
    if p.dependsOn.Some? {
      SafeIdsAccepted(p.dependsOn.value);
      SafeIdNotEmpty(Strip(p.taskId));
    }
  }

  lemma SafeIdNotEmpty(id: string)
    ensures SafeId(id) ==> id != []
  {
  }

  lemma {:induction false} SafeIdsAccepted(values: seq<string>)
    ensures SafeIds(values).Ok? <==> forall i :: 0 <= i < |values| ==> SafeId(Strip(values[i]))
  {
    hide Strip, SafeId;
    if values != [] {
      SafeIdsAccepted(values[1..]);
      assert forall i :: 0 < i < |values| ==> values[i] == values[1..][i - 1];
    }
  }

  /** The loop of add_tasks: payloads are checked and entered one by one, the first problem
      ends it. */
  function AddRaw(existing: seq<Task>, raws: seq<Payload>): Result<(seq<Task>, seq<Task>), PayloadError> {
    if raws == [] then Ok((existing, []))
    else
      match AddRaw(existing, raws[..|raws| - 1])
      case Err(e) => Err(e)
      case Ok(done) => AddRawOne(done.0, done.1, raws[|raws| - 1])
  }

  function AddRawOne(tasks: seq<Task>, seen: seq<Task>, raw: Payload): Result<(seq<Task>, seq<Task>), PayloadError> {
    match TaskFromPayload(raw)
    case Err(e) => Err(e)
    case Ok(task) =>
      var k := Scheduler.IndexOf(tasks, task.taskId);
      if task.taskId in Ids(seen) then Err(DuplicateId(task.taskId))
      else if k < |tasks| && tasks[k].status != Pending then Err(StartedTask(task.taskId))
      else Ok((Scheduler.Upsert(tasks, task), seen + [task]))
  }

  lemma AddRawStep(existing: seq<Task>, tasks: seq<Task>, seen: seq<Task>, raw: Payload)
    requires Scheduler.AddAll(existing, seen) == Ok(tasks) && AddRawOne(tasks, seen, raw).Ok?
    ensures TaskFromPayload(raw).Ok?
    ensures var task := TaskFromPayload(raw).value;
            && task.status == Pending
            && AddRawOne(tasks, seen, raw).value.1 == seen + [task]
            && Scheduler.AddAll(existing, seen + [task]) == Ok(AddRawOne(tasks, seen, raw).value.0)
  {
    hide TaskFromPayload, FromPayload, Scheduler.Upsert, Scheduler.IndexOf;
    PayloadIsPending(raw);
    var task := TaskFromPayload(raw).value;
    assert (seen + [task])[..|seen|] == seen;
  }

  /** tasks are what the payloads stand for, one by one. */
  ghost predicate StandFor(raws: seq<Payload>, tasks: seq<Task>) {
    && |tasks| == |raws|
    && forall i :: 0 <= i < |raws| ==>
         Carries(tasks[i], raws[i]) && tasks[i].status == Pending && TaskFromPayload(raws[i]) == Ok(tasks[i])
  }

  lemma StandForOneMore(raws: seq<Payload>, seen: seq<Task>, task: Task)
    requires raws != [] && StandFor(raws[..|raws| - 1], seen) && TaskFromPayload(raws[|raws| - 1]) == Ok(task)
    ensures StandFor(raws, seen + [task])
  {
    hide TaskFromPayload, FromPayload, Carries;
    PayloadIsCarried(raws[|raws| - 1]);
    var all := seen + [task];
    forall i | 0 <= i < |raws|
      ensures TaskFromPayload(raws[i]) == Ok(all[i]) && Carries(all[i], raws[i]) && all[i].status == Pending
    {
      if i < |seen| {
        assert raws[..|raws| - 1][i] == raws[i];
      }
    }
  }

  lemma PayloadIsCarried(p: Payload)
    requires TaskFromPayload(p).Ok?
    ensures Carries(TaskFromPayload(p).value, p) && TaskFromPayload(p).value.status == Pending
  {
  }

  lemma AllPendingOneMore(seen: seq<Task>, task: Task)
    requires Scheduler.AllPending(seen) && task.status == Pending
    ensures Scheduler.AllPending(seen + [task])
  {
  }

  lemma AddRawLast(existing: seq<Task>, raws: seq<Payload>)
    requires raws != [] && AddRaw(existing, raws).Ok?
    ensures AddRaw(existing, raws[..|raws| - 1]).Ok?
    ensures var (tasks, seen) := AddRaw(existing, raws[..|raws| - 1]).value;
            AddRaw(existing, raws) == AddRawOne(tasks, seen, raws[|raws| - 1])
  {
    hide AddRawOne;
  }

  /** Entering payloads is entering the tasks they stand for. */
  lemma {:induction false} AddRawIsAddAll(existing: seq<Task>, raws: seq<Payload>)
    requires AddRaw(existing, raws).Ok?
    ensures var (tasks, payload) := AddRaw(existing, raws).value;
            StandFor(raws, payload) && Scheduler.AllPending(payload) && Scheduler.AddAll(existing, payload) == Ok(tasks)
  {
    if raws == [] {
      assert Scheduler.AddAll(existing, []) == Ok(existing);
    } else {
      hide TaskFromPayload, FromPayload, AddRawOne, AddRaw, Scheduler.AddAll, StandFor, Scheduler.AllPending;
      AddRawLast(existing, raws);
      var front, last := raws[..|raws| - 1], raws[|raws| - 1];
      AddRawIsAddAll(existing, front);
      var (tasks, seen) := AddRaw(existing, front).value;
      AddRawStep(existing, tasks, seen, last);
      StandForOneMore(raws, seen, TaskFromPayload(last).value);
      AllPendingOneMore(seen, TaskFromPayload(last).value);
    }
  }

  lemma PayloadIsPending(p: Payload)
    requires TaskFromPayload(p).Ok?
    ensures TaskFromPayload(p).value.status == Pending
  {
  }

  function PayloadIds(raws: seq<Payload>): (r: seq<string>)
    ensures |r| == |raws| && forall i :: 0 <= i < |r| ==> r[i] == Strip(raws[i].taskId)
  {
    seq(|raws|, i requires 0 <= i < |raws| => Strip(raws[i].taskId))
  }

  /** Payloads that can be entered beside the tasks of a plan: acceptable, with distinct ids, none of
      which belongs to a started task. */
  ghost predicate CanEnter(parsed: seq<Task>, raws: seq<Payload>) {
    && (forall i :: 0 <= i < |raws| ==> Acceptable(raws[i]))
    && Distinct(PayloadIds(raws))
    && forall i :: 0 <= i < |raws| ==>
         var t := Scheduler.LastWith(parsed, PayloadIds(raws)[i]); t.Some? ==> t.value.status == Pending
  }

  /** The payload's task is among the tasks, and pending. */
  predicate Enters(raw: Payload, tasks: seq<Task>) {
    exists k :: 0 <= k < |tasks| && Carries(tasks[k], raw) && tasks[k].status == Pending
  }

  /** The parsed tasks with the payloads entered: ids in the order of their first mention, what a
      payload says under its id, the plan's last task with the id under every other. */
  ghost predicate WithPayloads(parsed: seq<Task>, raws: seq<Payload>, r: seq<Task>) {
    && Ids(r) == Firsts(Ids(parsed) + PayloadIds(raws))
    && (forall i :: 0 <= i < |raws| ==> Enters(raws[i], r))
    && (forall k :: 0 <= k < |r| && r[k].taskId !in PayloadIds(raws) ==> Scheduler.LastWith(parsed, r[k].taskId) == Some(r[k]))
  }

  lemma {:induction false} AddRawAccepts(existing: seq<Task>, raws: seq<Payload>)
    requires Distinct(Ids(existing))
    ensures AddRaw(existing, raws).Ok? <==>
            && (forall i :: 0 <= i < |raws| ==> Acceptable(raws[i])) && Distinct(PayloadIds(raws))
            && (forall t :: t in existing && t.taskId in PayloadIds(raws) ==> t.status == Pending)
  {
    if raws != [] {
      hide TaskFromPayload, Acceptable, AddRawOne, Strip, Scheduler.AddAll, Distinct, StandFor, Ids, AddRaw, PayloadIds;
      var n := |raws| - 1;
      AddRawAccepts(existing, raws[..n]);
      PayloadIdsSplit(raws);
      AddRawUnfold(existing, raws);
      PendingSplit(existing, PayloadIds(raws[..n]), Strip(raws[n].taskId));
      if AddRaw(existing, raws[..n]).Ok? {
        AddRawIsAddAll(existing, raws[..n]);
        var (tasks, seen) := AddRaw(existing, raws[..n]).value;
        StandForIds(raws[..n], seen);
        AddRawOneAccepts(existing, tasks, seen, raws[n]);
      }
    }
  }

  lemma PendingSplit(existing: seq<Task>, ids: seq<string>, last: string)
    ensures (forall t :: t in existing && t.taskId in ids + [last] ==> t.status == Pending) <==>
            && (forall t :: t in existing && t.taskId in ids ==> t.status == Pending)
            && (forall t :: t in existing && t.taskId == last ==> t.status == Pending)
  {
    assert forall id :: id in ids + [last] <==> id in ids || id == last;
  }

  lemma AddRawUnfold(existing: seq<Task>, raws: seq<Payload>)
    requires raws != []
    ensures AddRaw(existing, raws).Ok? <==>
            var before := AddRaw(existing, raws[..|raws| - 1]);
            before.Ok? && AddRawOne(before.value.0, before.value.1, raws[|raws| - 1]).Ok?
  {
    hide AddRawOne;
  }

  lemma PayloadIdsSplit(raws: seq<Payload>)
    requires raws != []
    ensures var n := |raws| - 1;
            && PayloadIds(raws) == PayloadIds(raws[..n]) + [Strip(raws[n].taskId)]
            && (Distinct(PayloadIds(raws)) <==> Distinct(PayloadIds(raws[..n])) && Strip(raws[n].taskId) !in PayloadIds(raws[..n]))
            && ((forall i :: 0 <= i < |raws| ==> Acceptable(raws[i])) <==>
                (forall i :: 0 <= i < n ==> Acceptable(raws[..n][i])) && Acceptable(raws[n]))
  {
    hide Strip, Acceptable;
    var n := |raws| - 1;
    var ids, front := PayloadIds(raws), PayloadIds(raws[..n]);
    assert ids == front + [Strip(raws[n].taskId)];
    assert forall i :: 0 <= i < n ==> ids[i] == front[i] && raws[..n][i] == raws[i];
  }

  lemma StandForIds(raws: seq<Payload>, payload: seq<Task>)
    requires StandFor(raws, payload)
    ensures Ids(payload) == PayloadIds(raws)
  {
    hide TaskFromPayload, FromPayload, Strip;
  }

  lemma AddRawOneAccepts(existing: seq<Task>, tasks: seq<Task>, seen: seq<Task>, raw: Payload)
    requires Distinct(Ids(existing)) && Scheduler.AllPending(seen) && Scheduler.AddAll(existing, seen) == Ok(tasks)
    ensures AddRawOne(tasks, seen, raw).Ok? <==>
            && Acceptable(raw) && Strip(raw.taskId) !in Ids(seen)
            && (forall t :: t in existing && t.taskId == Strip(raw.taskId) ==> t.status == Pending)
  {
    hide TaskFromPayload, Acceptable, Distinct, Strip, Scheduler.AddAll, FromPayload, Ids, Scheduler.Upsert;
    PayloadAccepted(raw);
    Scheduler.AddAllContents(existing, seen);
    if Acceptable(raw) {
      PayloadIsCarried(raw);
      var id := Strip(raw.taskId);
      Scheduler.TaskWithId(tasks, id);
      Scheduler.PayloadIds(seen);
    }
  }

  /** The loop of add_tasks on the tasks of a plan: when it accepts, and what it then returns. */
  lemma AddRawEnters(parsed: seq<Task>, raws: seq<Payload>)
    ensures var added := AddRaw(Scheduler.ToDict(parsed), raws);
            && (added.Ok? <==> CanEnter(parsed, raws))
            && (added.Ok? ==> WithPayloads(parsed, raws, added.value.0))
  {
    hide TaskFromPayload, Acceptable, Strip, Scheduler.AddAll, Distinct, Ids, AddRaw, Scheduler.ToDict, Firsts, Carries;
    var dict := Scheduler.ToDict(parsed);
    Scheduler.DictIs(parsed);
    AddRawAccepts(dict, raws);
    PendingInDict(parsed, raws);
    if AddRaw(dict, raws).Ok? {
      AddRawIsAddAll(dict, raws);
      var (r, payload) := AddRaw(dict, raws).value;
      StandForIds(raws, payload);
      Scheduler.AddAllContents(dict, payload);
      Scheduler.AddAllIds(dict, payload);
      FirstsOfFirsts(Ids(parsed), PayloadIds(raws));
      EachEnters(raws, payload, r);
      OthersStay(parsed, payload, r);
    }
  }

  lemma EachEnters(raws: seq<Payload>, payload: seq<Task>, r: seq<Task>)
    requires StandFor(raws, payload) && forall t :: t in payload ==> t in r
    ensures forall i :: 0 <= i < |raws| ==> Enters(raws[i], r)
  {
    hide TaskFromPayload, Carries;
    forall i | 0 <= i < |raws| ensures Enters(raws[i], r) {
      assert payload[i] in payload;
      var k :| 0 <= k < |r| && r[k] == payload[i];
      assert Carries(r[k], raws[i]);
    }
  }

  lemma OthersStay(parsed: seq<Task>, payload: seq<Task>, r: seq<Task>)
    requires forall t :: t in Scheduler.ToDict(parsed) <==> Scheduler.LastWith(parsed, t.taskId) == Some(t)
    requires forall t :: t in r ==> t in payload || t in Scheduler.ToDict(parsed)
    ensures forall k :: 0 <= k < |r| && r[k].taskId !in Ids(payload) ==> Scheduler.LastWith(parsed, r[k].taskId) == Some(r[k])
  {
    hide Scheduler.ToDict, Ids, Scheduler.LastWith;
    Scheduler.PayloadIds(payload);
    forall k | 0 <= k < |r| && r[k].taskId !in Ids(payload) ensures Scheduler.LastWith(parsed, r[k].taskId) == Some(r[k]) {
      assert r[k] in r && r[k] !in payload;
    }
  }

  lemma PendingInDict(parsed: seq<Task>, raws: seq<Payload>)
    ensures (forall t :: t in Scheduler.ToDict(parsed) && t.taskId in PayloadIds(raws) ==> t.status == Pending) <==>
            (forall i :: 0 <= i < |raws| ==>
               var t := Scheduler.LastWith(parsed, PayloadIds(raws)[i]); t.Some? ==> t.value.status == Pending)
  {
    hide Scheduler.ToDict, PayloadIds, Ids, Firsts, Distinct;
    Scheduler.DictIs(parsed);
    var ids := PayloadIds(raws);
    if forall t :: t in Scheduler.ToDict(parsed) && t.taskId in ids ==> t.status == Pending {
      forall i | 0 <= i < |raws| ensures var t := Scheduler.LastWith(parsed, ids[i]); t.Some? ==> t.value.status == Pending {
        Scheduler.LastWithIs(parsed, ids[i]);
      }
    }
  }

  /** There is only one way to enter payloads. */
  lemma WithPayloadsOnce(parsed: seq<Task>, raws: seq<Payload>, a: seq<Task>, b: seq<Task>)
    requires WithPayloads(parsed, raws, a) && WithPayloads(parsed, raws, b)
    ensures a == b
  {
    hide Strip, Firsts, Carries, Distinct;
    FirstsIs(Ids(parsed) + PayloadIds(raws));
    assert |a| == |b|;
    forall k | 0 <= k < |a| ensures a[k] == b[k] {
      assert Ids(a)[k] == a[k].taskId && Ids(b)[k] == b[k].taskId;
      if a[k].taskId in PayloadIds(raws) {
        var i :| 0 <= i < |raws| && PayloadIds(raws)[i] == a[k].taskId;
        CarriedAt(a, k, raws[i]);
        CarriedAt(b, k, raws[i]);
        CarriedOnce(a[k], b[k], raws[i]);
      }
    }
  }

  lemma CarriedAt(tasks: seq<Task>, k: nat, raw: Payload)
    requires k < |tasks| && Distinct(Ids(tasks)) && tasks[k].taskId == Strip(raw.taskId)
    requires Enters(raw, tasks)
    ensures Carries(tasks[k], raw) && tasks[k].status == Pending
  {
    var j :| 0 <= j < |tasks| && Carries(tasks[j], raw) && tasks[j].status == Pending;
    assert Ids(tasks)[j] == Ids(tasks)[k];
  }

  lemma CarriedOnce(a: Task, b: Task, raw: Payload)
    requires Carries(a, raw) && Carries(b, raw) && a.status == b.status
    ensures a == b
  {
    assert a.dependsOn == b.dependsOn;
  }

  // --------------------------------------------------------------------------
  // Tidy plans
  // --------------------------------------------------------------------------

  /** A task that survives being written to a plan. */
  ghost predicate Storable(task: Task) {
    FromPayload(task) && Readable(task) && OneLine(RenderTask(task))
  }

  ghost predicate AllStorable(tasks: seq<Task>) {
    forall i :: 0 <= i < |tasks| ==> Storable(tasks[i])
  }

  /** The text around the managed section holds neither tasks nor a plan type. */
  ghost predicate TidyAround(plan: string) {
    && HasHeading(plan)
    && CollectTasks(PlanPrefix(plan)) == []
    && CollectTasks(TrimmedSuffix(PlanSuffix(plan))) == []
    && PlanTypeOf(PlanPrefix(plan)) == None
  }

  ghost predicate Tidy(plan: string) {
    TidyAround(plan) && ParsePlanType(plan) == DagPlan && AllStorable(ParseDagTasks(plan))
  }

  lemma StorableParts(tasks: seq<Task>)
    ensures AllStorable(tasks) <==> AllFromPayload(tasks) && AllReadable(tasks) && OneLineTasks(tasks)
  {
    hide FromPayload, Readable, OneLine;
  }

  /** What is written into a tidy plan is what is read from it exactly when it is storable. */
  lemma TidyReread(plan: string, tasks: seq<Task>)
    requires TidyAround(plan) && AllFromPayload(tasks)
    ensures ParseDagTasks(ReplaceDag(plan, tasks)) == tasks <==> AllStorable(tasks)
  {
    hide HasHeading, PlanPrefix, PlanSuffix, CollectTasks, PlanTypeOf, AllStorable, ParseDagTasks, ReplaceDag, TrimmedSuffix,
      AllFromPayload, AllReadable, OneLineTasks;
    StorableParts(tasks);
    DagPrefixIs(plan);
    DagRoundTrip(plan, tasks);
  }

  /** Writing storable tasks into a tidy plan gives a tidy plan with exactly those tasks. */
  lemma RewriteTidy(plan: string, tasks: seq<Task>)
    requires TidyAround(plan) && AllStorable(tasks)
    ensures Tidy(ReplaceDag(plan, tasks)) && ParseDagTasks(ReplaceDag(plan, tasks)) == tasks
  {
    hide HasHeading, PlanPrefix, PlanSuffix, CollectTasks, PlanTypeOf, AllStorable, ParsePlanType, ParseDagTasks, ReplaceDag,
      TrimmedSuffix, Durable, AllFromPayload, AllReadable, OneLineTasks;
    StorableParts(tasks);
    DagPrefixIs(plan);
    TidyReread(plan, tasks);
    DagTypeReread(plan, tasks);
    RewriteOnceDag(plan, tasks);
    TrimmedSuffixStays(PlanSuffix(plan));
    NoSuffixNoTasks();
  }

  lemma NoSuffixNoTasks()
    ensures TrimmedSuffix([]) == [] && CollectTasks([]) == []
  {
  }

  lemma RewriteOnceDag(plan: string, tasks: seq<Task>)
    requires OneLineTasks(tasks) && HasHeading(plan)
    ensures var plan' := ReplaceDag(plan, tasks);
            && HasHeading(plan')
            && PlanPrefix(plan') == PlanPrefix(plan)
            && PlanSuffix(plan') == Kept(PlanSuffix(plan))
  {
    hide HasHeading, PlanPrefix, PlanSuffix, ReplaceDag, TrimmedSuffix, Durable, OneLineTasks, Writable;
    DagWritable(tasks);
    RewriteOnce(plan, ToDag(tasks));
  }

  // --------------------------------------------------------------------------
  // The initial plan
  // --------------------------------------------------------------------------

  /** What _initial_plan writes, item by item. */
  function InitialItems(projectId: string, title: string, createdAt: string): seq<string> {
    ["# Team Project: " + title] + ["", "**ID**: " + projectId, "**Created**: " + createdAt, ""] + [DAG_HEADING, "", DAG_TYPE]
  }

  function InitialPlan(projectId: string, title: string, createdAt: string): string {
    Unlines(InitialItems(projectId, title, createdAt))
  }

  /** The lines that the project's title is written as. */
  function TitleLines(title: string): seq<string> {
    ItemLines("# Team Project: " + title)
  }

  function InitialHeader(projectId: string, title: string, createdAt: string): seq<string> {
    TitleLines(title) + ["", "**ID**: " + projectId, "**Created**: " + createdAt, ""]
  }

  lemma HeaderLine(line: string)
    requires |line| > 1 && (line[..2] == "# " || line[..2] == "**")
    ensures ParseTaskLine(line) == None && !IsExecutionHeading(line)
  {
    assert line[0] == line[..2][0] && line[1] == line[..2][1];
    VisibleHeader();
    NotATask(line);
    hide IsSpace, ParseTaskLine, StripRight;
    StripIsStripRight(line);
    StripRightIsPrefix(line);
    SecondMark();
  }

  lemma VisibleHeader()
    ensures !IsSpace('#') && !IsSpace('*')
  {
  }

  lemma SecondMark()
    ensures |DAG_HEADING| > 1 && |LOOP_HEADING| > 1
    ensures DAG_HEADING[0] == '#' && DAG_HEADING[1] == '#' && LOOP_HEADING[0] == '#' && LOOP_HEADING[1] == '#'
  {
  }

  lemma HeaderLabels()
    ensures "# Team Project: "[..2] == "# " && "**ID**: "[..2] == "**" && "**Created**: "[..2] == "**"
    ensures OneLine("# Team Project: ") && OneLine("**ID**: ") && OneLine("**Created**: ") && OneLine("")
    ensures "**ID**: "[2] == 'I' && "**Created**: "[2] == 'C' && "# Team Project: "[2] == 'T' && PLAN_TYPE[2] == 'P'
  {
  }

  lemma HeaderField(caption: string, value: string)
    requires |caption| > 2 && (caption[..2] == "# " || caption[..2] == "**") && OneLine(caption) && OneLine(value)
    requires caption[2] != PLAN_TYPE[2]
    ensures ParseTaskLine(caption + value) == None && !IsExecutionHeading(caption + value) && OneLine(caption + value)
    ensures PlanTypeOfLine(caption + value) == None
  {
    hide IsExecutionHeading, ParseTaskLine, IsLineBreak;
    OneLineConcat(caption, value);
    assert (caption + value)[..2] == caption[..2];
    HeaderLine(caption + value);
    assert |PLAN_TYPE| <= |caption + value| ==> (caption + value)[..|PLAN_TYPE|][2] == caption[2];
  }

  lemma EmptyLine()
    ensures ParseTaskLine("") == None && !IsExecutionHeading("") && PlanTypeOfLine("") == None && OneLine("")
  {
    NotATask("");
    NoPlanType("");
    StripIsEmpty();
    SecondMark();
  }

  lemma StripIsEmpty()
    ensures Strip("") == ""
  {
  }

  ghost predicate HeaderLines(lines: seq<string>) {
    && AllOneLine(lines) && NoExecution(lines)
    && CollectTasks(lines) == [] && PlanTypeOf(lines) == None
  }

  lemma OneHeaderLine(line: string)
    requires ParseTaskLine(line) == None && !IsExecutionHeading(line) && PlanTypeOfLine(line) == None && OneLine(line)
    ensures HeaderLines([line])
  {
    hide ParseTaskLine, IsExecutionHeading, PlanTypeOfLine, OneLine;
    assert [line][1..] == [];
    assert CollectTasks([]) == [] && PlanTypeOf([]) == None;
  }

  lemma HeaderLinesConcat(a: seq<string>, b: seq<string>)
    requires HeaderLines(a) && HeaderLines(b)
    ensures HeaderLines(a + b)
  {
    hide ParseTaskLine, IsExecutionHeading, PlanTypeOfLine, OneLine, CollectTasks, PlanTypeOf;
    CollectConcat(a, b);
    PlanTypeConcat(a, b);
  }

  /** A title of one line is a harmless header. */
  lemma PlainTitle(title: string)
    requires OneLine(title)
    ensures HeaderLines(TitleLines(title))
  {
    hide ParseTaskLine, IsExecutionHeading, PlanTypeOfLine, IsLineBreak, OneLine, HeaderLines, PLAN_TYPE, ItemLines;
    HeaderLabels();
    HeaderField("# Team Project: ", title);
    OneLineItem("# Team Project: " + title);
    OneHeaderLine("# Team Project: " + title);
  }

  lemma PlainHeaderLines(projectId: string, createdAt: string)
    requires OneLine(projectId) && OneLine(createdAt)
    ensures HeaderLines(["", "**ID**: " + projectId, "**Created**: " + createdAt, ""])
  {
    hide ParseTaskLine, IsExecutionHeading, PlanTypeOfLine, IsLineBreak, OneLine, HeaderLines, PLAN_TYPE;
    HeaderLabels();
    EmptyLine();
    HeaderField("**ID**: ", projectId);
    HeaderField("**Created**: ", createdAt);
    var b, c := "**ID**: " + projectId, "**Created**: " + createdAt;
    OneHeaderLine("");
    OneHeaderLine(b);
    OneHeaderLine(c);
    HeaderLinesConcat([""], [b]);
    HeaderLinesConcat([""] + [b], [c]);
    HeaderLinesConcat([""] + [b] + [c], [""]);
    assert ["", b, c, ""] == [""] + [b] + [c] + [""];
  }

  lemma InitialLines(projectId: string, title: string, createdAt: string)
    requires OneLine(projectId) && OneLine(createdAt)
    ensures SplitLines(InitialPlan(projectId, title, createdAt)) == InitialHeader(projectId, title, createdAt) + [DAG_HEADING, "", DAG_TYPE]
    ensures AllOneLine(InitialHeader(projectId, title, createdAt))
  {
    hide SplitLines, Unlines, OneLine, Expand, DAG_HEADING, DAG_TYPE, HeaderLines, ItemLines, Join;
    PlainHeaderLines(projectId, createdAt);
    var a, b, c := ["# Team Project: " + title], ["", "**ID**: " + projectId, "**Created**: " + createdAt, ""], [DAG_HEADING, "", DAG_TYPE];
    HeaderShape(b);
    DagHeadingLine();
    PlanTypeLines();
    EmptyIsOneLine();
    JoinIsUnlines(a + b + c);
    SplitJoined(a + b + c);
    ExpandConcat(a + b, c);
    ExpandConcat(a, b);
    ExpandItem(a[0]);
    ExpandLines(b);
    ExpandLines(c);
  }

  /** A new project's plan holds the tasks that its title's lines stand for, and no others. */
  lemma InitialReread(projectId: string, title: string, createdAt: string)
    requires OneLine(projectId) && OneLine(createdAt)
    ensures ParseDagTasks(InitialPlan(projectId, title, createdAt)) == CollectTasks(TitleLines(title))
  {
    hide HeaderLines, InitialPlan, SplitLines, CollectTasks, DAG_HEADING, DAG_TYPE, OneLine, TitleLines;
    InitialLines(projectId, title, createdAt);
    PlainHeaderLines(projectId, createdAt);
    var rest := ["", "**ID**: " + projectId, "**Created**: " + createdAt, ""];
    DagHead();
    HeaderHas(rest);
    CollectConcat(TitleLines(title) + rest, [DAG_HEADING, "", DAG_TYPE]);
    CollectConcat(TitleLines(title), rest);
  }

  /** The plan of a new project with a harmless title is tidy and holds no tasks. */
  lemma InitialTidy(projectId: string, title: string, createdAt: string)
    requires HeaderLines(TitleLines(title)) && OneLine(projectId) && OneLine(createdAt)
    ensures Tidy(InitialPlan(projectId, title, createdAt))
    ensures ParseDagTasks(InitialPlan(projectId, title, createdAt)) == []
  {
    hide HeaderLines, InitialPlan, InitialHeader, SplitLines, CollectTasks, PlanTypeOf, PrefixOf, SuffixOf, DAG_HEADING, DAG_TYPE,
      OneLine, IsExecutionHeading, ExecutionIndex, TrimmedSuffix, TitleLines;
    InitialHeaderLines(projectId, title, createdAt);
    InitialParts(projectId, title, createdAt);
    var header := InitialHeader(projectId, title, createdAt);
    HeadTypes();
    DagHead();
    HeaderHas(header);
    CollectConcat(header, [DAG_HEADING, "", DAG_TYPE]);
    PlanTypeConcat(header, [DAG_HEADING, "", DAG_TYPE]);
    NoSuffixNoTasks();
  }

  lemma InitialHeaderLines(projectId: string, title: string, createdAt: string)
    requires HeaderLines(TitleLines(title)) && OneLine(projectId) && OneLine(createdAt)
    ensures HeaderLines(InitialHeader(projectId, title, createdAt))
  {
    hide HeaderLines, OneLine, TitleLines;
    PlainHeaderLines(projectId, createdAt);
    HeaderLinesConcat(TitleLines(title), ["", "**ID**: " + projectId, "**Created**: " + createdAt, ""]);
  }

  lemma HeaderHas(lines: seq<string>)
    requires HeaderLines(lines)
    ensures CollectTasks(lines) == [] && PlanTypeOf(lines) == None
  {
  }

  lemma InitialParts(projectId: string, title: string, createdAt: string)
    requires HeaderLines(InitialHeader(projectId, title, createdAt)) && OneLine(projectId) && OneLine(createdAt)
    ensures var header := InitialHeader(projectId, title, createdAt);
            var lines := SplitLines(InitialPlan(projectId, title, createdAt));
            && lines == header + [DAG_HEADING, "", DAG_TYPE]
            && PrefixOf(lines) == header && SuffixOf(lines) == [] && ExecutionIndex(lines) < |lines|
  {
    hide HeaderLines, SplitLines, PrefixOf, SuffixOf, DAG_HEADING, DAG_TYPE, OneLine, IsExecutionHeading, ExecutionIndex, InitialPlan,
      IsForeign, InitialHeader;
    var header := InitialHeader(projectId, title, createdAt);
    var managed := [DAG_HEADING, "", DAG_TYPE];
    DagHeadingLine();
    DagTypeIsHarmless();
    HeaderShape(header);
    BlankIsNotForeign();
    InitialLines(projectId, title, createdAt);
    LayoutFound(header, managed, []);
    HeadingPresent(header, managed, []);
    assert header + managed + [] == header + managed;
  }

  lemma EmptyIsOneLine()
    ensures OneLine("")
  {
  }

  lemma HeaderShape(lines: seq<string>)
    requires HeaderLines(lines)
    ensures AllOneLine(lines) && NoExecution(lines)
  {
  }

  // --------------------------------------------------------------------------
  // Runs of the stored text
  // --------------------------------------------------------------------------

  datatype Project = Project(plan: string, paused: bool)

  datatype Operation =
    | AddTasks(raws: seq<Payload>)
    | DelegateTask(taskId: string)
    | Pause
    | Resume
    | Leader(id: string, status: Status)

  /** What an operation that succeeds does to the stored text. The Leader edits the plan by
      hand; all that is asked of the edit is that the plan stays tidy and that one started task
      has another status. */
  ghost predicate Stored(s: Project, op: Operation, s': Project) {
    match op
    case AddTasks(raws) =>
      && AddRaw(Scheduler.ToDict(ParseDagTasks(s.plan)), raws).Ok?
      && var tasks := AddRaw(Scheduler.ToDict(ParseDagTasks(s.plan)), raws).value.0;
      && ValidDag(tasks)
      && s' == s.(plan := ReplaceDag(s.plan, tasks))
    case DelegateTask(taskId) =>
      && !s.paused
      && SafeIdOf(taskId).Some?
      && var handed := Scheduler.Delegate(ParseDagTasks(s.plan), SafeIdOf(taskId).value);
      && handed.Ok?
      && s' == s.(plan := ReplaceDag(s.plan, handed.value))
    case Pause => s' == s.(paused := true)
    case Resume => s' == s.(paused := false)
    case Leader(id, status) =>
      && s'.paused == s.paused
      && Tidy(s'.plan)
      && Scheduler.Next(Scheduler.Board(ParseDagTasks(s.plan), s.paused), Scheduler.Leader(id, status),
                        Scheduler.Board(ParseDagTasks(s'.plan), s.paused))
  }

  ghost predicate IsStoredRun(states: seq<Project>, ops: seq<Operation>) {
    && |states| == |ops| + 1
    && forall i :: 0 <= i < |ops| ==> Stored(states[i], ops[i], states[i + 1])
  }

  lemma HandedStorable(tasks: seq<Task>, id: string)
    requires AllStorable(tasks)
    ensures AllStorable(Scheduler.SetStatus(tasks, id, Delegated))
  {
    hide FromPayload, Readable;
    var r := Scheduler.SetStatus(tasks, id, Delegated);
    forall i | 0 <= i < |r| ensures Storable(r[i]) {
      StatusStorable(tasks[i], Delegated);
    }
  }

  lemma StatusStorable(task: Task, status: Status)
    requires Storable(task)
    ensures Storable(task.(status := status))
  {
    RenderedOneLine(task);
    RenderedOneLine(task.(status := status));
    hide OneLine, RenderTask, HasSpaceParen, NoDepends, DependsOnlyAtEnd, SafeId, AllSafe, IsSpace;
  }

  // Adding tasks

  /** Every task that the payloads stand for can be stored. */
  ghost predicate StorablePayloads(raws: seq<Payload>) {
    forall i :: 0 <= i < |raws| && TaskFromPayload(raws[i]).Ok? ==> Storable(TaskFromPayload(raws[i]).value)
  }

  ghost predicate StorableOperation(op: Operation) {
    op.AddTasks? ==> StorablePayloads(op.raws)
  }

  lemma StandForStorable(raws: seq<Payload>, payload: seq<Task>)
    requires StandFor(raws, payload)
    ensures AllFromPayload(payload) && (AllStorable(payload) <==> StorablePayloads(raws))
  {
    hide FromPayload, Readable, OneLine, TaskFromPayload, Storable, Carries;
    forall i | 0 <= i < |payload| ensures FromPayload(payload[i]) {
      PayloadFits(raws[i]);
    }
    if StorablePayloads(raws) {
      assert forall i :: 0 <= i < |raws| ==> TaskFromPayload(raws[i]).Ok? && Storable(TaskFromPayload(raws[i]).value);
    }
  }

  lemma PayloadFits(p: Payload)
    requires TaskFromPayload(p).Ok?
    ensures FromPayload(TaskFromPayload(p).value)
  {
  }

  lemma AddedStorable(existing: seq<Task>, payload: seq<Task>)
    requires Distinct(Ids(existing)) && Scheduler.AllPending(payload) && Scheduler.AddAll(existing, payload).Ok?
    requires AllStorable(existing) && AllFromPayload(payload)
    ensures var r := Scheduler.AddAll(existing, payload).value;
            AllFromPayload(r) && (AllStorable(r) <==> AllStorable(payload))
  {
    hide FromPayload, Readable, OneLine, Scheduler.AddAll, Distinct, Scheduler.AllPending;
    Scheduler.AddAllContents(existing, payload);
    var r := Scheduler.AddAll(existing, payload).value;
    forall i | 0 <= i < |r| ensures FromPayload(r[i]) {
      assert r[i] in r;
    }
    if AllStorable(r) {
      forall i | 0 <= i < |payload| ensures Storable(payload[i]) {
        assert payload[i] in r;
      }
    }
    if AllStorable(payload) {
      forall i | 0 <= i < |r| ensures Storable(r[i]) {
        assert r[i] in r;
      }
    }
  }

  lemma ValidIsDistinct(tasks: seq<Task>)
    requires ValidDag(tasks)
    ensures Distinct(Ids(tasks)) && Scheduler.ToDict(tasks) == tasks
  {
    Scheduler.ValidHasDistinct(tasks);
    Scheduler.DictOfDistinct(tasks);
  }

  lemma SoundIsValid(tasks: seq<Task>)
    requires Scheduler.Sound(tasks)
    ensures ValidDag(tasks)
  {
  }

  /** Each dependency that the payload names is the id of a completed task. */
  ghost predicate NamesCompleted(raw: Payload, tasks: seq<Task>) {
    && raw.dependsOn.Some?
    && forall j :: 0 <= j < |raw.dependsOn.value| ==>
         exists t :: t in tasks && t.taskId == Strip(raw.dependsOn.value[j]) && t.status == Completed
  }

  /** A payload's task is ready exactly when each dependency that the payload names is completed. */
  lemma PayloadReady(parsed: seq<Task>, raws: seq<Payload>, r: seq<Task>, i: nat)
    requires WithPayloads(parsed, raws, r) && Distinct(Ids(r)) && i < |raws| && raws[i].dependsOn.Some?
    ensures Strip(raws[i].taskId) in Ids(Scheduler.Ready(r)) <==> NamesCompleted(raws[i], r)
  {
    hide Strip, Scheduler.Ready, Firsts;
    var id, deps := Strip(raws[i].taskId), raws[i].dependsOn.value;
    Scheduler.ReadyIds(r, id);
    var k :| 0 <= k < |r| && Carries(r[k], raws[i]) && r[k].status == Pending;
    forall m | 0 <= m < |r| && r[m].taskId == id ensures m == k {
      assert Ids(r)[m] == Ids(r)[k];
    }
    CompletedIds(r);
    if forall j :: 0 <= j < |deps| ==> exists t :: t in r && t.taskId == Strip(deps[j]) && t.status == Completed {
      forall d | d in r[k].dependsOn ensures d in Scheduler.Effective(r) {
        var j :| 0 <= j < |r[k].dependsOn| && r[k].dependsOn[j] == d;
        assert exists t :: t in r && t.taskId == Strip(deps[j]) && t.status == Completed;
      }
      assert Scheduler.IsReady(r[k], Scheduler.Effective(r));
    } else {
      var j :| 0 <= j < |deps| && !exists t :: t in r && t.taskId == Strip(deps[j]) && t.status == Completed;
      assert r[k].dependsOn[j] in r[k].dependsOn;
    }
  }

  lemma CompletedIds(tasks: seq<Task>)
    ensures forall id :: id in Scheduler.Effective(tasks) <==> exists t :: t in tasks && t.taskId == id && t.status == Completed
  {
    forall id | exists t :: t in tasks && t.taskId == id && t.status == Completed ensures id in Scheduler.Effective(tasks) {
      var t :| t in tasks && t.taskId == id && t.status == Completed;
      var i :| 0 <= i < |tasks| && tasks[i] == t;
    }
  }

  lemma TidyParts(plan: string)
    ensures Tidy(plan) ==> TidyAround(plan) && AllStorable(ParseDagTasks(plan))
  {
    hide TidyAround, AllStorable, ParseDagTasks;
  }

  /** After an accepted call of add_tasks the plan's text stands for the tasks that the call
      returned exactly when every added task is storable. */
  lemma AddIsReadBack(s: Project, raws: seq<Payload>, s': Project)
    requires Tidy(s.plan) && ValidDag(ParseDagTasks(s.plan)) && Stored(s, AddTasks(raws), s')
    ensures ParseDagTasks(s'.plan) == AddRaw(Scheduler.ToDict(ParseDagTasks(s.plan)), raws).value.0 <==> StorablePayloads(raws)
    ensures StorablePayloads(raws) ==> Tidy(s'.plan)
  {
    hide Tidy, TidyAround, AllStorable, Scheduler.Sound, Scheduler.AddAll, Scheduler.ToDict, ReplaceDag, ParseDagTasks, AddRaw, ValidDag,
      AllFromPayload, StorablePayloads, StandFor, Distinct, Scheduler.AllPending;
    var tasks := ParseDagTasks(s.plan);
    ValidIsDistinct(tasks);
    TidyParts(s.plan);
    AddRawIsAddAll(tasks, raws);
    var (final, payload) := AddRaw(tasks, raws).value;
    StandForStorable(raws, payload);
    AddedStorable(tasks, payload);
    TidyReread(s.plan, final);
    if StorablePayloads(raws) {
      RewriteTidy(s.plan, final);
    }
  }

  function BoardOf(s: Project): Scheduler.Board<string> {
    Scheduler.Board(ParseDagTasks(s.plan), s.paused)
  }

  /** The step on the graph that an operation on the text stands for. */
  ghost function StepOf(s: Project, op: Operation, s': Project): Scheduler.Step<string>
    requires Stored(s, op, s')
  {
    match op
    case AddTasks(raws) => Scheduler.Add(AddRaw(Scheduler.ToDict(ParseDagTasks(s.plan)), raws).value.1)
    case DelegateTask(taskId) => Scheduler.Hand(SafeIdOf(taskId).value)
    case Pause => Scheduler.Step.Pause
    case Resume => Scheduler.Step.Resume
    case Leader(id, status) => Scheduler.Step.Leader(id, status)
  }

  /** Each operation on the text is the same operation on the graph the text stands for. */
  lemma StoredIsNext(s: Project, op: Operation, s': Project)
    requires Tidy(s.plan) && Scheduler.Sound(ParseDagTasks(s.plan)) && Stored(s, op, s') && StorableOperation(op)
    ensures Tidy(s'.plan)
    ensures Scheduler.Next(BoardOf(s), StepOf(s, op, s'), BoardOf(s'))
  {
    hide Tidy, TidyAround, AllStorable, Scheduler.Sound, Scheduler.AddAll, Scheduler.ToDict, ReplaceDag, ParseDagTasks, AddRaw, SafeIdOf,
      ValidDag, StorablePayloads, Scheduler.Delegate;
    var tasks := ParseDagTasks(s.plan);
    match op {
      case AddTasks(raws) =>
        AddRawIsAddAll(Scheduler.ToDict(tasks), raws);
        SoundIsValid(tasks);
        AddIsReadBack(s, raws, s');
      case DelegateTask(taskId) =>
        var id := SafeIdOf(taskId).value;
        TidyParts(s.plan);
        HandedStorable(tasks, id);
        DelegateSets(tasks, id);
        RewriteTidy(s.plan, Scheduler.Delegate(tasks, id).value);
      case Pause =>
      case Resume =>
      case Leader(id, status) =>
    }
  }

  lemma DelegateSets(tasks: seq<Task>, id: string)
    requires Scheduler.Delegate(tasks, id).Ok?
    ensures Scheduler.Delegate(tasks, id).value == Scheduler.SetStatus(tasks, id, Delegated)
  {
    hide Scheduler.DependenciesMet;
  }

  function BoardsOf(states: seq<Project>): (r: seq<Scheduler.Board<string>>)
    ensures |r| == |states| && forall i :: 0 <= i < |r| ==> r[i] == BoardOf(states[i])
  {
    seq(|states|, i requires 0 <= i < |states| => BoardOf(states[i]))
  }

  ghost function StepsOf(states: seq<Project>, ops: seq<Operation>): (r: seq<Scheduler.Step<string>>)
    requires IsStoredRun(states, ops)
    ensures |r| == |ops| && forall i :: 0 <= i < |r| ==> r[i] == StepOf(states[i], ops[i], states[i + 1])
  {
    seq(|ops|, i requires 0 <= i < |ops| => StepOf(states[i], ops[i], states[i + 1]))
  }

  /** Runs on the text that start from a new project, every added task being storable. */
  ghost predicate IsProjectRun(projectId: string, title: string, createdAt: string, states: seq<Project>, ops: seq<Operation>) {
    && HeaderLines(TitleLines(title)) && OneLine(projectId) && OneLine(createdAt)
    && IsStoredRun(states, ops) && states[0].plan == InitialPlan(projectId, title, createdAt)
    && forall i :: 0 <= i < |ops| ==> StorableOperation(ops[i])
  }

  lemma {:induction false} RunStaysTidy(projectId: string, title: string, createdAt: string,
                                        states: seq<Project>, ops: seq<Operation>, n: nat)
    requires IsProjectRun(projectId, title, createdAt, states, ops) && n < |states|
    ensures Tidy(states[n].plan) && Scheduler.Sound(ParseDagTasks(states[n].plan))
  {
    hide Tidy, Scheduler.Sound, Stored, InitialPlan, OneLine, ParseDagTasks, HeaderLines, StorableOperation, Scheduler.Next, TitleLines,
      StepOf;
    if n == 0 {
      InitialTidy(projectId, title, createdAt);
      Scheduler.EmptyIsSound<string>();
    } else {
      RunStaysTidy(projectId, title, createdAt, states, ops, n - 1);
      var s, s' := states[n - 1], states[n];
      assert Stored(s, ops[n - 1], s');
      StoredIsNext(s, ops[n - 1], s');
      Scheduler.NextSound(BoardOf(s), StepOf(s, ops[n - 1], s'), BoardOf(s'));
    }
  }

  /** A run on the text is a run on the graphs that its texts stand for. */
  lemma StoredRunIsRun(projectId: string, title: string, createdAt: string, states: seq<Project>, ops: seq<Operation>)
    requires IsProjectRun(projectId, title, createdAt, states, ops)
    ensures BoardsOf(states)[0].tasks == []
    ensures Scheduler.IsRun(BoardsOf(states), StepsOf(states, ops))
  {
    hide Tidy, Scheduler.Sound, Stored, InitialPlan, OneLine, ParseDagTasks, HeaderLines, StorableOperation, Scheduler.Next, TitleLines,
      StepOf;
    InitialTidy(projectId, title, createdAt);
    var boards, steps := BoardsOf(states), StepsOf(states, ops);
    forall i | 0 <= i < |steps| ensures Scheduler.Next(boards[i], steps[i], boards[i + 1]) {
      RunStaysTidy(projectId, title, createdAt, states, ops, i);
      assert Stored(states[i], ops[i], states[i + 1]);
      StoredIsNext(states[i], ops[i], states[i + 1]);
    }
  }

  /** From a new project on, through any number of operations on the stored text, the plan
      parses to a valid graph in which started tasks have only completed dependencies, provided
      that every added task is storable. */
  lemma StoredRunsAreSound(projectId: string, title: string, createdAt: string, states: seq<Project>, ops: seq<Operation>, n: nat)
    requires HeaderLines(TitleLines(title)) && OneLine(projectId) && OneLine(createdAt)
    requires IsStoredRun(states, ops) && states[0].plan == InitialPlan(projectId, title, createdAt) && n < |states|
    requires forall i :: 0 <= i < |ops| && ops[i].AddTasks? ==> StorablePayloads(ops[i].raws)
    ensures var tasks := ParseDagTasks(states[n].plan);
            && ValidDag(tasks)
            && forall i :: 0 <= i < |tasks| && tasks[i].status != Pending ==>
                 forall d :: d in tasks[i].dependsOn ==>
                   exists j :: 0 <= j < |tasks| && tasks[j].taskId == d && tasks[j].status == Completed
  {
    hide Stored, InitialPlan, OneLine, ParseDagTasks, HeaderLines, StorablePayloads, Scheduler.IsRun, ValidDag, TitleLines, StepOf;
    StoredRunIsRun(projectId, title, createdAt, states, ops);
    Scheduler.RunsAreSound(BoardsOf(states), StepsOf(states, ops), n);
  }

  // A task that is not storable

  /** A title that holds the line of another task. */
  function TornTask(id: string, title: string, assignee: string, forged: Task): Task {
    DagTask(id, title + NEWLINE + RenderTask(forged), assignee, [], Pending)
  }

  ghost predicate CanTear(id: string, title: string, assignee: string, forged: Task) {
    && SafeId(id)
    && title != [] && Trimmed(title, IsSpace) && OneLine(title) && !HasSpaceParen(title)
    && assignee != [] && Trimmed(assignee, IsSpace) && OneLine(assignee)
    && Storable(forged) && forged.dependsOn != []
  }

  lemma TornAccepted(id: string, title: string, assignee: string, forged: Task)
    requires CanTear(id, title, assignee, forged)
    ensures var t := TornTask(id, title, assignee, forged);
            TaskFromPayload(Payload(id, t.title, assignee, Some([]))) == Ok(t)
  {
    hide IsSpace, OneLine, HasSpaceParen, Storable, IsIdChar;
    var t := TornTask(id, title, assignee, forged);
    RenderedEnd(forged);
    hide RenderTask;
    assert t.title[0] == title[0] && t.title[|t.title| - 1] == RenderTask(forged)[|RenderTask(forged)| - 1];
    TrimmedStays(t.title, IsSpace);
    SafeIdIsPlain(id);
    TrimmedStays(id, IsSpace);
    TrimmedStays(assignee, IsSpace);
    hide Trim;
    assert SafeIds([]) == Ok([]);
  }

  /** The forged task's line, with the torn task's details behind it. */
  function ForgedLine(assignee: string, forged: Task): string {
    RenderHead(forged.status, forged.taskId, forged.title + " (" + (Details(forged) + (") (" + ASSIGNED + " " + assignee)) + ")")
  }

  lemma TornText(id: string, title: string, assignee: string, forged: Task)
    ensures RenderTask(TornTask(id, title, assignee, forged)) ==
            RenderHead(Pending, id, title) + NEWLINE + ForgedLine(assignee, forged)
    ensures ForgedLine(assignee, forged) == RenderTask(forged) + (" (" + ASSIGNED + " ") + assignee + ")"
  {
    hide DASH, ASSIGNED, MarkerOf, Details;
    var t := TornTask(id, title, assignee, forged);
    TornDetails(t);
    var front, line := RenderHead(Pending, id, title), RenderTask(forged);
    var tail := " (" + (ASSIGNED + " " + assignee) + ")";
    assert RenderTask(t) == front + NEWLINE + line + tail;
    assert ForgedLine(assignee, forged) == line + tail;
    hide RenderHead, RenderTask;
  }

  lemma TornDetails(task: Task)
    requires task.dependsOn == []
    ensures Details(task) == ASSIGNED + " " + task.assignedTo
  {
  }

  lemma TornFrame()
    ensures OneLine(" (" + ASSIGNED + " ") && OneLine(")") && OneLine(") (" + ASSIGNED + " ")
  {
  }

  lemma TornOneLine(id: string, title: string, assignee: string, forged: Task)
    requires CanTear(id, title, assignee, forged)
    ensures OneLine(RenderHead(Pending, id, title)) && OneLine(ForgedLine(assignee, forged))
  {
    TornFrame();
    HeadFrame(Pending);
    SafeIdIsPlain(id);
    TornText(id, title, assignee, forged);
    hide OneLine, RenderTask, ForgedLine, DASH, MarkerOf, ASSIGNED, SafeId, Trimmed;
    var a, b := "- [" + [MarkerOf(Pending)] + "] ", " " + DASH + " ";
    assert RenderHead(Pending, id, title) == a + id + b + title;
    OneLineConcat(a + id + b, title);
    OneLineConcat(a + id, b);
    OneLineConcat(a, id);
    var front := RenderTask(forged) + (" (" + ASSIGNED + " ");
    OneLineConcat(RenderTask(forged), " (" + ASSIGNED + " ");
    OneLineConcat(front, assignee);
    OneLineConcat(front + assignee, ")");
  }

  /** The torn task is written as two lines. */
  lemma TornLines(id: string, title: string, assignee: string, forged: Task)
    requires CanTear(id, title, assignee, forged)
    ensures TaskLines([TornTask(id, title, assignee, forged)]) == [RenderHead(Pending, id, title), ForgedLine(assignee, forged)]
  {
    hide RenderTask, ItemLines, OneLine, RenderHead, CanTear, ForgedLine, Expand;
    var t := TornTask(id, title, assignee, forged);
    TornText(id, title, assignee, forged);
    TornOneLine(id, title, assignee, forged);
    assert RenderTasks([t]) == [RenderTask(t)];
    ExpandItem(RenderTask(t));
    TwoItems(RenderHead(Pending, id, title), ForgedLine(assignee, forged));
  }

  lemma TwoItems(x: string, y: string)
    requires OneLine(x) && OneLine(y)
    ensures ItemLines(x + NEWLINE + y) == [x, y]
  {
    hide SplitLines, OneLine;
    OneLineItem(x);
    OneLineItem(y);
    assert x + NEWLINE + y + NEWLINE == x + NEWLINE + (y + NEWLINE);
    SplitLinesAt(x, y + NEWLINE);
  }

  lemma FirstTornLine(id: string, title: string)
    requires SafeId(id) && title != [] && Trimmed(title, IsSpace) && OneLine(title) && !HasSpaceParen(title)
    ensures ParseTaskLine(RenderHead(Pending, id, title)) == Some(DagTask(id, title, "", [], Pending))
  {
    hide RenderHead, ParseHead, BodyFrom, Trim, IsSpace, HasSpaceParen, IsLineBreak, SafeId, ASSIGNED, DEPENDS, IsNewline;
    NoNewline(title);
    HeadRoundTrip(Pending, id, title);
    BareTitle(title);
    TrimmedStays(title, IsSpace);
    NoFields();
  }

  lemma NoFields()
    ensures AssigneeOf("") == "" && DependsOf("") == []
  {
  }

  lemma NoNewline(s: string)
    requires OneLine(s)
    ensures NoneOf(s, IsNewline)
  {
  }

  lemma SecondTornLine(assignee: string, forged: Task)
    requires Storable(forged) && forged.dependsOn != [] && OneLine(assignee)
    ensures ParseTaskLine(ForgedLine(assignee, forged)) == Some(forged)
  {
    hide RenderHead, ParseHead, BodyFrom, Trim, IsSpace, HasSpaceParen, IsLineBreak, SafeId, ASSIGNED, IsNewline, AllSafe, RenderTask,
      Details, AssigneeOf, DependsOf, NoneOf;
    var tail := ") (" + ASSIGNED + " " + assignee;
    var meta := Details(forged) + tail;
    TornFrame();
    RenderedOneLine(forged);
    DetailsLines(forged);
    OneLineConcat(") (" + ASSIGNED + " ", assignee);
    OneLineConcat(Details(forged), tail);
    NoNewline(meta);
    NoNewline(forged.title);
    var body := forged.title + " (" + meta + ")";
    assert body[0] == forged.title[0];
    HeadRoundTrip(forged.status, forged.taskId, body);
    BodyRoundTrip(forged.title, meta);
    TrimmedStays(forged.title, IsSpace);
    AssigneeRoundTrip(forged, tail);
    DependsFound(forged, tail);
  }

  lemma TornReread(plan: string, id: string, title: string, assignee: string, forged: Task)
    requires TidyAround(plan) && CanTear(id, title, assignee, forged)
    ensures ParseDagTasks(ReplaceDag(plan, [TornTask(id, title, assignee, forged)])) == [DagTask(id, title, "", [], Pending), forged]
  {
    hide HasHeading, PlanPrefix, PlanSuffix, PlanTypeOf, ParseDagTasks, ReplaceDag, TrimmedSuffix, TaskLines, TornTask, RenderHead,
      ParseTaskLine, DagPrefix, Storable, OneLine, SafeId, Trimmed, HasSpaceParen, ForgedLine;
    DagPrefixIs(plan);
    DagReread(plan, [TornTask(id, title, assignee, forged)]);
    TornLines(id, title, assignee, forged);
    FirstTornLine(id, title);
    SecondTornLine(assignee, forged);
    TwoCollected(RenderHead(Pending, id, title), ForgedLine(assignee, forged));
  }

  lemma TwoCollected(x: string, y: string)
    requires ParseTaskLine(x).Some? && ParseTaskLine(y).Some?
    ensures CollectTasks([x, y]) == [ParseTaskLine(x).value, ParseTaskLine(y).value]
  {
    hide ParseTaskLine;
    assert [x, y][1..] == [y] && [y][1..] == [];
    assert CollectTasks([y]) == [ParseTaskLine(y).value];
  }

  lemma OneTaskAdded(raw: Payload, task: Task)
    requires TaskFromPayload(raw) == Ok(task) && task.dependsOn == []
    ensures AddRaw(Scheduler.ToDict([]), [raw]) == Ok(([task], [task])) && ValidDag([task])
  {
    hide TaskFromPayload, FromPayload;
    assert Scheduler.ToDict<string>([]) == [];
    assert [raw][..0] == [] && [raw][0] == raw;
    assert AddRaw([], []) == Ok(([], []));
    assert [] + [task] == [task];
    assert Ids<string>([]) == [];
    assert Scheduler.IndexOf([], task.taskId) == 0;
    assert Scheduler.Upsert([], task) == [task];
    assert AddRawOne([], [], raw) == Ok(([task], [task]));
    assert Ids([task]) == [task.taskId];
    assert IsTopologicalOrder([task.taskId], [task]);
  }

  /** Without that proviso it fails: on an empty plan, adding one task whose title goes on with the
      line of another is accepted, and the written plan holds that other task, whatever its
      status and its dependencies; when these are unknown, the graph is not valid. */
  lemma TornTitleForgesTask(s: Project, id: string, title: string, assignee: string, forged: Task)
    requires Tidy(s.plan) && ParseDagTasks(s.plan) == []
    requires CanTear(id, title, assignee, forged)
    ensures var torn := TornTask(id, title, assignee, forged);
            var s' := s.(plan := ReplaceDag(s.plan, [torn]));
            && Stored(s, AddTasks([Payload(id, torn.title, assignee, Some([]))]), s')
            && ParseDagTasks(s'.plan) == [DagTask(id, title, "", [], Pending), forged]
            && ((exists d :: d in forged.dependsOn && d != id && d != forged.taskId) ==> !ValidDag(ParseDagTasks(s'.plan)))
  {
    hide TidyAround, ParsePlanType, AllStorable, ParseDagTasks, ReplaceDag, TornTask, TaskFromPayload, CanTear, AddRaw, Scheduler.ToDict;
    var torn := TornTask(id, title, assignee, forged);
    TornAccepted(id, title, assignee, forged);
    TornHasNoDeps(id, title, assignee, forged);
    OneTaskAdded(Payload(id, torn.title, assignee, Some([])), torn);
    TidyParts(s.plan);
    TornReread(s.plan, id, title, assignee, forged);
    UnknownDependencyInvalid(DagTask(id, title, "", [], Pending), forged);
    hide ValidDag;
  }

  lemma TornHasNoDeps(id: string, title: string, assignee: string, forged: Task)
    ensures TornTask(id, title, assignee, forged).dependsOn == []
  {
  }

  lemma UnknownDependencyInvalid(a: Task, b: Task)
    ensures (exists d :: d in b.dependsOn && d != a.taskId && d != b.taskId) ==> !ValidDag([a, b])
  {
    if d :| d in b.dependsOn && d != a.taskId && d != b.taskId {
      assert Ids([a, b]) == [a.taskId, b.taskId];
      assert [a, b][1] == b;
      assert d !in Ids([a, b]);
      assert !KnownDeps([a, b]);
    }
  }

  /** The smallest such case. */
  lemma TornExample()
    ensures CanTear("T1", "a", "w", DagTask("T2", "b", "w", ["T9"], Pending))
  {
    var forged := DagTask("T2", "b", "w", ["T9"], Pending);
    assert SafeId("T1") && SafeId("T2") && SafeId("T9");
    assert !HasSpaceParen("a") && !HasSpaceParen("b") && NoDepends("w");
    assert FromPayload(forged);
    RenderedOneLine(forged);
    hide RenderTask;
  }

  lemma UnknownName()
    ensures "T9" != "T1" && "T9" != "T2"
  {
    assert "T9"[1] == '9' && "T1"[1] == '1' && "T2"[1] == '2';
  }

  /** One accepted call on a new project can leave a plan whose graph no later call accepts. */
  lemma NewProjectMayBreak(projectId: string, title: string, createdAt: string)
    requires HeaderLines(TitleLines(title)) && OneLine(projectId) && OneLine(createdAt)
    ensures exists raws, s' :: Stored(Project(InitialPlan(projectId, title, createdAt), false), AddTasks(raws), s')
                               && !ValidDag(ParseDagTasks(s'.plan))
  {
    hide Tidy, ParseDagTasks, HeaderLines, TitleLines, OneLine, InitialPlan, CanTear, Stored, TornTask, ReplaceDag, ValidDag;
    var s := Project(InitialPlan(projectId, title, createdAt), false);
    var forged := DagTask("T2", "b", "w", ["T9"], Pending);
    InitialTidy(projectId, title, createdAt);
    TornExample();
    UnknownName();
    assert "T9" in forged.dependsOn;
    TornTitleForgesTask(s, "T1", "a", "w", forged);
    var torn := TornTask("T1", "a", "w", forged);
    assert Stored(s, AddTasks([Payload("T1", torn.title, "w", Some([]))]), s.(plan := ReplaceDag(s.plan, [torn])));
  }
}
