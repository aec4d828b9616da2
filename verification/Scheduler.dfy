/** Scheduling on the task graph itself: adding tasks, ready nodes, delegation
    (copaw/src/copaw_worker/task.py), without the text the graph is stored in. */
module Scheduler {
  import opened Text
  import opened Lists
  import opened Dag

  // --------------------------------------------------------------------------
  // Operations
  // --------------------------------------------------------------------------

  /** Ids of the accepted tasks. */
  function Effective<I(==,!new)>(tasks: seq<DagTask<I>>): set<I> {
    set i | 0 <= i < |tasks| && tasks[i].status == Completed :: tasks[i].taskId
  }

  predicate DependenciesMet<I(==,!new)>(task: DagTask<I>, effective: set<I>) {
    forall d :: d in task.dependsOn ==> d in effective
  }

  predicate IsReady<I(==,!new)>(task: DagTask<I>, effective: set<I>) {
    task.status == Pending && DependenciesMet(task, effective)
  }

  function ReadyAmong<I(==,!new)>(tasks: seq<DagTask<I>>, effective: set<I>): seq<DagTask<I>> {
    if tasks == [] then []
    else (if IsReady(tasks[0], effective) then [tasks[0]] else []) + ReadyAmong(tasks[1..], effective)
  }

  /** ready_nodes of an unpaused project. */
  function Ready<I(==,!new)>(tasks: seq<DagTask<I>>): seq<DagTask<I>> {
    ReadyAmong(tasks, Effective(tasks))
  }

  /** _replace_task_status */
  function SetStatus<I(==,!new)>(tasks: seq<DagTask<I>>, id: I, status: Status): (r: seq<DagTask<I>>)
    ensures |r| == |tasks|
    ensures forall i :: 0 <= i < |tasks| ==> r[i] == if tasks[i].taskId == id then tasks[i].(status := status) else tasks[i]
  {
    seq(|tasks|, i requires 0 <= i < |tasks| => if tasks[i].taskId == id then tasks[i].(status := status) else tasks[i])
  }

  function IndexOf<I(==,!new)>(tasks: seq<DagTask<I>>, id: I): (k: nat)
    ensures k <= |tasks|
    ensures k < |tasks| ==> tasks[k].taskId == id
    ensures forall i :: 0 <= i < k ==> tasks[i].taskId != id
  {
    if tasks == [] || tasks[0].taskId == id then 0 else 1 + IndexOf(tasks[1..], id)
  }

  datatype DelegateError = NotFound | NotPending | BlockedByDependencies

  /** The graph part of delegate_task. */
  function Delegate<I(==,!new)>(tasks: seq<DagTask<I>>, id: I): Result<seq<DagTask<I>>, DelegateError> {
    var k := IndexOf(tasks, id);
    if k == |tasks| then Err(NotFound)
    else if tasks[k].status != Pending then Err(DelegateError.NotPending)
    else if !DependenciesMet(tasks[k], Effective(tasks)) then Err(BlockedByDependencies)
    else Ok(SetStatus(tasks, id, Delegated))
  }

  /** Assigning to a dictionary key: a known id keeps its place, a new one goes last. */
  function Upsert<I(==,!new)>(tasks: seq<DagTask<I>>, task: DagTask<I>): seq<DagTask<I>> {
    var k := IndexOf(tasks, task.taskId);
    if k == |tasks| then tasks + [task] else tasks[k := task]
  }

  function ToDict<I(==,!new)>(tasks: seq<DagTask<I>>): seq<DagTask<I>> {
    if tasks == [] then [] else Upsert(ToDict(tasks[..|tasks| - 1]), tasks[|tasks| - 1])
  }

  datatype AddError<I> = DuplicateInPayload(id: I) | NotPendingTask(id: I)

  /** The loop of add_tasks over an already checked payload, before the graph check. */
  function AddAll<I(==,!new)>(existing: seq<DagTask<I>>, payload: seq<DagTask<I>>): Result<seq<DagTask<I>>, AddError<I>> {
    if payload == [] then Ok(existing)
    else
      match AddAll(existing, payload[..|payload| - 1])
      case Err(e) => Err(e)
      case Ok(tasks) => AddOne(existing, tasks, payload[..|payload| - 1], payload[|payload| - 1])
  }

  function AddOne<I(==,!new)>(existing: seq<DagTask<I>>, tasks: seq<DagTask<I>>, seen: seq<DagTask<I>>, task: DagTask<I>)
    : Result<seq<DagTask<I>>, AddError<I>>
  {
    var k := IndexOf(tasks, task.taskId);
    if task.taskId in Ids(seen) then Err(DuplicateInPayload(task.taskId))
    else if k < |tasks| && tasks[k].status != Pending then Err(NotPendingTask(task.taskId))
    else Ok(Upsert(tasks, task))
  }

  // --------------------------------------------------------------------------
  // The invariant
  // --------------------------------------------------------------------------

  /** Work has only started where everything it depends on was accepted. */
  ghost predicate StartedInOrder<I(!new)>(tasks: seq<DagTask<I>>) {
    forall i :: 0 <= i < |tasks| && tasks[i].status != Pending ==> DependenciesMet(tasks[i], Effective(tasks))
  }

  ghost predicate Sound<I(!new)>(tasks: seq<DagTask<I>>) {
    ValidDag(tasks) && StartedInOrder(tasks)
  }

  ghost predicate SameShape<I(!new)>(a: seq<DagTask<I>>, b: seq<DagTask<I>>) {
    && |a| == |b|
    && forall i :: 0 <= i < |a| ==> a[i].taskId == b[i].taskId && a[i].dependsOn == b[i].dependsOn
  }

  /** Whether a graph is valid depends on its ids and dependencies only. */
  lemma SameShapeSameOrder<I(!new)>(a: seq<DagTask<I>>, b: seq<DagTask<I>>, order: seq<I>)
    requires SameShape(a, b) && IsTopologicalOrder(order, a)
    ensures IsTopologicalOrder(order, b)
  {
    assert Ids(a) == Ids(b);
  }

  lemma SameShapeValid<I(!new)>(a: seq<DagTask<I>>, b: seq<DagTask<I>>)
    requires SameShape(a, b) && ValidDag(a)
    ensures ValidDag(b)
  {
    assert Ids(a) == Ids(b);
    var order :| IsTopologicalOrder(order, a);
    SameShapeSameOrder(a, b, order);
  }

  lemma SetStatusEffective<I(!new)>(tasks: seq<DagTask<I>>, id: I, status: Status)
    requires Distinct(Ids(tasks)) && id in Ids(tasks)
    ensures Effective(SetStatus(tasks, id, status)) ==
            if status == Completed then Effective(tasks) + {id} else Effective(tasks) - {id}
  {
    var r := SetStatus(tasks, id, status);
    var k :| 0 <= k < |tasks| && Ids(tasks)[k] == id;
    assert r[k].taskId == id;
    forall i, j | 0 <= i < |tasks| && 0 <= j < |tasks| && tasks[i].taskId == tasks[j].taskId ensures i == j {
      assert Ids(tasks)[i] == Ids(tasks)[j];
    }
    forall x | x in Effective(tasks) && x != id ensures x in Effective(r) {
      var i :| 0 <= i < |tasks| && tasks[i].status == Completed && tasks[i].taskId == x;
      assert r[i] == tasks[i];
    }
    forall x | x in Effective(r) && x != id ensures x in Effective(tasks) {
      var i :| 0 <= i < |r| && r[i].status == Completed && r[i].taskId == x;
      assert r[i] == tasks[i];
    }
  }

  /** Setting a status keeps the invariant when no completion is undone and, for a status other
      than pending, the dependencies are accepted. */
  lemma SetStatusSound<I(!new)>(tasks: seq<DagTask<I>>, k: nat, status: Status)
    requires Sound(tasks) && k < |tasks|
    requires tasks[k].status != Completed
    requires status == Pending || DependenciesMet(tasks[k], Effective(tasks))
    ensures Sound(SetStatus(tasks, tasks[k].taskId, status))
  {
    var id := tasks[k].taskId;
    var r := SetStatus(tasks, id, status);
    SameShapeValid(tasks, r);
    assert Ids(tasks)[k] == id;
    SetStatusEffective(tasks, id, status);
    NotEffective(tasks, k);
    forall i | 0 <= i < |r| && r[i].status != Pending ensures DependenciesMet(r[i], Effective(r)) {
      assert i != k ==> Ids(tasks)[i] != Ids(tasks)[k];
    }
  }

  lemma NotEffective<I(!new)>(tasks: seq<DagTask<I>>, k: nat)
    requires Distinct(Ids(tasks)) && k < |tasks| && tasks[k].status != Completed
    ensures tasks[k].taskId !in Effective(tasks)
  {
    forall i | 0 <= i < |tasks| && i != k ensures tasks[i].taskId != tasks[k].taskId {
      assert Ids(tasks)[i] != Ids(tasks)[k];
    }
  }

  // --------------------------------------------------------------------------
  // Adding tasks
  // --------------------------------------------------------------------------

  ghost predicate AllPending<I(!new)>(tasks: seq<DagTask<I>>) {
    forall i :: 0 <= i < |tasks| ==> tasks[i].status == Pending
  }

  /** The started tasks of a list, as a set. */
  ghost function Started<I(!new)>(tasks: seq<DagTask<I>>): set<DagTask<I>> {
    set i | 0 <= i < |tasks| && tasks[i].status != Pending :: tasks[i]
  }

  lemma ReplacedStarted<I(!new)>(tasks: seq<DagTask<I>>, k: nat, task: DagTask<I>)
    requires k < |tasks| && task.status == Pending && tasks[k].status == Pending
    ensures Started(tasks[k := task]) == Started(tasks)
  {
    var r := tasks[k := task];
    forall t | t in Started(tasks) ensures t in Started(r) {
      var i :| 0 <= i < |tasks| && tasks[i].status != Pending && tasks[i] == t;
      assert r[i] == t;
    }
  }

  lemma AppendedStarted<I(!new)>(tasks: seq<DagTask<I>>, task: DagTask<I>)
    requires task.status == Pending
    ensures Started(tasks + [task]) == Started(tasks)
  {
    var r := tasks + [task];
    forall t | t in Started(tasks) ensures t in Started(r) {
      var i :| 0 <= i < |tasks| && tasks[i].status != Pending && tasks[i] == t;
      assert r[i] == t;
    }
  }

  lemma UpsertStarted<I(!new)>(tasks: seq<DagTask<I>>, task: DagTask<I>)
    requires task.status == Pending
    requires var k := IndexOf(tasks, task.taskId); k < |tasks| ==> tasks[k].status == Pending
    ensures Started(Upsert(tasks, task)) == Started(tasks)
  {
    hide Started;
    var k := IndexOf(tasks, task.taskId);
    if k == |tasks| {
      AppendedStarted(tasks, task);
    } else {
      ReplacedStarted(tasks, k, task);
    }
  }

  /** Adding or replacing pending tasks leaves the started ones as they are. */
  lemma {:induction false} AddAllStarted<I(!new)>(existing: seq<DagTask<I>>, payload: seq<DagTask<I>>)
    requires AllPending(payload) && AddAll(existing, payload).Ok?
    ensures Started(AddAll(existing, payload).value) == Started(existing)
  {
    if payload != [] {
      var n := |payload| - 1;
      AddAllStarted(existing, payload[..n]);
      var tasks := AddAll(existing, payload[..n]).value;
      UpsertStarted(tasks, payload[n]);
    }
  }

  lemma StartedGivesEffective<I(!new)>(a: seq<DagTask<I>>, b: seq<DagTask<I>>)
    requires Started(a) == Started(b)
    ensures Effective(a) == Effective(b)
  {
    EffectiveSubset(a, b);
    EffectiveSubset(b, a);
  }

  lemma EffectiveSubset<I(!new)>(a: seq<DagTask<I>>, b: seq<DagTask<I>>)
    requires Started(a) <= Started(b)
    ensures Effective(a) <= Effective(b)
  {
    forall x | x in Effective(a) ensures x in Effective(b) {
      var i :| 0 <= i < |a| && a[i].status == Completed && a[i].taskId == x;
      assert a[i] in Started(a);
      var j :| 0 <= j < |b| && b[j].status != Pending && b[j] == a[i];
    }
  }

  lemma AddAllSound<I(!new)>(existing: seq<DagTask<I>>, payload: seq<DagTask<I>>)
    requires Sound(existing) && AllPending(payload)
    requires AddAll(existing, payload).Ok? && ValidDag(AddAll(existing, payload).value)
    ensures Sound(AddAll(existing, payload).value)
  {
    var r := AddAll(existing, payload).value;
    AddAllStarted(existing, payload);
    StartedGivesEffective(existing, r);
    forall i | 0 <= i < |r| && r[i].status != Pending ensures DependenciesMet(r[i], Effective(r)) {
      assert r[i] in Started(r);
      var j :| 0 <= j < |existing| && existing[j].status != Pending && existing[j] == r[i];
    }
  }

  lemma UpsertContents<I(!new)>(tasks: seq<DagTask<I>>, task: DagTask<I>)
    requires Distinct(Ids(tasks))
    ensures Distinct(Ids(Upsert(tasks, task)))
    ensures forall t :: t in Upsert(tasks, task) <==> t == task || (t in tasks && t.taskId != task.taskId)
  {
    var k := IndexOf(tasks, task.taskId);
    var r := Upsert(tasks, task);
    if k == |tasks| {
      assert Ids(r) == Ids(tasks) + [task.taskId];
    } else {
      assert Ids(r) == Ids(tasks);
      forall t | t in tasks && t.taskId != task.taskId ensures t in r {
        var i :| 0 <= i < |tasks| && tasks[i] == t;
        assert r[i] == t;
      }
      forall t | t in r && t != task ensures t in tasks && t.taskId != task.taskId {
        var i :| 0 <= i < |r| && r[i] == t;
        assert i != k;
        assert Ids(tasks)[i] != Ids(tasks)[k];
      }
      assert r[k] == task;
    }
  }

  /** No payload task names a started task. */
  ghost predicate TouchesOnlyPending<I(!new)>(existing: seq<DagTask<I>>, payload: seq<DagTask<I>>) {
    forall t :: t in existing && t.taskId in Ids(payload) ==> t.status == Pending
  }

  lemma PayloadSplit<I(!new)>(existing: seq<DagTask<I>>, payload: seq<DagTask<I>>)
    requires payload != []
    ensures var n := |payload| - 1;
            && Ids(payload) == Ids(payload[..n]) + [payload[n].taskId]
            && payload == payload[..n] + [payload[n]]
            && (Distinct(Ids(payload)) <==> Distinct(Ids(payload[..n])) && payload[n].taskId !in Ids(payload[..n]))
            && (TouchesOnlyPending(existing, payload) <==>
                TouchesOnlyPending(existing, payload[..n])
                && forall t :: t in existing && t.taskId == payload[n].taskId ==> t.status == Pending)
  {
    var n := |payload| - 1;
    var front := Ids(payload[..n]);
    assert Ids(payload) == front + [payload[n].taskId];
    forall i | 0 <= i < n ensures Ids(payload)[i] == front[i] {
    }
  }

  lemma TaskWithId<I(!new)>(tasks: seq<DagTask<I>>, id: I)
    ensures var k := IndexOf(tasks, id); k < |tasks| ==> tasks[k] in tasks && tasks[k].taskId == id
    ensures Distinct(Ids(tasks)) ==> forall t :: t in tasks && t.taskId == id ==> IndexOf(tasks, id) < |tasks| && tasks[IndexOf(tasks, id)] == t
  {
    if Distinct(Ids(tasks)) {
      forall t | t in tasks && t.taskId == id ensures IndexOf(tasks, id) < |tasks| && tasks[IndexOf(tasks, id)] == t {
        var i :| 0 <= i < |tasks| && tasks[i] == t;
        IndexOfDistinct(tasks, i);
      }
    }
  }

  /** add_tasks accepts a payload, up to the graph check, exactly when its ids are distinct and
      none of them belongs to a started task; the result then holds the payload and what it did
      not replace. */
  lemma {:induction false} AddAllContents<I(!new)>(existing: seq<DagTask<I>>, payload: seq<DagTask<I>>)
    requires Distinct(Ids(existing)) && AllPending(payload)
    ensures AddAll(existing, payload).Ok? <==> Distinct(Ids(payload)) && TouchesOnlyPending(existing, payload)
    ensures AddAll(existing, payload).Ok? ==>
              && Distinct(Ids(AddAll(existing, payload).value))
              && forall t :: t in AddAll(existing, payload).value <==> t in payload || (t in existing && t.taskId !in Ids(payload))
  {
    if payload != [] {
      var n := |payload| - 1;
      var last := payload[n];
      AddAllContents(existing, payload[..n]);
      PayloadSplit(existing, payload);
      hide Distinct, TouchesOnlyPending, Upsert, Ids;
      if AddAll(existing, payload[..n]).Ok? {
        var tasks := AddAll(existing, payload[..n]).value;
        UpsertContents(tasks, last);
        TaskWithId(tasks, last.taskId);
        PayloadIds(payload[..n]);
      }
    }
  }

  lemma PayloadIds<I(!new)>(payload: seq<DagTask<I>>)
    ensures forall t :: t in payload ==> t.taskId in Ids(payload)
  {
    forall t | t in payload ensures t.taskId in Ids(payload) {
      var i :| 0 <= i < |payload| && payload[i] == t;
      assert Ids(payload)[i] == t.taskId;
    }
  }

  lemma {:induction false} DictOfDistinct<I(!new)>(tasks: seq<DagTask<I>>)
    requires Distinct(Ids(tasks))
    ensures ToDict(tasks) == tasks
  {
    if tasks != [] {
      var n := |tasks| - 1;
      assert Ids(tasks[..n]) == Ids(tasks)[..n];
      DictOfDistinct(tasks[..n]);
      forall i | 0 <= i < n ensures tasks[i].taskId != tasks[n].taskId {
        assert Ids(tasks)[i] != Ids(tasks)[n];
      }
      assert tasks == tasks[..n] + [tasks[n]];
    }
  }

  /** The last task of the list with this id: what a dictionary built from the list answers. */
  function LastWith<I(==,!new)>(tasks: seq<DagTask<I>>, id: I): Option<DagTask<I>> {
    if tasks == [] then None
    else if tasks[|tasks| - 1].taskId == id then Some(tasks[|tasks| - 1])
    else LastWith(tasks[..|tasks| - 1], id)
  }

  lemma UpsertIds<I(!new)>(tasks: seq<DagTask<I>>, task: DagTask<I>)
    ensures Ids(Upsert(tasks, task)) == if task.taskId in Ids(tasks) then Ids(tasks) else Ids(tasks) + [task.taskId]
  {
    var k := IndexOf(tasks, task.taskId);
    if k < |tasks| {
      assert Ids(tasks)[k] == task.taskId;
    }
  }

  lemma LastId<I(!new)>(tasks: seq<DagTask<I>>)
    requires tasks != []
    ensures Ids(tasks) == Ids(tasks[..|tasks| - 1]) + [tasks[|tasks| - 1].taskId]
  {
  }

  /** A dictionary lists the ids in the order of their first mention and holds the last task of
      each. */
  lemma {:induction false} DictIs<I(!new)>(tasks: seq<DagTask<I>>)
    ensures Ids(ToDict(tasks)) == Firsts(Ids(tasks)) && Distinct(Ids(ToDict(tasks)))
    ensures forall t :: t in ToDict(tasks) <==> LastWith(tasks, t.taskId) == Some(t)
  {
    hide Upsert, Firsts, Distinct, Ids;
    if tasks == [] {
      NoIds<I>();
    } else {
      var n := |tasks| - 1;
      DictIs(tasks[..n]);
      UpsertContents(ToDict(tasks[..n]), tasks[n]);
      UpsertIds(ToDict(tasks[..n]), tasks[n]);
      LastId(tasks);
      FirstsStep(Ids(tasks[..n]), tasks[n].taskId);
    }
  }

  lemma NoIds<I(!new)>()
    ensures Ids<I>([]) == [] && Firsts<I>([]) == [] && Distinct<I>([])
  {
  }

  lemma DictLookup<I(!new)>(tasks: seq<DagTask<I>>, id: I)
    ensures var dict := ToDict(tasks); var k := IndexOf(dict, id);
            LastWith(tasks, id) == if k < |dict| then Some(dict[k]) else None
  {
    hide ToDict, IndexOf, Distinct, Firsts;
    DictIs(tasks);
    var dict := ToDict(tasks);
    TaskWithId(dict, id);
    LastWithIs(tasks, id);
    if LastWith(tasks, id).Some? {
      assert LastWith(tasks, id).value in dict;
    }
  }

  lemma {:induction false} LastWithIs<I(!new)>(tasks: seq<DagTask<I>>, id: I)
    ensures LastWith(tasks, id).Some? ==> LastWith(tasks, id).value in tasks && LastWith(tasks, id).value.taskId == id
    ensures LastWith(tasks, id).None? <==> forall i :: 0 <= i < |tasks| ==> tasks[i].taskId != id
  {
    if tasks != [] {
      var n := |tasks| - 1;
      assert tasks == tasks[..n] + [tasks[n]];
      LastWithIs(tasks[..n], id);
    }
  }

  /** Adding keeps the places of known ids and puts new ones last, in the payload's order. */
  lemma {:induction false} AddAllIds<I(!new)>(existing: seq<DagTask<I>>, payload: seq<DagTask<I>>)
    requires Distinct(Ids(existing)) && AddAll(existing, payload).Ok?
    ensures Ids(AddAll(existing, payload).value) == Firsts(Ids(existing) + Ids(payload))
  {
    hide Upsert, Firsts, Distinct, Ids;
    if payload == [] {
      NoIds<I>();
      assert Ids(existing) + [] == Ids(existing);
      FirstsOfDistinct(Ids(existing));
    } else {
      var n := |payload| - 1;
      AddAllIds(existing, payload[..n]);
      LastId(payload);
      UpsertIds(AddAll(existing, payload[..n]).value, payload[n]);
      FirstsStep(Ids(existing) + Ids(payload[..n]), payload[n].taskId);
      assert Ids(existing) + Ids(payload) == (Ids(existing) + Ids(payload[..n])) + [payload[n].taskId];
    }
  }

  // --------------------------------------------------------------------------
  // Ready nodes and delegation
  // --------------------------------------------------------------------------

  lemma {:induction false} ReadyAmongHas<I(!new)>(tasks: seq<DagTask<I>>, effective: set<I>, t: DagTask<I>)
    ensures t in ReadyAmong(tasks, effective) <==> t in tasks && IsReady(t, effective)
  {
    hide IsReady;
    if tasks != [] {
      ReadyAmongHas(tasks[1..], effective, t);
      assert tasks == [tasks[0]] + tasks[1..];
    }
  }

  lemma ReadyIds<I(!new)>(tasks: seq<DagTask<I>>, id: I)
    ensures id in Ids(Ready(tasks)) <==> exists i :: 0 <= i < |tasks| && tasks[i].taskId == id && IsReady(tasks[i], Effective(tasks))
  {
    hide IsReady, ReadyAmong;
    var r := Ready(tasks);
    if id in Ids(r) {
      var k :| 0 <= k < |r| && Ids(r)[k] == id;
      ReadyAmongHas(tasks, Effective(tasks), r[k]);
      assert r[k] in tasks;
    }
    if i :| 0 <= i < |tasks| && tasks[i].taskId == id && IsReady(tasks[i], Effective(tasks)) {
      ReadyAmongHas(tasks, Effective(tasks), tasks[i]);
      var k :| 0 <= k < |r| && r[k] == tasks[i];
      assert Ids(r)[k] == id;
    }
  }

  lemma IndexOfDistinct<I(!new)>(tasks: seq<DagTask<I>>, i: nat)
    requires Distinct(Ids(tasks)) && i < |tasks|
    ensures IndexOf(tasks, tasks[i].taskId) == i
  {
    forall k | 0 <= k < i ensures tasks[k].taskId != tasks[i].taskId {
      assert Ids(tasks)[k] != Ids(tasks)[i];
    }
  }

  /** Delegation succeeds exactly on the ready nodes. */
  lemma DelegateIffReady<I(!new)>(tasks: seq<DagTask<I>>, id: I)
    requires Distinct(Ids(tasks))
    ensures Delegate(tasks, id).Ok? <==> id in Ids(Ready(tasks))
  {
    hide ReadyAmong, SetStatus, DependenciesMet;
    ReadyIds(tasks, id);
    var k := IndexOf(tasks, id);
    if i :| 0 <= i < |tasks| && tasks[i].taskId == id && IsReady(tasks[i], Effective(tasks)) {
      IndexOfDistinct(tasks, i);
    }
  }

  function WithoutId<I(==,!new)>(tasks: seq<DagTask<I>>, id: I): seq<DagTask<I>> {
    if tasks == [] then []
    else (if tasks[0].taskId == id then [] else [tasks[0]]) + WithoutId(tasks[1..], id)
  }

  lemma ReadyStep<I(!new)>(tasks: seq<DagTask<I>>, effective: set<I>)
    requires tasks != []
    ensures ReadyAmong(tasks, effective) ==
            if IsReady(tasks[0], effective) then [tasks[0]] + ReadyAmong(tasks[1..], effective)
            else ReadyAmong(tasks[1..], effective)
  {
    hide IsReady;
    var rest := ReadyAmong(tasks[1..], effective);
    assert [] + rest == rest;
  }

  lemma WithoutIdStep<I(!new)>(task: DagTask<I>, rest: seq<DagTask<I>>, id: I)
    ensures WithoutId([task] + rest, id) == if task.taskId == id then WithoutId(rest, id) else [task] + WithoutId(rest, id)
  {
    assert ([task] + rest)[1..] == rest;
    assert [] + WithoutId(rest, id) == WithoutId(rest, id);
  }

  lemma {:induction false} ReadyAfterStart<I(!new)>(tasks: seq<DagTask<I>>, id: I, status: Status, effective: set<I>)
    requires status != Pending
    ensures ReadyAmong(SetStatus(tasks, id, status), effective) == WithoutId(ReadyAmong(tasks, effective), id)
  {
    if tasks != [] {
      hide SetStatus, DependenciesMet, ReadyAmong, WithoutId;
      ReadyAfterStart(tasks[1..], id, status, effective);
      var started := SetStatus(tasks, id, status);
      assert started[1..] == SetStatus(tasks[1..], id, status);
      ReadyStep(tasks, effective);
      ReadyStep(started, effective);
      WithoutIdStep(tasks[0], ReadyAmong(tasks[1..], effective), id);
    }
  }

  /** A delegation changes one status only, keeps the graph valid and the invariant, and takes
      exactly the delegated node from the ready list. */
  lemma DelegateEffect<I(!new)>(tasks: seq<DagTask<I>>, id: I)
    requires ValidDag(tasks) && Delegate(tasks, id).Ok?
    ensures var r := Delegate(tasks, id).value;
            && r == SetStatus(tasks, id, Delegated)
            && ValidDag(r)
            && Effective(r) == Effective(tasks)
            && Ready(r) == WithoutId(Ready(tasks), id)
            && (StartedInOrder(tasks) ==> StartedInOrder(r))
  {
    hide ReadyAmong, WithoutId, ValidDag;
    var k := IndexOf(tasks, id);
    var r := SetStatus(tasks, id, Delegated);
    ValidHasDistinct(tasks);
    assert Ids(tasks)[k] == id;
    SetStatusEffective(tasks, id, Delegated);
    NotEffective(tasks, k);
    assert Effective(r) == Effective(tasks);
    ReadyAfterStart(tasks, id, Delegated, Effective(tasks));
    SameShapeValid(tasks, r);
    if StartedInOrder(tasks) {
      DelegateSound(tasks, k);
    }
  }

  lemma ValidHasDistinct<I(!new)>(tasks: seq<DagTask<I>>)
    requires ValidDag(tasks)
    ensures Distinct(Ids(tasks))
  {
  }

  lemma DelegateSound<I(!new)>(tasks: seq<DagTask<I>>, k: nat)
    requires Sound(tasks) && k < |tasks| && tasks[k].status == Pending && DependenciesMet(tasks[k], Effective(tasks))
    ensures StartedInOrder(SetStatus(tasks, tasks[k].taskId, Delegated))
  {
    SetStatusSound(tasks, k, Delegated);
  }

  // --------------------------------------------------------------------------
  // Runs
  // --------------------------------------------------------------------------

  datatype Board<I> = Board(tasks: seq<DagTask<I>>, paused: bool)

  datatype Step<I> =
    | Add(payload: seq<DagTask<I>>)
    | Hand(id: I)
    | Pause
    | Resume
    | Leader(id: I, status: Status)

  /** What each operation may do to a project. The Leader sets the status of a started task by
      hand, and never takes a completion back. */
  ghost predicate Next<I(!new)>(s: Board<I>, step: Step<I>, s': Board<I>) {
    match step
    case Add(payload) =>
      && AllPending(payload)
      && AddAll(ToDict(s.tasks), payload).Ok?
      && s' == s.(tasks := AddAll(ToDict(s.tasks), payload).value)
      && ValidDag(s'.tasks)
    case Hand(id) =>
      !s.paused && Delegate(s.tasks, id).Ok? && s' == s.(tasks := Delegate(s.tasks, id).value)
    case Pause => s' == s.(paused := true)
    case Resume => s' == s.(paused := false)
    case Leader(id, status) =>
      && (exists k :: 0 <= k < |s.tasks| && s.tasks[k].taskId == id && s.tasks[k].status != Pending && s.tasks[k].status != Completed)
      && s' == s.(tasks := SetStatus(s.tasks, id, status))
  }

  ghost predicate IsRun<I(!new)>(boards: seq<Board<I>>, steps: seq<Step<I>>) {
    && |boards| == |steps| + 1
    && forall i :: 0 <= i < |steps| ==> Next(boards[i], steps[i], boards[i + 1])
  }

  lemma NextSound<I(!new)>(s: Board<I>, step: Step<I>, s': Board<I>)
    requires Sound(s.tasks) && Next(s, step, s')
    ensures Sound(s'.tasks)
  {
    match step {
      case Add(payload) =>
        DictOfDistinct(s.tasks);
        AddAllSound(s.tasks, payload);
      case Hand(id) =>
        DelegateEffect(s.tasks, id);
      case Pause =>
      case Resume =>
      case Leader(id, status) =>
        var k :| 0 <= k < |s.tasks| && s.tasks[k].taskId == id && s.tasks[k].status != Pending && s.tasks[k].status != Completed;
        SetStatusSound(s.tasks, k, status);
    }
  }

  /** In every run from an empty graph, at every point, the graph is valid and every node that
      is not pending has all its dependencies completed. */
  lemma {:induction false} RunsAreSound<I(!new)>(boards: seq<Board<I>>, steps: seq<Step<I>>, n: nat)
    requires IsRun(boards, steps) && boards[0].tasks == [] && n < |boards|
    ensures ValidDag(boards[n].tasks)
    ensures forall i :: 0 <= i < |boards[n].tasks| && boards[n].tasks[i].status != Pending ==>
                          forall d :: d in boards[n].tasks[i].dependsOn ==>
                                        exists j :: 0 <= j < |boards[n].tasks| && boards[n].tasks[j].taskId == d
                                                    && boards[n].tasks[j].status == Completed
  {
    RunSound(boards, steps, n);
    var tasks := boards[n].tasks;
    forall i, d | 0 <= i < |tasks| && tasks[i].status != Pending && d in tasks[i].dependsOn
      ensures exists j :: 0 <= j < |tasks| && tasks[j].taskId == d && tasks[j].status == Completed
    {
      assert d in Effective(tasks);
    }
  }

  lemma EmptyIsSound<I(!new)>()
    ensures Sound<I>([])
  {
    assert IsTopologicalOrder<I>([], []);
  }

  lemma {:induction false} RunSound<I(!new)>(boards: seq<Board<I>>, steps: seq<Step<I>>, n: nat)
    requires IsRun(boards, steps) && boards[0].tasks == [] && n < |boards|
    ensures Sound(boards[n].tasks)
  {
    if n == 0 {
      EmptyIsSound<I>();
    } else {
      RunSound(boards, steps, n - 1);
      NextSound(boards[n - 1], steps[n - 1], boards[n]);
    }
  }

  // --------------------------------------------------------------------------
  // Finishing the graph
  // --------------------------------------------------------------------------

  ghost predicate Settled<I(!new)>(tasks: seq<DagTask<I>>) {
    forall i :: 0 <= i < |tasks| ==> tasks[i].status == Pending || tasks[i].status == Completed
  }

  function PendingCount<I>(tasks: seq<DagTask<I>>): nat {
    if tasks == [] then 0 else (if tasks[0].status == Pending then 1 else 0) + PendingCount(tasks[1..])
  }

  lemma {:induction false} PendingExists<I>(tasks: seq<DagTask<I>>)
    ensures PendingCount(tasks) > 0 <==> exists i :: 0 <= i < |tasks| && tasks[i].status == Pending
  {
    if tasks != [] {
      PendingExists(tasks[1..]);
      if i :| 0 <= i < |tasks[1..]| && tasks[1..][i].status == Pending {
        assert tasks[i + 1].status == Pending;
      }
      if i :| 0 <= i < |tasks| && tasks[i].status == Pending {
        assert i > 0 ==> tasks[1..][i - 1].status == Pending;
      }
    }
  }

  /** The first pending task of a topological order is ready. */
  lemma FirstPendingIsReady<I(!new)>(tasks: seq<DagTask<I>>, order: seq<I>, k: nat)
    requires Distinct(Ids(tasks)) && KnownDeps(tasks) && Settled(tasks) && IsTopologicalOrder(order, tasks)
    requires k < |tasks| && tasks[k].status == Pending
    requires exists p :: 0 <= p < |order| && order[p] == tasks[k].taskId
                         && forall i :: 0 <= i < |tasks| && tasks[i].taskId in order[..p] ==> tasks[i].status != Pending
    ensures IsReady(tasks[k], Effective(tasks))
  {
    var p :| 0 <= p < |order| && order[p] == tasks[k].taskId
             && forall i :: 0 <= i < |tasks| && tasks[i].taskId in order[..p] ==> tasks[i].status != Pending;
    forall d | d in tasks[k].dependsOn ensures d in Effective(tasks) {
      assert d in order[..p];
      assert d in Ids(tasks);
      var j :| 0 <= j < |tasks| && Ids(tasks)[j] == d;
      assert tasks[j].status == Completed;
    }
  }

  predicate PendingId<I(==,!new)>(tasks: seq<DagTask<I>>, id: I) {
    var k := IndexOf(tasks, id);
    k < |tasks| && tasks[k].status == Pending
  }

  lemma SomethingIsReady<I(!new)>(tasks: seq<DagTask<I>>)
    requires ValidDag(tasks) && Settled(tasks) && PendingCount(tasks) > 0
    ensures Ready(tasks) != []
  {
    var order :| IsTopologicalOrder(order, tasks);
    PendingExists(tasks);
    var k :| 0 <= k < |tasks| && tasks[k].status == Pending;
    IndexOfDistinct(tasks, k);
    var p := FirstIndex(order, id => PendingId(tasks, id));
    assert Ids(tasks)[k] in ToSet(Ids(tasks));
    assert tasks[k].taskId in order;
    assert p < |order|;
    var q := IndexOf(tasks, order[p]);
    forall i | 0 <= i < |tasks| && tasks[i].taskId in order[..p] ensures tasks[i].status != Pending {
      IndexOfDistinct(tasks, i);
      var m :| 0 <= m < p && order[m] == tasks[i].taskId;
      assert !PendingId(tasks, order[m]);
    }
    FirstPendingIsReady(tasks, order, q);
    ReadyAmongHas(tasks, Effective(tasks), tasks[q]);
  }

  /** One ready node is delegated and its work accepted. */
  function Round<I(==,!new)>(tasks: seq<DagTask<I>>, id: I): seq<DagTask<I>> {
    SetStatus(SetStatus(tasks, id, Delegated), id, Completed)
  }

  ghost predicate LegalRounds<I(!new)>(tasks: seq<DagTask<I>>, ids: seq<I>)
    decreases |ids|
  {
    ids == [] || (ids[0] in Ids(Ready(tasks)) && LegalRounds(Round(tasks, ids[0]), ids[1..]))
  }

  ghost function AfterRounds<I(!new)>(tasks: seq<DagTask<I>>, ids: seq<I>): seq<DagTask<I>>
    decreases |ids|
  {
    if ids == [] then tasks else AfterRounds(Round(tasks, ids[0]), ids[1..])
  }

  lemma {:induction false} RoundCounts<I(!new)>(tasks: seq<DagTask<I>>, k: nat)
    requires k < |tasks| && tasks[k].status == Pending
    requires forall i :: 0 <= i < |tasks| && i != k ==> tasks[i].taskId != tasks[k].taskId
    ensures PendingCount(Round(tasks, tasks[k].taskId)) + 1 == PendingCount(tasks)
  {
    var id := tasks[k].taskId;
    var r := Round(tasks, id);
    var rest := Round(tasks[1..], id);
    assert r[1..] == rest;
    if k > 0 {
      assert tasks[1..][k - 1] == tasks[k];
      forall i | 0 <= i < |tasks[1..]| && i != k - 1 ensures tasks[1..][i].taskId != id {
        assert tasks[1..][i] == tasks[i + 1];
      }
      RoundCounts(tasks[1..], k - 1);
    } else {
      forall i | 0 <= i < |rest| ensures rest[i] == tasks[1..][i] {
        assert tasks[1..][i] == tasks[i + 1];
      }
      assert rest == tasks[1..];
    }
  }

  lemma RoundKeeps<I(!new)>(tasks: seq<DagTask<I>>, id: I)
    requires ValidDag(tasks) && Settled(tasks) && id in Ids(Ready(tasks))
    ensures var r := Round(tasks, id);
            ValidDag(r) && Settled(r) && PendingCount(r) + 1 == PendingCount(tasks)
  {
    ReadyIds(tasks, id);
    var k :| 0 <= k < |tasks| && tasks[k].taskId == id && IsReady(tasks[k], Effective(tasks));
    SameShapeValid(tasks, Round(tasks, id));
    forall i | 0 <= i < |tasks| && i != k ensures tasks[i].taskId != id {
      assert Ids(tasks)[i] != Ids(tasks)[k];
    }
    RoundCounts(tasks, k);
  }

  /** Any choice of ready nodes, delegated and accepted one after the other, can be continued
      until the whole graph is complete, and then took as many delegations as there were
      pending nodes. */
  lemma {:induction false} RoundsFinish<I(!new)>(tasks: seq<DagTask<I>>, ids: seq<I>)
    requires ValidDag(tasks) && Settled(tasks) && LegalRounds(tasks, ids)
    ensures var r := AfterRounds(tasks, ids);
            && PendingCount(r) + |ids| == PendingCount(tasks)
            && (Ready(r) == [] <==> |ids| == PendingCount(tasks))
            && (Ready(r) == [] ==> forall i :: 0 <= i < |r| ==> r[i].status == Completed)
    decreases |ids|
  {
    hide ValidDag, Settled, Ready, Round, PendingCount;
    if ids == [] {
      FinishedOrReady(tasks);
    } else {
      RoundKeeps(tasks, ids[0]);
      RoundsFinish(Round(tasks, ids[0]), ids[1..]);
    }
  }

  lemma FinishedOrReady<I(!new)>(tasks: seq<DagTask<I>>)
    requires ValidDag(tasks) && Settled(tasks)
    ensures Ready(tasks) == [] <==> PendingCount(tasks) == 0
    ensures Ready(tasks) == [] ==> forall i :: 0 <= i < |tasks| ==> tasks[i].status == Completed
  {
    PendingExists(tasks);
    if PendingCount(tasks) > 0 {
      SomethingIsReady(tasks);
    } else if Ready(tasks) != [] {
      ReadyAmongHas(tasks, Effective(tasks), Ready(tasks)[0]);
    }
  }
}
