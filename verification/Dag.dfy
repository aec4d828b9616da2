/** The task graph of a project plan and the check that accepts or rejects it
    (validate_dag in copaw/src/copaw_worker/task.py). */
module Dag {
  import opened Text
  import opened Lists

  datatype Status = Pending | Delegated | Completed | Blocked | Revision

  /** A graph node. The checker only compares ids, so their type is a parameter; plans use
      strings. */
  datatype DagTask<I> = DagTask(
    taskId: I,
    title: string,
    assignedTo: string,
    dependsOn: seq<I>,
    status: Status)

  datatype DagError<I> =
    | DuplicateIds
    | UnknownDependency(taskId: I, missing: seq<I>)
    | Cycle

  function Ids<I(==,!new)>(tasks: seq<DagTask<I>>): (ids: seq<I>)
    ensures |ids| == |tasks|
    ensures forall i :: 0 <= i < |tasks| ==> ids[i] == tasks[i].taskId
  {
    seq(|tasks|, i requires 0 <= i < |tasks| => tasks[i].taskId)
  }

  function ToSet<T>(xs: seq<T>): set<T> {
    set x | x in xs
  }

  predicate KnownDeps<I(==,!new)>(tasks: seq<DagTask<I>>) {
    forall i, d :: 0 <= i < |tasks| && d in tasks[i].dependsOn ==> d in Ids(tasks)
  }

  /** An order of all task ids in which every task comes after everything it depends on. */
  predicate IsTopologicalOrder<I(==,!new)>(order: seq<I>, tasks: seq<DagTask<I>>) {
    && Distinct(order)
    && ToSet(order) == ToSet(Ids(tasks))
    && forall i, k :: 0 <= i < |tasks| && 0 <= k < |order| && order[k] == tasks[i].taskId ==>
         forall d :: d in tasks[i].dependsOn ==> d in order[..k]
  }

  ghost predicate Acyclic<I(!new)>(tasks: seq<DagTask<I>>) {
    exists order :: IsTopologicalOrder(order, tasks)
  }

  ghost predicate ValidDag<I(!new)>(tasks: seq<DagTask<I>>) {
    Distinct(Ids(tasks)) && KnownDeps(tasks) && Acyclic(tasks)
  }

  /** A non-empty set of nodes, each of which waits for a member of the set. */
  predicate Deadlocked<I(==,!new)>(nodes: set<I>, tasks: seq<DagTask<I>>) {
    && nodes != {}
    && nodes <= ToSet(Ids(tasks))
    && forall i {:trigger DependsOnSome(tasks[i], nodes)} ::
         0 <= i < |tasks| && tasks[i].taskId in nodes ==> DependsOnSome(tasks[i], nodes)
  }

  predicate DependsOnSome<I(==,!new)>(task: DagTask<I>, nodes: set<I>) {
    exists d :: d in task.dependsOn && d in nodes
  }

  // --------------------------------------------------------------------------
  // Counting
  // --------------------------------------------------------------------------

  /** How many entries of deps are not yet done; a repeated entry counts again. */
  function Unmet<I(==,!new)>(deps: seq<I>, done: set<I>): nat {
    if deps == [] then 0 else (if deps[0] in done then 0 else 1) + Unmet(deps[1..], done)
  }

  lemma UnmetOfNothingDone<I(!new)>(deps: seq<I>)
    ensures Unmet(deps, {}) == |deps|
  {
  }

  lemma UnmetZero<I(!new)>(deps: seq<I>, done: set<I>)
    ensures Unmet(deps, done) == 0 <==> forall d :: d in deps ==> d in done
  {
    if deps != [] {
      assert deps == [deps[0]] + deps[1..];
      UnmetZero(deps[1..], done);
    }
  }

  lemma {:induction false} UnmetStep<I(!new)>(deps: seq<I>, done: set<I>, c: I)
    requires c !in done
    ensures Unmet(deps, done + {c}) + multiset(deps)[c] == Unmet(deps, done)
  {
    if deps != [] {
      assert deps == [deps[0]] + deps[1..];
      UnmetStep(deps[1..], done, c);
    }
  }

  lemma {:induction false} DistinctCardinality<T>(xs: seq<T>)
    ensures |ToSet(xs)| <= |xs|
    ensures |ToSet(xs)| == |xs| <==> Distinct(xs)
  {
    if xs != [] {
      var n := |xs| - 1;
      var front := xs[..n];
      DistinctCardinality(front);
      assert xs == front + [xs[n]];
      if xs[n] in front {
        assert ToSet(xs) == ToSet(front);
      } else {
        assert ToSet(xs) == ToSet(front) + {xs[n]};
      }
    }
  }

  lemma PrefixCount<T>(s: seq<T>, j: nat, x: T)
    requires j < |s|
    ensures multiset(s[..j + 1])[x] == multiset(s[..j])[x] + if s[j] == x then 1 else 0
    ensures multiset(s[..j + 1])[x] <= multiset(s)[x]
  {
    assert s[..j + 1] == s[..j] + [s[j]];
    assert s == s[..j + 1] + s[j + 1..];
  }

  // --------------------------------------------------------------------------
  // The graph as dictionaries
  // --------------------------------------------------------------------------

  type Graph<I> = map<I, seq<I>>

  function GraphOf<I(==,!new)>(tasks: seq<DagTask<I>>): (g: Graph<I>)
    ensures g.Keys == ToSet(Ids(tasks))
    ensures Distinct(Ids(tasks)) ==> forall i :: 0 <= i < |tasks| ==> g[tasks[i].taskId] == tasks[i].dependsOn
  {
    if tasks == [] then map[]
    else
      var n := |tasks| - 1;
      assert Ids(tasks) == Ids(tasks[..n]) + [tasks[n].taskId];
      GraphOf(tasks[..n])[tasks[n].taskId := tasks[n].dependsOn]
  }

  ghost predicate Represents<I(!new)>(g: Graph<I>, tasks: seq<DagTask<I>>) {
    && Distinct(Ids(tasks))
    && g.Keys == ToSet(Ids(tasks))
    && forall i :: 0 <= i < |tasks| ==> g[tasks[i].taskId] == tasks[i].dependsOn
  }

  /** outgoing lists, for each node, its dependents, once per dependency entry. */
  ghost predicate Reversed<I(!new)>(outgoing: Graph<I>, g: Graph<I>) {
    && outgoing.Keys == g.Keys
    && (forall d, x :: d in g && x in outgoing[d] ==> x in g)
    && (forall d, x :: d in g && x in g ==> multiset(outgoing[d])[x] == multiset(g[x])[d])
  }

  method BuildIncoming<I(==,!new)>(tasks: seq<DagTask<I>>, ghost g: Graph<I>) returns (incoming: map<I, int>)
    requires Represents(g, tasks)
    ensures incoming.Keys == g.Keys
    ensures forall x :: x in incoming ==> incoming[x] == |g[x]|
  {
    incoming := map[];
    for n := 0 to |tasks|
      invariant incoming.Keys == ToSet(Ids(tasks[..n]))
      invariant forall i :: 0 <= i < n ==> tasks[i].taskId in incoming && incoming[tasks[i].taskId] == |tasks[i].dependsOn|
    {
      assert Ids(tasks[..n + 1]) == Ids(tasks[..n]) + [tasks[n].taskId];
      assert forall i :: 0 <= i < n ==> Ids(tasks)[i] != Ids(tasks)[n];
      incoming := incoming[tasks[n].taskId := |tasks[n].dependsOn|];
    }
    assert tasks[..|tasks|] == tasks;
  }

  /** Dependency entries of the tasks before position n, and the first j entries of task n,
      have been entered. */
  ghost predicate Entered<I(!new)>(outgoing: Graph<I>, tasks: seq<DagTask<I>>, n: nat, j: nat) {
    && outgoing.Keys == ToSet(Ids(tasks))
    && (forall d, x :: d in outgoing && x in outgoing[d] ==> x in Ids(tasks))
    && forall d, i {:trigger Entries(tasks, i, n, j, d)} :: d in outgoing && 0 <= i < |tasks| ==>
         multiset(outgoing[d])[tasks[i].taskId] == Entries(tasks, i, n, j, d)
  }

  ghost function Entries<I(!new)>(tasks: seq<DagTask<I>>, i: nat, n: nat, j: nat, d: I): nat
    requires i < |tasks|
  {
    var deps := tasks[i].dependsOn;
    if i < n then multiset(deps)[d] else if i == n then multiset(deps[..if j <= |deps| then j else |deps|])[d] else 0
  }

  lemma EnterOne<I(!new)>(outgoing: Graph<I>, tasks: seq<DagTask<I>>, n: nat, j: nat)
    requires Distinct(Ids(tasks)) && KnownDeps(tasks)
    requires n < |tasks| && j < |tasks[n].dependsOn|
    requires Entered(outgoing, tasks, n, j)
    ensures tasks[n].dependsOn[j] in outgoing
    ensures var d := tasks[n].dependsOn[j];
            Entered(outgoing[d := outgoing[d] + [tasks[n].taskId]], tasks, n, j + 1)
  {
    var deps := tasks[n].dependsOn;
    var dep := deps[j];
    assert dep in deps;
    var outgoing' := outgoing[dep := outgoing[dep] + [tasks[n].taskId]];
    forall d, i {:trigger Entries(tasks, i, n, j + 1, d)} | d in outgoing' && 0 <= i < |tasks|
      ensures multiset(outgoing'[d])[tasks[i].taskId] == Entries(tasks, i, n, j + 1, d)
    {
      PrefixCount(deps, j, d);
      assert multiset(outgoing[d])[tasks[i].taskId] == Entries(tasks, i, n, j, d);
      assert i != n ==> Ids(tasks)[i] != Ids(tasks)[n];
    }
  }

  lemma EnterTask<I(!new)>(outgoing: Graph<I>, tasks: seq<DagTask<I>>, n: nat)
    requires n < |tasks| && Entered(outgoing, tasks, n, |tasks[n].dependsOn|)
    ensures Entered(outgoing, tasks, n + 1, 0)
  {
    forall d, i {:trigger Entries(tasks, i, n + 1, 0, d)} | d in outgoing && 0 <= i < |tasks|
      ensures multiset(outgoing[d])[tasks[i].taskId] == Entries(tasks, i, n + 1, 0, d)
    {
      var deps := tasks[n].dependsOn;
      assert deps[..|deps|] == deps;
      assert multiset(outgoing[d])[tasks[i].taskId] == Entries(tasks, i, n, |deps|, d);
    }
  }

  lemma EnteredAll<I(!new)>(outgoing: Graph<I>, tasks: seq<DagTask<I>>, g: Graph<I>)
    requires Represents(g, tasks) && Entered(outgoing, tasks, |tasks|, 0)
    ensures Reversed(outgoing, g)
  {
    forall d, x | d in g && x in g
      ensures multiset(outgoing[d])[x] == multiset(g[x])[d]
    {
      var i :| 0 <= i < |tasks| && Ids(tasks)[i] == x;
      assert multiset(outgoing[d])[tasks[i].taskId] == Entries(tasks, i, |tasks|, 0, d);
    }
  }

  method BuildOutgoing<I(==,!new)>(tasks: seq<DagTask<I>>, ghost g: Graph<I>) returns (outgoing: Graph<I>)
    requires Represents(g, tasks) && KnownDeps(tasks)
    ensures Reversed(outgoing, g)
  {
    var ids := Ids(tasks);
    outgoing := map x | x in ids :: [];
    for n := 0 to |tasks|
      invariant Entered(outgoing, tasks, n, 0)
    {
      var deps := tasks[n].dependsOn;
      for j := 0 to |deps|
        invariant Entered(outgoing, tasks, n, j)
      {
        EnterOne(outgoing, tasks, n, j);
        outgoing := outgoing[deps[j] := outgoing[deps[j]] + [ids[n]]];
      }
      EnterTask(outgoing, tasks, n);
    }
    EnteredAll(outgoing, tasks, g);
  }

  // --------------------------------------------------------------------------
  // Draining the queue
  // --------------------------------------------------------------------------

  /** Every node of order comes after its dependencies. */
  ghost predicate Respects<I(!new)>(order: seq<I>, g: Graph<I>) {
    forall k :: 0 <= k < |order| ==> order[k] in g && forall d :: d in g[order[k]] ==> d in order[..k]
  }

  /** x waits for a dependency that is not in order. */
  ghost predicate Waits<I(!new)>(g: Graph<I>, order: seq<I>, x: I)
    requires x in g
  {
    exists d :: d in g[x] && d !in order
  }

  ghost predicate AllOthersWait<I(!new)>(g: Graph<I>, order: seq<I>) {
    forall x {:trigger Waits(g, order, x)} :: x in g && x !in order ==> Waits(g, order, x)
  }

  /** Bookkeeping between two rounds: counters count unmet dependencies, and the nodes seen
      are exactly those whose counter is zero. */
  ghost predicate Accounted<I(!new)>(g: Graph<I>, incoming: map<I, int>, order: seq<I>, queue: seq<I>, done: set<I>) {
    && incoming.Keys == g.Keys
    && (forall x {:trigger Unmet(g[x], done)} :: x in g ==> incoming[x] == Unmet(g[x], done))
    && Distinct(order + queue)
    && (forall x :: x in order + queue <==> x in g && incoming[x] == 0)
  }

  /** A dependent's counter is still positive when its next release comes up. */
  lemma CounterPositive<I(!new)>(g: Graph<I>, outgoing: Graph<I>, current: I, done: set<I>, j: nat)
    requires Reversed(outgoing, g) && current in g && current !in done && j < |outgoing[current]|
    ensures outgoing[current][j] in g
    ensures multiset(outgoing[current][..j])[outgoing[current][j]] < Unmet(g[outgoing[current][j]], done)
  {
    var child := outgoing[current][j];
    assert child in outgoing[current];
    PrefixCount(outgoing[current], j, child);
    UnmetStep(g[child], done, current);
  }

  /** The first j dependents of the finished node current have been told. */
  ghost predicate HalfReleased<I(!new)>(g: Graph<I>, children: seq<I>, incoming: map<I, int>, seen: seq<I>, done: set<I>, j: nat)
    requires j <= |children|
  {
    && incoming.Keys == g.Keys
    && (forall x {:trigger Unmet(g[x], done)} ::
          x in g ==> incoming[x] == Unmet(g[x], done) - multiset(children[..j])[x])
    && Distinct(seen)
    && (forall x :: x in seen <==> x in g && incoming[x] == 0)
  }

  lemma ReleaseStarts<I(!new)>(g: Graph<I>, children: seq<I>, incoming: map<I, int>, order: seq<I>, current: I, queue: seq<I>, done: set<I>)
    requires Accounted(g, incoming, order, [current] + queue, done)
    ensures HalfReleased(g, children, incoming, (order + [current]) + queue, done, 0)
  {
    assert order + ([current] + queue) == (order + [current]) + queue;
  }

  lemma ReleaseOne<I(!new)>(g: Graph<I>, outgoing: Graph<I>, incoming: map<I, int>, seen: seq<I>, current: I, done: set<I>, j: nat)
    requires Reversed(outgoing, g) && current in g && current !in done && j < |outgoing[current]|
    requires HalfReleased(g, outgoing[current], incoming, seen, done, j)
    ensures outgoing[current][j] in incoming
    ensures var child := outgoing[current][j];
            var incoming' := incoming[child := incoming[child] - 1];
            HalfReleased(g, outgoing[current], incoming', if incoming'[child] == 0 then seen + [child] else seen, done, j + 1)
  {
    hide Distinct, Unmet, Reversed;
    SameNodes(outgoing, g);
    var children := outgoing[current];
    var child := children[j];
    CounterPositive(g, outgoing, current, done, j);
    assert incoming[child] == Unmet(g[child], done) - multiset(children[..j])[child];
    assert incoming[child] >= 1 && child !in seen;
    var incoming' := incoming[child := incoming[child] - 1];
    forall x {:trigger Unmet(g[x], done)} | x in g
      ensures incoming'[x] == Unmet(g[x], done) - multiset(children[..j + 1])[x]
    {
      PrefixCount(children, j, x);
    }
    AppendDistinct(seen, child);
    SeenAfter(g, incoming, seen, child);
  }

  lemma SameNodes<I(!new)>(outgoing: Graph<I>, g: Graph<I>)
    requires Reversed(outgoing, g)
    ensures outgoing.Keys == g.Keys
  {
  }

  /** A counter that reaches zero is seen from then on. */
  lemma SeenAfter<I(!new)>(g: Graph<I>, incoming: map<I, int>, seen: seq<I>, child: I)
    requires incoming.Keys == g.Keys && child in g && incoming[child] >= 1
    requires forall x :: x in seen <==> x in g && incoming[x] == 0
    ensures var incoming' := incoming[child := incoming[child] - 1];
            forall x :: x in (if incoming'[child] == 0 then seen + [child] else seen) <==> x in g && incoming'[x] == 0
  {
  }

  lemma AppendDistinct<T>(xs: seq<T>, x: T)
    requires Distinct(xs) && x !in xs
    ensures Distinct(xs + [x])
    ensures forall y :: y in xs + [x] <==> y in xs || y == x
  {
  }

  lemma AllReleased<I(!new)>(g: Graph<I>, outgoing: Graph<I>, incoming: map<I, int>, order: seq<I>, queue: seq<I>, current: I)
    requires Reversed(outgoing, g) && current in g && current !in order
    requires HalfReleased(g, outgoing[current], incoming, (order + [current]) + queue, ToSet(order), |outgoing[current]|)
    ensures Accounted(g, incoming, order + [current], queue, ToSet(order + [current]))
  {
    var children, done := outgoing[current], ToSet(order);
    assert children[..|children|] == children;
    forall x {:trigger Unmet(g[x], done + {current})} | x in g
      ensures incoming[x] == Unmet(g[x], done + {current})
    {
      UnmetStep(g[x], done, current);
    }
    assert ToSet(order + [current]) == done + {current};
  }

  /** The inner loop: one finished node releases its dependents. */
  method Release<I(==,!new)>(ghost g: Graph<I>, incoming0: map<I, int>, outgoing: Graph<I>, queue0: seq<I>,
                 current: I, ghost order: seq<I>)
    returns (incoming: map<I, int>, queue: seq<I>)
    requires Reversed(outgoing, g) && current in g
    requires current !in order
    requires Accounted(g, incoming0, order, [current] + queue0, ToSet(order))
    ensures Accounted(g, incoming, order + [current], queue, ToSet(order + [current]))
  {
    hide Accounted, HalfReleased, Distinct;
    var children := outgoing[current];
    incoming, queue := incoming0, queue0;
    ReleaseStarts(g, children, incoming, order, current, queue, ToSet(order));
    for j := 0 to |children|
      invariant HalfReleased(g, children, incoming, (order + [current]) + queue, ToSet(order), j)
    {
      var child := children[j];
      ReleaseOne(g, outgoing, incoming, (order + [current]) + queue, current, ToSet(order), j);
      incoming := incoming[child := incoming[child] - 1];
      if incoming[child] == 0 {
        assert ((order + [current]) + queue) + [child] == (order + [current]) + (queue + [child]);
        queue := queue + [child];
      }
    }
    AllReleased(g, outgoing, incoming, order, queue, current);
  }

  /** Whoever stands first in the queue has all its dependencies behind it. */
  lemma HeadIsFree<I(!new)>(g: Graph<I>, incoming: map<I, int>, order: seq<I>, queue: seq<I>)
    requires queue != [] && Accounted(g, incoming, order, queue, ToSet(order))
    requires Respects(order, g)
    ensures queue[0] in g && queue[0] !in order
    ensures Respects(order + [queue[0]], g)
    ensures |order| < |g.Keys|
  {
    var current := queue[0];
    assert (order + queue)[|order|] == current;
    assert forall i :: 0 <= i < |order| ==> (order + queue)[i] == order[i];
    UnmetZero(g[current], ToSet(order));
    var order' := order + [current];
    forall k | 0 <= k < |order'| ensures order'[k] in g && forall d :: d in g[order'[k]] ==> d in order'[..k] {
      assert order'[..k] == order[..k];
    }
    assert order' + queue[1..] == order + queue;
    DistinctPrefix(order', queue[1..]);
    OrderBound(g, order');
  }

  lemma QueueIsEmpty<I(!new)>(g: Graph<I>, incoming: map<I, int>, order: seq<I>)
    requires Accounted(g, incoming, order, [], ToSet(order))
    ensures Distinct(order) && AllOthersWait(g, order)
  {
    assert order + [] == order;
    forall x {:trigger Waits(g, order, x)} | x in g && x !in order ensures Waits(g, order, x) {
      UnmetZero(g[x], ToSet(order));
    }
  }

  lemma DistinctPrefix<T>(a: seq<T>, b: seq<T>)
    requires Distinct(a + b)
    ensures Distinct(a)
  {
    assert forall i :: 0 <= i < |a| ==> a[i] == (a + b)[i];
  }

  lemma NothingDrained<I(!new)>(g: Graph<I>)
    ensures Respects([], g) && ToSet<I>([]) == {}
  {
  }

  method Drain<I(==,!new)>(ghost g: Graph<I>, incoming0: map<I, int>, outgoing: Graph<I>, queue0: seq<I>)
    returns (visited: nat, ghost order: seq<I>)
    requires Reversed(outgoing, g)
    requires Accounted(g, incoming0, [], queue0, {})
    ensures visited == |order| && Distinct(order) && Respects(order, g)
    ensures AllOthersWait(g, order)
  {
    hide Accounted, Respects, Reversed, AllOthersWait, Distinct;
    var incoming, queue := incoming0, queue0;
    visited, order := 0, [];
    NothingDrained(g);
    while queue != []
      invariant visited == |order|
      invariant Accounted(g, incoming, order, queue, ToSet(order))
      invariant Respects(order, g)
      decreases |g.Keys| - |order|
    {
      var current := queue[0];
      HeadIsFree(g, incoming, order, queue);
      assert queue == [current] + queue[1..];
      incoming, queue := Release(g, incoming, outgoing, queue[1..], current, order);
      visited := visited + 1;
      order := order + [current];
    }
    QueueIsEmpty(g, incoming, order);
  }

  lemma SubsetSize<T>(a: set<T>, b: set<T>)
    requires a <= b
    ensures |a| <= |b|
    ensures |a| == |b| ==> a == b
  {
    if a != {} {
      var x :| x in a;
      SubsetSize(a - {x}, b - {x});
    }
  }

  // --------------------------------------------------------------------------
  // validate_dag
  // --------------------------------------------------------------------------

  function MissingDeps<I(==,!new)>(deps: seq<I>, known: set<I>): (r: seq<I>)
    ensures r == [] <==> forall d :: d in deps ==> d in known
    ensures forall d :: d in r <==> d in deps && d !in known
  {
    if deps == [] then []
    else
      assert deps == [deps[0]] + deps[1..];
      (if deps[0] in known then [] else [deps[0]]) + MissingDeps(deps[1..], known)
  }

  /** The first task with unknown dependencies is at position i and lacks exactly those. */
  predicate FirstUnknown<I(==,!new)>(tasks: seq<DagTask<I>>, i: int, id: I, missing: seq<I>) {
    && 0 <= i < |tasks|
    && KnownDepsBefore(tasks, i)
    && tasks[i].taskId == id
    && missing == MissingDeps(tasks[i].dependsOn, ToSet(Ids(tasks)))
    && missing != []
  }

  method CheckDeps<I(==,!new)>(tasks: seq<DagTask<I>>) returns (r: Result<(), DagError<I>>)
    ensures r.Ok? <==> KnownDeps(tasks)
    ensures r.Err? ==> r.error.UnknownDependency?
                       && exists i :: FirstUnknown(tasks, i, r.error.taskId, r.error.missing)
  {
    var known := ToSet(Ids(tasks));
    for i := 0 to |tasks|
      invariant KnownDepsBefore(tasks, i)
    {
      var missing := MissingDeps(tasks[i].dependsOn, known);
      if missing != [] {
        assert missing[0] in missing;
        assert FirstUnknown(tasks, i, tasks[i].taskId, missing);
        return Err(UnknownDependency(tasks[i].taskId, missing));
      }
    }
    return Ok(());
  }

  /** No task before position n has an unknown dependency. */
  predicate KnownDepsBefore<I(==,!new)>(tasks: seq<DagTask<I>>, n: int) {
    forall i, d :: 0 <= i < n && i < |tasks| && d in tasks[i].dependsOn ==> d in Ids(tasks)
  }

  /** A deadlocked set rules out every topological order: its first member in the order
      would have to come after another member. */
  lemma DeadlockMeansNoOrder<I(!new)>(tasks: seq<DagTask<I>>, nodes: set<I>, order: seq<I>)
    requires Deadlocked(nodes, tasks)
    ensures !IsTopologicalOrder(order, tasks)
  {
    var k := FirstIndex(order, y => y in nodes);
    if k == |order| {
      var x :| x in nodes;
      assert x !in ToSet(order);
      assert x in ToSet(Ids(tasks));
    } else {
      assert order[k] in ToSet(Ids(tasks));
      assert order[k] in ToSet(order);
      var i :| 0 <= i < |tasks| && Ids(tasks)[i] == order[k];
      assert DependsOnSome(tasks[i], nodes);
      var d :| d in tasks[i].dependsOn && d in nodes;
      assert d !in order[..k];
    }
  }

  /** Enumerating distinct nodes of the graph takes at most as many steps as there are nodes. */
  lemma OrderBound<I(!new)>(g: Graph<I>, order: seq<I>)
    requires Distinct(order) && forall k :: 0 <= k < |order| ==> order[k] in g
    ensures |order| <= |g.Keys|
    ensures |order| == |g.Keys| ==> ToSet(order) == g.Keys
    ensures |order| != |g.Keys| ==> g.Keys - ToSet(order) != {}
  {
    DistinctCardinality(order);
    forall x | x in ToSet(order) ensures x in g {
      var k :| 0 <= k < |order| && order[k] == x;
    }
    SubsetSize(ToSet(order), g.Keys);
    if g.Keys - ToSet(order) == {} {
      forall x | x in g.Keys ensures x in ToSet(order) {
        assert x !in g.Keys - ToSet(order);
      }
      assert ToSet(order) == g.Keys;
    }
  }

  lemma DrainedAll<I(!new)>(tasks: seq<DagTask<I>>, g: Graph<I>, order: seq<I>)
    requires Represents(g, tasks) && Distinct(order) && Respects(order, g)
    requires |order| == |tasks|
    ensures IsTopologicalOrder(order, tasks)
  {
    DistinctCardinality(Ids(tasks));
    OrderBound(g, order);
  }

  lemma DrainedSome<I(!new)>(tasks: seq<DagTask<I>>, g: Graph<I>, order: seq<I>)
    requires Represents(g, tasks) && KnownDeps(tasks) && Distinct(order) && Respects(order, g)
    requires AllOthersWait(g, order)
    requires |order| != |tasks|
    ensures Deadlocked(ToSet(Ids(tasks)) - ToSet(order), tasks)
  {
    DistinctCardinality(Ids(tasks));
    OrderBound(g, order);
    var rest := g.Keys - ToSet(order);
    forall i {:trigger DependsOnSome(tasks[i], rest)} | 0 <= i < |tasks| && tasks[i].taskId in rest
      ensures DependsOnSome(tasks[i], rest)
    {
      var x := tasks[i].taskId;
      assert Waits(g, order, x);
      var d :| d in g[x] && d !in order;
      assert d in Ids(tasks);
    }
  }

  /** Accepts exactly the valid graphs. The order in which nodes leave the queue is a
      topological order; a cycle report comes with a deadlocked set. */
  method ValidateDag<I(==,!new)>(tasks: seq<DagTask<I>>)
    returns (r: Result<(), DagError<I>>, ghost order: seq<I>, ghost waiting: set<I>)
    ensures r.Ok? <==> ValidDag(tasks)
    ensures r.Ok? ==> IsTopologicalOrder(order, tasks)
    ensures r.Err? ==>
              match r.error
              case DuplicateIds => !Distinct(Ids(tasks))
              case UnknownDependency(id, missing) =>
                Distinct(Ids(tasks)) && exists i :: FirstUnknown(tasks, i, id, missing)
              case Cycle => Distinct(Ids(tasks)) && KnownDeps(tasks) && Deadlocked(waiting, tasks)
  {
    order, waiting := [], {};
    var ids := Ids(tasks);
    DistinctCardinality(ids);
    if |ids| != |ToSet(ids)| {
      return Err(DuplicateIds), order, waiting;
    }
    var deps := CheckDeps(tasks);
    if deps.Err? {
      return Err(deps.error), order, waiting;
    }
    ghost var g := GraphOf(tasks);
    var incoming := BuildIncoming(tasks, g);
    var outgoing := BuildOutgoing(tasks, g);
    var queue := InitialQueue(tasks, incoming, g);
    var visited;
    visited, order := Drain(g, incoming, outgoing, queue);
    if visited != |tasks| {
      DrainedSome(tasks, g, order);
      waiting := ToSet(ids) - ToSet(order);
      forall o ensures !IsTopologicalOrder(o, tasks) { DeadlockMeansNoOrder(tasks, waiting, o); }
      return Err(Cycle), order, waiting;
    }
    DrainedAll(tasks, g, order);
    return Ok(()), order, waiting;
  }

  method InitialQueue<I(==,!new)>(tasks: seq<DagTask<I>>, incoming: map<I, int>, ghost g: Graph<I>)
    returns (queue: seq<I>)
    requires Represents(g, tasks)
    requires incoming.Keys == g.Keys
    requires forall x :: x in incoming ==> incoming[x] == |g[x]|
    ensures Accounted(g, incoming, [], queue, {})
  {
    var ids := Ids(tasks);
    queue := [];
    for n := 0 to |ids|
      invariant Distinct(queue)
      invariant forall x :: x in queue <==> x in ids[..n] && incoming[x] == 0
    {
      assert ids[..n + 1] == ids[..n] + [ids[n]];
      assert ids[n] !in ids[..n];
      if incoming[ids[n]] == 0 {
        queue := queue + [ids[n]];
      }
    }
    assert ids[..|ids|] == ids;
    assert [] + queue == queue;
    forall x {:trigger Unmet(g[x], {})} | x in incoming
      ensures incoming[x] == Unmet(g[x], {})
    {
      UnmetOfNothingDone(g[x]);
    }
  }
}
