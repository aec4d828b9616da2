/** The overlay of controller fields over the worker's agent.json
    (copaw/src/copaw_worker/bridge.py). */
module Overlay {
  import opened Text
  import opened Json
  import opened Lists

  // --------------------------------------------------------------------------
  // Reading and writing at a path
  // --------------------------------------------------------------------------

  /** _set_path: what is on the way and no object becomes one. */
  function SetPath(container: Fields, path: Path, value: Value): Fields
    requires path != []
    decreases |path|
  {
    var key := path[0];
    if |path| == 1 then container[key := value]
    else container[key := Obj(SetPath(Inner(container, key), path[1..], value))]
  }

  /** The object under the key, or a new one. */
  function Inner(container: Fields, key: string): Fields {
    if key in container && container[key].Obj? then container[key].fields else map[]
  }

  lemma SetStep(f: Fields, p: Path, v: Value)
    requires p != []
    ensures SetPath(f, p, v) == if |p| == 1 then f[p[0] := v] else f[p[0] := Obj(SetPath(Inner(f, p[0]), p[1..], v))]
    ensures |p| > 1 ==> Inner(SetPath(f, p, v), p[0]) == SetPath(Inner(f, p[0]), p[1..], v)
  {
  }

  /** Neither path is a prefix of the other. */
  predicate Apart(p: Path, q: Path)
    decreases |p|
  {
    p != [] && q != [] && (p[0] != q[0] || Apart(p[1..], q[1..]))
  }

  lemma {:induction false} ApartIff(p: Path, q: Path)
    ensures Apart(p, q) <==> !(p <= q) && !(q <= p)
    ensures Apart(p, q) <==> Apart(q, p)
    decreases |p|
  {
    if p != [] && q != [] {
      ApartIff(p[1..], q[1..]);
      assert p == [p[0]] + p[1..] && q == [q[0]] + q[1..];
      if p[0] == q[0] {
        if p <= q {
          assert p[1..] <= q[1..];
        }
        if q <= p {
          assert q[1..] <= p[1..];
        }
      }
    }
  }

  /** What was written is read. */
  lemma {:induction false} GetAfterSet(f: Fields, p: Path, v: Value)
    requires p != []
    ensures GetPath(Obj(SetPath(f, p, v)), p) == Some(v)
    decreases |p|
  {
    if |p| > 1 {
      GetAfterSet(Inner(f, p[0]), p[1..], v);
    } else {
      assert GetPath(v, p[1..]) == Some(v);
    }
  }

  /** Elsewhere nothing changes, even where an intermediate value had to become an object. */
  lemma {:induction false} GetElsewhere(f: Fields, p: Path, v: Value, q: Path)
    requires Apart(p, q)
    ensures GetPath(Obj(SetPath(f, p, v)), q) == GetPath(Obj(f), q)
    decreases |p|
  {
    if p[0] == q[0] {
      GetElsewhere(Inner(f, p[0]), p[1..], v, q[1..]);
    }
  }

  lemma InnerElsewhere(f: Fields, key: string, other: string, v: Value)
    requires key != other
    ensures Inner(f[key := v], other) == Inner(f, other)
  {
  }

  lemma {:induction false} SetTwice(f: Fields, p: Path, v: Value, w: Value)
    requires p != []
    ensures SetPath(SetPath(f, p, v), p, w) == SetPath(f, p, w)
    decreases |p|
  {
    hide SetPath, Inner;
    SetStep(f, p, v);
    SetStep(f, p, w);
    SetStep(SetPath(f, p, v), p, w);
    if |p| > 1 {
      SetTwice(Inner(f, p[0]), p[1..], v, w);
    }
  }

  /** Writing what is there changes nothing. */
  lemma {:induction false} SetSame(f: Fields, p: Path, v: Value)
    requires p != [] && GetPath(Obj(f), p) == Some(v)
    ensures SetPath(f, p, v) == f
    decreases |p|
  {
    if |p| > 1 {
      SetSame(f[p[0]].fields, p[1..], v);
    }
  }

  lemma {:induction false} SetsCommute(f: Fields, p: Path, v: Value, q: Path, w: Value)
    requires Apart(p, q)
    ensures SetPath(SetPath(f, p, v), q, w) == SetPath(SetPath(f, q, w), p, v)
    decreases |p|
  {
    hide SetPath, Inner;
    SetStep(f, p, v);
    SetStep(f, q, w);
    SetStep(SetPath(f, p, v), q, w);
    SetStep(SetPath(f, q, w), p, v);
    if p[0] == q[0] {
      assert |p| > 1 && |q| > 1;
      SetsCommute(Inner(f, p[0]), p[1..], v, q[1..], w);
    } else {
      InnerElsewhere(f, p[0], q[0], SetPath(f, p, v)[p[0]]);
      InnerElsewhere(f, q[0], p[0], SetPath(f, q, w)[q[0]]);
    }
  }

  // --------------------------------------------------------------------------
  // Policies
  // --------------------------------------------------------------------------

  /** _union_list: local entries first, each value once. */
  function UnionList(remote: seq<Value>, local: seq<Value>): seq<Value> {
    Firsts(local + remote)
  }

  /** _union_list, with its loop and its set of seen entries. */
  method UnionListLoop(remote: seq<Value>, local: seq<Value>) returns (out: seq<Value>)
    ensures out == UnionList(remote, local)
    ensures Distinct(out) && forall v :: v in out <==> v in local || v in remote
  {
    hide Firsts, Distinct;
    var seen: set<Value> := {};
    out := [];
    var items := local + remote;
    FirstsOfNothing(items);
    for i := 0 to |items|
      invariant out == Firsts(items[..i])
      invariant forall v :: v in seen <==> v in out
    {
      assert items[..i + 1] == items[..i] + [items[i]];
      FirstsStep(items[..i], items[i]);
      if items[i] !in seen {
        seen := seen + {items[i]};
        out := out + [items[i]];
      }
    }
    assert items[..|items|] == items;
    FirstsIs(items);
  }

  lemma FirstsOfNothing(xs: seq<Value>)
    ensures Firsts(xs[..0]) == []
  {
  }

  lemma UnionAgain(remote: seq<Value>, local: seq<Value>)
    ensures UnionList(remote, UnionList(remote, local)) == UnionList(remote, local)
  {
    hide Firsts, Distinct;
    FirstsIs(local + remote);
    FirstsAbsorb(UnionList(remote, local), remote);
  }

  /** No local entry is lost, and local entries without repetition keep their place. */
  lemma UnionKeepsLocal(remote: seq<Value>, local: seq<Value>)
    ensures Firsts(local) <= UnionList(remote, local)
    ensures Distinct(local) ==> local <= UnionList(remote, local)
    ensures forall v :: v in local || v in remote <==> v in UnionList(remote, local)
  {
    hide Firsts, Distinct;
    FirstsOfConcat(local, remote);
    FirstsIs(local + remote);
    if Distinct(local) {
      FirstsOfDistinct(local);
    }
  }

  datatype Policy = RemoteWins | Union | Merged | Seed

  function ListOf(v: Option<Value>): seq<Value> {
    if v.Some? && v.value.Arr? then v.value.items else []
  }

  /** _apply_policy; a remote value of None is _MISSING. */
  function ApplyPolicy(existing: Fields, path: Path, policy: Policy, remote: Option<Value>): Fields
    requires path != []
  {
    if remote.None? then existing
    else
      var local := GetPath(Obj(existing), path);
      match policy
      case RemoteWins => SetPath(existing, path, remote.value)
      case Union => SetPath(existing, path, Arr(UnionList(ListOf(remote), ListOf(local))))
      case Merged =>
        if local.None? then SetPath(existing, path, remote.value)
        else SetPath(existing, path, DeepMergeLocalWins(remote.value, local.value))
      case Seed => if local.None? then SetPath(existing, path, remote.value) else existing
  }

  /** What the policy leaves at the path. */
  function Outcome(policy: Policy, local: Option<Value>, remote: Option<Value>): Option<Value> {
    if remote.None? then local
    else
      match policy
      case RemoteWins => remote
      case Union => Some(Arr(UnionList(ListOf(remote), ListOf(local))))
      case Merged => if local.None? then remote else Some(DeepMergeLocalWins(remote.value, local.value))
      case Seed => if local.None? then remote else local
  }

  /** A policy touches its path only, and what it does is decided by what is there. */
  lemma PolicyIsLocal(f: Fields, p: Path, policy: Policy, remote: Option<Value>)
    requires p != []
    ensures var result := Outcome(policy, GetPath(Obj(f), p), remote);
            && GetPath(Obj(ApplyPolicy(f, p, policy, remote)), p) == result
            && ApplyPolicy(f, p, policy, remote) == if result.None? then f else SetPath(f, p, result.value)
  {
    hide GetPath, SetPath, UnionList, DeepMergeLocalWins;
    var local := GetPath(Obj(f), p);
    var result := Outcome(policy, local, remote);
    if result.Some? {
      GetAfterSet(f, p, result.value);
      if local == result {
        SetSame(f, p, result.value);
      }
    }
  }

  lemma LocalWinsAgain(remote: Value, local: Value)
    ensures DeepMergeLocalWins(remote, DeepMergeLocalWins(remote, local)) == DeepMergeLocalWins(remote, local)
    ensures DeepMergeLocalWins(remote, remote) == remote
  {
    hide DeepMerge;
    if remote.Obj? {
      SelfMerge(remote.fields);
      SameMerge(remote.fields, remote.fields);
      if local.Obj? {
        SameMerge(remote.fields, local.fields);
        SameMerge(remote.fields, DeepMerge(remote.fields, local.fields));
        BaseAbsorbed(remote.fields, local.fields);
      }
    }
  }

  lemma OutcomeAgain(policy: Policy, local: Option<Value>, remote: Option<Value>)
    ensures Outcome(policy, Outcome(policy, local, remote), remote) == Outcome(policy, local, remote)
  {
    hide UnionList, DeepMergeLocalWins;
    if remote.Some? {
      UnionAgain(ListOf(remote), ListOf(local));
      LocalWinsAgain(remote.value, if local.Some? then local.value else remote.value);
    }
  }

  // --------------------------------------------------------------------------
  // The table
  // --------------------------------------------------------------------------

  /** A row of the field table with the value derived for it. */
  datatype Field = Field(path: Path, policy: Policy, remote: Option<Value>)

  function Apply(existing: Fields, field: Field): Fields
    requires field.path != []
  {
    ApplyPolicy(existing, field.path, field.policy, field.remote)
  }

  predicate AllApart(table: seq<Field>) {
    && (forall i :: 0 <= i < |table| ==> table[i].path != [])
    && (forall i, j :: 0 <= i < j < |table| ==> Apart(table[i].path, table[j].path))
  }

  function Overlay(existing: Fields, table: seq<Field>): Fields
    requires forall i :: 0 <= i < |table| ==> table[i].path != []
    decreases |table|
  {
    if table == [] then existing else Overlay(Apply(existing, table[0]), table[1..])
  }

  /** The loop over the table. */
  method OverlayLoop(existing0: Fields, table: seq<Field>) returns (existing: Fields)
    requires forall i :: 0 <= i < |table| ==> table[i].path != []
    ensures existing == Overlay(existing0, table)
  {
    hide Apply;
    existing := existing0;
    for i := 0 to |table|
      invariant Overlay(existing, table[i..]) == Overlay(existing0, table)
    {
      assert table[i..][1..] == table[i + 1..];
      existing := Apply(existing, table[i]);
    }
  }

  lemma ApplyElsewhere(f: Fields, field: Field, q: Path)
    requires field.path != [] && Apart(field.path, q)
    ensures GetPath(Obj(Apply(f, field)), q) == GetPath(Obj(f), q)
  {
    hide GetPath, SetPath, Outcome, ApplyPolicy, Apart;
    PolicyIsLocal(f, field.path, field.policy, field.remote);
    var result := Outcome(field.policy, GetPath(Obj(f), field.path), field.remote);
    if result.Some? {
      GetElsewhere(f, field.path, result.value, q);
    }
  }

  lemma AppliesCommute(f: Fields, a: Field, b: Field)
    requires a.path != [] && b.path != [] && Apart(a.path, b.path)
    ensures Apply(Apply(f, a), b) == Apply(Apply(f, b), a)
  {
    ApartIff(a.path, b.path);
    ApplyElsewhere(f, a, b.path);
    ApplyElsewhere(f, b, a.path);
    hide GetPath, SetPath, Outcome, ApplyPolicy, Apart;
    PolicyIsLocal(f, a.path, a.policy, a.remote);
    PolicyIsLocal(f, b.path, b.policy, b.remote);
    PolicyIsLocal(Apply(f, a), b.path, b.policy, b.remote);
    PolicyIsLocal(Apply(f, b), a.path, a.policy, a.remote);
    var ra := Outcome(a.policy, GetPath(Obj(f), a.path), a.remote);
    var rb := Outcome(b.policy, GetPath(Obj(f), b.path), b.remote);
    if ra.Some? && rb.Some? {
      SetsCommute(f, a.path, ra.value, b.path, rb.value);
    }
  }

  lemma ApplyAgain(f: Fields, a: Field)
    requires a.path != []
    ensures Apply(Apply(f, a), a) == Apply(f, a)
  {
    hide GetPath, SetPath, Outcome, ApplyPolicy;
    PolicyIsLocal(f, a.path, a.policy, a.remote);
    PolicyIsLocal(Apply(f, a), a.path, a.policy, a.remote);
    var local := GetPath(Obj(f), a.path);
    OutcomeAgain(a.policy, local, a.remote);
    var result := Outcome(a.policy, local, a.remote);
    if result.Some? {
      SetTwice(f, a.path, result.value, result.value);
    }
  }

  /** A field can be applied before the others as well as after them. */
  lemma {:induction false} ApplyFirst(f: Fields, a: Field, table: seq<Field>)
    requires a.path != [] && forall i :: 0 <= i < |table| ==> table[i].path != [] && Apart(a.path, table[i].path)
    ensures Apply(Overlay(f, table), a) == Overlay(Apply(f, a), table)
    decreases |table|
  {
    hide Apply, Apart;
    if table != [] {
      AppliesCommute(f, a, table[0]);
      ApplyFirst(Apply(f, table[0]), a, table[1..]);
    }
  }

  lemma ApartHead(table: seq<Field>)
    requires table != [] && AllApart(table)
    ensures AllApart(table[1..]) && table[0].path != []
    ensures forall i :: 0 <= i < |table[1..]| ==> Apart(table[0].path, table[1..][i].path)
  {
    hide Apart;
  }

  /** Overlaying a whole table twice is overlaying it once. */
  lemma {:induction false} OverlayTwice(f: Fields, table: seq<Field>)
    requires AllApart(table)
    ensures Overlay(Overlay(f, table), table) == Overlay(f, table)
    decreases |table|
  {
    hide Apply, AllApart, Apart;
    if table != [] {
      ApartHead(table);
      AllApartPaths(table);
      AllApartPaths(table[1..]);
      var a, rest := table[0], table[1..];
      ApplyFirst(Apply(f, a), a, rest);
      ApplyAgain(f, a);
      OverlayTwice(Apply(f, a), rest);
    }
  }

  lemma AllApartPaths(table: seq<Field>)
    requires AllApart(table)
    ensures forall i :: 0 <= i < |table| ==> table[i].path != []
  {
    hide Apart;
  }

  lemma {:induction false} OverlayConcat(f: Fields, a: seq<Field>, b: seq<Field>)
    requires forall i :: 0 <= i < |a + b| ==> (a + b)[i].path != []
    ensures forall i :: 0 <= i < |a| ==> a[i].path != []
    ensures forall i :: 0 <= i < |b| ==> b[i].path != []
    ensures Overlay(f, a + b) == Overlay(Overlay(f, a), b)
    decreases |a|
  {
    hide Apply;
    assert forall i :: 0 <= i < |a| ==> a[i] == (a + b)[i];
    assert forall i :: 0 <= i < |b| ==> b[i] == (a + b)[|a| + i];
    if a == [] {
      assert a + b == b;
    } else {
      assert (a + b)[1..] == a[1..] + b;
      OverlayConcat(Apply(f, a[0]), a[1..], b);
    }
  }

  lemma FindIn(table: seq<Field>, a: Field) returns (i: nat)
    requires a in multiset(table)
    ensures i < |table| && table[i] == a
  {
    i :| 0 <= i < |table| && table[i] == a;
  }

  /** Without row i. */
  function Without(table: seq<Field>, i: nat): seq<Field>
    requires i < |table|
  {
    table[..i] + table[i + 1..]
  }

  lemma WithoutIs(table: seq<Field>, i: nat)
    requires i < |table| && AllApart(table)
    ensures AllApart(Without(table, i)) && multiset(Without(table, i)) == multiset(table) - multiset{table[i]}
    ensures forall k :: 0 <= k < i ==> Apart(table[i].path, table[k].path)
  {
    forall k | 0 <= k < i ensures Apart(table[i].path, table[k].path) {
      ApartIff(table[k].path, table[i].path);
    }
    hide Apart;
    assert table == table[..i] + [table[i]] + table[i + 1..];
  }

  /** A row can be moved to the front. */
  lemma MoveToFront(f: Fields, table: seq<Field>, i: nat)
    requires i < |table| && AllApart(table)
    ensures table[i].path != [] && AllApart(Without(table, i))
    ensures forall k :: 0 <= k < |Without(table, i)| ==> Without(table, i)[k].path != []
    ensures forall k :: 0 <= k < |table| ==> table[k].path != []
    ensures Overlay(f, table) == Overlay(Apply(f, table[i]), Without(table, i))
  {
    hide Apply, Apart, AllApart, Overlay;
    AllApartPaths(table);
    WithoutIs(table, i);
    AllApartPaths(Without(table, i));
    var a, before, after := table[i], table[..i], table[i + 1..];
    assert table == before + ([a] + after);
    OverlayConcat(f, before, [a] + after);
    OverlayHead(Overlay(f, before), a, after);
    ApplyFirst(f, a, before);
    OverlayConcat(Apply(f, a), before, after);
  }

  lemma OverlayHead(f: Fields, a: Field, after: seq<Field>)
    requires a.path != [] && forall k :: 0 <= k < |after| ==> after[k].path != []
    ensures Overlay(f, [a] + after) == Overlay(Apply(f, a), after)
  {
    assert ([a] + after)[1..] == after;
  }

  /** The order of the table does not matter. */
  lemma {:induction false} OverlayOrder(f: Fields, table: seq<Field>, other: seq<Field>)
    requires AllApart(table) && AllApart(other) && multiset(table) == multiset(other)
    ensures Overlay(f, table) == Overlay(f, other)
    decreases |table|
  {
    hide Apply, Apart, AllApart, Without;
    AllApartPaths(table);
    AllApartPaths(other);
    if table == [] {
      assert |multiset(other)| == 0;
    } else {
      assert table[0] in multiset(table);
      var i := FindIn(other, table[0]);
      MoveToFront(f, other, i);
      WithoutIs(other, i);
      ApartHead(table);
      assert multiset(table[1..]) == multiset(table) - multiset{table[0]} by {
        assert table == [table[0]] + table[1..];
      }
      AllApartPaths(table[1..]);
      OverlayOrder(Apply(f, table[0]), table[1..], Without(other, i));
    }
  }

  // --------------------------------------------------------------------------
  // The controller's own table
  // --------------------------------------------------------------------------

  /** The leaves under channels.matrix. */
  const MATRIX_LEAVES := [
    "enabled", "homeserver", "access_token", "user_id", "encryption", "dm_policy", "group_policy",
    "filter_tool_messages", "filter_thinking", "vision_enabled", "history_limit", "allow_from",
    "group_allow_from", "groups"
  ]
  const RUNNING_LEAVES := ["max_input_length", "embedding_config"]

  /** Length and first character tell the leaves apart. */
  function Code(name: string): int
    requires name != []
  {
    1000 * |name| + name[0] as int
  }

  const MATRIX_CODES := [7101, 10104, 12097, 7117, 10101, 9100, 12103, 20102, 15102, 14118, 13104, 10097, 16103, 6103]

  lemma LeafCodes()
    ensures |MATRIX_LEAVES| == |MATRIX_CODES| == 14
    ensures forall i :: 0 <= i < 14 ==> MATRIX_LEAVES[i] != [] && Code(MATRIX_LEAVES[i]) == MATRIX_CODES[i]
    ensures forall i, j :: 0 <= i < j < 14 ==> MATRIX_CODES[i] != MATRIX_CODES[j]
  {
  }

  lemma LeavesDiffer()
    ensures |MATRIX_LEAVES| == 14 && |RUNNING_LEAVES| == 2
    ensures forall i, j :: 0 <= i < j < 14 ==> MATRIX_LEAVES[i] != MATRIX_LEAVES[j]
    ensures RUNNING_LEAVES[0] != RUNNING_LEAVES[1]
  {
    LeafCodes();
    assert RUNNING_LEAVES[0][0] == 'm' && RUNNING_LEAVES[1][0] == 'e';
    hide MATRIX_LEAVES, MATRIX_CODES;
    forall i, j | 0 <= i < j < 14 ensures MATRIX_LEAVES[i] != MATRIX_LEAVES[j] {
      assert MATRIX_CODES[i] != MATRIX_CODES[j];
    }
  }

  /** The paths of _CONTROLLER_FIELDS in order, with the workspace directory that is seeded last. */
  function ControllerPath(i: nat): Path
    requires i < 18
  {
    assert |MATRIX_LEAVES| == 14;
    if i < 14 then ["channels", "matrix", MATRIX_LEAVES[i]]
    else if i < 16 then ["running", RUNNING_LEAVES[i - 14]]
    else if i == 16 then ["heartbeat"]
    else ["workspace_dir"]
  }

  function ControllerPolicy(i: nat): Policy {
    if i == 11 || i == 12 then Union
    else if i == 13 then Merged
    else if i >= 16 then Seed
    else RemoteWins
  }

  /** The table with the values derived from one configuration. */
  function ControllerFields(values: seq<Option<Value>>): (r: seq<Field>)
    requires |values| == 18
    ensures |r| == 18 && forall i :: 0 <= i < 18 ==> r[i].path != []
  {
    seq(18, i requires 0 <= i < 18 => Field(ControllerPath(i), ControllerPolicy(i), values[i]))
  }

  lemma ThreeApart(a: string, b: string, c: string, d: string)
    requires c != d
    ensures Apart([a, b, c], [a, b, d])
  {
    assert [a, b, c][1..] == [b, c] && [a, b, d][1..] == [b, d];
    TwoApart(b, c, d);
  }

  lemma TwoApart(a: string, b: string, c: string)
    requires b != c
    ensures Apart([a, b], [a, c])
  {
    assert [a, b][1..] == [b] && [a, c][1..] == [c];
  }

  lemma RootsDiffer()
    ensures "channels" != "running" && "channels" != "heartbeat" && "channels" != "workspace_dir"
    ensures "running" != "heartbeat" && "running" != "workspace_dir" && "heartbeat" != "workspace_dir"
  {
    assert "channels"[0] == 'c' && "running"[0] == 'r' && "heartbeat"[0] == 'h' && "workspace_dir"[0] == 'w';
  }

  lemma PathsApart(i: nat, j: nat)
    requires i < j < 18
    ensures Apart(ControllerPath(i), ControllerPath(j))
  {
    LeavesDiffer();
    RootsDiffer();
    hide MATRIX_LEAVES, RUNNING_LEAVES;
    if j < 14 {
      ThreeApart("channels", "matrix", MATRIX_LEAVES[i], MATRIX_LEAVES[j]);
    } else if i >= 14 && j < 16 {
      TwoApart("running", RUNNING_LEAVES[i - 14], RUNNING_LEAVES[j - 14]);
    }
  }

  lemma ControllerFieldsApart(values: seq<Option<Value>>)
    requires |values| == 18
    ensures AllApart(ControllerFields(values))
  {
    forall i, j | 0 <= i < j < 18 ensures Apart(ControllerPath(i), ControllerPath(j)) {
      PathsApart(i, j);
    }
    hide MATRIX_LEAVES, RUNNING_LEAVES, Apart;
  }

  /** Bridging twice with the same derived values is bridging once. */
  lemma BridgeTwice(existing: Fields, values: seq<Option<Value>>)
    requires |values| == 18
    ensures AllApart(ControllerFields(values))
    ensures var table := ControllerFields(values); Overlay(Overlay(existing, table), table) == Overlay(existing, table)
  {
    hide Overlay, AllApart, ControllerFields;
    ControllerFieldsApart(values);
    OverlayTwice(existing, ControllerFields(values));
  }

  lemma {:induction false} OverlayElsewhere(f: Fields, table: seq<Field>, q: Path)
    requires AllApart(table) && forall i :: 0 <= i < |table| ==> Apart(table[i].path, q)
    ensures GetPath(Obj(Overlay(f, table)), q) == GetPath(Obj(f), q)
    decreases |table|
  {
    hide Apply, AllApart, Apart, GetPath;
    if table != [] {
      ApartHead(table);
      AllApartPaths(table);
      ApplyElsewhere(f, table[0], q);
      OverlayElsewhere(Apply(f, table[0]), table[1..], q);
    }
  }

  /** At a row's own path the overlay leaves what the row's policy makes of what was there. */
  lemma {:induction false} OverlayAt(f: Fields, table: seq<Field>, i: nat)
    requires AllApart(table) && i < |table|
    ensures GetPath(Obj(Overlay(f, table)), table[i].path) ==
            Outcome(table[i].policy, GetPath(Obj(f), table[i].path), table[i].remote)
    decreases |table|
  {
    hide Apply, AllApart, Apart, GetPath, Outcome;
    ApartHead(table);
    AllApartPaths(table);
    if i == 0 {
      ApartBack(table);
      OverlayElsewhere(Apply(f, table[0]), table[1..], table[0].path);
      AppliedAt(f, table[0]);
    } else {
      assert table[1..][i - 1] == table[i];
      ApplyElsewhere(f, table[0], table[i].path);
      OverlayAt(Apply(f, table[0]), table[1..], i - 1);
    }
  }

  lemma ApartBack(table: seq<Field>)
    requires table != [] && AllApart(table)
    ensures forall k :: 0 <= k < |table[1..]| ==> Apart(table[1..][k].path, table[0].path)
  {
    forall k | 0 <= k < |table[1..]| ensures Apart(table[1..][k].path, table[0].path) {
      ApartIff(table[0].path, table[k + 1].path);
    }
  }

  lemma AppliedAt(f: Fields, field: Field)
    requires field.path != []
    ensures GetPath(Obj(Apply(f, field)), field.path) == Outcome(field.policy, GetPath(Obj(f), field.path), field.remote)
  {
    hide GetPath, SetPath, Outcome, ApplyPolicy;
    PolicyIsLocal(f, field.path, field.policy, field.remote);
  }

  // What the bridge makes of each field

  /** The controller's value, if it has one, and what was there otherwise. */
  predicate Wins(before: Value, after: Value, path: Path, remote: Option<Value>) {
    GetPath(after, path) == if remote.Some? then remote else GetPath(before, path)
  }

  /** What was there, and the controller's value where nothing was. */
  predicate Seeds(before: Value, after: Value, path: Path, remote: Option<Value>) {
    GetPath(after, path) == if GetPath(before, path).Some? then GetPath(before, path) else remote
  }

  /** The entries of both lists, the local ones first, each once. */
  ghost predicate Unites(before: Value, after: Value, path: Path, remote: Option<Value>) {
    if remote.None? then GetPath(after, path) == GetPath(before, path)
    else
      var local := GetPath(before, path);
      var own, theirs := if local.Some? && local.value.Arr? then local.value.items else [],
                         if remote.value.Arr? then remote.value.items else [];
      && GetPath(after, path).Some? && GetPath(after, path).value.Arr?
      && var all := GetPath(after, path).value.items;
      && Distinct(all) && (forall v :: v in all <==> v in own || v in theirs)
      && (Distinct(own) ==> own <= all)
  }

  /** Both objects merged, the local values winning. */
  predicate Blends(before: Value, after: Value, path: Path, remote: Option<Value>) {
    if remote.None? then GetPath(after, path) == GetPath(before, path)
    else
      match GetPath(before, path)
      case None => GetPath(after, path) == remote
      case Some(local) =>
        GetPath(after, path) ==
        if remote.value.Obj? && local.Obj? then Some(Obj(DeepMerge(remote.value.fields, local.fields))) else Some(local)
  }

  lemma PolicyMeans(before: Value, after: Value, path: Path, policy: Policy, remote: Option<Value>)
    requires GetPath(after, path) == Outcome(policy, GetPath(before, path), remote)
    ensures policy == RemoteWins ==> Wins(before, after, path, remote)
    ensures policy == Seed ==> Seeds(before, after, path, remote)
    ensures policy == Union ==> Unites(before, after, path, remote)
    ensures policy == Merged ==> Blends(before, after, path, remote)
  {
    hide GetPath, UnionList, DeepMergeLocalWins, DeepMerge, Distinct, Firsts, Unites;
    if policy == Union {
      UnionMeans(before, after, path, remote);
    } else if policy == Merged && remote.Some? && GetPath(before, path).Some? {
      LocalWinsIs(remote.value, GetPath(before, path).value);
    }
  }

  lemma UnionMeans(before: Value, after: Value, path: Path, remote: Option<Value>)
    requires GetPath(after, path) == Outcome(Union, GetPath(before, path), remote)
    ensures Unites(before, after, path, remote)
  {
    hide GetPath, UnionList, Distinct, Firsts;
    if remote.Some? {
      UnionKeepsLocal(ListOf(remote), ListOf(GetPath(before, path)));
      UnionDistinct(ListOf(remote), ListOf(GetPath(before, path)));
    }
  }

  lemma UnionDistinct(remote: seq<Value>, local: seq<Value>)
    ensures Distinct(UnionList(remote, local))
  {
    hide Firsts, Distinct;
    FirstsIs(local + remote);
  }

  lemma LocalWinsIs(remote: Value, local: Value)
    ensures DeepMergeLocalWins(remote, local) == if remote.Obj? && local.Obj? then Obj(DeepMerge(remote.fields, local.fields)) else local
  {
    hide DeepMerge;
    if remote.Obj? && local.Obj? {
      SameMerge(remote.fields, local.fields);
    }
  }

  lemma BridgedRow(existing: Fields, values: seq<Option<Value>>, i: nat)
    requires |values| == 18 && i < 18
    ensures AllApart(ControllerFields(values))
    ensures GetPath(Obj(Overlay(existing, ControllerFields(values))), ControllerPath(i)) ==
            Outcome(ControllerPolicy(i), GetPath(Obj(existing), ControllerPath(i)), values[i])
  {
    ControllerFieldsApart(values);
    hide AllApart, GetPath, Outcome, ControllerPath, ControllerPolicy;
    OverlayAt(existing, ControllerFields(values), i);
  }

  lemma RowMeans(existing: Fields, values: seq<Option<Value>>, i: nat)
    requires |values| == 18 && i < 18
    ensures AllApart(ControllerFields(values))
    ensures var before, after := Obj(existing), Obj(Overlay(existing, ControllerFields(values)));
            && (i < 11 || i == 14 || i == 15 ==> Wins(before, after, ControllerPath(i), values[i]))
            && (i == 11 || i == 12 ==> Unites(before, after, ControllerPath(i), values[i]))
            && (i == 13 ==> Blends(before, after, ControllerPath(i), values[i]))
            && (i >= 16 ==> Seeds(before, after, ControllerPath(i), values[i]))
  {
    hide AllApart, GetPath, Outcome, ControllerPath, Wins, Unites, Blends, Seeds, Overlay;
    BridgedRow(existing, values, i);
    PolicyMeans(Obj(existing), Obj(Overlay(existing, ControllerFields(values))), ControllerPath(i), ControllerPolicy(i), values[i]);
  }

  lemma MatrixPaths()
    ensures ControllerPath(0) == ["channels", "matrix", "enabled"] && ControllerPath(1) == ["channels", "matrix", "homeserver"]
    ensures ControllerPath(2) == ["channels", "matrix", "access_token"] && ControllerPath(3) == ["channels", "matrix", "user_id"]
    ensures ControllerPath(4) == ["channels", "matrix", "encryption"] && ControllerPath(5) == ["channels", "matrix", "dm_policy"]
    ensures ControllerPath(6) == ["channels", "matrix", "group_policy"]
    ensures ControllerPath(7) == ["channels", "matrix", "filter_tool_messages"]
    ensures ControllerPath(8) == ["channels", "matrix", "filter_thinking"]
    ensures ControllerPath(9) == ["channels", "matrix", "vision_enabled"] && ControllerPath(10) == ["channels", "matrix", "history_limit"]
    ensures ControllerPath(11) == ["channels", "matrix", "allow_from"] && ControllerPath(12) == ["channels", "matrix", "group_allow_from"]
    ensures ControllerPath(13) == ["channels", "matrix", "groups"]
  {
  }

  lemma OtherPaths()
    ensures ControllerPath(14) == ["running", "max_input_length"] && ControllerPath(15) == ["running", "embedding_config"]
    ensures ControllerPath(16) == ["heartbeat"] && ControllerPath(17) == ["workspace_dir"]
  {
  }

  /** What the bridge makes of every field that the controller has a say in. */
  lemma BridgeMeans(existing: Fields, values: seq<Option<Value>>)
    requires |values| == 18
    ensures AllApart(ControllerFields(values))
    ensures var before, after := Obj(existing), Obj(Overlay(existing, ControllerFields(values)));
            && Wins(before, after, ["channels", "matrix", "enabled"], values[0])
            && Wins(before, after, ["channels", "matrix", "homeserver"], values[1])
            && Wins(before, after, ["channels", "matrix", "access_token"], values[2])
            && Wins(before, after, ["channels", "matrix", "user_id"], values[3])
            && Wins(before, after, ["channels", "matrix", "encryption"], values[4])
            && Wins(before, after, ["channels", "matrix", "dm_policy"], values[5])
            && Wins(before, after, ["channels", "matrix", "group_policy"], values[6])
            && Wins(before, after, ["channels", "matrix", "filter_tool_messages"], values[7])
            && Wins(before, after, ["channels", "matrix", "filter_thinking"], values[8])
            && Wins(before, after, ["channels", "matrix", "vision_enabled"], values[9])
            && Wins(before, after, ["channels", "matrix", "history_limit"], values[10])
            && Unites(before, after, ["channels", "matrix", "allow_from"], values[11])
            && Unites(before, after, ["channels", "matrix", "group_allow_from"], values[12])
            && Blends(before, after, ["channels", "matrix", "groups"], values[13])
            && Wins(before, after, ["running", "max_input_length"], values[14])
            && Wins(before, after, ["running", "embedding_config"], values[15])
            && Seeds(before, after, ["heartbeat"], values[16])
            && Seeds(before, after, ["workspace_dir"], values[17])
  {
    MatrixPaths();
    OtherPaths();
    hide AllApart, ControllerPath, Wins, Unites, Blends, Seeds, Overlay, ControllerFields;
    RowMeans(existing, values, 17);
    forall i | 0 <= i < 18
      ensures var before, after := Obj(existing), Obj(Overlay(existing, ControllerFields(values)));
              && (i < 11 || i == 14 || i == 15 ==> Wins(before, after, ControllerPath(i), values[i]))
              && (i == 11 || i == 12 ==> Unites(before, after, ControllerPath(i), values[i]))
              && (i == 13 ==> Blends(before, after, ControllerPath(i), values[i]))
              && (i >= 16 ==> Seeds(before, after, ControllerPath(i), values[i]))
    {
      RowMeans(existing, values, i);
    }
  }
}
