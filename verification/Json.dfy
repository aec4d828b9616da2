/** JSON values as Python's json module reads them, and deep merging of objects. */
module Json {
  import opened Text

  /** A number mantissa * 2^exponent. */
  datatype Dyadic = Dyadic(mantissa: int, exponent: int)

  function Pow2(n: nat): nat {
    if n == 0 then 1 else 2 * Pow2(n - 1)
  }

  /** The finite double-precision numbers of IEEE 754, each in one form: zero, or an odd mantissa of
      at most 53 bits, no digit below 2^-1074, and less than 2^1024 in all. */
  predicate IsDouble(d: Dyadic) {
    d == Dyadic(0, 0) ||
    (d.mantissa % 2 == 1 && -1074 <= d.exponent <= 1023 &&
     var limit: int := Pow2(if d.exponent <= 971 then 53 else 1024 - d.exponent);
     -limit < d.mantissa < limit)
  }

  type Double = d: Dyadic | IsDouble(d) witness Dyadic(0, 0)

  /** An object is a map; the order of its keys is not modelled. */
  datatype Value =
    | Null
    | Bool(bit: bool)
    | Int(whole: int)
    | Float(number: Double)
    | Str(text: string)
    | Arr(items: seq<Value>)
    | Obj(fields: Fields)

  type Fields = map<string, Value>

  /** Python's bool(value). */
  predicate Truthy(v: Value) {
    match v
    case Null => false
    case Bool(bit) => bit
    case Int(whole) => whole != 0
    case Float(number) => number.mantissa != 0
    case Str(text) => text != ""
    case Arr(items) => items != []
    case Obj(fields) => fields != map[]
  }

  // --------------------------------------------------------------------------
  // Deep merge
  // --------------------------------------------------------------------------

  /** _deep_merge in sync.py: override wins wherever it holds anything but an object on both sides. */
  function DeepMerge(base: Fields, override: Fields): Fields
    decreases Obj(override)
  {
    map k | k in base.Keys + override.Keys ::
      if k !in override then base[k]
      else if k in base && base[k].Obj? && override[k].Obj? then Obj(DeepMerge(base[k].fields, override[k].fields))
      else override[k]
  }

  lemma MergedAt(base: Fields, override: Fields, k: string)
    ensures k in DeepMerge(base, override) <==> k in base || k in override
    ensures k in base && k !in override ==> DeepMerge(base, override)[k] == base[k]
    ensures k in override ==>
              DeepMerge(base, override)[k] ==
              if k in base && base[k].Obj? && override[k].Obj? then Obj(DeepMerge(base[k].fields, override[k].fields))
              else override[k]
  {
  }

  /** _deep_merge, with its loop over the items of override. */
  method DeepMergeLoop(base: Fields, override: Fields) returns (result: Fields)
    ensures result == DeepMerge(base, override)
    decreases Obj(override)
  {
    hide DeepMerge;
    MergedKeys(base, override);
    result := base;
    var todo := override.Keys;
    while todo != {}
      invariant todo <= override.Keys
      invariant result.Keys == base.Keys + (override.Keys - todo)
      invariant forall k :: k in result ==>
                              result[k] == if k in override.Keys - todo then DeepMerge(base, override)[k] else base[k]
      decreases todo
    {
      var key :| key in todo;
      todo := todo - {key};
      var val := override[key];
      MergedAt(base, override, key);
      if key in result && result[key].Obj? && val.Obj? {
        var merged := DeepMergeLoop(result[key].fields, val.fields);
        result := result[key := Obj(merged)];
      } else {
        result := result[key := val];
      }
    }
  }

  lemma MergedKeys(base: Fields, override: Fields)
    ensures DeepMerge(base, override).Keys == base.Keys + override.Keys
    ensures forall k :: k in base && k !in override ==> DeepMerge(base, override)[k] == base[k]
  {
  }

  /** _deep_merge_local_wins in bridge.py. */
  function DeepMergeLocalWins(remote: Value, local: Value): Value
    decreases local
  {
    if remote.Obj? && local.Obj? then
      Obj(map k | k in remote.fields.Keys + local.fields.Keys ::
            if k in remote.fields && k in local.fields then DeepMergeLocalWins(remote.fields[k], local.fields[k])
            else if k in remote.fields then remote.fields[k]
            else local.fields[k])
    else local
  }

  /** The worker's two deep merges, in sync.py and in bridge.py, are one function on objects. */
  lemma {:induction false} SameMerge(remote: Fields, local: Fields)
    ensures DeepMergeLocalWins(Obj(remote), Obj(local)) == Obj(DeepMerge(remote, local))
    decreases Obj(local)
  {
    forall k | k in remote && k in local
      ensures DeepMergeLocalWins(remote[k], local[k]) == DeepMerge(remote, local)[k]
    {
      if remote[k].Obj? && local[k].Obj? {
        SameMerge(remote[k].fields, local[k].fields);
      }
    }
  }

  /** Merging the override in again changes nothing. */
  lemma {:induction false} OverrideAbsorbed(base: Fields, override: Fields)
    ensures DeepMerge(DeepMerge(base, override), override) == DeepMerge(base, override)
    decreases Obj(override)
  {
    hide DeepMerge;
    var m := DeepMerge(base, override);
    MergedKeys(base, override);
    MergedKeys(m, override);
    forall k | k in override ensures DeepMerge(m, override)[k] == m[k] {
      MergedAt(base, override, k);
      MergedAt(m, override, k);
      if override[k].Obj? {
        if k in base && base[k].Obj? {
          OverrideAbsorbed(base[k].fields, override[k].fields);
        } else {
          SelfMerge(override[k].fields);
        }
      }
    }
    assert DeepMerge(m, override).Keys == m.Keys;
    assert DeepMerge(m, override) == m;
  }

  lemma {:induction false} SelfMerge(m: Fields)
    ensures DeepMerge(m, m) == m
    decreases Obj(m)
  {
    forall k | k in m ensures DeepMerge(m, m)[k] == m[k] {
      if m[k].Obj? {
        SelfMerge(m[k].fields);
      }
    }
  }

  /** Merging the result over the base again changes nothing. */
  lemma {:induction false} BaseAbsorbed(base: Fields, override: Fields)
    ensures DeepMerge(base, DeepMerge(base, override)) == DeepMerge(base, override)
    decreases Obj(override)
  {
    hide DeepMerge;
    var m := DeepMerge(base, override);
    MergedKeys(base, override);
    MergedKeys(base, m);
    forall k | k in m ensures DeepMerge(base, m)[k] == m[k] {
      MergedAt(base, override, k);
      MergedAt(base, m, k);
      if k in base && base[k].Obj? {
        if k in override && override[k].Obj? {
          BaseAbsorbed(base[k].fields, override[k].fields);
        } else if k !in override {
          SelfMerge(base[k].fields);
        }
      }
    }
    assert DeepMerge(base, m).Keys == m.Keys;
    assert DeepMerge(base, m) == m;
  }

  // --------------------------------------------------------------------------
  // Paths
  // --------------------------------------------------------------------------

  type Path = seq<string>

  /** _get_path in bridge.py; None is its _MISSING. */
  function GetPath(node: Value, path: Path): Option<Value> {
    if path == [] then Some(node)
    else if node.Obj? && path[0] in node.fields then GetPath(node.fields[path[0]], path[1..])
    else None
  }

  /** Every value of the override that is no object is in the merge. */
  lemma {:induction false} OverrideLeafWins(base: Fields, override: Fields, path: Path)
    requires var v := GetPath(Obj(override), path); v.Some? && !v.value.Obj?
    ensures GetPath(Obj(DeepMerge(base, override)), path) == GetPath(Obj(override), path)
    decreases |path|
  {
    hide DeepMerge;
    var k := path[0];
    MergedAt(base, override, k);
    if k in base && base[k].Obj? && override[k].Obj? {
      OverrideLeafWins(base[k].fields, override[k].fields, path[1..]);
    }
  }

  /** The override has nothing on the way to this path. */
  predicate Clear(override: Fields, path: Path)
    decreases |path|
  {
    path != [] &&
    (path[0] !in override || (override[path[0]].Obj? && Clear(override[path[0]].fields, path[1..])))
  }

  /** What only the base has stays. */
  lemma {:induction false} BaseKept(base: Fields, override: Fields, path: Path)
    requires Clear(override, path) && GetPath(Obj(base), path).Some?
    ensures GetPath(Obj(DeepMerge(base, override)), path) == GetPath(Obj(base), path)
    decreases |path|
  {
    hide DeepMerge;
    var k := path[0];
    MergedAt(base, override, k);
    if k in override {
      BaseKept(base[k].fields, override[k].fields, path[1..]);
    }
  }
}
