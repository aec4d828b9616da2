/** Merging the controller's openclaw.json into the worker's copy
    (copaw/src/copaw_worker/sync.py, _merge_openclaw_config). An Err stands for the exception that
    the code raises on a document whose fields have other types than it expects. */
module OpenclawMerge {
  import opened Text
  import opened Json
  import opened Sorting

  function Lookup(fields: Fields, key: string): Option<Value> {
    if key in fields then Some(fields[key]) else None
  }

  /** fields.get(key) or {} */
  function OrEmpty(fields: Fields, key: string): Value {
    if key in fields && Truthy(fields[key]) then fields[key] else Obj(map[])
  }

  /** fields.get(key, {}), on which the code calls get. */
  function Child(fields: Fields, key: string): Result<Fields, string> {
    if key !in fields then Ok(map[])
    else if fields[key].Obj? then Ok(fields[key].fields)
    else Err("no object at " + key)
  }

  /** models and gateway: the remote value, unless it is absent or null. */
  function Replaced(remote: Fields, merged: Fields, key: string): Fields {
    if key in remote && remote[key] != Null then merged[key := remote[key]] else merged
  }

  // --------------------------------------------------------------------------
  // channels
  // --------------------------------------------------------------------------

  /** local.get("channels", {}).get("matrix", {}).get("accessToken") */
  function LocalToken(local: Fields): Result<Option<Value>, string> {
    match Child(local, "channels")
    case Err(e) => Err(e)
    case Ok(channels) =>
      match Child(channels, "matrix")
      case Err(e) => Err(e)
      case Ok(matrix) => Ok(Lookup(matrix, "accessToken"))
  }

  function WithToken(channels: Fields, token: Option<Value>): Result<Fields, string> {
    if token.None? || !Truthy(token.value) then Ok(channels)
    else
      match Child(channels, "matrix")
      case Err(e) => Err(e)
      case Ok(matrix) => Ok(channels["matrix" := Obj(matrix["accessToken" := token.value])])
  }

  /** The merged channels; None if both sides have none. */
  function Channels(remote: Fields, local: Fields): Result<Option<Fields>, string> {
    var r, l := OrEmpty(remote, "channels"), OrEmpty(local, "channels");
    if !Truthy(r) && !Truthy(l) then Ok(None)
    else if !r.Obj? || !l.Obj? then Err("channels is no object")
    else
      match LocalToken(local)
      case Err(e) => Err(e)
      case Ok(token) =>
        match WithToken(DeepMerge(l.fields, r.fields), token)
        case Err(e) => Err(e)
        case Ok(channels) => Ok(Some(channels))
  }

  // --------------------------------------------------------------------------
  // plugins
  // --------------------------------------------------------------------------

  function Entries(remote: Fields, local: Fields): Result<Option<Fields>, string> {
    var r, l := OrEmpty(remote, "entries"), OrEmpty(local, "entries");
    if !Truthy(r) && !Truthy(l) then Ok(None)
    else if !r.Obj? || !l.Obj? then Err("entries is no object")
    else Ok(Some(DeepMerge(r.fields, l.fields)))
  }

  /** plugins.get("load", {}).get("paths"), with None for null. */
  function LoadPaths(plugins: Fields): Result<Option<Value>, string> {
    match Child(plugins, "load")
    case Err(e) => Err(e)
    case Ok(load) => Ok(if "paths" in load && load["paths"] != Null then Some(load["paths"]) else None)
  }

  function Strings(items: seq<Value>): Result<seq<string>, string> {
    if items == [] then Ok([])
    else if !items[0].Str? then Err("path is no string")
    else
      match Strings(items[1..])
      case Err(e) => Err(e)
      case Ok(rest) => Ok([items[0].text] + rest)
  }

  /** paths or [] */
  function PathList(paths: Option<Value>): Result<seq<string>, string> {
    if paths.None? || !Truthy(paths.value) then Ok([])
    else if !paths.value.Arr? then Err("paths is no list")
    else Strings(paths.value.items)
  }

  function PathValue(paths: seq<string>): Value {
    Arr(seq(|paths|, i requires 0 <= i < |paths| => Str(paths[i])))
  }

  /** The merged load; None if neither side has paths. */
  function Load(remote: Fields, local: Fields): Result<Option<Fields>, string> {
    var r, l := LoadPaths(remote), LoadPaths(local);
    if r.Err? then Err(r.error)
    else if l.Err? then Err(l.error)
    else if r.value.None? && l.value.None? then Ok(None)
    else
      var rs, ls := PathList(r.value), PathList(l.value);
      if rs.Err? then Err(rs.error)
      else if ls.Err? then Err(ls.error)
      else
        match Child(local, "load")
        case Err(e) => Err(e)
        case Ok(load) => Ok(Some(load["paths" := PathValue(SortedSet(rs.value + ls.value))]))
  }

  function With(fields: Fields, key: string, child: Option<Fields>): Fields {
    if child.Some? then fields[key := Obj(child.value)] else fields
  }

  function Plugins(remote: Fields, local: Fields): Result<Option<Fields>, string> {
    var r, l := OrEmpty(remote, "plugins"), OrEmpty(local, "plugins");
    if !Truthy(r) && !Truthy(l) then Ok(None)
    else if !r.Obj? || !l.Obj? then Err("plugins is no object")
    else
      match Entries(r.fields, l.fields)
      case Err(e) => Err(e)
      case Ok(entries) =>
        match Load(r.fields, l.fields)
        case Err(e) => Err(e)
        case Ok(load) => Ok(Some(With(With(l.fields, "entries", entries), "load", load)))
  }

  /** _merge_openclaw_config, between parsing and printing. */
  function Merge(remote: Value, local: Value): Result<Value, string> {
    if !remote.Obj? || !local.Obj? then Err("the document is no object")
    else
      match Channels(remote.fields, local.fields)
      case Err(e) => Err(e)
      case Ok(channels) =>
        match Plugins(remote.fields, local.fields)
        case Err(e) => Err(e)
        case Ok(plugins) =>
          var base := Replaced(remote.fields, Replaced(remote.fields, local.fields, "models"), "gateway");
          Ok(Obj(With(With(base, "channels", channels), "plugins", plugins)))
  }

  /** What the parts contribute to the merged document. */
  lemma MergeParts(remote: Fields, local: Fields)
    requires Merge(Obj(remote), Obj(local)).Ok?
    ensures Channels(remote, local).Ok? && Plugins(remote, local).Ok?
    ensures var m := Merge(Obj(remote), Obj(local)).value;
            && m.Obj?
            && (forall k :: k !in {"models", "gateway", "channels", "plugins"} ==> Lookup(m.fields, k) == Lookup(local, k))
            && (forall k :: k in {"models", "gateway"} ==>
                  Lookup(m.fields, k) == if k in remote && remote[k] != Null then Some(remote[k]) else Lookup(local, k))
            && Lookup(m.fields, "channels") ==
               (match Channels(remote, local).value case Some(c) => Some(Obj(c)) case None => Lookup(local, "channels"))
            && Lookup(m.fields, "plugins") ==
               (match Plugins(remote, local).value case Some(p) => Some(Obj(p)) case None => Lookup(local, "plugins"))
  {
    hide Channels, Plugins;
  }

  /** Keys other than models, gateway, channels and plugins stay as they are; models and gateway are
      the remote's unless it has none. */
  lemma TopLevelKeys(remote: Fields, local: Fields, m: Value, key: string)
    requires Merge(Obj(remote), Obj(local)) == Ok(m) && key != "channels" && key != "plugins"
    ensures m.Obj? && Lookup(m.fields, key) ==
                      if key in {"models", "gateway"} && key in remote && remote[key] != Null then Some(remote[key])
                      else Lookup(local, key)
  {
    hide Merge, Channels, Plugins;
    MergeParts(remote, local);
    assert key in {"models", "gateway"} || key !in {"models", "gateway", "channels", "plugins"};
  }

  // --------------------------------------------------------------------------
  // Who wins under channels
  // --------------------------------------------------------------------------

  lemma ChannelsMerged(remote: Fields, local: Fields)
    requires Channels(remote, local).Ok? && Channels(remote, local).value.Some?
    ensures OrEmpty(remote, "channels").Obj? && OrEmpty(local, "channels").Obj? && LocalToken(local).Ok?
    ensures WithToken(DeepMerge(OrEmpty(local, "channels").fields, OrEmpty(remote, "channels").fields), LocalToken(local).value)
            == Ok(Channels(remote, local).value.value)
  {
    hide OrEmpty, DeepMerge, LocalToken, WithToken;
  }

  /** At or below channels.matrix.accessToken. */
  predicate AtToken(path: Json.Path) {
    |path| >= 2 && path[0] == "matrix" && path[1] == "accessToken"
  }

  lemma TokenElsewhere(channels: Fields, token: Option<Value>, path: Json.Path)
    requires WithToken(channels, token).Ok? && path != [] && GetPath(Obj(channels), path).Some?
    requires !GetPath(Obj(channels), path).value.Obj?
    requires token.Some? && Truthy(token.value) ==> !AtToken(path)
    ensures GetPath(Obj(WithToken(channels, token).value), path) == GetPath(Obj(channels), path)
  {
  }

  /** Every remote value under channels that is no object is in the merge, except at the access
      token when the worker has one of its own. */
  lemma RemoteChannelLeafWins(remote: Fields, local: Fields, m: Value, path: Json.Path)
    requires Merge(Obj(remote), Obj(local)) == Ok(m)
    requires var v := GetPath(Obj(remote), ["channels"] + path); path != [] && v.Some? && !v.value.Obj?
    requires var token := LocalToken(local); token.Ok? && token.value.Some? && Truthy(token.value.value) ==> !AtToken(path)
    ensures GetPath(m, ["channels"] + path) == GetPath(Obj(remote), ["channels"] + path)
  {
    hide Merge, Channels, Plugins, DeepMerge, LocalToken, WithToken, AtToken;
    MergeParts(remote, local);
    assert (["channels"] + path)[1..] == path;
    RemoteHasChannels(remote, local, path);
    ChannelsMerged(remote, local);
    var l, r := OrEmpty(local, "channels").fields, OrEmpty(remote, "channels").fields;
    OverrideLeafWins(l, r, path);
    TokenElsewhere(DeepMerge(l, r), LocalToken(local).value, path);
  }

  lemma RemoteHasChannels(remote: Fields, local: Fields, path: Json.Path)
    requires "channels" in remote && path != [] && GetPath(remote["channels"], path).Some?
    requires Channels(remote, local).Ok?
    ensures OrEmpty(remote, "channels") == remote["channels"] && Channels(remote, local).value.Some?
  {
    hide LocalToken, WithToken, DeepMerge;
  }

  /** What only the worker has under channels stays. */
  lemma LocalChannelKept(remote: Fields, local: Fields, m: Value, path: Json.Path)
    requires Merge(Obj(remote), Obj(local)) == Ok(m) && path != []
    requires var v := GetPath(Obj(local), ["channels"] + path); v.Some? && !v.value.Obj?
    requires OrEmpty(remote, "channels").Obj? && Clear(OrEmpty(remote, "channels").fields, path)
    requires var token := LocalToken(local); token.Ok? && token.value.Some? && Truthy(token.value.value) ==> !AtToken(path)
    ensures GetPath(m, ["channels"] + path) == GetPath(Obj(local), ["channels"] + path)
  {
    hide Merge, Channels, Plugins, DeepMerge, LocalToken, WithToken, AtToken, Clear;
    MergeParts(remote, local);
    assert (["channels"] + path)[1..] == path;
    RemoteOrLocalChannels(remote, local, path);
    ChannelsMerged(remote, local);
    var l, r := OrEmpty(local, "channels").fields, OrEmpty(remote, "channels").fields;
    BaseKept(l, r, path);
    TokenElsewhere(DeepMerge(l, r), LocalToken(local).value, path);
  }

  lemma RemoteOrLocalChannels(remote: Fields, local: Fields, path: Json.Path)
    requires "channels" in local && path != [] && GetPath(local["channels"], path).Some?
    requires Channels(remote, local).Ok?
    ensures OrEmpty(local, "channels") == local["channels"] && Channels(remote, local).value.Some?
  {
    hide LocalToken, WithToken, DeepMerge;
  }

  /** The worker's own access token survives every merge. */
  lemma LocalTokenKept(remote: Fields, local: Fields, m: Value, token: Value)
    requires Merge(Obj(remote), Obj(local)) == Ok(m)
    requires GetPath(Obj(local), ["channels", "matrix", "accessToken"]) == Some(token) && Truthy(token)
    ensures GetPath(m, ["channels", "matrix", "accessToken"]) == Some(token)
  {
    hide Merge, Channels, Plugins, DeepMerge;
    MergeParts(remote, local);
    TokenPath(Obj(local));
    TokenPath(m);
    RemoteOrLocalChannels(remote, local, ["matrix", "accessToken"]);
    ChannelsMerged(remote, local);
  }

  lemma TokenPath(v: Value)
    ensures GetPath(v, ["channels", "matrix", "accessToken"]) ==
            if v.Obj? && "channels" in v.fields then GetPath(v.fields["channels"], ["matrix", "accessToken"]) else None
    ensures v.Obj? && "channels" in v.fields ==>
              GetPath(v.fields["channels"], ["matrix", "accessToken"]) ==
              var c := v.fields["channels"];
              if c.Obj? && "matrix" in c.fields && c.fields["matrix"].Obj? then Lookup(c.fields["matrix"].fields, "accessToken") else None
  {
    assert ["channels", "matrix", "accessToken"][1..] == ["matrix", "accessToken"];
    if v.Obj? && "channels" in v.fields {
      var c := v.fields["channels"];
      assert ["matrix", "accessToken"][1..] == ["accessToken"];
      if c.Obj? && "matrix" in c.fields {
        OneKey(c.fields["matrix"], "accessToken");
      }
    }
  }

  lemma OneKey(v: Value, key: string)
    ensures GetPath(v, [key]) == if v.Obj? then Lookup(v.fields, key) else None
  {
    assert [key][1..] == [];
  }

  // --------------------------------------------------------------------------
  // plugins
  // --------------------------------------------------------------------------

  lemma {:induction false} StringsOf(paths: seq<string>)
    ensures Strings(PathValue(paths).items) == Ok(paths)
  {
    if paths != [] {
      StringsOf(paths[1..]);
      assert PathValue(paths).items[1..] == PathValue(paths[1..]).items;
      assert paths == [paths[0]] + paths[1..];
    }
  }

  /** Under plugins the worker's values win, keys other than entries and load are the worker's, and
      the load paths of both sides are listed once each, in order. */
  lemma PluginsMerged(remote: Fields, local: Fields)
    requires Plugins(remote, local).Ok? && Plugins(remote, local).value.Some?
    ensures var r, l, p := OrEmpty(remote, "plugins"), OrEmpty(local, "plugins"), Plugins(remote, local).value.value;
            && r.Obj? && l.Obj?
            && Entries(r.fields, l.fields).Ok? && Load(r.fields, l.fields).Ok?
            && (forall k :: k != "entries" && k != "load" ==> Lookup(p, k) == Lookup(l.fields, k))
            && Lookup(p, "entries") ==
               (match Entries(r.fields, l.fields).value case Some(e) => Some(Obj(e)) case None => Lookup(l.fields, "entries"))
            && Lookup(p, "load") ==
               (match Load(r.fields, l.fields).value case Some(e) => Some(Obj(e)) case None => Lookup(l.fields, "load"))
  {
    hide OrEmpty, Entries, Load;
  }

  lemma LocalPluginEntryWins(remote: Fields, local: Fields, path: Json.Path)
    requires Plugins(remote, local).Ok? && Plugins(remote, local).value.Some? && path != []
    requires var v := GetPath(OrEmpty(local, "plugins"), ["entries"] + path); v.Some? && !v.value.Obj?
    ensures GetPath(Obj(Plugins(remote, local).value.value), ["entries"] + path) ==
            GetPath(OrEmpty(local, "plugins"), ["entries"] + path)
  {
    hide Plugins, OrEmpty, Load, DeepMerge, Entries;
    PluginsMerged(remote, local);
    assert (["entries"] + path)[1..] == path;
    var r, l := OrEmpty(remote, "plugins").fields, OrEmpty(local, "plugins").fields;
    EntriesAt(r, l, path);
    OverrideLeafWins(OrEmpty(r, "entries").fields, OrEmpty(l, "entries").fields, path);
  }

  lemma EntriesAt(r: Fields, l: Fields, path: Json.Path)
    requires Entries(r, l).Ok? && "entries" in l && path != [] && GetPath(l["entries"], path).Some?
    ensures OrEmpty(r, "entries").Obj? && OrEmpty(l, "entries") == l["entries"]
    ensures Entries(r, l).value == Some(DeepMerge(OrEmpty(r, "entries").fields, OrEmpty(l, "entries").fields))
  {
    hide DeepMerge;
  }

  /** The merged load paths are exactly the paths of either side, in ascending order without
      repetition; the worker's other load keys stay. */
  lemma PathsUnion(r: Fields, l: Fields)
    requires Load(r, l).Ok? && Load(r, l).value.Some?
    ensures LoadPaths(r).Ok? && LoadPaths(l).Ok? && PathList(LoadPaths(r).value).Ok? && PathList(LoadPaths(l).value).Ok?
    ensures Child(l, "load").Ok?
    ensures var rs, ls, load := PathList(LoadPaths(r).value).value, PathList(LoadPaths(l).value).value, Load(r, l).value.value;
            && "paths" in load && load["paths"].Arr?
            && Strings(load["paths"].items).Ok?
            && Ascending(Strings(load["paths"].items).value)
            && (forall p :: p in Strings(load["paths"].items).value <==> p in rs || p in ls)
            && (forall k :: k != "paths" ==> Lookup(load, k) == Lookup(Child(l, "load").value, k))
  {
    hide LoadPaths, PathList, Strings, SortedSet, Ascending;
    var rs, ls := PathList(LoadPaths(r).value).value, PathList(LoadPaths(l).value).value;
    SortedSetIs(rs + ls);
    StringsOf(SortedSet(rs + ls));
  }

  // --------------------------------------------------------------------------
  // Merging again
  // --------------------------------------------------------------------------

  /** The remote's channels.matrix is an object or absent. */
  predicate MatrixIsObject(remote: Fields) {
    OrEmpty(remote, "channels").Obj? ==> Child(OrEmpty(remote, "channels").fields, "matrix").Ok?
  }

  lemma ChannelsByLookup(remote: Fields, local: Fields, local': Fields)
    requires Lookup(local, "channels") == Lookup(local', "channels")
    ensures Channels(remote, local) == Channels(remote, local')
  {
  }

  lemma TokenThere(d: Fields)
    requires Child(d, "matrix").Ok?
    ensures WithToken(d, Lookup(Child(d, "matrix").value, "accessToken")) == Ok(d)
  {
    if "matrix" in d && "accessToken" in d["matrix"].fields {
      var matrix := d["matrix"].fields;
      assert matrix["accessToken" := matrix["accessToken"]] == matrix;
      assert d["matrix" := d["matrix"]] == d;
    }
  }

  /** The remote merged over the result again: only the token can differ, and it is put back. */
  lemma TokenBack(l: Fields, r: Fields, token: Value)
    requires Truthy(token) && WithToken(DeepMerge(l, r), Some(token)).Ok?
    ensures var c := WithToken(DeepMerge(l, r), Some(token)).value;
            WithToken(DeepMerge(c, r), Some(token)) == Ok(c)
  {
    var d := DeepMerge(l, r);
    var dm := Child(d, "matrix").value;
    var c := d["matrix" := Obj(dm["accessToken" := token])];
    MatrixMerged(l, r, token);
    OverrideAbsorbed(l, r);
    hide DeepMerge;
    MergedKeys(l, r);
    MergedKeys(c, r);
    var again := DeepMerge(c, r);
    forall k | k in again && k != "matrix" ensures again[k] == d[k] {
      MergedAt(c, r, k);
      MergedAt(d, r, k);
    }
    var am := Child(again, "matrix").value;
    assert again["matrix" := Obj(am["accessToken" := token])] == c;
  }

  lemma MatrixMerged(l: Fields, r: Fields, token: Value)
    requires Child(DeepMerge(l, r), "matrix").Ok?
    ensures var d := DeepMerge(l, r);
            var dm := Child(d, "matrix").value;
            var again := DeepMerge(d["matrix" := Obj(dm["accessToken" := token])], r);
            && Child(again, "matrix").Ok?
            && Child(again, "matrix").value["accessToken" := token] == dm["accessToken" := token]
  {
    hide DeepMerge;
    var d := DeepMerge(l, r);
    MergedAt(l, r, "matrix");
    var dm := Child(d, "matrix").value;
    var with := dm["accessToken" := token];
    var c := d["matrix" := Obj(with)];
    MergedAt(c, r, "matrix");
    if "matrix" in r {
      var rm := r["matrix"].fields;
      assert Child(DeepMerge(c, r), "matrix").value == DeepMerge(with, rm);
      MatrixAbsorbed(l, r);
      MergedKeys(with, rm);
      MergedKeys(dm, rm);
      forall k | k in DeepMerge(with, rm) && k != "accessToken" ensures DeepMerge(with, rm)[k] == dm[k] {
        MergedAt(with, rm, k);
        MergedAt(dm, rm, k);
      }
      assert DeepMerge(with, rm)["accessToken" := token] == with;
    }
  }

  lemma MatrixAbsorbed(l: Fields, r: Fields)
    requires "matrix" in r && r["matrix"].Obj?
    ensures Child(DeepMerge(l, r), "matrix").Ok?
    ensures var dm := Child(DeepMerge(l, r), "matrix").value;
            DeepMerge(dm, r["matrix"].fields) == dm
  {
    hide DeepMerge;
    MergedAt(l, r, "matrix");
    if "matrix" in l && l["matrix"].Obj? {
      OverrideAbsorbed(l["matrix"].fields, r["matrix"].fields);
    } else {
      SelfMerge(r["matrix"].fields);
    }
  }

  lemma ChannelsResultNotEmpty(remote: Fields, local: Fields)
    requires Channels(remote, local).Ok? && Channels(remote, local).value.Some?
    ensures Channels(remote, local).value.value != map[]
  {
    hide LocalToken, DeepMerge;
    var r, l := OrEmpty(remote, "channels").fields, OrEmpty(local, "channels").fields;
    MergedKeys(l, r);
    var k :| k in l.Keys + r.Keys;
    assert k in DeepMerge(l, r);
    assert k in Channels(remote, local).value.value;
  }

  /** What the second merge makes of the channels. */
  lemma ChannelsAgain(remote: Fields, local: Fields, local': Fields)
    requires Channels(remote, local).Ok? && Channels(remote, local).value.Some?
    requires Lookup(local', "channels") == Some(Obj(Channels(remote, local).value.value))
    ensures MatrixIsObject(remote) ==> Channels(remote, local') == Channels(remote, local)
    ensures !MatrixIsObject(remote) ==> Channels(remote, local').Err?
  {
    ChannelsMerged(remote, local);
    ChannelsResultNotEmpty(remote, local);
    var c := Channels(remote, local).value.value;
    var l, r := OrEmpty(local, "channels").fields, OrEmpty(remote, "channels").fields;
    var token := LocalToken(local).value;
    ResultMatrix(remote, local);
    OverrideAbsorbed(l, r);
    hide DeepMerge, MatrixIsObject, WithToken;
    assert OrEmpty(local', "channels") == Obj(c);
    if MatrixIsObject(remote) {
      var token' := Lookup(Child(c, "matrix").value, "accessToken");
      assert LocalToken(local') == Ok(token');
      if token.Some? && Truthy(token.value) {
        TokenBack(l, r, token.value);
        TokenIsThere(DeepMerge(l, r), token.value);
      } else {
        NoToken(DeepMerge(l, r), token);
        TokenThere(c);
      }
    }
  }

  lemma NoToken(d: Fields, token: Option<Value>)
    requires token.None? || !Truthy(token.value)
    ensures WithToken(d, token) == Ok(d)
  {
  }

  lemma TokenIsThere(d: Fields, token: Value)
    requires Truthy(token) && WithToken(d, Some(token)).Ok?
    ensures var c := WithToken(d, Some(token)).value;
            Child(c, "matrix").Ok? && Lookup(Child(c, "matrix").value, "accessToken") == Some(token)
  {
  }

  /** channels.matrix is an object or absent in the result exactly when it is in the remote. */
  lemma ResultMatrix(remote: Fields, local: Fields)
    requires Channels(remote, local).Ok? && Channels(remote, local).value.Some?
    ensures Child(Channels(remote, local).value.value, "matrix").Ok? <==> MatrixIsObject(remote)
  {
    hide DeepMerge;
    ChannelsMerged(remote, local);
    MergedAt(OrEmpty(local, "channels").fields, OrEmpty(remote, "channels").fields, "matrix");
  }

  lemma EntriesAgain(r: Fields, l: Fields, l': Fields)
    requires Entries(r, l).Ok?
    requires Lookup(l', "entries") == (match Entries(r, l).value case Some(e) => Some(Obj(e)) case None => Lookup(l, "entries"))
    ensures Entries(r, l') == Entries(r, l)
  {
    hide DeepMerge;
    if Entries(r, l).value.Some? {
      var rs, ls := OrEmpty(r, "entries").fields, OrEmpty(l, "entries").fields;
      BaseAbsorbed(rs, ls);
      MergedKeys(rs, ls);
      var k :| k in rs.Keys + ls.Keys;
      assert k in DeepMerge(rs, ls);
      assert OrEmpty(l', "entries") == Obj(DeepMerge(rs, ls));
    }
  }

  lemma LoadAgain(r: Fields, l: Fields, l': Fields)
    requires Load(r, l).Ok?
    requires Lookup(l', "load") == (match Load(r, l).value case Some(e) => Some(Obj(e)) case None => Lookup(l, "load"))
    ensures Load(r, l') == Load(r, l)
  {
    hide Strings, SortedSet;
    if Load(r, l).value.Some? {
      var rs, ls := PathList(LoadPaths(r).value).value, PathList(LoadPaths(l).value).value;
      var load := Load(r, l).value.value;
      SortedSetAbsorbs(rs, ls);
      StringsOf(SortedSet(rs + ls));
      assert LoadPaths(l') == Ok(Some(PathValue(SortedSet(rs + ls))));
      PathListOf(SortedSet(rs + ls));
      assert load["paths" := PathValue(SortedSet(rs + ls))] == load;
    }
  }

  lemma PathListOf(paths: seq<string>)
    ensures PathList(Some(PathValue(paths))) == Ok(paths)
  {
    hide Strings;
    StringsOf(paths);
    if paths == [] {
      assert PathValue(paths).items == [];
    } else {
      assert PathValue(paths).items[0] == Str(paths[0]);
    }
  }

  lemma PluginsByLookup(remote: Fields, local: Fields, local': Fields)
    requires Lookup(local, "plugins") == Lookup(local', "plugins")
    ensures Plugins(remote, local) == Plugins(remote, local')
  {
    hide Entries, Load;
  }

  lemma PluginsAgain(remote: Fields, local: Fields, local': Fields)
    requires Plugins(remote, local).Ok? && Plugins(remote, local).value.Some?
    requires Lookup(local', "plugins") == Some(Obj(Plugins(remote, local).value.value))
    ensures Plugins(remote, local') == Plugins(remote, local)
  {
    PluginsMerged(remote, local);
    hide Entries, Load;
    var p := Plugins(remote, local).value.value;
    var r, l := OrEmpty(remote, "plugins"), OrEmpty(local, "plugins");
    EntriesAgain(r.fields, l.fields, p);
    LoadAgain(r.fields, l.fields, p);
    PluginsNotEmpty(remote, local);
    assert OrEmpty(local', "plugins") == Obj(p);
    WithSame(p, "entries", Entries(r.fields, l.fields).value);
    WithSame(p, "load", Load(r.fields, l.fields).value);
  }

  lemma WithSame(p: Fields, key: string, child: Option<Fields>)
    requires child.Some? ==> Lookup(p, key) == Some(Obj(child.value))
    ensures With(p, key, child) == p
  {
  }

  lemma PluginsNotEmpty(remote: Fields, local: Fields)
    requires Plugins(remote, local).Ok? && Plugins(remote, local).value.Some?
    ensures Truthy(OrEmpty(remote, "plugins")) || Plugins(remote, local).value.value != map[]
  {
    hide Entries, Load;
    if !Truthy(OrEmpty(remote, "plugins")) {
      var l := OrEmpty(local, "plugins").fields;
      var k :| k in l;
      assert k in Plugins(remote, local).value.value;
    }
  }

  /** Merging the same remote document again gives the same document back exactly when the remote's
      channels.matrix is an object or absent; otherwise the second merge fails. */
  lemma MergeAgainIff(remote: Fields, local: Fields, m: Value)
    requires Merge(Obj(remote), Obj(local)) == Ok(m)
    ensures Merge(Obj(remote), m) == Ok(m) <==> MatrixIsObject(remote)
    ensures !MatrixIsObject(remote) ==> Merge(Obj(remote), m).Err?
  {
    hide Merge, Channels, Plugins, MatrixIsObject, OrEmpty;
    MergeParts(remote, local);
    var local' := m.fields;
    if Plugins(remote, local).value.Some? {
      PluginsAgain(remote, local, local');
    } else {
      PluginsByLookup(remote, local, local');
    }
    if Channels(remote, local).value.Some? {
      ChannelsAgain(remote, local, local');
    } else {
      ChannelsByLookup(remote, local, local');
      NoChannels(remote, local);
    }
    MergeOutcome(remote, local');
    if Channels(remote, local').Ok? {
      MergeParts(remote, local');
      SameLookups(Merge(Obj(remote), m).value.fields, local');
    }
  }

  lemma NoChannels(remote: Fields, local: Fields)
    requires Channels(remote, local) == Ok(None)
    ensures MatrixIsObject(remote)
  {
  }

  lemma MergeOutcome(remote: Fields, local: Fields)
    ensures Merge(Obj(remote), Obj(local)).Ok? <==> Channels(remote, local).Ok? && Plugins(remote, local).Ok?
  {
    hide Channels, Plugins;
  }

  lemma SameLookups(a: Fields, b: Fields)
    requires forall k :: k !in {"models", "gateway", "channels", "plugins"} ==> Lookup(a, k) == Lookup(b, k)
    requires forall k :: k in {"models", "gateway", "channels", "plugins"} ==> Lookup(a, k) == Lookup(b, k)
    ensures a == b
  {
    assert forall k :: Lookup(a, k) == Lookup(b, k);
    assert forall k :: k in a ==> Lookup(a, k) == Some(a[k]);
    assert forall k :: k in b ==> Lookup(b, k) == Some(b[k]);
  }

  // --------------------------------------------------------------------------
  // Well-typed documents
  // --------------------------------------------------------------------------

  predicate ObjectOrAbsent(fields: Fields, key: string) {
    key in fields ==> fields[key].Obj?
  }

  predicate WellTyped(doc: Fields) {
    && ObjectOrAbsent(doc, "channels")
    && ("channels" in doc ==> ObjectOrAbsent(doc["channels"].fields, "matrix"))
    && ObjectOrAbsent(doc, "plugins")
    && ("plugins" in doc ==>
          && ObjectOrAbsent(doc["plugins"].fields, "entries")
          && ObjectOrAbsent(doc["plugins"].fields, "load")
          && ("load" in doc["plugins"].fields ==>
                var load := doc["plugins"].fields["load"].fields;
                "paths" in load ==> load["paths"] == Null || (load["paths"].Arr? && Strings(load["paths"].items).Ok?)))
  }

  lemma ChannelsWellTyped(remote: Fields, local: Fields)
    requires WellTyped(remote) && WellTyped(local)
    ensures Channels(remote, local).Ok? && MatrixIsObject(remote)
  {
    hide DeepMerge, Strings;
    MergedAt(OrEmpty(local, "channels").fields, OrEmpty(remote, "channels").fields, "matrix");
  }

  lemma PluginsWellTyped(remote: Fields, local: Fields)
    requires WellTyped(remote) && WellTyped(local)
    ensures Plugins(remote, local).Ok?
  {
    hide DeepMerge, Strings, SortedSet;
  }

  /** On well-typed documents the merge succeeds, and merging again is a fixed point. */
  lemma WellTypedMerge(remote: Fields, local: Fields)
    requires WellTyped(remote) && WellTyped(local)
    ensures Merge(Obj(remote), Obj(local)).Ok?
    ensures var m := Merge(Obj(remote), Obj(local)).value; Merge(Obj(remote), m) == Ok(m)
  {
    hide Merge, Channels, Plugins, WellTyped, MatrixIsObject;
    ChannelsWellTyped(remote, local);
    PluginsWellTyped(remote, local);
    MergeOutcome(remote, local);
    MergeAgainIff(remote, local, Merge(Obj(remote), Obj(local)).value);
  }

  // --------------------------------------------------------------------------
  // The merge, spelt out
  // --------------------------------------------------------------------------

  predicate Has(fields: Fields, key: string) {
    key in fields && Truthy(fields[key])
  }

  /** What counts as a value under the key is an object. */
  predicate ObjectIfAny(fields: Fields, key: string) {
    Has(fields, key) ==> fields[key].Obj?
  }

  /** The object under the key, empty if there is none. */
  function Sub(fields: Fields, key: string): Fields {
    if key in fields && fields[key].Obj? then fields[key].fields else map[]
  }

  lemma OrEmptyIs(fields: Fields, key: string)
    ensures Truthy(OrEmpty(fields, key)) <==> Has(fields, key)
    ensures OrEmpty(fields, key).Obj? <==> ObjectIfAny(fields, key)
    ensures OrEmpty(fields, key).Obj? ==> OrEmpty(fields, key).fields == Sub(fields, key)
  {
  }

  lemma ChildIs(fields: Fields, key: string)
    ensures Child(fields, key).Ok? <==> ObjectOrAbsent(fields, key)
    ensures Child(fields, key).Ok? ==> Child(fields, key).value == Sub(fields, key)
  {
  }

  /** The worker's own access token; None if there is none, or an empty one. */
  function OwnToken(local: Fields): Option<Value> {
    var matrix := Sub(Sub(local, "channels"), "matrix");
    if Has(matrix, "accessToken") then Some(matrix["accessToken"]) else None
  }

  /** Channels that can be merged: none, or objects, with an object under matrix wherever one is asked for. */
  predicate ChannelsFit(remote: Fields, local: Fields) {
    Has(remote, "channels") || Has(local, "channels") ==>
      && ObjectIfAny(remote, "channels") && ObjectOrAbsent(local, "channels")
      && ObjectOrAbsent(Sub(local, "channels"), "matrix")
      && (OwnToken(local).Some? ==> ObjectOrAbsent(Sub(remote, "channels"), "matrix"))
  }

  /** The channels merged, and the worker's own token put in again. */
  predicate ChannelsAre(remote: Fields, local: Fields, channels: Option<Fields>) {
    if !Has(remote, "channels") && !Has(local, "channels") then channels == None
    else
      var merged := DeepMerge(Sub(local, "channels"), Sub(remote, "channels"));
      channels == Some(match OwnToken(local)
                       case None => merged
                       case Some(token) => merged["matrix" := Obj(Sub(merged, "matrix")["accessToken" := token])])
  }

  lemma ChannelsIff(remote: Fields, local: Fields)
    ensures Channels(remote, local).Ok? <==> ChannelsFit(remote, local)
    ensures Channels(remote, local).Ok? ==> ChannelsAre(remote, local, Channels(remote, local).value)
  {
    OrEmptyIs(remote, "channels");
    OrEmptyIs(local, "channels");
    ChildIs(local, "channels");
    ChildIs(Sub(local, "channels"), "matrix");
    var merged := DeepMerge(Sub(local, "channels"), Sub(remote, "channels"));
    ChildIs(merged, "matrix");
    MergedAt(Sub(local, "channels"), Sub(remote, "channels"), "matrix");
    hide OrEmpty, Child, DeepMerge, Truthy;
  }

  /** No paths under load, or null. */
  predicate NoPaths(plugins: Fields) {
    var load := Sub(plugins, "load"); "paths" in load ==> load["paths"] == Null
  }

  /** The paths under load, if they count, are a list of strings. */
  predicate StringPaths(plugins: Fields) {
    var load := Sub(plugins, "load");
    Has(load, "paths") ==>
      load["paths"].Arr? && forall i :: 0 <= i < |load["paths"].items| ==> load["paths"].items[i].Str?
  }

  predicate IsPath(plugins: Fields, path: string) {
    var load := Sub(plugins, "load"); "paths" in load && load["paths"].Arr? && Str(path) in load["paths"].items
  }

  predicate LoadFits(r: Fields, l: Fields) {
    && ObjectOrAbsent(r, "load") && ObjectOrAbsent(l, "load")
    && ((NoPaths(r) && NoPaths(l)) || (StringPaths(r) && StringPaths(l)))
  }

  /** The worker's load with the paths of both sides in ascending order, each once. */
  ghost predicate LoadIs(r: Fields, l: Fields, load: Option<Fields>) {
    if NoPaths(r) && NoPaths(l) then load == None
    else
      && load.Some?
      && (forall k :: k != "paths" ==> Lookup(load.value, k) == Lookup(Sub(l, "load"), k))
      && exists paths :: Ascending(paths) && (forall p :: p in paths <==> IsPath(r, p) || IsPath(l, p))
                         && Lookup(load.value, "paths") == Some(PathValue(paths))
  }

  lemma {:induction false} StringsIff(items: seq<Value>)
    ensures Strings(items).Ok? <==> forall i :: 0 <= i < |items| ==> items[i].Str?
    ensures Strings(items).Ok? ==> forall p :: p in Strings(items).value <==> Str(p) in items
  {
    if items != [] {
      StringsIff(items[1..]);
      assert items == [items[0]] + items[1..];
      assert forall i :: 0 < i < |items| ==> items[i] == items[1..][i - 1];
    }
  }

  /** The paths of one side: whether there are any, whether they are readable, and which they are. */
  lemma PathsIs(plugins: Fields)
    ensures LoadPaths(plugins).Ok? <==> ObjectOrAbsent(plugins, "load")
    ensures LoadPaths(plugins).Ok? ==>
              var paths := LoadPaths(plugins).value;
              && (paths.None? <==> NoPaths(plugins))
              && (PathList(paths).Ok? <==> StringPaths(plugins))
              && (PathList(paths).Ok? ==> forall p :: p in PathList(paths).value <==> IsPath(plugins, p))
  {
    ChildIs(plugins, "load");
    var load := Sub(plugins, "load");
    if "paths" in load && load["paths"].Arr? {
      StringsIff(load["paths"].items);
    }
    hide Strings, Child;
  }

  lemma LoadIff(r: Fields, l: Fields)
    ensures Load(r, l).Ok? <==> LoadFits(r, l)
    ensures Load(r, l).Ok? ==> LoadIs(r, l, Load(r, l).value)
  {
    hide LoadPaths, PathList, PathValue, SortedSet, Ascending, NoPaths, StringPaths, IsPath, Child, Sub, ObjectOrAbsent;
    PathsIs(r);
    PathsIs(l);
    ChildIs(l, "load");
    if Load(r, l).Ok? && Load(r, l).value.Some? {
      var rs, ls := PathList(LoadPaths(r).value).value, PathList(LoadPaths(l).value).value;
      SortedSetIs(rs + ls);
      assert forall p :: p in SortedSet(rs + ls) <==> IsPath(r, p) || IsPath(l, p);
    }
  }

  /** Entries that can be merged: none, or objects. */
  predicate EntriesFit(r: Fields, l: Fields) {
    Has(r, "entries") || Has(l, "entries") ==> ObjectIfAny(r, "entries") && ObjectIfAny(l, "entries")
  }

  predicate EntriesAre(r: Fields, l: Fields, entries: Option<Fields>) {
    entries == if !Has(r, "entries") && !Has(l, "entries") then None else Some(DeepMerge(Sub(r, "entries"), Sub(l, "entries")))
  }

  lemma EntriesIff(r: Fields, l: Fields)
    ensures Entries(r, l).Ok? <==> EntriesFit(r, l)
    ensures Entries(r, l).Ok? ==> EntriesAre(r, l, Entries(r, l).value)
  {
    hide DeepMerge, OrEmpty, Has, ObjectIfAny, Sub, Truthy;
    OrEmptyIs(r, "entries");
    OrEmptyIs(l, "entries");
  }

  predicate PluginsFit(remote: Fields, local: Fields) {
    Has(remote, "plugins") || Has(local, "plugins") ==>
      && ObjectIfAny(remote, "plugins") && ObjectIfAny(local, "plugins")
      && EntriesFit(Sub(remote, "plugins"), Sub(local, "plugins")) && LoadFits(Sub(remote, "plugins"), Sub(local, "plugins"))
  }

  /** The worker's plugins with the merged entries and the merged load, where there are any. */
  ghost predicate PluginsAre(remote: Fields, local: Fields, plugins: Option<Fields>) {
    if !Has(remote, "plugins") && !Has(local, "plugins") then plugins == None
    else
      var r, l := Sub(remote, "plugins"), Sub(local, "plugins");
      && plugins.Some?
      && (forall k :: k != "entries" && k != "load" ==> Lookup(plugins.value, k) == Lookup(l, k))
      && (exists entries ::
            && EntriesAre(r, l, entries)
            && Lookup(plugins.value, "entries") == if entries.Some? then Some(Obj(entries.value)) else Lookup(l, "entries"))
      && (exists load ::
            && LoadIs(r, l, load)
            && Lookup(plugins.value, "load") == if load.Some? then Some(Obj(load.value)) else Lookup(l, "load"))
  }

  lemma PluginsIff(remote: Fields, local: Fields)
    ensures Plugins(remote, local).Ok? <==> PluginsFit(remote, local)
    ensures Plugins(remote, local).Ok? ==> PluginsAre(remote, local, Plugins(remote, local).value)
  {
    hide DeepMerge, OrEmpty, Has, ObjectIfAny, Sub, Truthy, Entries, Load, EntriesFit, EntriesAre, LoadFits, LoadIs;
    OrEmptyIs(remote, "plugins");
    OrEmptyIs(local, "plugins");
    EntriesIff(Sub(remote, "plugins"), Sub(local, "plugins"));
    LoadIff(Sub(remote, "plugins"), Sub(local, "plugins"));
  }

  /** Which documents can be merged, and what the merge makes of every key. */
  lemma MergeIff(remote: Fields, local: Fields)
    ensures Merge(Obj(remote), Obj(local)).Ok? <==> ChannelsFit(remote, local) && PluginsFit(remote, local)
    ensures Merge(Obj(remote), Obj(local)).Ok? ==>
              var m := Merge(Obj(remote), Obj(local)).value;
              && m.Obj?
              && (forall k :: k !in {"models", "gateway", "channels", "plugins"} ==> Lookup(m.fields, k) == Lookup(local, k))
              && (forall k :: k in {"models", "gateway"} ==>
                    Lookup(m.fields, k) == if k in remote && remote[k] != Null then Some(remote[k]) else Lookup(local, k))
              && (exists c ::
                    && ChannelsAre(remote, local, c)
                    && Lookup(m.fields, "channels") == if c.Some? then Some(Obj(c.value)) else Lookup(local, "channels"))
              && (exists p ::
                    && PluginsAre(remote, local, p)
                    && Lookup(m.fields, "plugins") == if p.Some? then Some(Obj(p.value)) else Lookup(local, "plugins"))
  {
    hide Merge, Channels, Plugins, ChannelsFit, ChannelsAre, PluginsFit, PluginsAre, Lookup;
    ChannelsIff(remote, local);
    PluginsIff(remote, local);
    MergeOutcome(remote, local);
    if Merge(Obj(remote), Obj(local)).Ok? {
      MergeParts(remote, local);
    }
  }
}
