/** Pulling the controller's files into the worker's workspace
    (copaw/src/copaw_worker/sync.py, the file part of pull_all). The JSON library is a parser and a
    printer given as parameters. */
module Pull {
  import opened Json
  import opened JsonCodec
  import opened OpenclawMerge
  import opened Text

  const OPENCLAW := "openclaw.json"

  /** A local file and the keys that it is read from, the first present one winning. */
  datatype Source = Source(name: string, keys: seq<string>)

  type Texts = map<string, string>

  function FirstPresent(store: Texts, keys: seq<string>): Option<string> {
    if keys == [] then None
    else if keys[0] in store then Some(store[keys[0]])
    else FirstPresent(store, keys[1..])
  }

  function Existing(local: Texts, name: string): Option<string> {
    if name in local then Some(local[name]) else None
  }

  /** The merged text; a text that does not parse gives way to the remote one. */
  function MergeText(codec: Codec, remote: string, existing: string): Result<string, string> {
    match codec.loads(remote)
    case None => Ok(remote)
    case Some(r) =>
      match codec.loads(existing)
      case None => Ok(remote)
      case Some(l) =>
        match Merge(r, l)
        case Err(e) => Err(e)
        case Ok(m) => Ok(codec.dumps(m))
  }

  /** What the file shall hold; None if the store has nothing for it. */
  function Wanted(codec: Codec, store: Texts, local: Texts, source: Source): Result<Option<string>, string> {
    match FirstPresent(store, source.keys)
    case None => Ok(None)
    case Some(remote) =>
      var existing := Existing(local, source.name);
      if source.name == OPENCLAW && existing.Some? then
        match MergeText(codec, remote, existing.value)
        case Err(e) => Err(e)
        case Ok(text) => Ok(Some(text))
      else Ok(Some(remote))
  }

  datatype Pulled = Pulled(local: Texts, changed: seq<string>, error: Option<string>)

  predicate DistinctNames(sources: seq<Source>) {
    forall i, j :: 0 <= i < j < |sources| ==> sources[i].name != sources[j].name
  }

  /** The remote text of a file: that of the first of its keys, in order, that the store has. */
  predicate IsRemote(store: Texts, source: Source, text: string) {
    exists k :: 0 <= k < |source.keys| && source.keys[k] in store && store[source.keys[k]] == text
                && forall j :: 0 <= j < k ==> source.keys[j] !in store
  }

  /** The file is openclaw.json, both sides are there and parse, and cannot be merged. */
  ghost predicate MergeFails(codec: Codec, store: Texts, before: Texts, source: Source) {
    && source.name == OPENCLAW && OPENCLAW in before
    && exists text, r, l :: IsRemote(store, source, text) && codec.loads(text) == Some(r)
                            && codec.loads(before[OPENCLAW]) == Some(l) && Merge(r, l).Err?
  }

  /** What a pull makes of one file. */
  ghost predicate PulledTo(codec: Codec, store: Texts, before: Texts, after: Texts, source: Source) {
    && ((forall k :: 0 <= k < |source.keys| ==> source.keys[k] !in store) ==>
          Existing(after, source.name) == Existing(before, source.name))
    && (forall text :: IsRemote(store, source, text) ==>
          && source.name in after
          && if source.name != OPENCLAW || OPENCLAW !in before then after[source.name] == text
             else
               match codec.loads(text)
               case None => after[OPENCLAW] == text
               case Some(r) =>
                 match codec.loads(before[OPENCLAW])
                 case None => after[OPENCLAW] == text
                 case Some(l) => Merge(r, l).Ok? && after[OPENCLAW] == codec.dumps(Merge(r, l).value))
  }

  /** The files whose text is another than before, in the order of the list. */
  function ChangedNames(before: Texts, after: Texts, sources: seq<Source>): seq<string> {
    if sources == [] then []
    else
      var n := |sources| - 1;
      ChangedNames(before, after, sources[..n]) +
      (if Existing(after, sources[n].name) != Existing(before, sources[n].name) then [sources[n].name] else [])
  }

  lemma {:induction false} FirstPresentIs(store: Texts, keys: seq<string>)
    ensures FirstPresent(store, keys).None? <==> forall k :: 0 <= k < |keys| ==> keys[k] !in store
    ensures forall text :: FirstPresent(store, keys) == Some(text) <==> IsRemote(store, Source("", keys), text)
  {
    if keys != [] {
      FirstPresentIs(store, keys[1..]);
      RemoteStep(store, keys);
      assert keys == [keys[0]] + keys[1..];
    }
  }

  lemma RemoteStep(store: Texts, keys: seq<string>)
    requires keys != []
    ensures forall text :: IsRemote(store, Source("", keys), text) <==>
              if keys[0] in store then text == store[keys[0]] else IsRemote(store, Source("", keys[1..]), text)
  {
    forall text
      ensures IsRemote(store, Source("", keys), text) <==>
              if keys[0] in store then text == store[keys[0]] else IsRemote(store, Source("", keys[1..]), text)
    {
      if keys[0] !in store && IsRemote(store, Source("", keys), text) {
        var k :| 0 <= k < |keys| && keys[k] in store && store[keys[k]] == text && forall j :: 0 <= j < k ==> keys[j] !in store;
        assert keys[1..][k - 1] == keys[k];
      }
      if keys[0] !in store && IsRemote(store, Source("", keys[1..]), text) {
        var k :| 0 <= k < |keys| - 1 && keys[1..][k] in store && store[keys[1..][k]] == text
                 && forall j :: 0 <= j < k ==> keys[1..][j] !in store;
        forall j | 0 <= j < k + 1 ensures keys[j] !in store {
          assert j > 0 ==> keys[1..][j - 1] == keys[j];
        }
        assert keys[k + 1] == keys[1..][k];
      }
    }
  }

  lemma RemoteIs(store: Texts, source: Source)
    ensures FirstPresent(store, source.keys).None? <==> forall k :: 0 <= k < |source.keys| ==> source.keys[k] !in store
    ensures forall text :: FirstPresent(store, source.keys) == Some(text) <==> IsRemote(store, source, text)
  {
    FirstPresentIs(store, source.keys);
    forall text ensures IsRemote(store, source, text) <==> IsRemote(store, Source("", source.keys), text) {
    }
    hide IsRemote;
  }

  function PullOne(codec: Codec, store: Texts, p: Pulled, source: Source): Pulled {
    if p.error.Some? then p
    else
      match Wanted(codec, store, p.local, source)
      case Err(e) => p.(error := Some(e))
      case Ok(None) => p
      case Ok(Some(text)) =>
        if Existing(p.local, source.name) == Some(text) then p
        else Pulled(p.local[source.name := text], p.changed + [source.name], None)
  }

  function PullAll(codec: Codec, store: Texts, local: Texts, sources: seq<Source>): Pulled {
    if sources == [] then Pulled(local, [], None)
    else PullOne(codec, store, PullAll(codec, store, local, sources[..|sources| - 1]), sources[|sources| - 1])
  }

  lemma {:induction false} ErrorStays(codec: Codec, store: Texts, local: Texts, sources: seq<Source>, i: nat)
    requires i <= |sources| && PullAll(codec, store, local, sources[..i]).error.Some?
    ensures PullAll(codec, store, local, sources) == PullAll(codec, store, local, sources[..i])
    decreases |sources|
  {
    hide Wanted;
    if i == |sources| {
      assert sources[..i] == sources;
    } else {
      var n := |sources| - 1;
      assert sources[..n][..i] == sources[..i];
      ErrorStays(codec, store, local, sources[..n], i);
    }
  }

  /** Nothing is left to be pulled for the file. */
  predicate Settled(codec: Codec, store: Texts, local: Texts, source: Source) {
    match Wanted(codec, store, local, source)
    case Err(_) => false
    case Ok(None) => true
    case Ok(Some(text)) => Existing(local, source.name) == Some(text)
  }

  /** When every file is settled, a pull changes nothing and reports nothing. */
  lemma {:induction false} SettledPull(codec: Codec, store: Texts, local: Texts, sources: seq<Source>)
    requires forall i :: 0 <= i < |sources| ==> Settled(codec, store, local, sources[i])
    ensures PullAll(codec, store, local, sources) == Pulled(local, [], None)
    decreases |sources|
  {
    hide Wanted;
    if sources != [] {
      var n := |sources| - 1;
      SettledPull(codec, store, local, sources[..n]);
      assert Settled(codec, store, local, sources[n]);
    }
  }

  /** What a pull without error leaves in each file: what was wanted before it, as no file is
      touched twice. */
  lemma {:induction false} PulledFile(codec: Codec, store: Texts, local: Texts, sources: seq<Source>, i: nat)
    requires DistinctNames(sources) && i < |sources| && PullAll(codec, store, local, sources).error.None?
    ensures Wanted(codec, store, local, sources[i]).Ok?
    ensures Existing(PullAll(codec, store, local, sources).local, sources[i].name) ==
            match Wanted(codec, store, local, sources[i]) {
              case Ok(Some(text)) => Some(text)
              case _ => Existing(local, sources[i].name)
            }
    decreases |sources|
  {
    hide Wanted;
    var n := |sources| - 1;
    var front := sources[..n];
    assert front[..] == front;
    if i < n {
      assert front[i] == sources[i];
      PulledFile(codec, store, local, front, i);
      assert sources[n].name != sources[i].name;
    } else {
      Elsewhere(codec, store, local, front, sources[n].name);
      WantedByFile(codec, store, local, PullAll(codec, store, local, front).local, sources[n]);
    }
  }

  lemma WantedByFile(codec: Codec, store: Texts, local: Texts, other: Texts, source: Source)
    requires Existing(local, source.name) == Existing(other, source.name)
    ensures Wanted(codec, store, local, source) == Wanted(codec, store, other, source)
  {
  }

  /** A pull leaves every other file alone. */
  lemma {:induction false} Elsewhere(codec: Codec, store: Texts, local: Texts, sources: seq<Source>, name: string)
    requires forall i :: 0 <= i < |sources| ==> sources[i].name != name
    ensures Existing(PullAll(codec, store, local, sources).local, name) == Existing(local, name)
    decreases |sources|
  {
    hide Wanted;
    if sources != [] {
      Elsewhere(codec, store, local, sources[..|sources| - 1], name);
    }
  }

  lemma WantedIs(codec: Codec, store: Texts, local: Texts, source: Source)
    ensures Wanted(codec, store, local, source).Err? <==> MergeFails(codec, store, local, source)
    ensures Wanted(codec, store, local, source).Ok? ==>
              forall after :: Existing(after, source.name) == (match Wanted(codec, store, local, source).value
                                                               case Some(text) => Some(text)
                                                               case None => Existing(local, source.name))
                              ==> PulledTo(codec, store, local, after, source)
  {
    hide Merge, IsRemote, FirstPresent;
    RemoteIs(store, source);
  }

  /** Where a pull that fails stopped. */
  lemma {:induction false} StoppedAt(codec: Codec, store: Texts, local: Texts, sources: seq<Source>) returns (n: nat)
    requires DistinctNames(sources) && PullAll(codec, store, local, sources).error.Some?
    ensures n < |sources| && Wanted(codec, store, local, sources[n]).Err?
    ensures PullAll(codec, store, local, sources[..n]).error.None?
    ensures PullAll(codec, store, local, sources).local == PullAll(codec, store, local, sources[..n]).local
    ensures PullAll(codec, store, local, sources).changed == PullAll(codec, store, local, sources[..n]).changed
    decreases |sources|
  {
    hide Wanted;
    var m := |sources| - 1;
    if PullAll(codec, store, local, sources[..m]).error.Some? {
      n := StoppedAt(codec, store, local, sources[..m]);
      assert sources[..m][..n] == sources[..n];
    } else {
      n := m;
      Elsewhere(codec, store, local, sources[..m], sources[m].name);
      WantedByFile(codec, store, local, PullAll(codec, store, local, sources[..m]).local, sources[m]);
    }
  }

  lemma {:induction false} ChangedByFile(before: Texts, after: Texts, other: Texts, sources: seq<Source>)
    requires forall i :: 0 <= i < |sources| ==> Existing(after, sources[i].name) == Existing(other, sources[i].name)
    ensures ChangedNames(before, after, sources) == ChangedNames(before, other, sources)
  {
    hide Existing;
    if sources != [] {
      var n := |sources| - 1;
      assert forall i :: 0 <= i < n ==> sources[..n][i] == sources[i];
      ChangedByFile(before, after, other, sources[..n]);
    }
  }

  /** What is reported is what has another text than before. */
  lemma {:induction false} ReportedIs(codec: Codec, store: Texts, local: Texts, sources: seq<Source>)
    requires DistinctNames(sources)
    ensures var p := PullAll(codec, store, local, sources); p.changed == ChangedNames(local, p.local, sources)
    decreases |sources|
  {
    if sources != [] {
      hide Wanted, Existing, PullOne;
      var n := |sources| - 1;
      var before := PullAll(codec, store, local, sources[..n]);
      assert forall i :: 0 <= i < n ==> sources[..n][i] == sources[i];
      ReportedIs(codec, store, local, sources[..n]);
      Elsewhere(codec, store, local, sources[..n], sources[n].name);
      OneReported(codec, store, local, before, sources[n]);
      ChangedByFile(local, PullAll(codec, store, local, sources).local, before.local, sources[..n]);
    }
  }

  lemma OneReported(codec: Codec, store: Texts, local: Texts, before: Pulled, source: Source)
    requires Existing(before.local, source.name) == Existing(local, source.name)
    ensures var p := PullOne(codec, store, before, source);
            && (forall name :: name != source.name ==> Existing(p.local, name) == Existing(before.local, name))
            && p.changed == before.changed +
                            if Existing(p.local, source.name) != Existing(local, source.name) then [source.name] else []
  {
    hide Wanted;
  }

  lemma {:induction false} UnchangedTail(before: Texts, after: Texts, sources: seq<Source>, n: nat)
    requires n <= |sources|
    requires forall i :: n <= i < |sources| ==> Existing(after, sources[i].name) == Existing(before, sources[i].name)
    ensures ChangedNames(before, after, sources) == ChangedNames(before, after, sources[..n])
    decreases |sources|
  {
    hide Existing;
    if n == |sources| {
      assert sources[..n] == sources;
    } else {
      var m := |sources| - 1;
      assert sources[..m][..n] == sources[..n];
      UnchangedTail(before, after, sources[..m], n);
    }
  }

  /** What a pull does, file by file. */
  lemma PullIs(codec: Codec, store: Texts, local: Texts, sources: seq<Source>)
    requires DistinctNames(sources)
    ensures var p := PullAll(codec, store, local, sources);
            && (p.error.None? ==> forall i :: 0 <= i < |sources| ==> PulledTo(codec, store, local, p.local, sources[i]))
            && (p.error.Some? ==>
                  exists n :: 0 <= n < |sources| && MergeFails(codec, store, local, sources[n])
                              && (forall i :: 0 <= i < n ==> PulledTo(codec, store, local, p.local, sources[i]))
                              && forall i :: n <= i < |sources| ==> Existing(p.local, sources[i].name) == Existing(local, sources[i].name))
            && ((forall i :: 0 <= i < |sources| ==> !MergeFails(codec, store, local, sources[i])) <==> p.error.None?)
            && (forall name :: (forall i :: 0 <= i < |sources| ==> sources[i].name != name) ==>
                                 Existing(p.local, name) == Existing(local, name))
            && p.changed == ChangedNames(local, p.local, sources)
  {
    hide Wanted, PullAll, PulledTo, MergeFails, ChangedNames, Existing;
    var p := PullAll(codec, store, local, sources);
    PullFailsIff(codec, store, local, sources);
    ReportedIs(codec, store, local, sources);
    forall i | 0 <= i < |sources| ensures Wanted(codec, store, local, sources[i]).Err? <==> MergeFails(codec, store, local, sources[i]) {
      WantedIs(codec, store, local, sources[i]);
    }
    forall name | forall i :: 0 <= i < |sources| ==> sources[i].name != name ensures Existing(p.local, name) == Existing(local, name) {
      Elsewhere(codec, store, local, sources, name);
    }
    if p.error.None? {
      AllPulled(codec, store, local, sources);
    } else {
      var n := StoppedAt(codec, store, local, sources);
      AllPulled(codec, store, local, sources[..n]);
      assert forall i :: 0 <= i < n ==> sources[..n][i] == sources[i];
      forall i | n <= i < |sources| ensures Existing(p.local, sources[i].name) == Existing(local, sources[i].name) {
        Elsewhere(codec, store, local, sources[..n], sources[i].name);
      }
    }
  }

  lemma AllPulled(codec: Codec, store: Texts, local: Texts, sources: seq<Source>)
    requires DistinctNames(sources) && PullAll(codec, store, local, sources).error.None?
    ensures forall i :: 0 <= i < |sources| ==> PulledTo(codec, store, local, PullAll(codec, store, local, sources).local, sources[i])
  {
    hide Wanted, PullAll, PulledTo, MergeFails, Existing;
    forall i | 0 <= i < |sources| ensures PulledTo(codec, store, local, PullAll(codec, store, local, sources).local, sources[i]) {
      PulledFile(codec, store, local, sources, i);
      WantedIs(codec, store, local, sources[i]);
    }
  }

  /** pull_all over its files, with its loops; an error other than a parse error ends it. */
  method PullFiles(codec: Codec, store: Texts, local0: Texts, sources: seq<Source>) returns (p: Pulled)
    requires DistinctNames(sources)
    ensures p == PullAll(codec, store, local0, sources)
    ensures p.error.None? ==> forall i :: 0 <= i < |sources| ==> PulledTo(codec, store, local0, p.local, sources[i])
    ensures p.error.Some? ==>
              exists n :: 0 <= n < |sources| && MergeFails(codec, store, local0, sources[n])
                          && (forall i :: 0 <= i < n ==> PulledTo(codec, store, local0, p.local, sources[i]))
                          && forall i :: n <= i < |sources| ==> Existing(p.local, sources[i].name) == Existing(local0, sources[i].name)
    ensures (forall i :: 0 <= i < |sources| ==> !MergeFails(codec, store, local0, sources[i])) <==> p.error.None?
    ensures forall name :: (forall i :: 0 <= i < |sources| ==> sources[i].name != name) ==> Existing(p.local, name) == Existing(local0, name)
    ensures p.changed == ChangedNames(local0, p.local, sources)
  {
    hide Wanted, PulledTo, MergeFails, DistinctNames, ChangedNames;
    PullIs(codec, store, local0, sources);
    var local, changed := local0, [];
    for i := 0 to |sources|
      invariant Pulled(local, changed, None) == PullAll(codec, store, local0, sources[..i])
    {
      assert sources[..i + 1][..i] == sources[..i];
      var source := sources[i];
      var wanted := Wanted(codec, store, local, source);
      if wanted.Err? {
        ErrorStays(codec, store, local0, sources, i + 1);
        return Pulled(local, changed, Some(wanted.error));
      }
      if wanted.value.Some? && Existing(local, source.name) != wanted.value {
        local := local[source.name := wanted.value.value];
        changed := changed + [source.name];
      }
    }
    assert sources[..|sources|] == sources;
    p := Pulled(local, changed, None);
  }

  // --------------------------------------------------------------------------
  // What the merge promises, in the pulled file
  // --------------------------------------------------------------------------

  /** The pulled openclaw.json parses to the merge of both sides. */
  lemma PulledMerge(codec: Codec, store: Texts, before: Texts, after: Texts, source: Source, text: string, r: Value, l: Value)
    requires Faithful(codec) && source.name == OPENCLAW && PulledTo(codec, store, before, after, source)
    requires IsRemote(store, source, text) && codec.loads(text) == Some(r)
    requires OPENCLAW in before && codec.loads(before[OPENCLAW]) == Some(l)
    ensures OPENCLAW in after && Merge(r, l).Ok? && codec.loads(after[OPENCLAW]) == Some(Merge(r, l).value)
  {
    hide Merge, IsRemote;
  }

  /** The worker's own access token is in the pulled file. */
  lemma PulledTokenKept(codec: Codec, store: Texts, before: Texts, after: Texts, source: Source, text: string,
                        r: Fields, l: Fields, token: Value)
    requires Faithful(codec) && source.name == OPENCLAW && PulledTo(codec, store, before, after, source)
    requires IsRemote(store, source, text) && codec.loads(text) == Some(Obj(r))
    requires OPENCLAW in before && codec.loads(before[OPENCLAW]) == Some(Obj(l))
    requires GetPath(Obj(l), ["channels", "matrix", "accessToken"]) == Some(token) && Truthy(token)
    ensures OPENCLAW in after && codec.loads(after[OPENCLAW]).Some?
    ensures GetPath(codec.loads(after[OPENCLAW]).value, ["channels", "matrix", "accessToken"]) == Some(token)
  {
    hide Merge, IsRemote, PulledTo, GetPath, Faithful;
    PulledMerge(codec, store, before, after, source, text, Obj(r), Obj(l));
    LocalTokenKept(r, l, Merge(Obj(r), Obj(l)).value, token);
  }

  /** Every remote value under channels that is no object is in the pulled file, except at the
      access token of a worker that has one. */
  lemma PulledChannelLeaf(codec: Codec, store: Texts, before: Texts, after: Texts, source: Source, text: string,
                          r: Fields, l: Fields, path: Json.Path)
    requires Faithful(codec) && source.name == OPENCLAW && PulledTo(codec, store, before, after, source)
    requires IsRemote(store, source, text) && codec.loads(text) == Some(Obj(r))
    requires OPENCLAW in before && codec.loads(before[OPENCLAW]) == Some(Obj(l))
    requires var v := GetPath(Obj(r), ["channels"] + path); path != [] && v.Some? && !v.value.Obj?
    requires var token := LocalToken(l); token.Ok? && token.value.Some? && Truthy(token.value.value) ==> !AtToken(path)
    ensures OPENCLAW in after && codec.loads(after[OPENCLAW]).Some?
    ensures GetPath(codec.loads(after[OPENCLAW]).value, ["channels"] + path) == GetPath(Obj(r), ["channels"] + path)
  {
    hide Merge, IsRemote, PulledTo, GetPath, Faithful, LocalToken, AtToken, Truthy;
    PulledMerge(codec, store, before, after, source, text, Obj(r), Obj(l));
    RemoteChannelLeafWins(r, l, Merge(Obj(r), Obj(l)).value, path);
  }

  // --------------------------------------------------------------------------
  // Pulling again
  // --------------------------------------------------------------------------

  /** The remote openclaw.json parses to a well-typed document. */
  predicate RemoteFits(codec: Codec, store: Texts, source: Source) {
    source.name == OPENCLAW && FirstPresent(store, source.keys).Some? ==>
      var r := codec.loads(FirstPresent(store, source.keys).value);
      r.Some? && r.value.Obj? && WellTyped(r.value.fields)
  }

  /** The worker's openclaw.json was there and parsed to a well-typed document. */
  predicate LocalFits(codec: Codec, local: Texts) {
    OPENCLAW in local &&
    var l := codec.loads(local[OPENCLAW]);
    l.Some? && l.value.Obj? && WellTyped(l.value.fields)
  }

  lemma OpenclawSettles(codec: Codec, store: Texts, local: Texts, source: Source, text: string)
    requires Faithful(codec) && RemoteFits(codec, store, source) && LocalFits(codec, local) && source.name == OPENCLAW
    requires Wanted(codec, store, local, source) == Ok(Some(text))
    ensures MergeText(codec, FirstPresent(store, source.keys).value, text) == Ok(text)
  {
    hide WellTyped, Merge;
    var r := codec.loads(FirstPresent(store, source.keys).value).value.fields;
    var l := codec.loads(local[OPENCLAW]).value.fields;
    WellTypedMerge(r, l);
    assert codec.loads(text) == Some(Merge(Obj(r), Obj(l)).value);
  }

  /** A pull fails exactly when some file cannot be merged. */
  lemma {:induction false} PullFailsIff(codec: Codec, store: Texts, local: Texts, sources: seq<Source>)
    requires DistinctNames(sources)
    ensures PullAll(codec, store, local, sources).error.None? <==>
            forall i :: 0 <= i < |sources| ==> Wanted(codec, store, local, sources[i]).Ok?
    decreases |sources|
  {
    hide Wanted;
    if sources != [] {
      var n := |sources| - 1;
      PullFailsIff(codec, store, local, sources[..n]);
      Elsewhere(codec, store, local, sources[..n], sources[n].name);
      WantedByFile(codec, store, local, PullAll(codec, store, local, sources[..n]).local, sources[n]);
      assert forall i :: 0 <= i < n ==> sources[..n][i] == sources[i];
    }
  }

  lemma FittingIsWanted(codec: Codec, store: Texts, local: Texts, source: Source)
    requires RemoteFits(codec, store, source) && (LocalFits(codec, local) || NoLocal(codec, local))
    ensures Wanted(codec, store, local, source).Ok?
  {
    hide WellTyped, Merge;
    if source.name == OPENCLAW && FirstPresent(store, source.keys).Some? && LocalFits(codec, local) {
      WellTypedMerge(codec.loads(FirstPresent(store, source.keys).value).value.fields,
                     codec.loads(local[OPENCLAW]).value.fields);
    }
  }

  /** With well-typed documents a pull succeeds and settles every file, so that the next pull finds
      nothing to change. */
  lemma OnePullSettles(codec: Codec, store: Texts, local: Texts, sources: seq<Source>)
    requires Faithful(codec) && DistinctNames(sources) && LocalFits(codec, local)
    requires forall i :: 0 <= i < |sources| ==> RemoteFits(codec, store, sources[i])
    ensures var one := PullAll(codec, store, local, sources);
            one.error.None? && PullAll(codec, store, one.local, sources) == Pulled(one.local, [], None)
  {
    hide Wanted, Faithful, RemoteFits, LocalFits, PullAll, DistinctNames;
    forall i | 0 <= i < |sources| ensures Wanted(codec, store, local, sources[i]).Ok? {
      FittingIsWanted(codec, store, local, sources[i]);
    }
    PullFailsIff(codec, store, local, sources);
    var after := PullAll(codec, store, local, sources).local;
    forall i | 0 <= i < |sources| ensures Settled(codec, store, after, sources[i]) {
      PulledFile(codec, store, local, sources, i);
      FileSettles(codec, store, local, after, sources[i]);
    }
    SettledPull(codec, store, after, sources);
  }

  lemma FileSettles(codec: Codec, store: Texts, local: Texts, after: Texts, source: Source)
    requires Faithful(codec) && RemoteFits(codec, store, source) && LocalFits(codec, local)
    requires Wanted(codec, store, local, source).Ok?
    requires Existing(after, source.name) ==
             match Wanted(codec, store, local, source) {
               case Ok(Some(text)) => Some(text)
               case _ => Existing(local, source.name)
             }
    ensures Settled(codec, store, after, source)
  {
    hide Faithful, RemoteFits, MergeText, LocalFits;
    match Wanted(codec, store, local, source) {
      case Ok(Some(text)) =>
        if source.name == OPENCLAW {
          OpenclawSettles(codec, store, local, source, text);
        }
      case Ok(None) =>
    }
  }

  /** There is no local openclaw.json, or it does not parse. */
  predicate NoLocal(codec: Codec, local: Texts) {
    OPENCLAW in local ==> codec.loads(local[OPENCLAW]).None?
  }

  /** A workspace without a readable openclaw.json gets the remote text as it is; the second pull
      prints the merged document, and from then on nothing changes. */
  lemma TwoPullsSettle(codec: Codec, store: Texts, local: Texts, sources: seq<Source>, i: nat)
    requires Faithful(codec) && DistinctNames(sources) && i < |sources| && sources[i].name == OPENCLAW
    requires forall j :: 0 <= j < |sources| ==> RemoteFits(codec, store, sources[j])
    requires FirstPresent(store, sources[i].keys).Some? && NoLocal(codec, local)
    ensures var one := PullAll(codec, store, local, sources);
            var two := PullAll(codec, store, one.local, sources);
            && one.error.None? && Existing(one.local, OPENCLAW) == FirstPresent(store, sources[i].keys)
            && two.error.None? && PullAll(codec, store, two.local, sources) == Pulled(two.local, [], None)
  {
    hide Wanted, Faithful, PullAll, DistinctNames, WellTyped;
    var one := PullAll(codec, store, local, sources);
    forall j | 0 <= j < |sources| ensures Wanted(codec, store, local, sources[j]).Ok? {
      FittingIsWanted(codec, store, local, sources[j]);
    }
    PullFailsIff(codec, store, local, sources);
    PulledFile(codec, store, local, sources, i);
    RawText(codec, store, local, sources[i]);
    assert RemoteFits(codec, store, sources[i]);
    OnePullSettles(codec, store, one.local, sources);
  }

  lemma RawText(codec: Codec, store: Texts, local: Texts, source: Source)
    requires source.name == OPENCLAW && NoLocal(codec, local)
    ensures Wanted(codec, store, local, source) == Ok(FirstPresent(store, source.keys))
  {
  }
}
