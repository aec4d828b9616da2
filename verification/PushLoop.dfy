/** The worker's background push (copaw/src/copaw_worker/sync.py, push_local and push_loop). Writers
    run while a pass is under way, so a pass is a sequence of small steps and a run interleaves them
    with writes. Clock readings strictly increase, and a file's modification time is the reading of
    its last write. */
module PushLoop {
  import opened Text

  // --------------------------------------------------------------------------
  // Which files are pushed
  // --------------------------------------------------------------------------

  /** The parts of a path below the sync root. */
  type Path = seq<string>

  const EXCLUDE_FILES := {"openclaw.json", "mcporter-servers.json"}
  const EXCLUDE_PATHS := {"config/mcporter.json", ".copaw/workspaces/default/config/mcporter.json"}
  const EXCLUDE_PATH_PREFIXES := {
    ".copaw/workspaces/default/skills", ".copaw/workspaces/default/shared",
    ".copaw/workspaces/default/global-shared", "shared", "global-shared"
  }
  const EXCLUDE_DIRS := {
    ".agents", ".cache", ".npm", ".local", ".mc", "custom_channels", "active_skills", "__pycache__"
  }
  const LOCK := ".lock"

  function Posix(path: Path): string {
    Join(path, "/")
  }

  function Name(path: Path): string {
    if path == [] then "" else path[|path| - 1]
  }

  /** pathlib's suffix: from the last dot on, unless that dot is the first or the last character. */
  function Suffix(name: string): string {
    match LastIndex(name, ".")
    case Some(i) => if 0 < i < |name| - 1 then name[i..] else ""
    case None => ""
  }

  predicate Eligible(path: Path) {
    && !(|path| == 1 && Name(path) in EXCLUDE_FILES)
    && Posix(path) !in EXCLUDE_PATHS
    && (forall prefix :: prefix in EXCLUDE_PATH_PREFIXES ==>
          Posix(path) != prefix && !StartsWith(Posix(path), prefix + "/"))
    && (forall i :: 0 <= i < |path| ==> path[i] !in EXCLUDE_DIRS)
    && Suffix(Name(path)) != LOCK
  }

  /** A lock file is a name that goes on before ".lock"; a file called ".lock" is pushed. */
  lemma LockSuffixIff(name: string)
    ensures Suffix(name) == LOCK <==> |name| > |LOCK| && name[|name| - |LOCK|..] == LOCK
  {
    if |name| > |LOCK| && name[|name| - |LOCK|..] == LOCK {
      var k := |name| - |LOCK|;
      assert forall j {:trigger name[j]} :: k <= j < |name| ==> name[j] == LOCK[j - k];
      assert name[k..k + 1] == ".";
      forall i | k < i ensures !OccursAt(name, ".", i) {
        if i + 1 <= |name| {
          assert name[i..i + 1][0] == name[i] == LOCK[i - k];
        }
      }
      LastIndexIs(name, ".", k);
    }
  }

  function Slashed(path: Path): string {
    if path == [] then [] else path[0] + "/" + Slashed(path[1..])
  }

  /** The parts of a path hold no slash. */
  predicate IsPath(path: Path) {
    path != [] && forall i :: 0 <= i < |path| ==> '/' !in path[i]
  }

  lemma {:induction false} PosixSlashed(path: Path)
    requires path != []
    ensures Posix(path) + "/" == Slashed(path)
  {
    if |path| == 1 {
      assert Slashed(path[1..]) == [];
    } else {
      PosixSlashed(path[1..]);
      assert Posix(path) + "/" == path[0] + "/" + (Posix(path[1..]) + "/");
    }
  }

  lemma SameHead(a: string, x: string, b: string, y: string)
    requires '/' !in a && '/' !in b && a + ("/" + x) == b + ("/" + y)
    ensures a == b && x == y
  {
    var s, t := a + ("/" + x), b + ("/" + y);
    assert s[|a|] == '/' && t[|b|] == '/';
    assert forall i :: 0 <= i < |a| ==> s[i] == a[i];
    assert forall i :: 0 <= i < |b| ==> t[i] == b[i];
    assert |a| == |b|;
    assert s[..|a|] == a && t[..|b|] == b;
    assert s[|a| + 1..] == x && t[|b| + 1..] == y;
  }

  lemma {:induction false} SlashedPrefix(dir: Path, path: Path)
    requires forall i :: 0 <= i < |dir| ==> '/' !in dir[i]
    requires forall i :: 0 <= i < |path| ==> '/' !in path[i]
    ensures StartsWith(Slashed(path), Slashed(dir)) <==> dir <= path
  {
    if dir != [] && path != [] {
      SlashedPrefix(dir[1..], path[1..]);
      var a, b := Slashed(path[1..]), Slashed(dir[1..]);
      assert Slashed(path) == path[0] + ("/" + a) && Slashed(dir) == dir[0] + ("/" + b);
      if StartsWith(Slashed(path), Slashed(dir)) {
        var rest := Slashed(path)[|Slashed(dir)|..];
        assert path[0] + ("/" + a) == dir[0] + ("/" + (b + rest));
        SameHead(path[0], a, dir[0], b + rest);
        assert a[..|b|] == b;
        assert dir == [dir[0]] + dir[1..] && path == [path[0]] + path[1..];
      }
      if dir <= path {
        assert dir[1..] <= path[1..];
        assert Slashed(path) == Slashed(dir) + a[|b|..];
      }
    } else if dir != [] {
      assert |Slashed(dir)| > 0;
    }
  }

  /** The test on the text of a path says whether it is a directory or lies below it. */
  lemma BelowIff(dir: Path, path: Path)
    requires IsPath(dir) && IsPath(path)
    ensures Posix(path) == Posix(dir) || StartsWith(Posix(path), Posix(dir) + "/") <==> dir <= path
  {
    hide Posix, Slashed;
    PosixSlashed(dir);
    PosixSlashed(path);
    SlashedPrefix(dir, path);
    var p, d := Posix(path), Posix(dir);
    if |p| == |d| {
      assert (p + "/")[..|d + "/"|] == p + "/" && p == (p + "/")[..|d|] && d == (d + "/")[..|d|];
    } else if |d| < |p| {
      assert (p + "/")[..|d + "/"|] == p[..|d + "/"|];
    }
  }

  lemma SamePosixIff(q: Path, path: Path)
    requires IsPath(q) && IsPath(path)
    ensures Posix(path) == Posix(q) <==> path == q
  {
    hide Posix;
    BelowIff(q, path);
    BelowIff(path, q);
  }

  const RUNTIME := [".copaw", "workspaces", "default"]

  lemma TwoParts(a: string, b: string)
    ensures Posix([a, b]) == a + "/" + b && Posix([a]) == a
  {
    assert [a, b][1..] == [b];
    assert Join([b], "/") == b && Join([a, b], "/") == a + "/" + Join([a, b][1..], "/");
  }

  lemma BelowRuntime(path: Path)
    requires path != []
    ensures Posix(RUNTIME + path) == ".copaw/workspaces/default/" + Posix(path)
    ensures IsPath(path) ==> IsPath(RUNTIME + path)
  {
    assert RUNTIME[1..] == ["workspaces", "default"];
    TwoParts("workspaces", "default");
    assert Posix(RUNTIME) == ".copaw/workspaces/default";
    JoinConcat(RUNTIME, path, "/");
    hide Posix, Join;
    assert forall i :: 0 <= i < |path| ==> (RUNTIME + path)[3 + i] == path[i];
  }

  lemma ExcludedPaths()
    ensures IsPath(["config", "mcporter.json"]) && IsPath(RUNTIME + ["config", "mcporter.json"])
    ensures EXCLUDE_PATHS == {Posix(["config", "mcporter.json"]), Posix(RUNTIME + ["config", "mcporter.json"])}
  {
    hide Posix, RUNTIME;
    TwoParts("config", "mcporter.json");
    BelowRuntime(["config", "mcporter.json"]);
    assert "config" + "/" + "mcporter.json" == "config/mcporter.json";
    assert ".copaw/workspaces/default/" + "config/mcporter.json" == ".copaw/workspaces/default/config/mcporter.json";
  }

  lemma ExcludedPrefixes()
    ensures IsPath(RUNTIME + ["skills"]) && IsPath(RUNTIME + ["shared"]) && IsPath(RUNTIME + ["global-shared"])
    ensures IsPath(["shared"]) && IsPath(["global-shared"])
    ensures EXCLUDE_PATH_PREFIXES == {Posix(RUNTIME + ["skills"]), Posix(RUNTIME + ["shared"]), Posix(RUNTIME + ["global-shared"]),
                                      Posix(["shared"]), Posix(["global-shared"])}
  {
    hide Posix, RUNTIME;
    BelowRuntime(["skills"]);
    BelowRuntime(["shared"]);
    BelowRuntime(["global-shared"]);
    TwoParts("skills", "");
    TwoParts("shared", "");
    TwoParts("global-shared", "");
    assert ".copaw/workspaces/default/" + "skills" == ".copaw/workspaces/default/skills";
    assert ".copaw/workspaces/default/" + "shared" == ".copaw/workspaces/default/shared";
    assert ".copaw/workspaces/default/" + "global-shared" == ".copaw/workspaces/default/global-shared";
  }

  /** Which files are pushed: none of the four managed ones, nothing in or below the five shared directories or
      an excluded directory, and no lock file. */
  lemma EligibleIff(path: Path)
    requires IsPath(path)
    ensures Eligible(path) <==>
            && path != ["openclaw.json"] && path != ["mcporter-servers.json"]
            && path != ["config", "mcporter.json"] && path != RUNTIME + ["config", "mcporter.json"]
            && !(RUNTIME + ["skills"] <= path) && !(RUNTIME + ["shared"] <= path) && !(RUNTIME + ["global-shared"] <= path)
            && !(["shared"] <= path) && !(["global-shared"] <= path)
            && (forall i :: 0 <= i < |path| ==>
                  path[i] !in {".agents", ".cache", ".npm", ".local", ".mc", "custom_channels", "active_skills", "__pycache__"})
            && !(|Name(path)| > 5 && Name(path)[|Name(path)| - 5..] == ".lock")
  {
    hide Posix, IsPath, Suffix, StartsWith;
    ExcludedPaths();
    ExcludedPrefixes();
    hide EXCLUDE_PATHS, EXCLUDE_PATH_PREFIXES;
    SamePosixIff(["config", "mcporter.json"], path);
    SamePosixIff(RUNTIME + ["config", "mcporter.json"], path);
    BelowIff(RUNTIME + ["skills"], path);
    BelowIff(RUNTIME + ["shared"], path);
    BelowIff(RUNTIME + ["global-shared"], path);
    BelowIff(["shared"], path);
    BelowIff(["global-shared"], path);
    LockSuffixIff(Name(path));
  }

  /** What text mode makes of a file: every line ending reads as one line feed. */
  function AsRead(s: string): string {
    if s == [] then []
    else if s[0] == '\r' then NEWLINE + AsRead(if |s| > 1 && s[1] == '\n' then s[2..] else s[1..])
    else [s[0]] + AsRead(s[1..])
  }

  lemma {:induction false} AsReadIff(s: string)
    ensures AsRead(s) == s <==> '\r' !in s
    ensures |AsRead(s)| <= |s| && '\r' !in AsRead(s)
    decreases |s|
  {
    if s != [] {
      if s[0] == '\r' {
        AsReadIff(if |s| > 1 && s[1] == '\n' then s[2..] else s[1..]);
      } else {
        AsReadIff(s[1..]);
        assert s == [s[0]] + s[1..];
        if AsRead(s) == s {
          assert AsRead(s)[1..] == s[1..];
        }
      }
    }
  }

  lemma {:induction false} AsReadSkips(a: string, rest: string)
    requires '\r' !in a
    ensures AsRead(a + rest) == a + AsRead(rest)
  {
    if a == [] {
      assert a + rest == rest;
    } else {
      assert (a + rest)[1..] == a[1..] + rest;
      AsReadSkips(a[1..], rest);
      assert a + AsRead(rest) == [a[0]] + (a[1..] + AsRead(rest));
    }
  }

  lemma {:induction false} NothingTranslated(s: string)
    requires '\n' !in AsRead(s)
    ensures AsRead(s) == s
  {
    ReturnReadsAsFeed();
    if s != [] && s[0] != '\r' {
      assert s == [s[0]] + s[1..] && AsRead(s) == [s[0]] + AsRead(s[1..]);
      NothingTranslated(s[1..]);
    }
  }

  lemma ReturnReadsAsFeed()
    ensures forall s: string {:trigger AsRead(s)} :: s != [] && s[0] == '\r' ==> '\n' in AsRead(s)
  {
    forall s: string {:trigger AsRead(s)} | s != [] && s[0] == '\r' ensures '\n' in AsRead(s) {
      assert AsRead(s)[0] == '\n';
    }
  }

  lemma ReturnBeforeFeed(c: string, k: nat)
    requires '\r' !in c && k < |c| && c[k] == '\n'
    ensures AsRead(c[..k] + ("\r" + c[k..])) == AsRead(c)
  {
    AsReadSkips(c[..k], "\r" + c[k..]);
    AsReadSkips(c[..k], c[k..]);
    assert c == c[..k] + c[k..];
    assert ("\r" + c[k..])[2..] == c[k..][1..];
  }

  /** A text is the only one that reads as it does exactly when it holds no line ending at all. */
  lemma OneReadingIff(c: string)
    ensures (forall t :: AsRead(t) == AsRead(c) ==> t == c) <==> '\r' !in c && '\n' !in c
  {
    hide AsRead;
    AsReadIff(c);
    if '\r' !in c && '\n' !in c {
      forall t | AsRead(t) == AsRead(c) ensures t == c {
        NothingTranslated(t);
      }
    } else if '\r' in c {
      AsReadIff(AsRead(c));
    } else {
      var k :| 0 <= k < |c| && c[k] == '\n';
      ReturnBeforeFeed(c, k);
      assert |c[..k] + ("\r" + c[k..])| == |c| + 1;
    }
  }

  // --------------------------------------------------------------------------
  // The state and its steps
  // --------------------------------------------------------------------------

  datatype File = File(content: string, mtime: int)

  type Files = map<Path, File>
  type Store = map<Path, string>

  /** The file a pass is working on. */
  datatype Phase = Idle | Comparing(path: Path) | Copying(path: Path)

  datatype Pass = Pass(since: int, now: int, visited: set<Path>, phase: Phase)

  /** failed holds the paths whose last attempt failed with no write since. */
  datatype State = State(files: Files, store: Store, clock: int, last: int, pass: Option<Pass>, failed: set<Path>)

  datatype Label =
    | Write(path: Path, content: string, time: int)
    | Delete(path: Path)
    | Begin(time: int)
    | PassOver(path: Path)
    | Stat(path: Path)
    | Compare(reached: bool)
    | Copy(sent: string)
    | Fail
    | Abort
    | End

  predicate InPhase(s: State, phase: Phase) {
    s.pass.Some? && s.pass.value.phase == phase
  }

  predicate CanVisit(s: State, path: Path) {
    InPhase(s, Idle) && path in s.files && path !in s.pass.value.visited
  }

  predicate Working(s: State) {
    s.pass.Some? && s.pass.value.phase != Idle
  }

  /** What a pass compares: the stored text if it can be fetched, and the file's text. */
  predicate SameText(s: State, path: Path, reached: bool) {
    reached && path in s.store && path in s.files && AsRead(s.store[path]) == AsRead(s.files[path].content)
  }

  /** The guards of the code, and what the environment may do. An upload of a file that is being
      written may send anything; the walk need not meet a path written since the pass began. */
  predicate Enabled(s: State, l: Label) {
    match l
    case Write(path, _, time) => s.clock < time
    case Delete(path) => path in s.files
    case Begin(time) => s.pass == None && s.clock < time
    case PassOver(path) => CanVisit(s, path) && (s.files[path].mtime <= s.pass.value.since || !Eligible(path))
    case Stat(path) => CanVisit(s, path) && s.pass.value.since < s.files[path].mtime && Eligible(path)
    case Compare(_) => s.pass.Some? && s.pass.value.phase.Comparing? && s.pass.value.phase.path in s.files
    case Copy(sent) =>
      && s.pass.Some? && s.pass.value.phase.Copying?
      && s.pass.value.phase.path in s.files
      && var file := s.files[s.pass.value.phase.path];
      sent == file.content || s.pass.value.now < file.mtime
    case Fail => Working(s)
    case Abort => s.pass.Some?
    case End =>
      && InPhase(s, Idle)
      && (forall path :: path in s.files && s.files[path].mtime <= s.pass.value.now ==> path in s.pass.value.visited)
  }

  function Done(pass: Pass, path: Path): Option<Pass> {
    Some(pass.(visited := pass.visited + {path}, phase := Idle))
  }

  function Apply(s: State, l: Label): State
    requires Enabled(s, l)
  {
    match l
    case Write(path, content, time) =>
      s.(files := s.files[path := File(content, time)], clock := time, failed := s.failed - {path})
    case Delete(path) => s.(files := s.files - {path}, failed := s.failed - {path})
    case Begin(time) => s.(clock := time, pass := Some(Pass(s.last, time, {}, Idle)))
    case PassOver(path) => s.(pass := Done(s.pass.value, path))
    case Stat(path) => s.(pass := Some(s.pass.value.(phase := Comparing(path))))
    case Compare(reached) =>
      var path := s.pass.value.phase.path;
      if SameText(s, path, reached) then s.(pass := Done(s.pass.value, path), failed := s.failed - {path})
      else s.(pass := Some(s.pass.value.(phase := Copying(path))))
    case Copy(sent) =>
      var path := s.pass.value.phase.path;
      s.(store := s.store[path := sent], pass := Done(s.pass.value, path), failed := s.failed - {path})
    case Fail =>
      var path := s.pass.value.phase.path;
      s.(pass := Done(s.pass.value, path), failed := s.failed + {path})
    case Abort => s.(pass := None)
    case End => s.(pass := None, last := s.pass.value.now)
  }

  /** The store holds the file's text. */
  predicate Agrees(s: State, path: Path) {
    path in s.files && path in s.store && AsRead(s.store[path]) == AsRead(s.files[path].content)
  }

  // --------------------------------------------------------------------------
  // Invariant
  // --------------------------------------------------------------------------

  predicate TimesFit(s: State) {
    && s.last <= s.clock
    && (forall path :: path in s.files ==> s.files[path].mtime <= s.clock)
    && (s.pass.Some? ==> s.pass.value.since == s.last < s.pass.value.now <= s.clock)
  }

  /** Every pushed file last written by the time given agrees, unless its last attempt failed. */
  predicate Pushed(s: State, time: int) {
    forall path {:trigger Agrees(s, path)} ::
      path in s.files && Eligible(path) && s.files[path].mtime <= time && path !in s.failed ==> Agrees(s, path)
  }

  predicate VisitedAgree(s: State) {
    s.pass.Some? ==>
      && (forall path {:trigger Agrees(s, path)} ::
            path in s.files && Eligible(path) && s.files[path].mtime <= s.pass.value.now && path !in s.failed ==>
              path in s.pass.value.visited ==> Agrees(s, path))
      && (s.pass.value.phase != Idle ==>
            && Eligible(s.pass.value.phase.path)
            && (s.pass.value.phase.path in s.files ==> s.pass.value.since < s.files[s.pass.value.phase.path].mtime))
  }

  predicate Inv(s: State) {
    TimesFit(s) && Pushed(s, s.last) && VisitedAgree(s)
  }

  /** The worker starts with any files and any store; nothing has been pushed yet. */
  predicate Start(s: State) {
    && s.last == 0 <= s.clock && s.pass == None && s.failed == {}
    && forall path :: path in s.files ==> 0 < s.files[path].mtime <= s.clock
  }

  lemma StartFits(s: State)
    requires Start(s)
    ensures Inv(s)
  {
    hide Eligible;
  }

  lemma StepKeepsTimes(s: State, l: Label)
    requires Inv(s) && Enabled(s, l)
    ensures TimesFit(Apply(s, l))
  {
    hide Eligible, AsRead, Pushed, SameText;
  }

  lemma StepKeepsPushed(s: State, l: Label)
    requires Inv(s) && Enabled(s, l)
    ensures Pushed(Apply(s, l), Apply(s, l).last)
  {
    hide Eligible, AsRead;
    var s' := Apply(s, l);
    forall path | path in s'.files && Eligible(path) && s'.files[path].mtime <= s'.last && path !in s'.failed
      ensures Agrees(s', path)
    {
      assert path in s.files && s.files[path] == s'.files[path];
      assert Agrees(s, path) || s.pass.Some?;
    }
  }

  lemma StepKeepsVisited(s: State, l: Label)
    requires Inv(s) && Enabled(s, l)
    ensures VisitedAgree(Apply(s, l))
  {
    hide Eligible, AsRead;
    var s' := Apply(s, l);
    if s'.pass.Some? {
      forall path | path in s'.files && Eligible(path) && s'.files[path].mtime <= s'.pass.value.now
                    && path in s'.pass.value.visited && path !in s'.failed
        ensures Agrees(s', path)
      {
        assert path in s.files && s.files[path] == s'.files[path];
        assert Agrees(s, path) || s.pass.Some?;
      }
    }
  }

  // --------------------------------------------------------------------------
  // Runs
  // --------------------------------------------------------------------------

  predicate IsRun(states: seq<State>, labels: seq<Label>) {
    && |states| == |labels| + 1
    && forall i :: 0 <= i < |labels| ==> Enabled(states[i], labels[i]) && states[i + 1] == Apply(states[i], labels[i])
  }

  lemma RunStep(states: seq<State>, labels: seq<Label>, i: nat)
    requires IsRun(states, labels) && i < |labels|
    ensures i + 1 < |states| && Enabled(states[i], labels[i]) && states[i + 1] == Apply(states[i], labels[i])
  {
  }

  lemma {:induction false} RunKeepsInv(states: seq<State>, labels: seq<Label>, n: nat)
    requires IsRun(states, labels) && Start(states[0]) && n <= |labels|
    ensures Inv(states[n])
    decreases n
  {
    hide Enabled, Apply, Start, TimesFit, Pushed, VisitedAgree;
    if n == 0 {
      StartFits(states[0]);
    } else {
      RunStep(states, labels, n - 1);
      RunKeepsInv(states, labels, n - 1);
      StepKeepsTimes(states[n - 1], labels[n - 1]);
      StepKeepsPushed(states[n - 1], labels[n - 1]);
      StepKeepsVisited(states[n - 1], labels[n - 1]);
    }
  }

  /** At the end of every pass, every pushed file that was not written since the pass began agrees
      with the store, unless its last upload failed. */
  lemma PassConverges(states: seq<State>, labels: seq<Label>, n: nat)
    requires IsRun(states, labels) && Start(states[0]) && n < |labels| && labels[n] == End
    ensures states[n].pass.Some? && states[n + 1].last == states[n].pass.value.now
    ensures Pushed(states[n + 1], states[n].pass.value.now)
  {
    hide Pushed, IsRun, Start, TimesFit, VisitedAgree, Eligible;
    RunStep(states, labels, n);
    RunKeepsInv(states, labels, n + 1);
  }

  // What a run's bookkeeping says

  predicate EndsPass(l: Label) {
    l == Abort || l == End
  }

  /** The pass begun by step b is still under way before step n. */
  predicate OpenPass(labels: seq<Label>, b: int, n: int) {
    0 <= b < n <= |labels| && labels[b].Begin? && forall j :: b < j < n ==> !labels[j].Begin? && !EndsPass(labels[j])
  }

  lemma PassStep(s: State, l: Label)
    requires Enabled(s, l)
    ensures l.Begin? ==> s.pass.None? && Apply(s, l).pass.Some? && Apply(s, l).last == s.last
    ensures l.Begin? ==> Apply(s, l).pass.value.now == l.time && Apply(s, l).pass.value.since == s.last
    ensures EndsPass(l) ==> s.pass.Some? && Apply(s, l).pass.None?
    ensures Apply(s, l).last == if l == End then s.pass.value.now else s.last
    ensures !l.Begin? && !EndsPass(l) ==>
              && (Apply(s, l).pass.Some? <==> s.pass.Some?)
              && (s.pass.Some? ==> Apply(s, l).pass.value.now == s.pass.value.now && Apply(s, l).pass.value.since == s.pass.value.since)
  {
    hide Eligible, AsRead, SameText;
  }

  /** A pass looks at what was written since the watermark stood where it stood when the pass began, and bears the
      time of its beginning. */
  lemma {:induction false} PassIs(states: seq<State>, labels: seq<Label>, n: nat)
    requires IsRun(states, labels) && Start(states[0]) && n <= |labels|
    ensures states[n].pass.Some? <==> exists b :: OpenPass(labels, b, n)
    ensures forall b :: OpenPass(labels, b, n) ==>
              && states[n].pass.Some?
              && states[n].pass.value.now == labels[b].time && states[n].pass.value.since == states[b].last
    decreases n
  {
    hide Enabled, Apply, Eligible, IsRun;
    if n > 0 {
      RunStep(states, labels, n - 1);
      PassIs(states, labels, n - 1);
      PassStep(states[n - 1], labels[n - 1]);
      var l := labels[n - 1];
      if l.Begin? {
        assert OpenPass(labels, n - 1, n);
      } else if !EndsPass(l) {
        assert forall b {:trigger OpenPass(labels, b, n)} {:trigger OpenPass(labels, b, n - 1)} ::
            OpenPass(labels, b, n) <==> OpenPass(labels, b, n - 1);
      }
    }
  }

  /** Step e completes a pass, and none is completed between it and step n. */
  predicate LastEnd(labels: seq<Label>, e: int, n: int) {
    0 <= e < n <= |labels| && labels[e] == End && forall j :: e < j < n ==> labels[j] != End
  }

  /** The watermark is the time at which the last completed pass began; passes that were given up leave it. */
  lemma {:induction false} WatermarkIs(states: seq<State>, labels: seq<Label>, n: nat)
    requires IsRun(states, labels) && Start(states[0]) && n <= |labels|
    ensures (forall e :: 0 <= e < n ==> labels[e] != End) ==> states[n].last == 0
    ensures forall e :: LastEnd(labels, e, n) ==> exists b :: OpenPass(labels, b, e) && states[n].last == labels[b].time
    decreases n
  {
    hide Enabled, Apply, Eligible, IsRun, OpenPass, LastEnd;
    if n == 0 {
      NoLastEnd(labels);
    } else {
      RunStep(states, labels, n - 1);
      PassStep(states[n - 1], labels[n - 1]);
      if labels[n - 1] == End {
        PassIs(states, labels, n - 1);
        OnlyLastEnd(labels, n);
      } else {
        WatermarkIs(states, labels, n - 1);
        SameLastEnd(labels, n);
      }
    }
  }

  lemma NoLastEnd(labels: seq<Label>)
    ensures forall e :: !LastEnd(labels, e, 0)
  {
  }

  lemma OnlyLastEnd(labels: seq<Label>, n: nat)
    requires 0 < n <= |labels| && labels[n - 1] == End
    ensures forall e :: LastEnd(labels, e, n) ==> e == n - 1
  {
  }

  lemma SameLastEnd(labels: seq<Label>, n: nat)
    requires 0 < n <= |labels| && labels[n - 1] != End
    ensures forall e :: LastEnd(labels, e, n) ==> LastEnd(labels, e, n - 1)
  {
  }

  /** The step is about the file and leaves it well. */
  predicate Clears(s: State, l: Label, path: Path) {
    match l
    case Write(p, _, _) => p == path
    case Delete(p) => p == path
    case Compare(reached) => WorksOn(s, path) && SameText(s, path, reached)
    case Copy(_) => WorksOn(s, path)
    case _ => false
  }

  predicate WorksOn(s: State, path: Path) {
    Working(s) && s.pass.value.phase.path == path
  }

  lemma FailedStep(s: State, l: Label, path: Path)
    requires Enabled(s, l)
    ensures path in Apply(s, l).failed <==> (l == Fail && WorksOn(s, path)) || (path in s.failed && !Clears(s, l, path))
  {
    hide Eligible, AsRead;
  }

  /** A file counts as failed exactly when an attempt at it failed and nothing has cleared it since. */
  lemma {:induction false} FailedIff(states: seq<State>, labels: seq<Label>, n: nat, path: Path)
    requires IsRun(states, labels) && Start(states[0]) && n <= |labels|
    ensures path in states[n].failed <==>
            exists i :: 0 <= i < n && labels[i] == Fail && WorksOn(states[i], path)
                        && forall j :: i < j < n ==> !Clears(states[j], labels[j], path)
    decreases n
  {
    hide Enabled, Apply, Eligible, IsRun, Clears, WorksOn;
    if n > 0 {
      RunStep(states, labels, n - 1);
      FailedIff(states, labels, n - 1, path);
      FailedStep(states[n - 1], labels[n - 1], path);
    }
  }

  predicate NoFailures(labels: seq<Label>) {
    forall i :: 0 <= i < |labels| ==> labels[i] != Fail
  }

  /** With every attempt successful no path is marked. */
  lemma {:induction false} NothingFailed(states: seq<State>, labels: seq<Label>, n: nat)
    requires IsRun(states, labels) && Start(states[0]) && NoFailures(labels) && n <= |labels|
    ensures states[n].failed == {}
    decreases n
  {
    hide Enabled, Eligible, AsRead, IsRun;
    if n > 0 {
      RunStep(states, labels, n - 1);
      NothingFailed(states, labels, n - 1);
    }
  }

  /** From step begin on no file is written or deleted. */
  predicate Quiet(labels: seq<Label>, begin: nat) {
    forall i :: begin <= i < |labels| ==> !labels[i].Write? && !labels[i].Delete?
  }

  lemma {:induction false} QuietPass(states: seq<State>, labels: seq<Label>, begin: nat, n: nat)
    requires IsRun(states, labels) && begin < n <= |labels| && labels[begin].Begin? && Quiet(labels, begin)
    requires forall i :: begin < i < n ==> labels[i] != Abort && labels[i] != End
    ensures states[n].files == states[begin].files
    ensures states[n].pass.Some? && states[n].pass.value.now == labels[begin].time
    decreases n
  {
    hide Enabled, Eligible, AsRead, IsRun, SameText;
    RunStep(states, labels, n - 1);
    if n > begin + 1 {
      QuietPass(states, labels, begin, n - 1);
      assert labels[n - 1] != Abort && labels[n - 1] != End;
      QuietStep(states[n - 1], labels[n - 1]);
    }
  }

  lemma QuietStep(s: State, l: Label)
    requires Enabled(s, l) && s.pass.Some? && !l.Write? && !l.Delete? && l != Abort && l != End
    ensures Apply(s, l).files == s.files
    ensures Apply(s, l).pass.Some? && Apply(s, l).pass.value.now == s.pass.value.now
  {
    hide Eligible, AsRead, SameText;
  }

  /** One full pass after the writes stop makes the store agree with every pushed file. */
  lemma OneQuietPassSuffices(states: seq<State>, labels: seq<Label>, begin: nat, end: nat)
    requires IsRun(states, labels) && Start(states[0]) && NoFailures(labels)
    requires begin < end < |labels| && labels[begin].Begin? && labels[end] == End && Quiet(labels, begin)
    requires forall i :: begin < i < end ==> labels[i] != Abort && labels[i] != End
    ensures forall path :: path in states[end + 1].files && Eligible(path) ==> Agrees(states[end + 1], path)
  {
    hide Eligible, Agrees, Enabled, AsRead, IsRun, Start, NoFailures, VisitedAgree;
    RunKeepsInv(states, labels, begin);
    RunStep(states, labels, begin);
    QuietPass(states, labels, begin, end);
    RunStep(states, labels, end);
    BeginTime(states[begin], labels[begin]);
    EndFiles(states[end], labels[end]);
    PassConverges(states, labels, end);
    NothingFailed(states, labels, end + 1);
  }

  lemma BeginTime(s: State, l: Label)
    requires l.Begin? && Enabled(s, l)
    ensures s.clock < l.time
  {
  }

  lemma EndFiles(s: State, l: Label)
    requires l == End && Enabled(s, l)
    ensures Apply(s, l).files == s.files
  {
    hide Eligible;
  }

  // --------------------------------------------------------------------------
  // What a failed upload leaves behind
  // --------------------------------------------------------------------------

  predicate Touches(l: Label, path: Path) {
    (l.Write? && l.path == path) || (l.Delete? && l.path == path)
  }

  /** The watermark has gone past the file. */
  predicate Behind(s: State, path: Path) {
    path in s.files && s.files[path].mtime <= s.last
  }

  lemma BehindStays(s: State, l: Label, path: Path)
    requires Inv(s) && Enabled(s, l) && Behind(s, path) && !Touches(l, path)
    ensures Behind(Apply(s, l), path)
    ensures Apply(s, l).files[path] == s.files[path]
    ensures path in Apply(s, l).store <==> path in s.store
    ensures path in s.store ==> Apply(s, l).store[path] == s.store[path]
  {
    hide Eligible, AsRead, Pushed, Agrees, SameText;
  }

  /** Once the watermark is past a file, nothing but a new write brings it to the store: a file whose
      upload failed stays as it is there, whatever else happens. */
  lemma {:induction false} FailedStaysBehind(states: seq<State>, labels: seq<Label>, from: nat, n: nat, path: Path)
    requires IsRun(states, labels) && Start(states[0]) && from <= n <= |labels|
    requires Behind(states[from], path)
    requires forall i :: from <= i < n ==> !Touches(labels[i], path)
    ensures Behind(states[n], path) && states[n].files[path] == states[from].files[path]
    ensures path in states[n].store <==> path in states[from].store
    ensures path in states[from].store ==> states[n].store[path] == states[from].store[path]
    ensures Agrees(states[n], path) <==> Agrees(states[from], path)
    decreases n
  {
    hide Enabled, Apply, IsRun, Start, TimesFit, Pushed, VisitedAgree, Touches, AsRead, Inv;
    if n > from {
      RunStep(states, labels, n - 1);
      FailedStaysBehind(states, labels, from, n - 1, path);
      RunKeepsInv(states, labels, n - 1);
      BehindStays(states[n - 1], labels[n - 1], path);
    }
  }

  /** A pass never writes a path that is not pushed. */
  lemma {:induction false} OnlyEligibleWritten(states: seq<State>, labels: seq<Label>, n: nat, path: Path)
    requires IsRun(states, labels) && Start(states[0]) && n <= |labels| && !Eligible(path)
    ensures path in states[n].store <==> path in states[0].store
    ensures path in states[0].store ==> states[n].store[path] == states[0].store[path]
    decreases n
  {
    hide Enabled, IsRun, Start, TimesFit, Pushed, Eligible, AsRead, SameText;
    if n > 0 {
      RunStep(states, labels, n - 1);
      OnlyEligibleWritten(states, labels, n - 1, path);
      RunKeepsInv(states, labels, n - 1);
    }
  }

  // --------------------------------------------------------------------------
  // Texts and their line endings
  // --------------------------------------------------------------------------

  predicate Unreturned(s: State) {
    && (forall path :: path in s.files ==> '\r' !in s.files[path].content)
    && (forall path :: path in s.store ==> '\r' !in s.store[path])
  }

  /** Where neither side holds a carriage return, agreeing means holding the same characters. */
  lemma AgreesExactly(s: State, path: Path)
    requires Agrees(s, path) && '\r' !in s.store[path] && '\r' !in s.files[path].content
    ensures s.store[path] == s.files[path].content
  {
    AsReadIff(s.store[path]);
    AsReadIff(s.files[path].content);
  }

  /** No file is written with a carriage return, and no upload of a half-written file sends one. */
  predicate NoReturns(labels: seq<Label>) {
    forall i :: 0 <= i < |labels| ==>
      (labels[i].Write? ==> '\r' !in labels[i].content) && (labels[i].Copy? ==> '\r' !in labels[i].sent)
  }

  lemma UnreturnedStays(s: State, l: Label)
    requires Unreturned(s) && Enabled(s, l)
    requires (l.Write? ==> '\r' !in l.content) && (l.Copy? ==> '\r' !in l.sent)
    ensures Unreturned(Apply(s, l))
  {
    hide Eligible, AsRead, SameText;
  }

  lemma {:induction false} RunStaysUnreturned(states: seq<State>, labels: seq<Label>, n: nat)
    requires IsRun(states, labels) && Unreturned(states[0]) && NoReturns(labels) && n <= |labels|
    ensures Unreturned(states[n])
    decreases n
  {
    hide Enabled, Apply, IsRun, Unreturned;
    if n > 0 {
      RunStep(states, labels, n - 1);
      RunStaysUnreturned(states, labels, n - 1);
      UnreturnedStays(states[n - 1], labels[n - 1]);
    }
  }

  /** Where no carriage return is there at the start or is written, one full pass after the writes
      stop leaves the store with the very text of every pushed file. */
  lemma QuietPassExact(states: seq<State>, labels: seq<Label>, begin: nat, end: nat)
    requires IsRun(states, labels) && Start(states[0]) && NoFailures(labels)
    requires Unreturned(states[0]) && NoReturns(labels)
    requires begin < end < |labels| && labels[begin].Begin? && labels[end] == End && Quiet(labels, begin)
    requires forall i :: begin < i < end ==> labels[i] != Abort && labels[i] != End
    ensures var s := states[end + 1];
            forall path :: path in s.files && Eligible(path) ==> path in s.store && s.store[path] == s.files[path].content
  {
    hide Eligible, Enabled, AsRead, IsRun, Start, NoFailures, NoReturns, Quiet;
    OneQuietPassSuffices(states, labels, begin, end);
    RunStep(states, labels, end);
    RunStaysUnreturned(states, labels, end + 1);
    var s := states[end + 1];
    forall path | path in s.files && Eligible(path) ensures path in s.store && s.store[path] == s.files[path].content {
      assert Agrees(s, path);
      AgreesExactly(s, path);
    }
  }

  /** The step leaves the reading of the file as it was. */
  predicate KeepsReading(l: Label, path: Path, text: string) {
    && (l.Write? && l.path == path ==> AsRead(l.content) == AsRead(text))
    && !(l.Delete? && l.path == path)
    && l != Compare(false)
  }

  lemma ReadingKept(s: State, l: Label, path: Path, text: string)
    requires Enabled(s, l) && path in s.files && path in s.store && s.store[path] == text
    requires AsRead(s.files[path].content) == AsRead(text) && !InPhase(s, Copying(path)) && KeepsReading(l, path, text)
    ensures var s' := Apply(s, l);
            && path in s'.files && path in s'.store && s'.store[path] == text
            && AsRead(s'.files[path].content) == AsRead(text) && !InPhase(s', Copying(path))
  {
    hide Eligible, AsRead;
  }

  /** Rewrites that only change line endings never reach the store while it answers. */
  lemma {:induction false} LineEndingsStay(states: seq<State>, labels: seq<Label>, from: nat, n: nat, path: Path)
    requires IsRun(states, labels) && from <= n <= |labels|
    requires Agrees(states[from], path) && !InPhase(states[from], Copying(path))
    requires forall i :: from <= i < n ==> KeepsReading(labels[i], path, states[from].store[path])
    ensures path in states[n].store && states[n].store[path] == states[from].store[path]
    ensures Agrees(states[n], path) && !InPhase(states[n], Copying(path))
    decreases n
  {
    hide Enabled, Apply, IsRun, AsRead, KeepsReading;
    if n > from {
      RunStep(states, labels, n - 1);
      LineEndingsStay(states, labels, from, n - 1, path);
      ReadingKept(states[n - 1], labels[n - 1], path, states[from].store[path]);
    }
  }

  // --------------------------------------------------------------------------
  // push_local with nobody else writing
  // --------------------------------------------------------------------------

  /** The file is sent: new since the watermark, different, and the upload works. */
  predicate Sent(files: Files, store: Store, since: int, reached: Path -> bool, works: Path -> bool, path: Path) {
    && path in files && Eligible(path) && since < files[path].mtime
    && !(reached(path) && path in store && AsRead(store[path]) == AsRead(files[path].content))
    && works(path)
  }

  /** What has been sent once some of the files have been visited. */
  ghost predicate Outcome(s: State, visited: set<Path>, reached: Path -> bool, works: Path -> bool,
                          store: Store, pushed: seq<Path>)
  {
    && (forall path :: path in pushed <==> path in visited && Sent(s.files, s.store, s.last, reached, works, path))
    && (forall i, j :: 0 <= i < j < |pushed| ==> pushed[i] != pushed[j])
    && (forall path :: path in store <==> path in s.store || path in pushed)
    && (forall path :: path in pushed ==> path in s.files && store[path] == s.files[path].content)
    && (forall path :: path in s.store && path !in pushed ==> store[path] == s.store[path])
  }

  /** A file not visited yet looks to the loop as it did at the start. */
  lemma StillUnsent(s: State, visited: set<Path>, reached: Path -> bool, works: Path -> bool,
                    store: Store, pushed: seq<Path>, path: Path)
    requires Outcome(s, visited, reached, works, store, pushed) && path !in visited
    ensures Sent(s.files, s.store, s.last, reached, works, path) <==> Sent(s.files, store, s.last, reached, works, path)
  {
    hide Eligible, AsRead;
    assert path !in pushed;
    assert path in store <==> path in s.store;
  }

  lemma OutcomeSkipped(s: State, visited: set<Path>, reached: Path -> bool, works: Path -> bool,
                       store: Store, pushed: seq<Path>, path: Path)
    requires Outcome(s, visited, reached, works, store, pushed)
    requires !Sent(s.files, s.store, s.last, reached, works, path)
    ensures Outcome(s, visited + {path}, reached, works, store, pushed)
  {
    hide Sent;
  }

  lemma OutcomeSent(s: State, visited: set<Path>, reached: Path -> bool, works: Path -> bool,
                    store: Store, pushed: seq<Path>, path: Path)
    requires Outcome(s, visited, reached, works, store, pushed) && path in s.files && path !in visited
    requires Sent(s.files, s.store, s.last, reached, works, path)
    ensures Outcome(s, visited + {path}, reached, works, store[path := s.files[path].content], pushed + [path])
  {
    hide Sent;
    assert path !in pushed;
    assert forall p {:trigger p in pushed + [path]} :: p in pushed + [path] <==> p in pushed || p == path;
  }

  lemma OutcomeStart(s: State, reached: Path -> bool, works: Path -> bool)
    ensures Outcome(s, {}, reached, works, s.store, [])
  {
    hide Sent;
  }

  /** The loop over the files, in any order, with the answers of the store as parameters. It is a
      run of the machine from the start of a pass to its end. */
  method PushLocal(s: State, time: int, reached: Path -> bool, works: Path -> bool)
    returns (store: Store, pushed: seq<Path>, ghost states: seq<State>, ghost labels: seq<Label>)
    requires s.pass == None && s.clock < time
    ensures Outcome(s, s.files.Keys, reached, works, store, pushed)
    ensures IsRun(states, labels) && |states| == |labels| + 1 && |labels| >= 2
    ensures labels[0] == Begin(time) && labels[|labels| - 1] == End
    ensures states[0] == s && states[|labels|].store == store && states[|labels|].files == s.files
    ensures states[|labels|].last == time && states[|labels|].pass == None
  {
    hide Eligible, AsRead, IsRun, Enabled, Apply, Outcome;
    store, pushed := s.store, [];
    OutcomeStart(s, reached, works);
    BeginAndEnd(s, time);
    labels := [Begin(time)];
    ghost var now := Apply(s, Begin(time));
    states := [s, now];
    ghost var visited: set<Path> := {};
    var todo := s.files.Keys;
    while todo != {}
      invariant todo == s.files.Keys - visited && visited <= s.files.Keys
      invariant Outcome(s, visited, reached, works, store, pushed)
      invariant IsRun(states, labels) && |states| == |labels| + 1 && labels != [] && labels[0] == Begin(time)
      invariant states[0] == s && states[|labels|] == now
      invariant now.files == s.files && now.store == store && now.last == s.last
      invariant now.pass == Some(Pass(s.last, time, visited, Idle))
      decreases todo
    {
      var path :| path in todo;
      todo := todo - {path};
      now, states, labels := Visit(now, states, labels, path, reached, works);
      StillUnsent(s, visited, reached, works, store, pushed, path);
      if Sent(s.files, s.store, s.last, reached, works, path) {
        OutcomeSent(s, visited, reached, works, store, pushed, path);
      } else {
        OutcomeSkipped(s, visited, reached, works, store, pushed, path);
      }
      visited := visited + {path};
      if s.files[path].mtime > s.last && Eligible(path) {
        var same := reached(path) && path in store && AsRead(store[path]) == AsRead(s.files[path].content);
        if !same && works(path) {
          store := store[path := s.files[path].content];
          pushed := pushed + [path];
        }
      }
    }
    assert visited == s.files.Keys;
    EndOfWalk(now);
    now, states, labels := Advance(now, states, labels, End);
  }

  lemma BeginAndEnd(s: State, time: int)
    requires s.pass == None && s.clock < time
    ensures Enabled(s, Begin(time)) && IsRun([s, Apply(s, Begin(time))], [Begin(time)])
    ensures Apply(s, Begin(time)) == s.(clock := time, pass := Some(Pass(s.last, time, {}, Idle)))
  {
    hide Eligible;
  }

  lemma EndOfWalk(s: State)
    requires InPhase(s, Idle) && s.files.Keys <= s.pass.value.visited
    ensures Enabled(s, End) && Apply(s, End) == s.(pass := None, last := s.pass.value.now)
  {
    hide Eligible;
  }

  /** The steps of one file. */
  ghost method Visit(s: State, states: seq<State>, labels: seq<Label>, path: Path, reached: Path -> bool, works: Path -> bool)
    returns (s': State, states': seq<State>, labels': seq<Label>)
    requires IsRun(states, labels) && |states| == |labels| + 1 && states[|labels|] == s && labels != []
    requires CanVisit(s, path)
    ensures IsRun(states', labels') && |states'| == |labels'| + 1 && states'[|labels'|] == s'
    ensures states'[0] == states[0] && labels' != [] && labels'[0] == labels[0]
    ensures s'.files == s.files && s'.last == s.last
    ensures s'.pass == Some(s.pass.value.(visited := s.pass.value.visited + {path}))
    ensures s'.store == if Sent(s.files, s.store, s.pass.value.since, reached, works, path)
                        then s.store[path := s.files[path].content] else s.store
  {
    hide Eligible, AsRead, IsRun;
    s', states', labels' := s, states, labels;
    if s.files[path].mtime <= s.pass.value.since || !Eligible(path) {
      s', states', labels' := Advance(s', states', labels', PassOver(path));
    } else {
      s', states', labels' := Advance(s', states', labels', Stat(path));
      s', states', labels' := Advance(s', states', labels', Compare(reached(path)));
      if !SameText(s, path, reached(path)) {
        s', states', labels' := Advance(s', states', labels', if works(path) then Copy(s.files[path].content) else Fail);
      }
    }
  }

  ghost method Advance(s: State, states: seq<State>, labels: seq<Label>, l: Label)
    returns (s': State, states': seq<State>, labels': seq<Label>)
    requires IsRun(states, labels) && |states| == |labels| + 1 && states[|labels|] == s && labels != []
    requires Enabled(s, l)
    ensures s' == Apply(s, l)
    ensures |labels'| == |labels| + 1 && labels'[0] == labels[0] && labels'[|labels|] == l
    ensures IsRun(states', labels') && |states'| == |labels'| + 1 && states'[|labels'|] == s'
    ensures states'[0] == states[0]
  {
    hide Enabled, Apply;
    s', states', labels' := Apply(s, l), states + [Apply(s, l)], labels + [l];
  }
}
