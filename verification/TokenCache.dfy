/** The token cache of the controller's authenticator
    (hiclaw-controller/internal/auth/authenticator.go). Every method of the cache runs under its
    lock, so a run is a sequence of atomic events, whatever the number of callers. Clock readings
    are arguments. */
module TokenCache {
  import opened Text

  /** The SHA-256 digest of a token. */
  type Digest = seq<bv8>

  datatype Identity = Identity(role: string, username: string, team: string, workerName: string)

  datatype Slot = Slot(identity: Identity, expiry: int)

  type Cache = map<Digest, Slot>

  datatype Limits = Limits(ttl: int, max: int)

  // --------------------------------------------------------------------------
  // One event
  // --------------------------------------------------------------------------

  /** An insertion reads the clock twice and may name the entry that it evicted. */
  datatype Event =
    | Lookup(key: Digest, now: int)
    | Put(key: Digest, identity: Identity, now: int, later: int, victim: Option<Digest>)
    | SweepAt(now: int)
    | Invalidate

  /** The entries that a lookup at this time can hit; also what a sweep keeps. */
  function Live(c: Cache, now: int): Cache {
    map k | k in c && now < c[k].expiry :: c[k]
  }

  function Find(c: Cache, key: Digest, now: int): Option<Identity> {
    if key in c && now < c[key].expiry then Some(c[key].identity) else None
  }

  predicate Full(limits: Limits, c: Cache) {
    limits.max > 0 && |c| >= limits.max
  }

  /** Full, and a sweep finds nothing to remove. */
  predicate Evicts(limits: Limits, c: Cache, now: int) {
    Full(limits, c) && |Live(c, now)| == |c|
  }

  predicate Oldest(c: Cache, key: Digest) {
    key in c && forall k :: k in c ==> c[key].expiry <= c[k].expiry
  }

  predicate VictimFits(limits: Limits, c: Cache, now: int, victim: Option<Digest>) {
    if Evicts(limits, c, now) then victim.Some? && Oldest(c, victim.value) else victim == None
  }

  predicate Enabled(limits: Limits, c: Cache, e: Event) {
    e.Put? ==> VictimFits(limits, c, e.now, e.victim)
  }

  function MakeRoom(limits: Limits, c: Cache, now: int, victim: Option<Digest>): Cache {
    if !Full(limits, c) then c
    else if victim.Some? then c - {victim.value}
    else Live(c, now)
  }

  function Apply(limits: Limits, c: Cache, e: Event): Cache {
    match e
    case Lookup(_, _) => c
    case Put(key, identity, now, later, victim) =>
      MakeRoom(limits, c, now, victim)[key := Slot(identity, later + limits.ttl)]
    case SweepAt(now) => Live(c, now)
    case Invalidate => map[]
  }

  // --------------------------------------------------------------------------
  // Runs, from an empty cache
  // --------------------------------------------------------------------------

  function Final(limits: Limits, events: seq<Event>): Cache {
    if events == [] then map[]
    else Apply(limits, Final(limits, events[..|events| - 1]), events[|events| - 1])
  }

  /** Every eviction took an entry that the code may take. */
  predicate Legal(limits: Limits, events: seq<Event>) {
    events != [] ==>
      && Legal(limits, events[..|events| - 1])
      && Enabled(limits, Final(limits, events[..|events| - 1]), events[|events| - 1])
  }

  /** The last clock reading, or start. */
  function Clock(start: int, events: seq<Event>): int {
    if events == [] then start
    else
      var e := events[|events| - 1];
      match e
      case Lookup(_, now) => now
      case Put(_, _, _, later, _) => later
      case SweepAt(now) => now
      case Invalidate => Clock(start, events[..|events| - 1])
  }

  predicate OnTime(clock: int, e: Event) {
    match e
    case Lookup(_, now) => clock <= now
    case Put(_, _, now, later, _) => clock <= now <= later
    case SweepAt(now) => clock <= now
    case Invalidate => true
  }

  /** The clock never goes back. */
  predicate Ordered(start: int, events: seq<Event>) {
    events != [] ==>
      && Ordered(start, events[..|events| - 1])
      && OnTime(Clock(start, events[..|events| - 1]), events[|events| - 1])
  }

  datatype Insertion = Insertion(identity: Identity, at: int)

  /** The latest insertion for a key that was neither invalidated nor evicted since. */
  function LastPut(events: seq<Event>, key: Digest): Option<Insertion> {
    if events == [] then None
    else
      var before := LastPut(events[..|events| - 1], key);
      match events[|events| - 1]
      case Put(k, identity, _, later, victim) =>
        if k == key then Some(Insertion(identity, later)) else if victim == Some(key) then None else before
      case Invalidate => None
      case _ => before
  }

  lemma Extended(limits: Limits, start: int, events: seq<Event>, e: Event)
    ensures Final(limits, events + [e]) == Apply(limits, Final(limits, events), e)
    ensures Legal(limits, events + [e]) <==> Legal(limits, events) && Enabled(limits, Final(limits, events), e)
    ensures Ordered(start, events + [e]) <==> Ordered(start, events) && OnTime(Clock(start, events), e)
    ensures Clock(start, events + [e]) ==
            match e {
              case Lookup(_, now) => now
              case Put(_, _, _, later, _) => later
              case SweepAt(now) => now
              case Invalidate => Clock(start, events)
            }
  {
    hide Apply, Enabled, OnTime;
    assert (events + [e])[..|events + [e]| - 1] == events;
  }

  lemma SmallerMap(c: Cache, keys: set<Digest>)
    requires keys <= c.Keys
    ensures |keys| <= |c| && (|keys| == |c| ==> keys == c.Keys)
  {
    assert |c.Keys| == |keys| + |c.Keys - keys|;
  }

  lemma LiveSize(c: Cache, now: int)
    ensures |Live(c, now)| <= |c|
    ensures |Live(c, now)| == |c| <==> Live(c, now) == c
  {
    SmallerMap(c, Live(c, now).Keys);
    if |Live(c, now)| == |c| {
      assert forall k :: k in c ==> k in Live(c, now).Keys;
    }
  }

  lemma WithoutOne(c: Cache, key: Digest)
    requires key in c
    ensures |c - {key}| == |c| - 1
  {
    assert (c - {key}).Keys == c.Keys - {key};
  }

  lemma WithOne(c: Cache, key: Digest, slot: Slot)
    ensures |c[key := slot]| == if key in c then |c| else |c| + 1
  {
    assert c[key := slot].Keys == c.Keys + {key};
  }

  lemma ApplyBounded(limits: Limits, c: Cache, e: Event)
    requires limits.max > 0 && |c| <= limits.max && Enabled(limits, c, e)
    ensures |Apply(limits, c, e)| <= limits.max
  {
    hide Live, Oldest;
    match e {
      case Lookup(_, _) =>
      case Put(key, identity, now, later, victim) =>
        LiveSize(c, now);
        if Evicts(limits, c, now) {
          assert victim.value in c by { OldestIsIn(c, victim.value); }
          WithoutOne(c, victim.value);
        }
        WithOne(MakeRoom(limits, c, now, victim), key, Slot(identity, later + limits.ttl));
      case SweepAt(now) => LiveSize(c, now);
      case Invalidate =>
    }
  }

  lemma OldestIsIn(c: Cache, key: Digest)
    requires Oldest(c, key)
    ensures key in c
  {
  }

  /** At most max entries, in every run. */
  lemma {:induction false} Bounded(limits: Limits, events: seq<Event>)
    requires limits.max > 0 && Legal(limits, events)
    ensures |Final(limits, events)| <= limits.max
  {
    hide Apply, Enabled;
    if events != [] {
      Bounded(limits, events[..|events| - 1]);
      ApplyBounded(limits, Final(limits, events[..|events| - 1]), events[|events| - 1]);
    }
  }

  // --------------------------------------------------------------------------
  // What a lookup answers
  // --------------------------------------------------------------------------

  /** An entry is the latest insertion of its key. */
  lemma {:induction false} EntryIsLastPut(limits: Limits, events: seq<Event>, key: Digest)
    requires Legal(limits, events) && key in Final(limits, events)
    ensures LastPut(events, key).Some?
    ensures var p := LastPut(events, key).value;
            Final(limits, events)[key] == Slot(p.identity, p.at + limits.ttl)
    decreases |events|
  {
    hide Legal;
    var before, e := events[..|events| - 1], events[|events| - 1];
    var c := Final(limits, before);
    if e.Put? && e.key == key {
    } else {
      LegalBefore(limits, events);
      KeptFromBefore(limits, c, e, key);
      EntryIsLastPut(limits, before, key);
      if e.Put? && e.victim == Some(key) {
        VictimGone(limits, c, e);
      }
    }
  }

  lemma LegalBefore(limits: Limits, events: seq<Event>)
    requires events != []
    ensures Legal(limits, events) ==>
              && Legal(limits, events[..|events| - 1])
              && Enabled(limits, Final(limits, events[..|events| - 1]), events[|events| - 1])
  {
    hide Enabled, Final;
  }

  lemma KeptFromBefore(limits: Limits, c: Cache, e: Event, key: Digest)
    requires key in Apply(limits, c, e) && !(e.Put? && e.key == key)
    ensures key in c && Apply(limits, c, e)[key] == c[key] && !e.Invalidate?
  {
  }

  lemma VictimGone(limits: Limits, c: Cache, e: Event)
    requires e.Put? && e.victim.Some? && e.victim.value != e.key && Enabled(limits, c, e)
    ensures e.victim.value !in Apply(limits, c, e)
  {
    hide Live, Oldest;
  }

  /** An insertion that is neither invalidated nor evicted is there until it expires. */
  lemma {:induction false} LastPutStays(limits: Limits, start: int, events: seq<Event>, key: Digest, now: int)
    requires Ordered(start, events) && Clock(start, events) <= now
    requires LastPut(events, key).Some? && now < LastPut(events, key).value.at + limits.ttl
    requires Legal(limits, events)
    ensures key in Final(limits, events)
    decreases |events|
  {
    hide Legal;
    var before, e := events[..|events| - 1], events[|events| - 1];
    LegalBefore(limits, events);
    if !(e.Put? && e.key == key) {
      LastPutStays(limits, start, before, key, now);
      EntryIsLastPut(limits, before, key);
    }
  }

  /** A lookup hits exactly when the latest insertion for the key, neither invalidated nor evicted
      since, is younger than the time to live; it answers with that insertion's identity. */
  lemma LookupExact(limits: Limits, start: int, events: seq<Event>, key: Digest, now: int)
    requires Legal(limits, events) && Ordered(start, events) && Clock(start, events) <= now
    ensures Find(Final(limits, events), key, now) ==
            match LastPut(events, key) {
              case Some(p) => if now - p.at < limits.ttl then Some(p.identity) else None
              case None => None
            }
  {
    hide Final, Legal, Ordered, Clock, LastPut;
    if key in Final(limits, events) {
      EntryIsLastPut(limits, events, key);
    } else if LastPut(events, key).Some? && now < LastPut(events, key).value.at + limits.ttl {
      LastPutStays(limits, start, events, key, now);
    }
  }

  lemma {:induction false} LastPutIsAPut(events: seq<Event>, key: Digest)
    requires LastPut(events, key).Some?
    ensures var p := LastPut(events, key).value;
            exists i :: 0 <= i < |events| && events[i].Put? && events[i].key == key
                        && events[i].identity == p.identity && events[i].later == p.at
                        && forall j :: i < j < |events| ==> !events[j].Invalidate?
  {
    var n := |events| - 1;
    var e := events[n];
    if e.Put? && e.key == key {
    } else {
      LastPutIsAPut(events[..n], key);
      var p := LastPut(events[..n], key).value;
      var i :| 0 <= i < n && events[..n][i].Put? && events[..n][i].key == key
               && events[..n][i].identity == p.identity && events[..n][i].later == p.at
               && forall j :: i < j < n ==> !events[..n][j].Invalidate?;
      forall j | i < j < |events| ensures !events[j].Invalidate? {
        assert j < n ==> events[..n][j] == events[j];
      }
      assert events[i] == events[..n][i];
    }
  }

  /** However the callers interleave, an identity that a lookup answers was put for the same digest
      less than the time to live ago, and the cache has not been invalidated since. */
  lemma HitWasPut(limits: Limits, start: int, events: seq<Event>, key: Digest, now: int)
    requires Legal(limits, events) && Ordered(start, events) && Clock(start, events) <= now
    requires Find(Final(limits, events), key, now).Some?
    ensures exists i :: 0 <= i < |events| && events[i].Put? && events[i].key == key
                        && Find(Final(limits, events), key, now) == Some(events[i].identity)
                        && now < events[i].later + limits.ttl
                        && forall j :: i < j < |events| ==> !events[j].Invalidate?
  {
    hide Final, Legal, Ordered, Clock, LastPut, Find;
    LookupExact(limits, start, events, key, now);
    LastPutIsAPut(events, key);
  }

  /** The entry that an insertion evicts is one inserted earliest. */
  lemma EvictsEarliest(limits: Limits, events: seq<Event>, e: Event, other: Digest)
    requires Legal(limits, events + [e]) && e.Put? && e.victim.Some?
    requires other in Final(limits, events)
    ensures LastPut(events, e.victim.value).Some? && LastPut(events, other).Some?
    ensures LastPut(events, e.victim.value).value.at <= LastPut(events, other).value.at
    ensures limits.max > 0 && |Final(limits, events)| == limits.max
    ensures forall k :: k in Final(limits, events) ==> e.now < Final(limits, events)[k].expiry
  {
    Extended(limits, 0, events, e);
    hide Final, Legal, LastPut;
    var c := Final(limits, events);
    Bounded(limits, events);
    LiveSize(c, e.now);
    EntryIsLastPut(limits, events, e.victim.value);
    EntryIsLastPut(limits, events, other);
    assert forall k :: k in c ==> k in Live(c, e.now);
  }

  // --------------------------------------------------------------------------
  // Sweeps in the background
  // --------------------------------------------------------------------------

  function WithoutSweeps(events: seq<Event>): seq<Event> {
    if events == [] then []
    else
      var e := events[|events| - 1];
      WithoutSweeps(events[..|events| - 1]) + (if e.SweepAt? then [] else [e])
  }

  /** What the lookups of a run answered. */
  function Answers(limits: Limits, events: seq<Event>): seq<Option<Identity>> {
    if events == [] then []
    else
      var before, e := events[..|events| - 1], events[|events| - 1];
      Answers(limits, before) + (if e.Lookup? then [Find(Final(limits, before), e.key, e.now)] else [])
  }

  /** The same entries can be hit from now on. */
  predicate SameLive(c: Cache, d: Cache, now: int) {
    Live(c, now) == Live(d, now)
  }

  lemma SameLiveLater(c: Cache, d: Cache, now: int, later: int)
    requires SameLive(c, d, now) && now <= later
    ensures SameLive(c, d, later)
  {
    LiveOfLive(c, now, later);
    LiveOfLive(d, now, later);
  }

  lemma LiveOfLive(c: Cache, now: int, later: int)
    requires now <= later
    ensures Live(Live(c, now), later) == Live(c, later)
  {
  }

  lemma SameFind(c: Cache, d: Cache, key: Digest, now: int)
    requires SameLive(c, d, now)
    ensures Find(c, key, now) == Find(d, key, now)
  {
    assert key in Live(c, now) <==> key in Live(d, now);
    assert key in Live(c, now) ==> Live(c, now)[key] == Live(d, now)[key];
  }

  /** Caches with the same live entries evict together, and then they are the same cache. */
  lemma SameEvictions(limits: Limits, c: Cache, d: Cache, now: int)
    requires SameLive(c, d, now)
    requires limits.max > 0 ==> |c| <= limits.max && |d| <= limits.max
    ensures Evicts(limits, c, now) <==> Evicts(limits, d, now)
    ensures Evicts(limits, c, now) ==> c == d
  {
    LiveSize(c, now);
    LiveSize(d, now);
    hide Live;
  }

  lemma RoomKeepsLive(limits: Limits, c: Cache, now: int, later: int)
    requires now <= later
    ensures Live(MakeRoom(limits, c, now, None), later) == Live(c, later)
  {
    LiveOfLive(c, now, later);
    hide Live;
  }

  lemma LiveUpdate(c: Cache, key: Digest, slot: Slot, now: int)
    ensures Live(c[key := slot], now) ==
            if now < slot.expiry then Live(c, now)[key := slot] else Live(c, now) - {key}
  {
  }

  lemma SamePut(limits: Limits, c: Cache, d: Cache, e: Event)
    requires e.Put? && e.now <= e.later && SameLive(c, d, e.now)
    requires limits.max > 0 ==> |c| <= limits.max && |d| <= limits.max
    requires Enabled(limits, c, e)
    ensures Enabled(limits, d, e) && SameLive(Apply(limits, c, e), Apply(limits, d, e), e.later)
  {
    hide Live, Oldest, Evicts, MakeRoom;
    SameEvictions(limits, c, d, e.now);
    if Evicts(limits, c, e.now) {
    } else {
      SameLiveLater(c, d, e.now, e.later);
      RoomKeepsLive(limits, c, e.now, e.later);
      RoomKeepsLive(limits, d, e.now, e.later);
      var slot := Slot(e.identity, e.later + limits.ttl);
      LiveUpdate(MakeRoom(limits, c, e.now, None), e.key, slot, e.later);
      LiveUpdate(MakeRoom(limits, d, e.now, None), e.key, slot, e.later);
    }
  }

  /** Leaving the sweeps out of a run, or putting sweeps into it, changes no answer: both runs are
      legal or neither is, and the same entries stay live. */
  lemma {:induction false} SweepsAreInvisible(limits: Limits, start: int, events: seq<Event>)
    requires Ordered(start, events)
    ensures Ordered(start, WithoutSweeps(events))
    ensures Clock(start, WithoutSweeps(events)) <= Clock(start, events)
    ensures Legal(limits, events) <==> Legal(limits, WithoutSweeps(events))
    ensures Legal(limits, events) ==>
              && Answers(limits, events) == Answers(limits, WithoutSweeps(events))
              && SameLive(Final(limits, events), Final(limits, WithoutSweeps(events)), Clock(start, events))
    decreases |events|
  {
    hide Apply, Live, Enabled, SameLive, Find;
    if events != [] {
      var before, e := events[..|events| - 1], events[|events| - 1];
      assert before + [e] == events;
      var kept := WithoutSweeps(before);
      SweepsAreInvisible(limits, start, before);
      Extended(limits, start, before, e);
      if e.SweepAt? {
        assert WithoutSweeps(events) == kept;
        SweepStep(limits, Final(limits, before), Final(limits, kept), Clock(start, before), e);
      } else {
        assert WithoutSweeps(events) == kept + [e];
        Extended(limits, start, kept, e);
        AnswersExtended(limits, kept, e);
        AnswersExtended(limits, before, e);
        if Legal(limits, before) {
          BothBounded(limits, before, kept);
          OtherStep(limits, Final(limits, before), Final(limits, kept), Clock(start, before), e);
        }
      }
    } else {
      SameLiveRefl(map[], start);
    }
  }

  lemma SameLiveRefl(c: Cache, now: int)
    ensures SameLive(c, c, now)
  {
  }

  lemma BothBounded(limits: Limits, events: seq<Event>, kept: seq<Event>)
    requires Legal(limits, events) && Legal(limits, kept)
    ensures limits.max > 0 ==> |Final(limits, events)| <= limits.max && |Final(limits, kept)| <= limits.max
  {
    hide Final, Legal;
    if limits.max > 0 {
      Bounded(limits, events);
      Bounded(limits, kept);
    }
  }

  lemma AnswersExtended(limits: Limits, events: seq<Event>, e: Event)
    ensures Answers(limits, events + [e]) ==
            Answers(limits, events) + (if e.Lookup? then [Find(Final(limits, events), e.key, e.now)] else [])
  {
    hide Find, Final;
    assert (events + [e])[..|events + [e]| - 1] == events;
  }

  lemma SweepStep(limits: Limits, c: Cache, d: Cache, clock: int, e: Event)
    requires e.SweepAt? && clock <= e.now
    ensures Enabled(limits, c, e)
    ensures SameLive(c, d, clock) ==> SameLive(Apply(limits, c, e), d, e.now)
  {
    LiveOfLive(c, e.now, e.now);
    if SameLive(c, d, clock) {
      SameLiveLater(c, d, clock, e.now);
    }
    hide Live;
  }

  lemma OtherStep(limits: Limits, c: Cache, d: Cache, clock: int, e: Event)
    requires !e.SweepAt? && OnTime(clock, e) && SameLive(c, d, clock)
    requires limits.max > 0 ==> |c| <= limits.max && |d| <= limits.max
    ensures Enabled(limits, c, e) <==> Enabled(limits, d, e)
    ensures Enabled(limits, c, e) ==>
              SameLive(Apply(limits, c, e), Apply(limits, d, e),
                       match e { case Lookup(_, now) => now case Put(_, _, _, later, _) => later case SweepAt(now) => now case Invalidate => clock })
    ensures e.Lookup? ==> Find(c, e.key, e.now) == Find(d, e.key, e.now)
  {
    hide Live, Evicts, Oldest, MakeRoom, Find, Full;
    match e {
      case Lookup(key, now) =>
        SameLiveLater(c, d, clock, now);
        SameFind(c, d, key, now);
      case Put(_, _, now, _, _) =>
        SameLiveLater(c, d, clock, now);
        if Enabled(limits, c, e) {
          SamePut(limits, c, d, e);
        } else if Enabled(limits, d, e) {
          SamePut(limits, d, c, e);
        }
      case Invalidate =>
    }
  }
}
