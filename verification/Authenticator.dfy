/** The authenticator as the code keeps it: a map field from digests to entries that point to
    identity objects, which callers and the cache must never share. */
module Authenticator {
  import opened Text
  import opened TokenCache

  class CallerIdentity {
    var role: string
    var username: string
    var team: string
    var workerName: string

    constructor (v: Identity)
      ensures Value() == v
    {
      role, username, team, workerName := v.role, v.username, v.team, v.workerName;
    }

    function Value(): Identity
      reads this
    {
      Identity(role, username, team, workerName)
    }

    method Write(v: Identity)
      modifies this
      ensures Value() == v
    {
      role, username, team, workerName := v.role, v.username, v.team, v.workerName;
    }
  }

  datatype CachedResult = CachedResult(identity: CallerIdentity, expiry: int)

  type Entries = map<Digest, CachedResult>

  /** The identity objects that entries point to. */
  ghost function Objects(entries: Entries): set<CallerIdentity> {
    set key | key in entries :: entries[key].identity
  }

  /** The entries with the objects' present values. */
  ghost function Values(entries: Entries): Cache
    reads Objects(entries)
  {
    map key | key in entries :: Slot(entries[key].identity.Value(), entries[key].expiry)
  }

  function LiveEntries(entries: Entries, now: int): Entries {
    map key | key in entries && now < entries[key].expiry :: entries[key]
  }

  lemma ValuesSize(entries: Entries)
    ensures |Values(entries)| == |entries|
  {
    assert Values(entries).Keys == entries.Keys;
  }

  lemma ValuesLive(entries: Entries, now: int)
    ensures Values(LiveEntries(entries, now)) == Live(Values(entries), now)
    ensures Objects(LiveEntries(entries, now)) <= Objects(entries)
  {
  }

  lemma ValuesRemove(entries: Entries, key: Digest)
    ensures Values(entries - {key}) == Values(entries) - {key}
    ensures Objects(entries - {key}) <= Objects(entries)
  {
  }

  lemma ValuesUpdate(entries: Entries, key: Digest, r: CachedResult)
    ensures Values(entries[key := r]) == Values(entries)[key := Slot(r.identity.Value(), r.expiry)]
    ensures Objects(entries[key := r]) <= Objects(entries) + {r.identity}
  {
    forall o | o in Objects(entries[key := r]) ensures o in Objects(entries) + {r.identity} {
      var k :| k in entries[key := r] && entries[key := r][k].identity == o;
      assert k == key || k in entries;
    }
  }

  lemma ValuesOldest(entries: Entries, key: Digest)
    requires key in entries && forall k :: k in entries ==> entries[key].expiry <= entries[k].expiry
    ensures Oldest(Values(entries), key)
  {
  }

  lemma SweptSize(entries: Entries, gone: set<Digest>)
    requires gone <= entries.Keys
    ensures |entries - gone| == |entries| - |gone|
  {
    assert (entries - gone).Keys == entries.Keys - gone;
  }

  lemma LeftOver(entries: Entries, gone: set<Digest>, now: int)
    requires forall k :: k in gone ==> k in entries && entries[k].expiry <= now
    requires forall k :: k in entries.Keys - gone ==> now < entries[k].expiry
    ensures entries - gone == LiveEntries(entries, now)
  {
  }

  class TokenReviewAuthenticator {
    var cache: Entries
    const limits: Limits

    ghost function Owned(): set<CallerIdentity>
      reads this
    {
      Objects(cache)
    }

    ghost function Contents(): Cache
      reads this, Owned()
    {
      Values(cache)
    }

    constructor (limits: Limits)
      ensures this.limits == limits && Contents() == map[] && Owned() == {}
    {
      this.limits := limits;
      cache := map[];
    }

    /** getFromCache: the caller gets a copy of its own. */
    method GetFromCache(key: Digest, now: int) returns (id: CallerIdentity?)
      ensures (if id == null then None else Some(id.Value())) == Find(Contents(), key, now)
      ensures id != null ==> fresh(id) && id !in Owned()
      ensures Contents() == old(Contents())
    {
      id := null;
      if key in cache && now < cache[key].expiry {
        id := new CallerIdentity(cache[key].identity.Value());
      }
    }

    /** sweepExpiredLocked: the map is walked in any order. */
    method SweepExpired(now: int) returns (n: nat)
      modifies this
      ensures Contents() == Live(old(Contents()), now)
      ensures n == |old(Contents())| - |Contents()|
      ensures Owned() <= old(Owned())
    {
      hide Values, Live, LiveEntries;
      ghost var entries := cache;
      ghost var gone: set<Digest> := {};
      n := 0;
      var todo := cache.Keys;
      while todo != {}
        invariant gone <= entries.Keys && todo <= entries.Keys - gone
        invariant cache == entries - gone && n == |gone|
        invariant forall k :: k in gone ==> entries[k].expiry <= now
        invariant forall k :: k in entries.Keys - gone - todo ==> now < entries[k].expiry
        decreases todo
      {
        var k :| k in todo;
        todo := todo - {k};
        if !(now < cache[k].expiry) {
          cache := cache - {k};
          gone := gone + {k};
          n := n + 1;
        }
      }
      LeftOver(entries, gone, now);
      SweptSize(entries, gone);
      ValuesLive(entries, now);
      ValuesSize(entries);
      ValuesSize(cache);
    }

    /** evictOldestLocked: the first earliest expiry in the order of the walk. */
    method EvictOldest() returns (ghost victim: Option<Digest>)
      modifies this
      ensures Owned() <= old(Owned())
      ensures if old(Contents()) == map[] then victim == None && Contents() == map[]
              else
                && victim.Some? && Oldest(old(Contents()), victim.value)
                && Contents() == old(Contents()) - {victim.value}
    {
      hide Values, Oldest;
      var oldestKey: Digest := [];
      var oldestExp := 0;
      var found := false;
      var todo := cache.Keys;
      while todo != {}
        invariant todo <= cache.Keys && cache == old(cache)
        invariant !found ==> todo == cache.Keys
        invariant found ==> oldestKey in cache && oldestExp == cache[oldestKey].expiry
        invariant found ==> forall k :: k in cache.Keys - todo ==> oldestExp <= cache[k].expiry
        decreases todo
      {
        var k :| k in todo;
        todo := todo - {k};
        if !found || cache[k].expiry < oldestExp {
          oldestKey := k;
          oldestExp := cache[k].expiry;
          found := true;
        }
      }
      victim := None;
      ValuesSize(cache);
      if found {
        victim := Some(oldestKey);
        ValuesOldest(cache, oldestKey);
        ValuesRemove(cache, oldestKey);
        cache := cache - {oldestKey};
      } else {
        assert |cache.Keys| == 0;
      }
    }

    /** putInCache: the cache keeps a copy of its own. */
    method PutInCache(key: Digest, identity: CallerIdentity, now: int, later: int) returns (ghost victim: Option<Digest>)
      modifies this
      ensures Enabled(limits, old(Contents()), Put(key, identity.Value(), now, later, victim))
      ensures Contents() == Apply(limits, old(Contents()), Put(key, identity.Value(), now, later, victim))
      ensures fresh(Owned() - old(Owned()))
    {
      hide Values, Oldest, Live;
      victim := None;
      ghost var c := Contents();
      ValuesSize(cache);
      LiveSize(c, now);
      if limits.max > 0 && |cache| >= limits.max {
        var n := SweepExpired(now);
        if n == 0 {
          victim := EvictOldest();
        }
      }
      var copy := new CallerIdentity(identity.Value());
      ValuesUpdate(cache, key, CachedResult(copy, later + limits.ttl));
      cache := cache[key := CachedResult(copy, later + limits.ttl)];
    }

    method InvalidateCache()
      modifies this
      ensures Contents() == Apply(limits, old(Contents()), Invalidate) && Owned() == {}
    {
      cache := map[];
    }

    /** Authenticate, without interference between its locked sections: the digest function and the
        outcome of the token review are parameters. */
    method Authenticate(token: string, digest: string -> Digest, asked: int,
                        review: Result<Identity, string>, now: int, later: int)
      returns (r: Result<CallerIdentity, string>, ghost victim: Option<Digest>)
      modifies this
      ensures token == "" ==> r == Err("empty token")
      ensures token != "" ==>
                match Find(old(Contents()), digest(token), asked) {
                  case Some(v) => r.Ok? && r.value.Value() == v
                  case None => if review.Ok? then r.Ok? && r.value.Value() == review.value else r == Err(review.error)
                }
      ensures r.Ok? ==> fresh(r.value) && r.value !in Owned()
      ensures Contents() ==
              if token != "" && Find(old(Contents()), digest(token), asked) == None && review.Ok?
              then Apply(limits, old(Contents()), Put(digest(token), review.value, now, later, victim))
              else old(Contents())
      ensures fresh(Owned() - old(Owned()))
    {
      hide Values, Apply, Live;
      victim := None;
      if token == "" {
        return Err("empty token"), None;
      }
      ghost var c := Contents();
      var id := GetFromCache(digest(token), asked);
      if id != null {
        return Ok(id), None;
      }
      if review.Err? {
        return Err(review.error), None;
      }
      ghost var owned := Owned();
      var identity := new CallerIdentity(review.value);
      assert identity !in owned;
      assert Contents() == c;
      victim := PutInCache(digest(token), identity, now, later);
      r := Ok(identity);
    }
  }

  // --------------------------------------------------------------------------
  // Callers that keep and change what they were given
  // --------------------------------------------------------------------------

  /** What callers do between them, in any order: look up, parse a reviewed user name into a new
      identity, put an identity they hold, write to one they hold (as the enricher does), sweep and
      invalidate. */
  datatype Call =
    | Get(key: Digest, now: int)
    | Parse(identity: Identity)
    | PutHeld(key: Digest, holder: nat, now: int, later: int)
    | WriteHeld(holder: nat, identity: Identity)
    | Sweep(now: int)
    | Drop

  /** The events so far, and the identities the callers hold, as values. */
  datatype View = View(events: seq<Event>, held: seq<Identity>)

  /** A write to a held identity is no event of the cache. */
  predicate Follows(limits: Limits, before: View, call: Call, after: View) {
    match call
    case Get(key, now) =>
      && after.events == before.events + [Lookup(key, now)]
      && after.held == before.held +
                       (match Find(Final(limits, before.events), key, now) case Some(v) => [v] case None => [])
    case Parse(identity) => after == before.(held := before.held + [identity])
    case PutHeld(key, holder, now, later) =>
      if holder < |before.held| then
        && after.events != [] && after.events[|after.events| - 1].Put?
        && after.events == before.events + [Put(key, before.held[holder], now, later, after.events[|after.events| - 1].victim)]
        && after.held == before.held
      else after == before
    case WriteHeld(holder, identity) =>
      after == if holder < |before.held| then before.(held := before.held[holder := identity]) else before
    case Sweep(now) => after == before.(events := before.events + [SweepAt(now)])
    case Drop => after == before.(events := before.events + [Invalidate])
  }

  ghost predicate HeldAre(held: seq<CallerIdentity>, values: seq<Identity>)
    reads held
  {
    && |held| == |values|
    && forall j :: 0 <= j < |held| ==> held[j].Value() == values[j]
  }

  ghost predicate Separate(held: seq<CallerIdentity>, owned: set<CallerIdentity>) {
    && (forall j :: 0 <= j < |held| ==> held[j] !in owned)
    && (forall i, j :: 0 <= i < j < |held| ==> held[i] != held[j])
  }

  /** One call, on the objects. */
  method Step(auth: TokenReviewAuthenticator, held: seq<CallerIdentity>, call: Call, ghost view: View)
    returns (held': seq<CallerIdentity>, ghost view': View)
    requires Legal(auth.limits, view.events) && auth.Contents() == Final(auth.limits, view.events)
    requires HeldAre(held, view.held) && Separate(held, auth.Owned())
    modifies auth, held
    ensures Legal(auth.limits, view'.events) && auth.Contents() == Final(auth.limits, view'.events)
    ensures HeldAre(held', view'.held) && Separate(held', auth.Owned())
    ensures Follows(auth.limits, view, call, view') && held <= held'
    ensures forall j :: 0 <= j < |held'| ==> held'[j] in held || fresh(held'[j])
    ensures fresh(auth.Owned() - old(auth.Owned()))
  {
    hide Values, Final, Legal, Apply, Live, Find;
    held', view' := held, view;
    ghost var c := auth.Contents();
    match call {
      case Get(key, now) =>
        Extended(auth.limits, 0, view.events, Lookup(key, now));
        LookupChangesNothing(auth.limits, c, key, now);
        var id := auth.GetFromCache(key, now);
        view' := view.(events := view.events + [Lookup(key, now)]);
        if id != null {
          held' := held + [id];
          view' := view'.(held := view.held + [id.Value()]);
        } else {
          assert view.held + [] == view.held;
        }
      case Parse(identity) =>
        var id := new CallerIdentity(identity);
        assert auth.Contents() == c;
        held' := held + [id];
        view' := view.(held := view.held + [identity]);
      case PutHeld(key, holder, now, later) =>
        if holder < |held| {
          ghost var victim := auth.PutInCache(key, held[holder], now, later);
          ghost var e := Put(key, view.held[holder], now, later, victim);
          Extended(auth.limits, 0, view.events, e);
          view' := view.(events := view.events + [e]);
        }
      case WriteHeld(holder, identity) =>
        if holder < |held| {
          held[holder].Write(identity);
          assert auth.Contents() == c;
          view' := view.(held := view.held[holder := identity]);
        }
      case Sweep(now) =>
        Extended(auth.limits, 0, view.events, SweepAt(now));
        SweepIsLive(auth.limits, c, now);
        var _ := auth.SweepExpired(now);
        view' := view.(events := view.events + [SweepAt(now)]);
      case Drop =>
        Extended(auth.limits, 0, view.events, Invalidate);
        auth.InvalidateCache();
        view' := view.(events := view.events + [Invalidate]);
    }
  }

  lemma LookupChangesNothing(limits: Limits, c: Cache, key: Digest, now: int)
    ensures Apply(limits, c, Lookup(key, now)) == c && Enabled(limits, c, Lookup(key, now))
  {
  }

  lemma SweepIsLive(limits: Limits, c: Cache, now: int)
    ensures Apply(limits, c, SweepAt(now)) == Live(c, now)
  {
  }

  /** A run over views, one call after the other. */
  ghost predicate IsViewRun(limits: Limits, views: seq<View>, calls: seq<Call>) {
    && |views| == |calls| + 1
    && forall i :: 0 <= i < |calls| ==> Follows(limits, views[i], calls[i], views[i + 1])
  }

  /** Calls in a row, on the objects. */
  method Steps(auth: TokenReviewAuthenticator, held0: seq<CallerIdentity>, calls: seq<Call>, ghost view: View)
    returns (held: seq<CallerIdentity>, ghost views: seq<View>)
    requires Legal(auth.limits, view.events) && auth.Contents() == Final(auth.limits, view.events)
    requires HeldAre(held0, view.held) && Separate(held0, auth.Owned())
    modifies auth, held0
    ensures IsViewRun(auth.limits, views, calls) && views[0] == view
    ensures Legal(auth.limits, views[|calls|].events) && auth.Contents() == Final(auth.limits, views[|calls|].events)
    ensures HeldAre(held, views[|calls|].held) && Separate(held, auth.Owned()) && held0 <= held
    ensures forall j :: 0 <= j < |held| ==> held[j] in held0 || fresh(held[j])
    ensures fresh(auth.Owned() - old(auth.Owned()))
  {
    hide Values, Follows, Final, Legal;
    held, views := held0, [view];
    for i := 0 to |calls|
      invariant |views| == i + 1 && views[0] == view
      invariant forall j :: 0 <= j < i ==> Follows(auth.limits, views[j], calls[j], views[j + 1])
      invariant forall j :: 0 <= j < |held| ==> held[j] in held0 || fresh(held[j])
      invariant fresh(auth.Owned() - old(auth.Owned()))
      invariant Legal(auth.limits, views[i].events) && auth.Contents() == Final(auth.limits, views[i].events)
      invariant HeldAre(held, views[i].held) && Separate(held, auth.Owned()) && held0 <= held
    {
      ghost var view';
      held, view' := Step(auth, held, calls[i], views[i]);
      views := views + [view'];
    }
  }

  /** Every interleaving of calls on the shared objects is a run of the cache on values: nothing
      that a caller does to an identity it holds reaches an entry. */
  method Interleave(limits: Limits, calls: seq<Call>)
    returns (auth: TokenReviewAuthenticator, held: seq<CallerIdentity>, ghost views: seq<View>)
    ensures IsViewRun(limits, views, calls) && views[0] == View([], [])
    ensures var last := views[|calls|];
            && Legal(limits, last.events)
            && auth.limits == limits && auth.Contents() == Final(limits, last.events)
            && HeldAre(held, last.held)
  {
    hide Values, Follows;
    auth := new TokenReviewAuthenticator(limits);
    held, views := Steps(auth, [], calls, View([], []));
  }

  /** The first locked section of Authenticate. */
  method LookUp(auth: TokenReviewAuthenticator, held0: seq<CallerIdentity>, ghost view: View, key: Digest, asked: int)
    returns (id: CallerIdentity?, held: seq<CallerIdentity>, ghost views: seq<View>)
    requires Legal(auth.limits, view.events) && auth.Contents() == Final(auth.limits, view.events)
    requires HeldAre(held0, view.held) && Separate(held0, auth.Owned())
    modifies auth, held0
    ensures IsViewRun(auth.limits, views, [Get(key, asked)]) && views[0] == view
    ensures Legal(auth.limits, views[1].events) && auth.Contents() == Final(auth.limits, views[1].events)
    ensures HeldAre(held, views[1].held) && Separate(held, auth.Owned())
    ensures fresh(auth.Owned() - old(auth.Owned()))
    ensures match Find(Final(auth.limits, view.events), key, asked) {
              case Some(v) => id != null && fresh(id) && id.Value() == v && held == held0 + [id]
              case None => id == null && held == held0
            }
  {
    hide Values, Final, Legal, Find;
    held, views := Steps(auth, held0, [Get(key, asked)], view);
    assert Follows(auth.limits, views[0], Get(key, asked), views[1]);
    if |held| > |held0| {
      id := held[|held| - 1];
      assert held[..|held0|] == held0;
      assert forall j :: 0 <= j < |held0| ==> held[j] == held0[j];
    } else {
      id := null;
    }
  }

  /** What follows a review: the identity is parsed and put. */
  method PutReviewed(auth: TokenReviewAuthenticator, held0: seq<CallerIdentity>, ghost view: View, identity: Identity,
                     key: Digest, now: int, later: int)
    returns (id: CallerIdentity, held: seq<CallerIdentity>, ghost views: seq<View>)
    requires Legal(auth.limits, view.events) && auth.Contents() == Final(auth.limits, view.events)
    requires HeldAre(held0, view.held) && Separate(held0, auth.Owned())
    modifies auth, held0
    ensures IsViewRun(auth.limits, views, [Parse(identity), PutHeld(key, |held0|, now, later)]) && views[0] == view
    ensures Legal(auth.limits, views[2].events) && auth.Contents() == Final(auth.limits, views[2].events)
    ensures HeldAre(held, views[2].held) && Separate(held, auth.Owned())
    ensures fresh(id) && id.Value() == identity && held == held0 + [id]
  {
    hide Values, Final, Legal, Find;
    held, views := Steps(auth, held0, [Parse(identity), PutHeld(key, |held0|, now, later)], view);
    ParsedThenPut(auth.limits, view, identity, key, now, later, views);
    id := held[|held| - 1];
    assert held[..|held0|] == held0;
    assert forall j :: 0 <= j < |held0| ==> held[j] == held0[j];
  }

  /** Authenticate as it runs among other callers: between its locked sections, while the review is
      asked for, any calls of others take place. Whatever they are, the caller gets a copy of what
      the cache held for its token when it looked, or the outcome of its own review; and everything
      together is a run of the cache on values. */
  method AuthenticateAmong(auth: TokenReviewAuthenticator, held0: seq<CallerIdentity>, ghost view: View,
                           token: string, digest: string -> Digest, asked: int,
                           review: Result<Identity, string>, others: seq<Call>, now: int, later: int)
    returns (r: Result<CallerIdentity, string>, held: seq<CallerIdentity>, ghost calls: seq<Call>, ghost views: seq<View>)
    requires Legal(auth.limits, view.events) && auth.Contents() == Final(auth.limits, view.events)
    requires HeldAre(held0, view.held) && Separate(held0, auth.Owned())
    modifies auth, held0
    ensures IsViewRun(auth.limits, views, calls) && views[0] == view
    ensures Legal(auth.limits, views[|calls|].events) && auth.Contents() == Final(auth.limits, views[|calls|].events)
    ensures HeldAre(held, views[|calls|].held) && Separate(held, auth.Owned())
    ensures r.Ok? ==> fresh(r.value) && held != [] && r.value == held[|held| - 1]
    ensures token == "" ==> r == Err("empty token") && calls == []
    ensures token != "" ==>
              match Find(Final(auth.limits, view.events), digest(token), asked) {
                case Some(v) => r.Ok? && r.value.Value() == v && calls == [Get(digest(token), asked)]
                case None =>
                  if review.Err? then r == Err(review.error) && calls == [Get(digest(token), asked)] + others
                  else
                    && r.Ok? && r.value.Value() == review.value
                    && calls == [Get(digest(token), asked)] + others
                                + [Parse(review.value), PutHeld(digest(token), |held| - 1, now, later)]
              }
  {
    hide Values, Final, Legal, Find, HeldAre, Follows, Separate, IsViewRun;
    if token == "" {
      NoCalls(auth.limits, view);
      return Err("empty token"), held0, [], [view];
    }
    var id;
    id, held, views := LookUp(auth, held0, view, digest(token), asked);
    calls := [Get(digest(token), asked)];
    if id != null {
      return Ok(id), held, calls, views;
    }
    ghost var more;
    RunSize(auth.limits, views, calls);
    held, more := Steps(auth, held, others, views[1]);
    views := JoinRuns(auth.limits, views, calls, more, others);
    calls := calls + others;
    if review.Err? {
      return Err(review.error), held, calls, views;
    }
    ghost var tail := [Parse(review.value), PutHeld(digest(token), |held|, now, later)];
    RunSize(auth.limits, views, calls);
    id, held, more := PutReviewed(auth, held, views[|calls|], review.value, digest(token), now, later);
    views := JoinRuns(auth.limits, views, calls, more, tail);
    calls := calls + tail;
    r := Ok(id);
  }

  lemma NoCalls(limits: Limits, view: View)
    ensures IsViewRun(limits, [view], [])
  {
  }

  lemma RunSize(limits: Limits, views: seq<View>, calls: seq<Call>)
    requires IsViewRun(limits, views, calls)
    ensures |views| == |calls| + 1
  {
  }

  /** Two runs, the second starting where the first ends. */
  ghost function JoinRuns(limits: Limits, views: seq<View>, calls: seq<Call>, more: seq<View>, next: seq<Call>): (r: seq<View>)
    requires IsViewRun(limits, views, calls) && IsViewRun(limits, more, next) && more[0] == views[|calls|]
    ensures |r| == |calls + next| + 1 && IsViewRun(limits, r, calls + next) && r[0] == views[0] && r[|calls + next|] == more[|next|]
  {
    hide Follows;
    JoinedFollows(limits, views, calls, more, next);
    views + more[1..]
  }

  lemma JoinedFollows(limits: Limits, views: seq<View>, calls: seq<Call>, more: seq<View>, next: seq<Call>)
    requires IsViewRun(limits, views, calls) && IsViewRun(limits, more, next) && more[0] == views[|calls|]
    ensures IsViewRun(limits, views + more[1..], calls + next)
  {
    hide Follows;
    var r, all := views + more[1..], calls + next;
    forall i | 0 <= i < |all| ensures Follows(limits, r[i], all[i], r[i + 1]) {
      if i < |calls| {
        assert Follows(limits, views[i], calls[i], views[i + 1]);
      } else {
        var j := i - |calls|;
        assert Follows(limits, more[j], next[j], more[j + 1]);
        assert r[i] == more[j];
      }
    }
  }

  /** The identity parsed is the one put, and stands last among those held. */
  lemma ParsedThenPut(limits: Limits, view: View, identity: Identity, key: Digest, now: int, later: int, views: seq<View>)
    requires IsViewRun(limits, views, [Parse(identity), PutHeld(key, |view.held|, now, later)]) && views[0] == view
    ensures views[2].held == view.held + [identity]
  {
    hide Find, Final;
    assert Follows(limits, views[0], Parse(identity), views[1]);
    assert Follows(limits, views[1], PutHeld(key, |view.held|, now, later), views[2]);
  }
}
