/** The history window of a group room (hermes/src/hermes_matrix/policies.py). */
module History {
  import opened Text

  const CONTEXT_MARKER := "[Chat messages since your last reply - for context]"
  const CURRENT_MARKER := "[Current message - respond to this]"

  datatype Entry = Entry(sender: string, body: string)

  type Rooms = map<string, seq<Entry>>

  /** The newest n elements. */
  function LastN<T>(xs: seq<T>, n: int): seq<T> {
    if n <= 0 then [] else if |xs| <= n then xs else xs[|xs| - n..]
  }

  function Bucket(rooms: Rooms, room: string): seq<Entry> {
    if room in rooms then rooms[room] else []
  }

  /** What a message leaves in the buffer; None if nothing. */
  function Accepted(limit: int, room: string, sender: string, body: string): Option<Entry> {
    if limit <= 0 || room == "" || Strip(body) == "" then None
    else Some(Entry(if sender == "" then "unknown" else sender, Strip(body)))
  }

  function Lines(entries: seq<Entry>): seq<string> {
    seq(|entries|, i requires 0 <= i < |entries| => entries[i].sender + ": " + entries[i].body)
  }

  /** The text put in front of the current message. */
  function Context(entries: seq<Entry>): string {
    if entries == [] then ""
    else CONTEXT_MARKER + NEWLINE + Join(Lines(entries), NEWLINE) + NEWLINE + NEWLINE + CURRENT_MARKER + NEWLINE
  }

  datatype Event =
    | Record(room: string, sender: string, body: string)
    | Drain(room: string)
    | Clear(room: string)

  function Apply(limit: int, rooms: Rooms, e: Event): Rooms {
    match e
    case Record(room, sender, body) =>
      (match Accepted(limit, room, sender, body)
       case None => rooms
       case Some(entry) => rooms[room := LastN(Bucket(rooms, room) + [entry], limit)])
    case Drain(room) => rooms - {room}
    case Clear(room) => rooms - {room}
  }

  /** A message with a body goes to the end of its room, of which the newest ones stay, up to the limit. */
  predicate KeepsNewest(limit: int, before: Rooms, room: string, sender: string, body: string, after: Rooms) {
    if limit <= 0 || room == "" || Strip(body) == "" then after == before
    else
      && after.Keys == before.Keys + {room}
      && (forall other :: other in before && other != room ==> after[other] == before[other])
      && var all := (if room in before then before[room] else []) + [Entry(if sender == "" then "unknown" else sender, Strip(body))];
      after[room] == if |all| <= limit then all else all[|all| - limit..]
  }

  lemma AppliedRecord(limit: int, before: Rooms, room: string, sender: string, body: string)
    ensures KeepsNewest(limit, before, room, sender, body, Apply(limit, before, Event.Record(room, sender, body)))
  {
    hide Strip;
  }

  /** Nothing if there is nothing to tell, else the entries, one a line, between the two markers. */
  predicate Tells(entries: seq<Entry>, text: string) {
    if entries == [] then text == ""
    else
      text == "[Chat messages since your last reply - for context]" + "\n"
              + Join(seq(|entries|, i requires 0 <= i < |entries| => entries[i].sender + ": " + entries[i].body), "\n") + "\n"
              + "\n" + "[Current message - respond to this]" + "\n"
  }

  lemma ContextTells(entries: seq<Entry>)
    ensures Tells(entries, Context(entries))
  {
    hide Join;
    if entries != [] {
      var lines := seq(|entries|, i requires 0 <= i < |entries| => entries[i].sender + ": " + entries[i].body);
      assert Lines(entries) == lines;
    }
  }

  // --------------------------------------------------------------------------
  // The class
  // --------------------------------------------------------------------------

  class HistoryBuffer {
    const limit: int
    var entries: Rooms

    constructor (limit: int)
      ensures this.limit == limit && entries == map[]
    {
      this.limit := limit;
      entries := map[];
    }

    method Record(room: string, sender: string, body: string)
      modifies this
      ensures entries == Apply(limit, old(entries), Event.Record(room, sender, body))
      ensures KeepsNewest(limit, old(entries), room, sender, body, entries)
    {
      hide Strip, KeepsNewest;
      AppliedRecord(limit, entries, room, sender, body);
      if limit <= 0 || room == "" {
        return;
      }
      var text := Strip(body);
      if text == "" {
        return;
      }
      var entry := Entry(if sender == "" then "unknown" else sender, text);
      var bucket := Bucket(entries, room) + [entry];
      ghost var full := bucket;
      while |bucket| > limit
        invariant limit <= |bucket| || bucket == full
        invariant |bucket| <= |full| && bucket == full[|full| - |bucket|..]
      {
        bucket := bucket[1..];
      }
      entries := entries[room := bucket];
    }

    method Drain(room: string) returns (text: string)
      modifies this
      ensures entries == Apply(limit, old(entries), Event.Drain(room))
      ensures text == Context(Bucket(old(entries), room))
      ensures entries == old(entries) - {room}
      ensures Tells(if room in old(entries) then old(entries)[room] else [], text)
    {
      hide Join, Tells, CONTEXT_MARKER, CURRENT_MARKER, Lines;
      ContextTells(Bucket(entries, room));
      text := "";
      if room in entries {
        var drained := entries[room];
        entries := entries - {room};
        if drained != [] {
          text := CONTEXT_MARKER + NEWLINE + Join(Lines(drained), NEWLINE) + NEWLINE + NEWLINE + CURRENT_MARKER + NEWLINE;
        }
      }
    }

    method Clear(room: string)
      modifies this
      ensures entries == Apply(limit, old(entries), Event.Clear(room))
      ensures entries == old(entries) - {room}
    {
      entries := entries - {room};
    }
  }

  // --------------------------------------------------------------------------
  // Runs
  // --------------------------------------------------------------------------

  function After(limit: int, events: seq<Event>): Rooms {
    if events == [] then map[] else Apply(limit, After(limit, events[..|events| - 1]), events[|events| - 1])
  }

  /** The messages recorded for the room since its last drain or clear, by their position in the run. */
  function Pending(limit: int, events: seq<Event>, room: string): seq<nat> {
    if events == [] then []
    else
      var n := |events| - 1;
      var before := Pending(limit, events[..n], room);
      if events[n].room != room then before
      else
        match events[n]
        case Record(_, sender, body) => if Accepted(limit, room, sender, body).Some? then before + [n] else before
        case _ => []
  }

  ghost predicate Recorded(limit: int, events: seq<Event>, room: string, k: int) {
    && 0 <= k < |events| && events[k].Record? && events[k].room == room
    && Accepted(limit, room, events[k].sender, events[k].body).Some?
  }

  /** A pending message was recorded for this room, and the room was neither drained nor cleared since;
      and every such message is pending. */
  lemma {:induction false} PendingIs(limit: int, events: seq<Event>, room: string, k: int)
    ensures k in Pending(limit, events, room) <==>
            && Recorded(limit, events, room, k)
            && forall j :: k < j < |events| && events[j].room == room ==> events[j].Record?
    ensures forall i, j :: 0 <= i < j < |Pending(limit, events, room)| ==>
                             Pending(limit, events, room)[i] < Pending(limit, events, room)[j] < |events|
    decreases |events|
  {
    hide Accepted;
    if events != [] {
      var n := |events| - 1;
      var front := events[..n];
      PendingIs(limit, front, room, k);
      PendingBelow(limit, front, room);
      assert forall j :: 0 <= j < n ==> front[j] == events[j];
      assert Recorded(limit, events, room, k) <==>
             Recorded(limit, front, room, k) || (k == n && Recorded(limit, events, room, n));
      PendingStep(limit, events, room);
    }
  }

  lemma {:induction false} PendingBelow(limit: int, events: seq<Event>, room: string)
    ensures forall i :: 0 <= i < |Pending(limit, events, room)| ==> Pending(limit, events, room)[i] < |events|
    decreases |events|
  {
    hide Accepted;
    if events != [] {
      PendingBelow(limit, events[..|events| - 1], room);
    }
  }

  lemma PendingStep(limit: int, events: seq<Event>, room: string)
    requires events != []
    ensures var n := |events| - 1;
            var before := Pending(limit, events[..n], room);
            Pending(limit, events, room) ==
            if events[n].room != room then before
            else if !events[n].Record? then []
            else if Recorded(limit, events, room, n) then before + [n]
            else before
  {
    hide Accepted;
  }

  function EntryAt(limit: int, events: seq<Event>, k: nat): Entry
    requires k < |events| && events[k].Record?
    requires Accepted(limit, events[k].room, events[k].sender, events[k].body).Some?
  {
    Accepted(limit, events[k].room, events[k].sender, events[k].body).value
  }

  /** The pending messages' entries. */
  ghost function PendingEntries(limit: int, events: seq<Event>, room: string): (r: seq<Entry>)
    ensures |r| == |Pending(limit, events, room)|
    ensures forall i :: 0 <= i < |r| ==>
                          && Recorded(limit, events, room, Pending(limit, events, room)[i])
                          && r[i] == EntryAt(limit, events, Pending(limit, events, room)[i])
  {
    var ks := Pending(limit, events, room);
    AllRecorded(limit, events, room);
    seq(|ks|, i requires 0 <= i < |ks| => EntryAt(limit, events, ks[i]))
  }

  lemma AllRecorded(limit: int, events: seq<Event>, room: string)
    ensures forall i :: 0 <= i < |Pending(limit, events, room)| ==>
                          Recorded(limit, events, room, Pending(limit, events, room)[i])
  {
    hide Accepted;
    forall i | 0 <= i < |Pending(limit, events, room)|
      ensures Recorded(limit, events, room, Pending(limit, events, room)[i])
    {
      PendingIs(limit, events, room, Pending(limit, events, room)[i]);
    }
  }

  lemma LastNStep<T>(xs: seq<T>, x: T, n: int)
    ensures LastN(LastN(xs, n) + [x], n) == LastN(xs + [x], n)
  {
  }

  lemma EntriesStep(limit: int, events: seq<Event>, room: string)
    requires events != []
    ensures var n := |events| - 1;
            var before := PendingEntries(limit, events[..n], room);
            PendingEntries(limit, events, room) ==
            if events[n].room != room then before
            else if !events[n].Record? then []
            else if Recorded(limit, events, room, n) then before + [EntryAt(limit, events, n)]
            else before
  {
    hide Accepted, Pending;
    PendingStep(limit, events, room);
    var n := |events| - 1;
    assert forall k :: 0 <= k < n ==> events[..n][k] == events[k];
  }

  /** Each room's buffer is the last `limit` messages recorded for it since its last drain or clear,
      oldest first. */
  lemma {:induction false} BufferIsWindow(limit: int, events: seq<Event>, room: string)
    ensures Bucket(After(limit, events), room) == LastN(PendingEntries(limit, events, room), limit)
    decreases |events|
  {
    hide Accepted, Pending, LastN, PendingEntries;
    if events == [] {
      NothingPending(limit, room);
    } else {
      var n := |events| - 1;
      var front, e := events[..n], events[n];
      BufferIsWindow(limit, front, room);
      EntriesStep(limit, events, room);
      var rooms := After(limit, front);
      if e.room == room && e.Record? && Recorded(limit, events, room, n) {
        LastNStep(PendingEntries(limit, front, room), EntryAt(limit, events, n), limit);
      } else if e.room == room && !e.Record? {
        LastNOfNothing(limit);
      }
    }
  }

  lemma LastNOfNothing(n: int)
    ensures LastN<Entry>([], n) == []
  {
  }

  lemma NothingPending(limit: int, room: string)
    ensures LastN(PendingEntries(limit, [], room), limit) == []
  {
    assert Pending(limit, [], room) == [];
  }

  /** The events of one room. */
  function OfRoom(events: seq<Event>, room: string): seq<Event> {
    if events == [] then []
    else
      var n := |events| - 1;
      OfRoom(events[..n], room) + (if events[n].room == room then [events[n]] else [])
  }

  /** Rooms never affect each other. */
  lemma {:induction false} RoomsAreApart(limit: int, events: seq<Event>, room: string)
    ensures Bucket(After(limit, events), room) == Bucket(After(limit, OfRoom(events, room)), room)
    decreases |events|
  {
    hide Accepted, LastN;
    if events != [] {
      var n := |events| - 1;
      RoomsAreApart(limit, events[..n], room);
      if events[n].room == room {
        var own := OfRoom(events, room);
        assert own[..|own| - 1] == OfRoom(events[..n], room);
      } else {
        assert OfRoom(events, room) == OfRoom(events[..n], room);
      }
    }
  }

  /** The messages, by position, whose text the drain at step i returned. */
  ghost function DrainedAt(limit: int, events: seq<Event>, i: nat): seq<nat>
    requires i < |events|
  {
    LastN(Pending(limit, events[..i], events[i].room), limit)
  }

  lemma LastNIn<T>(xs: seq<T>, n: int, x: T)
    ensures x in LastN(xs, n) ==> x in xs
  {
  }

  /** No recorded message is in two drained texts. */
  lemma DrainedOnce(limit: int, events: seq<Event>, i: nat, j: nat, k: nat)
    requires i < j < |events| && events[i].Drain? && events[j].Drain?
    ensures !(k in DrainedAt(limit, events, i) && k in DrainedAt(limit, events, j))
  {
    hide Accepted, LastN, Pending;
    LastNIn(Pending(limit, events[..i], events[i].room), limit, k);
    LastNIn(Pending(limit, events[..j], events[j].room), limit, k);
    PendingIs(limit, events[..i], events[i].room, k);
    PendingIs(limit, events[..j], events[j].room, k);
    if k in Pending(limit, events[..i], events[i].room) {
      assert k < i && events[..j][k].room == events[i].room;
      assert events[..j][i] == events[i];
    }
  }

  /** The text that a drain returns is made of exactly the messages counted as drained. */
  lemma DrainText(limit: int, events: seq<Event>, i: nat)
    requires i < |events| && events[i].Drain?
    ensures var front, room := events[..i], events[i].room;
            && Context(Bucket(After(limit, front), room)) == Context(LastN(PendingEntries(limit, front, room), limit))
            && |Bucket(After(limit, front), room)| == |DrainedAt(limit, events, i)|
            && forall p :: 0 <= p < |DrainedAt(limit, events, i)| ==>
                             && Recorded(limit, front, room, DrainedAt(limit, events, i)[p])
                             && Bucket(After(limit, front), room)[p] == EntryAt(limit, front, DrainedAt(limit, events, i)[p])
  {
    hide Accepted, Pending, After, Bucket, Context;
    BufferIsWindow(limit, events[..i], events[i].room);
  }
}
