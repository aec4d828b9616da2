/** The team-context block of an AGENTS.md file
    (hiclaw-controller/internal/agentconfig/coordination.go). The role-specific lines of the
    block are a parameter. */
module Coordination {
  import opened Lists
  import opened MarkerText
  import opened Markers
  import opened Text

  const TEAM_START := "<!-- hiclaw-team-context-start -->"
  const TEAM_END := "<!-- hiclaw-team-context-end -->"
  const HEADING := "\n## Coordination\n\n"

  function Block(body: string): string {
    NEWLINE + TEAM_START + HEADING + body + TEAM_END + NEWLINE
  }

  /** The text with its first complete block cut out, if it has one. */
  function RemoveFirst(content: string): (r: Option<string>)
    ensures r.Some? ==> |r.value| < |content|
  {
    match Index(content, TEAM_START)
    case None => None
    case Some(start) =>
      match Index(content[start..], TEAM_END)
      case None => None
      case Some(offset) =>
        var end := start + offset + |TEAM_END|;
        var next := if end < |content| && content[end] == '\n' then end + 1 else end;
        Some(content[..start] + content[next..])
  }

  function Removed(content: string): string
    decreases |content|
  {
    match RemoveFirst(content)
    case None => content
    case Some(rest) => Removed(rest)
  }

  /** removeCoordinationBlock, with its loop. */
  method RemoveCoordinationBlock(content0: string) returns (content: string)
    ensures content == Removed(content0)
    ensures NoCompleteBlock(content)
  {
    hide TEAM_START, TEAM_END, Index, Removed, RemoveFirst, NoCompleteBlock;
    content := content0;
    while true
      invariant Removed(content) == Removed(content0)
      decreases |content|
    {
      RemoveStep(content);
      var start := Index(content, TEAM_START);
      if start.None? {
        break;
      }
      var offset := Index(content[start.value..], TEAM_END);
      if offset.None? {
        break;
      }
      var end := start.value + offset.value + |TEAM_END|;
      if end < |content| && content[end] == '\n' {
        end := end + 1;
      }
      content := content[..start.value] + content[end..];
    }
    RemovedIsClean(content);
  }

  /** What one round of the loop sees. */
  lemma RemoveStep(content: string)
    ensures var start := Index(content, TEAM_START);
            if start.None? then Removed(content) == content
            else
              && start.value <= |content|
              && var offset := Index(content[start.value..], TEAM_END);
              if offset.None? then Removed(content) == content
              else
                var end := start.value + offset.value + |TEAM_END|;
                && start.value < end <= |content|
                && var next := if end < |content| && content[end] == '\n' then end + 1 else end;
                Removed(content) == Removed(content[..start.value] + content[next..])
  {
    hide TEAM_START;
  }

  /** No start marker with an end marker somewhere after it. */
  ghost predicate NoCompleteBlock(s: string) {
    forall i, j {:trigger OccursAt(s, TEAM_START, i), OccursAt(s, TEAM_END, j)} ::
      OccursAt(s, TEAM_START, i) && OccursAt(s, TEAM_END, j) ==> j < i
  }

  lemma NothingToRemove(content: string)
    requires RemoveFirst(content) == None
    ensures NoCompleteBlock(content)
  {
    hide TEAM_START, TEAM_END;
    forall i, j | OccursAt(content, TEAM_START, i) && OccursAt(content, TEAM_END, j) ensures j < i {
      var start := Index(content, TEAM_START).value;
      assert start <= i;
      assert content == content[..start] + content[start..];
      OccursInParts(content[..start], content[start..], TEAM_END, j);
      assert start > j;
    }
  }

  lemma NoBlockNothingRemoved(content: string)
    requires NoCompleteBlock(content)
    ensures RemoveFirst(content) == None && Removed(content) == content
  {
    hide TEAM_START, TEAM_END;
    var start := Index(content, TEAM_START);
    if start.Some? {
      var rest := content[start.value..];
      forall j ensures !OccursAt(rest, TEAM_END, j) {
        assert content == content[..start.value] + rest;
        OccursInParts(content[..start.value], rest, TEAM_END, j);
      }
    }
  }

  /** Removal leaves no complete block behind, and removing again changes nothing. */
  lemma {:induction false} RemovedIsClean(content: string)
    ensures NoCompleteBlock(Removed(content)) && RemoveFirst(Removed(content)) == None
    ensures Removed(Removed(content)) == Removed(content)
    ensures |Removed(content)| <= |content|
    decreases |content|
  {
    hide TEAM_START, TEAM_END, NoCompleteBlock;
    match RemoveFirst(content) {
      case None => NothingToRemove(content);
      case Some(rest) => RemovedIsClean(rest);
    }
  }

  // --------------------------------------------------------------------------
  // Injection
  // --------------------------------------------------------------------------

  function Placed(cleaned: string, block: string): string {
    match LastIndex(cleaned, BUILTIN_END)
    case Some(k) => cleaned[..k + |BUILTIN_END|] + NEWLINE + block + cleaned[k + |BUILTIN_END|..]
    case None => TrimNewlinesRight(cleaned) + NEWLINE + block
  }

  /** InjectCoordinationContext */
  function Inject(content: string, body: string): string {
    Placed(Removed(content), Block(body))
  }

  /** A context that does not end the block early. */
  ghost predicate FreeContext(body: string) {
    Free(body, TEAM_END)
  }

  lemma StartIsMarker()
    ensures IsMarker(TEAM_START)
  {
  }

  lemma EndIsMarker()
    ensures IsMarker(TEAM_END)
  {
  }

  lemma BuiltinIsMarker()
    ensures IsMarker(BUILTIN_END)
  {
  }

  lemma TeamMarkers()
    ensures IsMarker(TEAM_START) && IsMarker(TEAM_END) && IsMarker(BUILTIN_END)
  {
    hide TEAM_START, TEAM_END, BUILTIN_END, IsMarker;
    StartIsMarker();
    EndIsMarker();
    BuiltinIsMarker();
  }

  /** From the block's start marker to its end marker. */
  function Inner(body: string): string {
    TEAM_START + HEADING + body
  }

  lemma NoEndInStart()
    ensures !OccursAt(TEAM_START, TEAM_END, 0) && !OccursAt(TEAM_START, TEAM_END, 1) && !OccursAt(TEAM_START, TEAM_END, 2)
    ensures |TEAM_START| == |TEAM_END| + 2 && |TEAM_END| > |"## Coordination"|
  {
    assert TEAM_START[25] == 's' && TEAM_END[25] == 'e';
    assert TEAM_START[..|TEAM_END|][25] == 's';
    assert TEAM_START[1] == '!' && TEAM_START[2] == '-' && TEAM_END[0] == '<';
  }

  lemma StartFree()
    ensures Free(TEAM_START, TEAM_END) && Free("## Coordination", TEAM_END)
  {
    NoEndInStart();
    hide TEAM_START, TEAM_END;
    forall i ensures !OccursAt(TEAM_START, TEAM_END, i) {
      assert OccursAt(TEAM_START, TEAM_END, i) ==> 0 <= i <= 2;
    }
  }

  lemma InnerFree(body: string)
    requires FreeContext(body)
    ensures Free(Inner(body), TEAM_END)
  {
    TeamMarkers();
    StartFree();
    hide TEAM_START, TEAM_END, Free, IsMarker;
    FreeEmpty(TEAM_END);
    FreeNewline("", body, TEAM_END);
    FreeNewline("## Coordination", "" + NEWLINE + body, TEAM_END);
    FreeNewline(TEAM_START, "## Coordination" + NEWLINE + ("" + NEWLINE + body), TEAM_END);
    InnerLines(TEAM_START, body);
  }

  lemma InnerLines(start: string, body: string)
    ensures start + HEADING + body == start + NEWLINE + ("## Coordination" + NEWLINE + ("" + NEWLINE + body))
  {
  }

  /** The text around a placed block: everything before the two line feeds in front of it, and
      everything after the line feed behind it. */
  function Front(cleaned: string): string {
    match LastIndex(cleaned, BUILTIN_END)
    case Some(k) => cleaned[..k + |BUILTIN_END|]
    case None => TrimNewlinesRight(cleaned)
  }

  function Back(cleaned: string): string {
    match LastIndex(cleaned, BUILTIN_END)
    case Some(k) => cleaned[k + |BUILTIN_END|..]
    case None => ""
  }

  lemma PlacedBetween(d: string, body: string)
    ensures Placed(d, Block(body)) == Front(d) + NEWLINE + NEWLINE + Inner(body) + TEAM_END + NEWLINE + Back(d)
  {
    hide TEAM_START, TEAM_END, BUILTIN_END, LastIndex, TrimNewlinesRight;
    BlockBetween(Front(d), TEAM_START, body, TEAM_END, Back(d));
  }

  lemma BlockBetween(front: string, start: string, body: string, end: string, back: string)
    ensures front + NEWLINE + (NEWLINE + start + HEADING + body + end + NEWLINE) + back ==
            front + NEWLINE + NEWLINE + (start + HEADING + body) + end + NEWLINE + back
    ensures back == "" ==> front + NEWLINE + (NEWLINE + start + HEADING + body + end + NEWLINE) ==
                           front + NEWLINE + NEWLINE + (start + HEADING + body) + end + NEWLINE + back
  {
    hide HEADING;
  }

  /** Cutting: a stretch that begins with the first start marker goes, with the end marker behind
      it and its line feed. */
  lemma RemoveCut(a: string, b: string, after: string)
    requires Free(a, TEAM_START) && StartsWith(b, TEAM_START) && Free(b, TEAM_END)
    ensures RemoveFirst(a + b + TEAM_END + NEWLINE + after) == Some(a + after)
  {
    TeamMarkers();
    hide TEAM_START, TEAM_END, Free, IsMarker, Index;
    var s := a + b + TEAM_END + NEWLINE + after;
    var rest := b[|TEAM_START|..] + TEAM_END + NEWLINE + after;
    assert b == TEAM_START + b[|TEAM_START|..];
    CutParts(a, TEAM_START, b[|TEAM_START|..], TEAM_END, after);
    FirstMarkerAt(a, TEAM_START, rest);
    FirstMarkerAt(b, TEAM_END, NEWLINE + after);
    CutPoint(a + b + TEAM_END, after);
  }

  /** Removal takes out what stands between the first start marker and the first end marker behind it, with
      both and with one line feed, if there is one. */
  lemma RemoveExact(a: string, b: string, after: string)
    requires Free(a, TEAM_START) && StartsWith(b, TEAM_START) && Free(b, TEAM_END)
    ensures RemoveFirst(a + b + TEAM_END + after) == Some(a + if after != "" && after[0] == '\n' then after[1..] else after)
  {
    hide TEAM_START, TEAM_END, Free, RemoveFirst, StartsWith;
    if after != "" && after[0] == '\n' {
      RemoveCut(a, b, after[1..]);
      assert after == NEWLINE + after[1..];
      SplitNewline(a + b + TEAM_END, after);
    } else {
      BareCut(a, b, after);
    }
  }

  lemma SplitNewline(front: string, after: string)
    requires after != "" && after[0] == '\n'
    ensures front + NEWLINE + after[1..] == front + after
  {
  }

  lemma BareCut(a: string, b: string, after: string)
    requires Free(a, TEAM_START) && StartsWith(b, TEAM_START) && Free(b, TEAM_END) && (after == "" || after[0] != '\n')
    ensures RemoveFirst(a + b + TEAM_END + after) == Some(a + after)
  {
    TeamMarkers();
    hide TEAM_START, TEAM_END, Free, IsMarker, Index;
    var rest := b[|TEAM_START|..] + TEAM_END + after;
    assert b == TEAM_START + b[|TEAM_START|..];
    BareParts(a, TEAM_START, b[|TEAM_START|..], TEAM_END, after);
    FirstMarkerAt(a, TEAM_START, rest);
    FirstMarkerAt(b, TEAM_END, after);
    EndPoint(a + b + TEAM_END, after);
  }

  lemma EndPoint(front: string, after: string)
    requires after == "" || after[0] != '\n'
    ensures (front + after)[|front|..] == after && (|front| < |front + after| ==> (front + after)[|front|] != '\n')
  {
  }

  lemma BareParts(a: string, m: string, b: string, end: string, after: string)
    ensures a + (m + b) + end + after == a + m + (b + end + after)
    ensures (a + (m + b) + end + after)[|a|..] == (m + b) + end + after
    ensures (a + (m + b) + end + after)[..|a|] == a
  {
  }

  lemma CutParts(a: string, m: string, b: string, end: string, after: string)
    ensures a + (m + b) + end + NEWLINE + after == a + m + (b + end + NEWLINE + after)
    ensures (a + (m + b) + end + NEWLINE + after)[|a|..] == (m + b) + end + (NEWLINE + after)
    ensures (a + (m + b) + end + NEWLINE + after)[..|a|] == a
  {
  }

  lemma CutPoint(a: string, after: string)
    ensures (a + NEWLINE + after)[|a|] == '\n' && (a + NEWLINE + after)[|a| + 1..] == after
  {
  }

  /** No start marker in front: the placed block itself is what removal takes out, and the two
      line feeds in front of it stay. */
  lemma RemovePlaced(d: string, body: string)
    requires FreeContext(body) && RemoveFirst(d) == None && Free(Front(d), TEAM_START)
    ensures Removed(Placed(d, Block(body))) == Front(d) + NEWLINE + NEWLINE + Back(d)
  {
    hide TEAM_START, TEAM_END, BUILTIN_END, HEADING, Free, Front, Back, Placed, Removed, RemoveFirst, IsMarker, NoCompleteBlock, FreeContext, Block;
    TeamMarkers();
    PlacedBetween(d, body);
    InnerFree(body);
    var front, back := Front(d), Back(d);
    TwoNewlinesFree(front, TEAM_START);
    InnerStarts(body);
    RemoveCut(front + NEWLINE + NEWLINE, Inner(body), back);
    NothingToRemove(d);
    BackClean(d);
    FrontClean(front, back);
    NoBlockNothingRemoved(front + NEWLINE + NEWLINE + back);
    RemovedRemoves(Placed(d, Block(body)), front + NEWLINE + NEWLINE + back);
  }

  lemma RemovedRemoves(s: string, rest: string)
    requires RemoveFirst(s) == Some(rest)
    ensures Removed(s) == Removed(rest)
  {
    hide RemoveFirst;
  }

  lemma InnerStarts(body: string)
    ensures StartsWith(Inner(body), TEAM_START)
  {
    hide TEAM_START, HEADING;
  }

  /** The text behind the block holds no complete block. */
  lemma BackClean(d: string)
    requires NoCompleteBlock(d)
    ensures NoCompleteBlock(Back(d))
  {
    StartIsMarker();
    hide TEAM_START, TEAM_END, BUILTIN_END;
    var back := Back(d);
    if LastIndex(d, BUILTIN_END).Some? {
      var n := |d| - |back|;
      assert d == d[..n] + back;
      forall i, j | OccursAt(back, TEAM_START, i) && OccursAt(back, TEAM_END, j) ensures j < i {
        OccursInParts(d[..n], back, TEAM_START, i);
        OccursInParts(d[..n], back, TEAM_END, j);
      }
    } else {
      FreeEmpty(TEAM_START);
    }
  }

  lemma FrontClean(front: string, back: string)
    requires Free(front, TEAM_START) && NoCompleteBlock(back)
    ensures NoCompleteBlock(front + NEWLINE + NEWLINE + back)
  {
    TeamMarkers();
    hide TEAM_START, TEAM_END, IsMarker;
    var a := front + NEWLINE + NEWLINE;
    OneNewlineFree(front, TEAM_START);
    forall i, j | OccursAt(a + back, TEAM_START, i) && OccursAt(a + back, TEAM_END, j) ensures j < i {
      OccursBesideNewline(front + NEWLINE, back, TEAM_START, i);
      assert OccursAt(back, TEAM_START, i - |a|);
      OccursInParts(a, back, TEAM_END, j);
    }
  }

  lemma TwoNewlinesFree(t: string, m: string)
    requires IsMarker(m)
    ensures Free(t + NEWLINE + NEWLINE, m) <==> Free(t, m)
  {
    hide Free, IsMarker;
    FreeEmpty(m);
    FreeNewline(t, "", m);
    FreeNewline(t + NEWLINE, "", m);
    assert t + NEWLINE + "" == t + NEWLINE;
    assert t + NEWLINE + NEWLINE + "" == t + NEWLINE + NEWLINE;
  }

  /** A start marker in front of the block: removal takes everything from it on, user text
      included. */
  lemma RemoveEatsFront(d: string, body: string)
    requires FreeContext(body) && RemoveFirst(d) == None && !Free(Front(d), TEAM_START)
    ensures Index(Front(d), TEAM_START).Some?
    ensures Removed(Placed(d, Block(body))) == Removed(Front(d)[..Index(Front(d), TEAM_START).value] + Back(d))
  {
    hide TEAM_START, TEAM_END, BUILTIN_END, HEADING, Free, Front, Back, Placed, Removed, RemoveFirst, IsMarker, NoCompleteBlock, FreeContext, Block, Index, Inner, StartsWith, OccursAt;
    TeamMarkers();
    PlacedBetween(d, body);
    InnerFree(body);
    var front, back := Front(d), Back(d);
    FreeIff(front, TEAM_START);
    var i := Index(front, TEAM_START).value;
    NothingToRemove(d);
    FrontIsPrefix(d);
    FrontRest(d, front, i);
    var a, rest := front[..i], front[i..];
    assert front == a + rest;
    TwoNewlinesFree(rest, TEAM_END);
    FreeNewline(rest + NEWLINE, Inner(body), TEAM_END);
    TwoNewlinesFree(rest, TEAM_END);
    OneNewlineFree(rest, TEAM_END);
    var b := rest + NEWLINE + NEWLINE + Inner(body);
    StartsLonger(rest, NEWLINE + NEWLINE + Inner(body), TEAM_START);
    assert rest + (NEWLINE + NEWLINE + Inner(body)) == b;
    RemoveCut(a, b, back);
    assert Placed(d, Block(body)) == a + b + TEAM_END + NEWLINE + back;
    RemovedRemoves(Placed(d, Block(body)), a + back);
  }

  lemma OneNewlineFree(t: string, m: string)
    requires IsMarker(m)
    ensures Free(t + NEWLINE, m) <==> Free(t, m)
  {
    hide Free, IsMarker;
    FreeEmpty(m);
    FreeNewline(t, "", m);
    assert t + NEWLINE + "" == t + NEWLINE;
  }

  lemma StartsLonger(a: string, b: string, m: string)
    requires StartsWith(a, m)
    ensures StartsWith(a + b, m)
  {
    assert (a + b)[..|m|] == a[..|m|];
  }

  lemma FrontIsPrefix(d: string)
    ensures |Front(d)| <= |d| && Front(d) == d[..|Front(d)|]
  {
    hide BUILTIN_END;
    TrimmedNewlines(d);
  }

  lemma FrontRest(d: string, front: string, i: nat)
    requires NoCompleteBlock(d) && |front| <= |d| && front == d[..|front|]
    requires Index(front, TEAM_START) == Some(i)
    ensures i + |TEAM_START| <= |front|
    ensures Free(front[..i], TEAM_START) && StartsWith(front[i..], TEAM_START) && Free(front[i..], TEAM_END)
  {
    StartIsMarker();
    hide TEAM_START, TEAM_END;
    var a, rest, tail := front[..i], front[i..], d[|front|..];
    assert front == a + rest && d == front + tail;
    assert rest[..|TEAM_START|] == front[i..i + |TEAM_START|];
    OccursInParts(front, tail, TEAM_START, i);
    forall j ensures !OccursAt(rest, TEAM_END, j) {
      OccursInParts(a, rest, TEAM_END, j);
      OccursInParts(front, tail, TEAM_END, i + j);
    }
    forall j ensures !OccursAt(a, TEAM_START, j) {
      OccursInParts(a, rest, TEAM_START, j);
    }
  }

  // --------------------------------------------------------------------------
  // Injecting twice
  // --------------------------------------------------------------------------

  lemma TrimTwoNewlines(d: string)
    ensures TrimNewlinesRight(TrimNewlinesRight(d) + NEWLINE + NEWLINE) == TrimNewlinesRight(d)
  {
    TrimmedNewlines(d);
    assert AllOf(NEWLINE + NEWLINE, IsNewline);
    var t := TrimNewlinesRight(d);
    assert t + NEWLINE + NEWLINE == t + (NEWLINE + NEWLINE);
    TrimRightConcat(t, NEWLINE + NEWLINE, IsNewline);
  }

  lemma TrimmedFree(d: string, m: string)
    requires Free(d, m)
    ensures Free(TrimNewlinesRight(d), m)
  {
    hide TrimNewlinesRight, Free;
    TrimmedNewlines(d);
    FreePart(d, 0, |TrimNewlinesRight(d)|, m);
  }

  /** Without a builtin end marker the text in front is the same at the second injection. */
  lemma FrontStaysPlain(d: string)
    requires Free(d, BUILTIN_END)
    ensures var d' := Front(d) + NEWLINE + NEWLINE + Back(d);
            Front(d') == Front(d) && Back(d') == Back(d) == "" && Front(d) == TrimNewlinesRight(d)
  {
    BuiltinIsMarker();
    hide BUILTIN_END, TrimNewlinesRight, Free, IsMarker;
    FreeIff(d, BUILTIN_END);
    var t := TrimNewlinesRight(d);
    assert t + NEWLINE + NEWLINE + "" == t + NEWLINE + NEWLINE;
    TrimmedFree(d, BUILTIN_END);
    TwoNewlinesFree(t, BUILTIN_END);
    FreeIff(t + NEWLINE + NEWLINE, BUILTIN_END);
    TrimTwoNewlines(d);
  }

  /** With one, the two line feeds end up behind the next block. */
  lemma FrontStaysBuiltin(d: string)
    requires !Free(d, BUILTIN_END)
    ensures var d' := Front(d) + NEWLINE + NEWLINE + Back(d);
            Front(d') == Front(d) && Back(d') == NEWLINE + NEWLINE + Back(d) && !Free(d', BUILTIN_END)
    ensures d == Front(d) + Back(d)
  {
    BuiltinIsMarker();
    hide BUILTIN_END, Free, IsMarker;
    FreeIff(d, BUILTIN_END);
    AfterLast(d, BUILTIN_END);
    var before, back := d[..LastIndex(d, BUILTIN_END).value], Back(d);
    var behind := NEWLINE + NEWLINE + back;
    NewlinesKeepFree(back, BUILTIN_END);
    LastMarkerAt(before, BUILTIN_END, behind);
    PartAfter(before, BUILTIN_END, behind);
    BuiltinParts(before, BUILTIN_END, back);
    assert d[..|before| + |BUILTIN_END|] == before + BUILTIN_END;
    FreeIff(before + BUILTIN_END + behind, BUILTIN_END);
  }

  lemma BuiltinParts(before: string, m: string, back: string)
    ensures before + m + NEWLINE + NEWLINE + back == before + m + (NEWLINE + NEWLINE + back)
    ensures (before + m + (NEWLINE + NEWLINE + back))[..|before| + |m|] == before + m
  {
  }

  lemma NewlinesKeepFree(b: string, m: string)
    requires IsMarker(m) && Free(b, m)
    ensures Free(NEWLINE + NEWLINE + b, m)
  {
    hide Free, IsMarker;
    FreeEmpty(m);
    FreeNewline("", b, m);
    FreeNewline("", "" + NEWLINE + b, m);
    assert "" + NEWLINE + ("" + NEWLINE + b) == NEWLINE + NEWLINE + b;
  }

  lemma FrontFreeIff(d: string, m: string)
    requires IsMarker(m) && Free(d, BUILTIN_END)
    ensures Free(Front(d), m) <==> Free(d, m)
  {
    hide BUILTIN_END, IsMarker, TrimNewlinesRight;
    FreeIff(d, BUILTIN_END);
    var t := TrimNewlinesRight(d);
    TrimmedNewlines(d);
    if Free(d, m) {
      TrimmedFree(d, m);
    }
    if Free(t, m) {
      forall i ensures !OccursAt(d, m, i) {
        OccursBeforeNewlines(t, d[|t|..], m, i);
      }
    }
  }

  lemma OccursBeforeNewlines(t: string, tail: string, m: string, i: int)
    requires IsMarker(m) && AllOf(tail, IsNewline)
    ensures OccursAt(t + tail, m, i) ==> OccursAt(t, m, i)
  {
    var s := t + tail;
    assert forall j {:trigger s[j]} :: |t| <= j < |s| ==> s[j] == '\n';
    if OccursAt(s, m, i) {
      OccursChars(s, m, i);
      assert s[i + |m| - 1] == m[|m| - 1];
      OccursInParts(t, tail, m, i);
    }
  }

  lemma PlacedLength(d: string, body: string)
    ensures |Placed(d, Block(body))| == |Front(d)| + |Back(d)| + |Block(body)| + 1
    ensures |Front(d)| + |Back(d)| <= |d|
  {
    hide BUILTIN_END, TEAM_START, TEAM_END, HEADING, LastIndex;
    if LastIndex(d, BUILTIN_END).Some? {
      assert OccursAt(d, BUILTIN_END, LastIndex(d, BUILTIN_END).value);
    }
  }

  /** Injecting twice is injecting the second context alone exactly when removal leaves neither a
      start marker nor a builtin end marker. */
  lemma InjectTwiceIff(content: string, x: string, y: string)
    requires FreeContext(x)
    ensures Inject(Inject(content, x), y) == Inject(content, y) <==>
            Free(Removed(content), TEAM_START) && Free(Removed(content), BUILTIN_END)
  {
    hide TEAM_START, TEAM_END, BUILTIN_END, HEADING, Free, Front, Back, Placed, Removed, RemoveFirst, IsMarker, NoCompleteBlock, FreeContext, Block, Index, Inner;
    TeamMarkers();
    var d := Removed(content);
    RemovedIsClean(content);
    var d' := Removed(Placed(d, Block(x)));
    PlacedLength(d, y);
    PlacedLength(d', y);
    if Free(d, BUILTIN_END) {
      FrontFreeIff(d, TEAM_START);
    }
    if !Free(Front(d), TEAM_START) {
      RemoveEatsFront(d, x);
      RemovedIsClean(Front(d)[..Index(Front(d), TEAM_START).value] + Back(d));
      StartNotEmpty(Front(d));
      assert |Inject(Inject(content, x), y)| < |Inject(content, y)|;
    } else {
      RemovePlaced(d, x);
      if Free(d, BUILTIN_END) {
        FrontStaysPlain(d);
        PlacedBetween(d, y);
        PlacedBetween(d', y);
        assert Inject(Inject(content, x), y) == Inject(content, y);
      } else {
        FrontStaysBuiltin(d);
        assert |Inject(Inject(content, x), y)| == |Inject(content, y)| + 2;
      }
    }
  }

  lemma StartNotEmpty(s: string)
    requires Index(s, TEAM_START).Some?
    ensures Index(s, TEAM_START).value < |s|
  {
    StartIsMarker();
    hide TEAM_START;
  }

  lemma FreeSplit(a: string, b: string, m: string)
    ensures Free(a + b, m) ==> Free(a, m) && Free(b, m)
  {
    if Free(a + b, m) {
      forall i ensures !OccursAt(a, m, i) && !OccursAt(b, m, i) {
        OccursInParts(a, b, m, i);
        assert !OccursAt(a + b, m, i) && !OccursAt(a + b, m, |a| + i);
      }
    }
  }

  function InjectAll(content: string, bodies: seq<string>): string
    decreases |bodies|
  {
    if bodies == [] then content else InjectAll(Inject(content, bodies[0]), bodies[1..])
  }

  function Newlines(n: nat): string {
    if n == 0 then "" else NEWLINE + NEWLINE + Newlines(n - 1)
  }

  /** Inside a builtin file only the last context stays, and every injection after the first
      leaves two more line feeds behind the block. */
  lemma {:induction false} InjectionsStack(content: string, bodies: seq<string>)
    requires bodies != [] && (forall k :: 0 <= k < |bodies| ==> FreeContext(bodies[k]))
    requires !Free(Removed(content), BUILTIN_END) && Free(Front(Removed(content)), TEAM_START)
    ensures var d := Removed(content);
            InjectAll(content, bodies) ==
            Front(d) + NEWLINE + Block(bodies[|bodies| - 1]) + Newlines(|bodies| - 1) + Back(d)
    decreases |bodies|
  {
    hide TEAM_START, TEAM_END, BUILTIN_END, HEADING, Free, Front, Back, Placed, Removed, RemoveFirst, IsMarker, NoCompleteBlock, FreeContext, Block, Index, Inner;
    var d := Removed(content);
    var content' := Inject(content, bodies[0]);
    if |bodies| == 1 {
      assert InjectAll(content', bodies[1..]) == content';
      PlacedBuiltin(d, bodies[0]);
      assert Newlines(0) == "";
      NoGap(Front(d) + NEWLINE + Block(bodies[0]), Back(d));
    } else {
      RemovedIsClean(content);
      RemovePlaced(d, bodies[0]);
      FrontStaysBuiltin(d);
      InjectionsStack(content', bodies[1..]);
      NewlinesMove(|bodies| - 2);
      Gap(Front(d) + NEWLINE + Block(bodies[|bodies| - 1]), Newlines(|bodies| - 2), Back(d));
    }
  }

  lemma NoGap(a: string, b: string)
    ensures a + "" + b == a + b
  {
  }

  lemma Gap(a: string, n: string, b: string)
    requires n + (NEWLINE + NEWLINE) == NEWLINE + NEWLINE + n
    ensures a + n + (NEWLINE + NEWLINE + b) == a + (NEWLINE + NEWLINE + n) + b
  {
    calc {
      a + n + (NEWLINE + NEWLINE + b);
      a + (n + (NEWLINE + NEWLINE)) + b;
      a + (NEWLINE + NEWLINE + n) + b;
    }
  }

  lemma {:induction false} NewlinesMove(n: nat)
    ensures Newlines(n) + (NEWLINE + NEWLINE) == NEWLINE + NEWLINE + Newlines(n)
  {
    if n > 0 {
      NewlinesMove(n - 1);
      assert Newlines(n) + (NEWLINE + NEWLINE) == NEWLINE + NEWLINE + (Newlines(n - 1) + (NEWLINE + NEWLINE));
    }
  }

  lemma PlacedBuiltin(d: string, body: string)
    requires !Free(d, BUILTIN_END)
    ensures Placed(d, Block(body)) == Front(d) + NEWLINE + Block(body) + Back(d)
  {
    hide BUILTIN_END, Block, LastIndex;
    FreeIff(d, BUILTIN_END);
  }

  /** A start marker that lost its end marker swallows the user's text at the second injection. */
  lemma DanglingMarkerLosesText(before: string, text: string, x: string, y: string)
    requires FreeContext(x)
    requires Free(before, TEAM_START) && Free(TEAM_START + text, TEAM_END)
    requires Free(before + TEAM_START + text, BUILTIN_END)
    ensures Inject(Inject(before + TEAM_START + text, x), y) == TrimNewlinesRight(before) + NEWLINE + Block(y)
    ensures Inject(before + TEAM_START + text, x) ==
            TrimNewlinesRight(before + TEAM_START + text) + NEWLINE + Block(x)
  {
    hide TEAM_START, TEAM_END, BUILTIN_END, HEADING, Free, Front, Back, RemoveFirst, Removed, IsMarker, NoCompleteBlock, FreeContext, Block, Index, Inner, TrimNewlinesRight, OccursAt, LastIndex;
    TeamMarkers();
    var d := before + TEAM_START + text;
    DanglingStays(before, text);
    FreeIff(d, BUILTIN_END);
    FrontStaysPlain(d);
    FrontFreeIff(d, TEAM_START);
    FirstMarkerAt(before, TEAM_START, text);
    FreeIff(d, TEAM_START);
    TrimmedIndex(before, text);
    RemoveEatsFront(d, x);
    assert before + "" == before;
    NoStartNothingRemoved(before);
    FreeSplit(before + TEAM_START, text, BUILTIN_END);
    FreeSplit(before, TEAM_START, BUILTIN_END);
    FreeIff(before, BUILTIN_END);
  }

  lemma NoStartNothingRemoved(s: string)
    requires Free(s, TEAM_START)
    ensures RemoveFirst(s) == None && Removed(s) == s
  {
    hide TEAM_START;
    FreeIff(s, TEAM_START);
  }

  lemma DanglingStays(before: string, text: string)
    requires Free(before, TEAM_START) && Free(TEAM_START + text, TEAM_END)
    ensures RemoveFirst(before + TEAM_START + text) == None
    ensures Removed(before + TEAM_START + text) == before + TEAM_START + text
  {
    StartIsMarker();
    hide TEAM_START, TEAM_END, Free, IsMarker;
    var d := before + TEAM_START + text;
    FirstMarkerAt(before, TEAM_START, text);
    assert d[|before|..] == TEAM_START + text;
    FreeIff(TEAM_START + text, TEAM_END);
  }

  lemma TrimmedIndex(before: string, text: string)
    requires Free(before, TEAM_START)
    ensures Index(TrimNewlinesRight(before + TEAM_START + text), TEAM_START) == Some(|before|)
    ensures |before| <= |TrimNewlinesRight(before + TEAM_START + text)|
    ensures TrimNewlinesRight(before + TEAM_START + text)[..|before|] == before
  {
    StartIsMarker();
    hide TEAM_START, Free;
    var t := TrimNewlinesRight(text);
    TrimRightConcat(before + TEAM_START, text, IsNewline);
    assert before + TEAM_START + "" == before + TEAM_START;
    if AllOf(text, IsNewline) {
      TrimmedStaysRight(before + TEAM_START);
      FirstMarkerAt(before, TEAM_START, "");
    } else {
      FirstMarkerAt(before, TEAM_START, t);
    }
  }

  lemma TrimmedStaysRight(s: string)
    requires s != [] && s[|s| - 1] != '\n'
    ensures TrimNewlinesRight(s) == s
  {
  }

  // --------------------------------------------------------------------------
  // The coordinators named in a block
  // --------------------------------------------------------------------------

  /** The ids that are worth naming, in their order, repetitions included. */
  function Named(ids: seq<string>, exclude: string): seq<string> {
    if ids == [] then []
    else
      var n := |ids| - 1;
      Named(ids[..n], exclude) + (if ids[n] == "" || ids[n] == exclude then [] else [ids[n]])
  }

  lemma {:induction false} NamedIs(ids: seq<string>, exclude: string)
    ensures forall id :: id in Named(ids, exclude) <==> id in ids && id != "" && id != exclude
  {
    if ids != [] {
      var n := |ids| - 1;
      NamedIs(ids[..n], exclude);
      assert ids == ids[..n] + [ids[n]];
    }
  }

  lemma NamedStep(ids: seq<string>, exclude: string, i: nat)
    requires i < |ids|
    ensures Named(ids[..i + 1], exclude) ==
            if ids[i] == "" || ids[i] == exclude then Named(ids[..i], exclude) else Named(ids[..i], exclude) + [ids[i]]
  {
    assert ids[..i + 1][..i] == ids[..i];
  }

  /** uniqueCoordinationIDs, with its loop: every id but the empty and the excluded one, once each,
      in the order of their first mention. */
  method UniqueCoordinationIds(ids: seq<string>, exclude: string) returns (out: seq<string>)
    ensures out == Firsts(Named(ids, exclude))
    ensures Distinct(out) && forall id :: id in out <==> id in ids && id != "" && id != exclude
  {
    hide Firsts, Distinct, Named;
    var seen: set<string> := {};
    out := [];
    NoneNamed(ids, exclude);
    for i := 0 to |ids|
      invariant out == Firsts(Named(ids[..i], exclude))
      invariant forall id :: id in seen <==> id in out
    {
      NamedStep(ids, exclude, i);
      var id := ids[i];
      if id == "" || id == exclude {
        continue;
      }
      FirstsStep(Named(ids[..i], exclude), id);
      if id in seen {
        continue;
      }
      seen := seen + {id};
      out := out + [id];
    }
    assert ids[..|ids|] == ids;
    FirstsIs(Named(ids, exclude));
    NamedIs(ids, exclude);
  }

  lemma NoneNamed(ids: seq<string>, exclude: string)
    ensures Firsts(Named(ids[..0], exclude)) == []
  {
  }
}
