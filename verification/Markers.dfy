/** The builtin section of an AGENTS.md file and its upgrade
    (hiclaw-controller/internal/agentconfig/agents_merge.go). */
module Markers {
  import opened Text
  import opened MarkerText

  const BUILTIN_START := "<!-- hiclaw-builtin-start -->"
  const BUILTIN_END := "<!-- hiclaw-builtin-end -->"
  const HEADER_NOTE := "\n> \U{26A0}\U{FE0F} **DO NOT EDIT** this section. It is managed by HiClaw and will be automatically\n> replaced on upgrade. To customize, add your content **after** the\n> `"
  const HEADER_TAIL := "` marker below.\n"
  const FENCE := "---"

  /** BuiltinHeader: it names the end marker in its text. */
  function BuiltinHeader(): string {
    BUILTIN_START + HEADER_NOTE + BUILTIN_END + HEADER_TAIL
  }

  function TrimNewlinesLeft(s: string): string {
    TrimLeft(s, IsNewline)
  }

  function TrimNewlinesRight(s: string): string {
    TrimRight(s, IsNewline)
  }

  /** strings.TrimSpace(s) == "" */
  predicate IsBlank(s: string) {
    AllOf(s, IsGoSpace)
  }

  // --------------------------------------------------------------------------
  // Frontmatter
  // --------------------------------------------------------------------------

  predicate IsFence(line: string) {
    Trim(line, IsGoSpace) == FENCE
  }

  /** A fence is three dashes with white space around. */
  lemma FenceIff(line: string)
    ensures IsFence(line) <==> exists a, b :: AllOf(a, IsGoSpace) && AllOf(b, IsGoSpace) && line == a + "---" + b
  {
    hide TrimLeft, TrimRight;
    if IsFence(line) {
      var left := TrimLeft(line, IsGoSpace);
      TrimLeftPart(line, IsGoSpace);
      TrimRightPart(left, IsGoSpace);
      var a, b := line[..|line| - |left|], left[3..];
      assert left == "---" + b && line == a + "---" + b;
    } else if exists a, b :: AllOf(a, IsGoSpace) && AllOf(b, IsGoSpace) && line == a + "---" + b {
      var a, b :| AllOf(a, IsGoSpace) && AllOf(b, IsGoSpace) && line == a + "---" + b;
      TrimFinds(a, "---", b, IsGoSpace);
    }
  }

  /** The position of the closing fence after line 0, or |lines|. */
  function ClosingFence(lines: seq<string>): nat
    requires lines != []
  {
    1 + FirstIndex(lines[1..], IsFence)
  }

  datatype Document = Document(frontmatter: string, body: string)

  function Frontmatter(content: string): Document {
    var lines := SplitOn(content, '\n');
    if !IsFence(lines[0]) then Document("", content)
    else
      var k := ClosingFence(lines);
      if k == |lines| then Document("", content)
      else Document(Join(lines[..k + 1], NEWLINE), TrimNewlinesLeft(Join(lines[k + 1..], NEWLINE)))
  }

  lemma ClosingFenceIs(lines: seq<string>, k: nat)
    requires 1 <= k <= |lines|
    requires k < |lines| ==> IsFence(lines[k])
    requires forall j :: 1 <= j < k ==> !IsFence(lines[j])
    ensures ClosingFence(lines) == k
  {
    hide IsFence;
    FirstIndexIs(lines[1..], IsFence, k - 1);
  }

  lemma FrontmatterIs(content: string)
    ensures var lines := SplitOn(content, '\n');
            && lines != []
            && (!IsFence(lines[0]) ==> Frontmatter(content) == Document("", content))
            && var k := ClosingFence(lines);
            && 1 <= k <= |lines|
            && (IsFence(lines[0]) ==>
                 Frontmatter(content) ==
                 if k == |lines| then Document("", content)
                 else Document(Join(lines[..k + 1], NEWLINE), TrimNewlinesLeft(Join(lines[k + 1..], NEWLINE))))
  {
    hide IsFence, Join, SplitOn, TrimNewlinesLeft;
  }

  /** ExtractFrontmatter, with its index loop. */
  method ExtractFrontmatter(content: string) returns (frontmatter: string, body: string)
    ensures Document(frontmatter, body) == Frontmatter(content)
  {
    hide IsFence, Join, SplitOn, ClosingFence, Frontmatter, TrimNewlinesLeft, IsNewline;
    var lines := SplitOn(content, '\n');
    FrontmatterIs(content);
    if !IsFence(lines[0]) {
      return "", content;
    }
    var i := 1;
    while i < |lines|
      invariant 1 <= i <= |lines|
      invariant forall j :: 1 <= j < i ==> !IsFence(lines[j])
    {
      if IsFence(lines[i]) {
        ClosingFenceIs(lines, i);
        body := "";
        if i + 1 < |lines| {
          body := Join(lines[i + 1..], NEWLINE);
        } else {
          assert lines[i + 1..] == [];
          JoinNothing();
        }
        return Join(lines[..i + 1], NEWLINE), TrimNewlinesLeft(body);
      }
      i := i + 1;
    }
    ClosingFenceIs(lines, |lines|);
    return "", content;
  }

  lemma JoinNothing()
    ensures Join([], NEWLINE) == ""
  {
  }

  lemma {:induction false} JoinOfSplit(s: string)
    ensures Join(SplitOn(s, '\n'), NEWLINE) == s
  {
    hide SplitOn, FirstIndex, Join;
    var k := SplitStep(s);
    if k < |s| {
      var rest := SplitOn(s[k + 1..], '\n');
      JoinOfSplit(s[k + 1..]);
      JoinStep(s[..k], rest);
      assert s == s[..k] + NEWLINE + s[k + 1..];
    } else {
      JoinOne(s);
    }
  }

  lemma SplitStep(s: string) returns (k: nat)
    ensures k <= |s| && (k < |s| ==> s[k] == '\n')
    ensures SplitOn(s, '\n') == if k == |s| then [s] else [s[..k]] + SplitOn(s[k + 1..], '\n')
  {
    k := FirstIndex(s, c => c == '\n');
  }

  lemma JoinStep(line: string, rest: seq<string>)
    requires rest != []
    ensures Join([line] + rest, NEWLINE) == line + NEWLINE + Join(rest, NEWLINE)
  {
    assert ([line] + rest)[1..] == rest;
  }

  lemma JoinOne(line: string)
    ensures Join([line], NEWLINE) == line
  {
  }

  lemma JoinCut(lines: seq<string>, k: nat)
    requires 0 < k <= |lines|
    ensures Join(lines, NEWLINE) == Join(lines[..k], NEWLINE) + (if k == |lines| then "" else NEWLINE + Join(lines[k..], NEWLINE))
  {
    assert lines == lines[..k] + lines[k..];
    JoinConcat(lines[..k], lines[k..], NEWLINE);
  }

  lemma TrimmedGap(front: string, rest: string)
    ensures exists gap :: AllOf(gap, IsNewline) && front + NEWLINE + rest == front + gap + TrimNewlinesLeft(rest)
  {
    TrimmedLeftParts(rest);
    assert AllOf(NEWLINE, IsNewline);
    hide IsNewline, TrimNewlinesLeft;
    var body := TrimNewlinesLeft(rest);
    var skipped := rest[..|rest| - |body|];
    AllOfConcat(NEWLINE, skipped, IsNewline);
    assert front + NEWLINE + rest == front + (NEWLINE + skipped) + body;
  }

  /** d is content cut in two, with only line feeds lost in between, or left whole. */
  ghost predicate CutAtLineFeeds(content: string, d: Document) {
    || (d.frontmatter == "" && d.body == content)
    || (exists gap :: AllOf(gap, IsNewline) && content == d.frontmatter + gap + d.body)
  }

  lemma CutJoined(lines: seq<string>, k: nat)
    requires 0 < k <= |lines|
    ensures CutAtLineFeeds(Join(lines, NEWLINE), Document(Join(lines[..k], NEWLINE), TrimNewlinesLeft(Join(lines[k..], NEWLINE))))
  {
    hide Join, IsNewline, TrimNewlinesLeft;
    JoinCut(lines, k);
    if k == |lines| {
      assert lines[k..] == [];
      JoinNothing();
      CutAtTheEnd(Join(lines[..k], NEWLINE));
    } else {
      TrimmedGap(Join(lines[..k], NEWLINE), Join(lines[k..], NEWLINE));
    }
  }

  lemma CutAtTheEnd(front: string)
    ensures CutAtLineFeeds(front + "", Document(front, TrimNewlinesLeft("")))
  {
    assert front + "" == front + "" + "" && AllOf("", IsNewline);
  }

  /** Splitting off the frontmatter loses nothing but line feeds between it and the body. */
  lemma FrontmatterRecomposes(content: string)
    ensures CutAtLineFeeds(content, Frontmatter(content))
  {
    hide IsFence, Join, SplitOn, IsNewline, Frontmatter, TrimNewlinesLeft, ClosingFence;
    var lines := SplitOn(content, '\n');
    JoinOfSplit(content);
    FrontmatterIs(content);
    FenceInRange(lines);
    if IsFence(lines[0]) && ClosingFence(lines) < |lines| {
      CutJoined(lines, ClosingFence(lines) + 1);
    }
  }

  lemma FenceInRange(lines: seq<string>)
    requires lines != []
    ensures 1 <= ClosingFence(lines) <= |lines|
  {
  }

  // --------------------------------------------------------------------------
  // Merging
  // --------------------------------------------------------------------------

  /** The section itself, without user content. */
  function Section(source: string): string {
    BuiltinHeader() + NEWLINE + TrimNewlinesRight(Frontmatter(source).body) + "\n\n" + BUILTIN_END + NEWLINE
  }

  function WrapWithMarkers(source: string, userContent: string): string {
    Section(source) + if userContent == "" then "" else NEWLINE + TrimNewlinesRight(userContent) + NEWLINE
  }

  function ExtractUserContent(target: string): string {
    match LastIndex(target, BUILTIN_END)
    case None => ""
    case Some(k) =>
      var after := TrimNewlinesLeft(target[k + |BUILTIN_END|..]);
      if IsBlank(after) then "" else after
  }

  function MergeBuiltinSection(target: string, source: string): string {
    if target == "" then WrapWithMarkers(source, "")
    else if Contains(target, BUILTIN_START) then WrapWithMarkers(source, ExtractUserContent(target))
    else WrapWithMarkers(source, target)
  }

  // --------------------------------------------------------------------------
  // Merging twice
  // --------------------------------------------------------------------------

  lemma EndIsMarker()
    ensures IsMarker(BUILTIN_END)
  {
  }

  lemma StartIsMarker()
    ensures IsMarker(BUILTIN_START)
  {
  }

  /** What stands in front of the closing end marker of a section. */
  function SectionFront(source: string): string {
    BuiltinHeader() + NEWLINE + TrimNewlinesRight(Frontmatter(source).body) + "\n\n"
  }

  /** Everything after the section's closing marker. */
  function UserPart(userContent: string): string {
    NEWLINE + if userContent == "" then "" else NEWLINE + TrimNewlinesRight(userContent) + NEWLINE
  }

  lemma WrappedParts(source: string, userContent: string)
    ensures WrapWithMarkers(source, userContent) == SectionFront(source) + BUILTIN_END + UserPart(userContent)
  {
    hide BuiltinHeader, BUILTIN_END, TrimNewlinesRight, Frontmatter;
  }

  lemma WrappedHasStart(source: string, userContent: string)
    ensures Contains(WrapWithMarkers(source, userContent), BUILTIN_START) && WrapWithMarkers(source, userContent) != ""
  {
    var w := WrapWithMarkers(source, userContent);
    hide HEADER_NOTE, HEADER_TAIL, BUILTIN_END, BUILTIN_START, TrimNewlinesRight, Frontmatter;
    StartIsMarker();
    assert w[..|BUILTIN_START|] == BUILTIN_START;
    assert OccursAt(w, BUILTIN_START, 0);
    ContainsIff(w, BUILTIN_START);
  }

  lemma TrimmedNewlines(s: string)
    ensures s == TrimNewlinesRight(s) + s[|TrimNewlinesRight(s)|..] && AllOf(s[|TrimNewlinesRight(s)|..], IsNewline)
    ensures TrimNewlinesRight(s) == s[..|TrimNewlinesRight(s)|]
  {
    TrimRightPart(s, IsNewline);
  }

  lemma UserPartFree(userContent: string)
    requires Free(userContent, BUILTIN_END)
    ensures Free(UserPart(userContent), BUILTIN_END)
  {
    EndIsMarker();
    var u := TrimNewlinesRight(userContent);
    TrimmedNewlines(userContent);
    hide BUILTIN_END, TrimNewlinesRight, Free;
    FreeEmpty(BUILTIN_END);
    FreePart(userContent, 0, |u|, BUILTIN_END);
    FreeNewline("", "", BUILTIN_END);
    FreeNewline(u, "", BUILTIN_END);
    FreeNewline("", u + NEWLINE + "", BUILTIN_END);
    FreeNewline("", "" + NEWLINE + (u + NEWLINE + ""), BUILTIN_END);
    assert userContent != "" ==> UserPart(userContent) == "" + NEWLINE + ("" + NEWLINE + (u + NEWLINE + ""));
    assert userContent == "" ==> UserPart(userContent) == "" + NEWLINE + "";
  }

  /** Why the last end marker counts: the header already names it, so the first one is inside the section. */
  lemma HeaderMentionsEnd(source: string, userContent: string)
    requires Free(userContent, BUILTIN_END)
    ensures var w := WrapWithMarkers(source, userContent);
            && Index(w, BUILTIN_END).Some? && LastIndex(w, BUILTIN_END) == Some(|SectionFront(source)|)
            && Index(w, BUILTIN_END).value < |BuiltinHeader()| < |SectionFront(source)|
  {
    hide Free, Frontmatter, TrimNewlinesRight, UserPart, IsMarker, WrapWithMarkers, Index, LastIndex;
    EndIsMarker();
    WrappedParts(source, userContent);
    UserPartFree(userContent);
    LastMarkerAt(SectionFront(source), BUILTIN_END, UserPart(userContent));
    var before := BUILTIN_START + HEADER_NOTE;
    var w, rest := WrapWithMarkers(source, userContent), SectionFront(source)[|before + BUILTIN_END|..] + BUILTIN_END + UserPart(userContent);
    hide BUILTIN_START, BUILTIN_END, HEADER_NOTE, HEADER_TAIL;
    assert w == before + BUILTIN_END + rest;
    assert w[|before|..|before| + |BUILTIN_END|] == BUILTIN_END;
    assert OccursAt(w, BUILTIN_END, |before|);
  }

  /** The user's text after the closing marker, as the next merge will see it. */
  function Cleaned(userContent: string): string {
    var after := TrimNewlinesLeft(UserPart(userContent));
    if IsBlank(after) then "" else after
  }

  lemma ExtractWrapped(source: string, userContent: string)
    requires Free(userContent, BUILTIN_END)
    ensures ExtractUserContent(WrapWithMarkers(source, userContent)) == Cleaned(userContent)
  {
    hide BUILTIN_END, IsBlank, SectionFront, UserPart, Free, TrimNewlinesLeft, LastIndex, WrapWithMarkers, IsMarker;
    EndIsMarker();
    WrappedParts(source, userContent);
    UserPartFree(userContent);
    var a, b := SectionFront(source), UserPart(userContent);
    LastMarkerAt(a, BUILTIN_END, b);
    PartAfter(a, BUILTIN_END, b);
  }

  lemma NewlinesTrimmed(u: string)
    ensures TrimNewlinesLeft(NEWLINE + NEWLINE + u + NEWLINE) ==
            if AllOf(u, IsNewline) then "" else TrimNewlinesLeft(u) + NEWLINE
    ensures TrimNewlinesLeft(NEWLINE) == ""
  {
    assert AllOf(NEWLINE + NEWLINE, IsNewline) && AllOf(NEWLINE, IsNewline);
    hide IsNewline, TrimLeft;
    assert NEWLINE + NEWLINE + u + NEWLINE == (NEWLINE + NEWLINE) + (u + NEWLINE);
    TrimLeftConcat(NEWLINE + NEWLINE, u + NEWLINE, IsNewline);
    TrimLeftConcat(u, NEWLINE, IsNewline);
    TrimAllOf(NEWLINE, IsNewline);
  }

  lemma UserPartIs(userContent: string)
    ensures UserPart("") == NEWLINE
    ensures userContent != "" ==> UserPart(userContent) == NEWLINE + NEWLINE + TrimNewlinesRight(userContent) + NEWLINE
    ensures IsBlank("")
  {
    hide TrimNewlinesRight;
    assert NEWLINE + "" == NEWLINE;
    assert NEWLINE + (NEWLINE + TrimNewlinesRight(userContent) + NEWLINE) == NEWLINE + NEWLINE + TrimNewlinesRight(userContent) + NEWLINE;
  }

  /** Cleaning, in terms of the text itself. */
  lemma CleanedIs(userContent: string)
    ensures var u := TrimNewlinesRight(userContent);
            Cleaned(userContent) == if IsBlank(userContent) then "" else TrimNewlinesLeft(u) + NEWLINE
  {
    hide IsNewline, TrimNewlinesRight, TrimNewlinesLeft, IsBlank, IsGoSpace, UserPart, AllOf;
    var u := TrimNewlinesRight(userContent);
    UserPartIs(userContent);
    NewlinesTrimmed(u);
    BlankParts(userContent);
    BlankTrimmed(u);
  }

  lemma NewlineIsBlank()
    ensures forall c :: IsNewline(c) ==> IsGoSpace(c)
  {
  }

  lemma BlankParts(s: string)
    ensures var u := TrimNewlinesRight(s); IsBlank(s) <==> IsBlank(u)
    ensures var u := TrimNewlinesRight(s); AllOf(u, IsNewline) ==> IsBlank(s)
  {
    NewlineIsBlank();
    TrimmedNewlines(s);
    hide IsNewline, IsGoSpace, TrimRight;
    var u := TrimNewlinesRight(s);
    AllOfConcat(u, s[|u|..], IsGoSpace);
  }

  lemma TrimmedLeftParts(u: string)
    ensures var l := TrimNewlinesLeft(u); |l| <= |u| && u == u[..|u| - |l|] + l && AllOf(u[..|u| - |l|], IsNewline) && l == u[|u| - |l|..]
    ensures TrimNewlinesLeft(u) == "" || !IsNewline(TrimNewlinesLeft(u)[0])
  {
    TrimLeftPart(u, IsNewline);
  }

  lemma BlankTrimmed(u: string)
    ensures IsBlank(TrimNewlinesLeft(u) + NEWLINE) <==> IsBlank(u)
  {
    NewlineIsBlank();
    assert AllOf(NEWLINE, IsGoSpace);
    hide IsNewline, IsGoSpace, TrimNewlinesLeft;
    TrimmedLeftParts(u);
    var l := TrimNewlinesLeft(u);
    AllOfConcat(u[..|u| - |l|], l, IsGoSpace);
    AllOfConcat(l, NEWLINE, IsGoSpace);
  }

  lemma BlankNothing()
    ensures IsBlank("")
  {
  }

  lemma ExtractedIsFree(target: string)
    ensures Free(ExtractUserContent(target), BUILTIN_END)
    ensures ExtractUserContent(target) == "" || (!IsBlank(ExtractUserContent(target)) && !IsNewline(ExtractUserContent(target)[0]))
  {
    hide BUILTIN_END, Free, LastIndex, IsMarker, TrimNewlinesLeft, IsBlank, IsNewline;
    EndIsMarker();
    FreeEmpty(BUILTIN_END);
    if LastIndex(target, BUILTIN_END).Some? {
      AfterLast(target, BUILTIN_END);
      var b := target[LastIndex(target, BUILTIN_END).value + |BUILTIN_END|..];
      TrimmedLeftParts(b);
      FreePart(b, |b| - |TrimNewlinesLeft(b)|, |b|, BUILTIN_END);
      assert b[|b| - |TrimNewlinesLeft(b)|..|b|] == TrimNewlinesLeft(b);
      BlankNothing();
    }
  }

  /** Cleaned content that starts with a visible character or a blank is wrapped alike. */
  lemma WrapCleaned(source: string, u: string)
    requires u == "" || (!IsBlank(u) && !IsNewline(u[0]))
    ensures WrapWithMarkers(source, Cleaned(u)) == WrapWithMarkers(source, u)
  {
    CleanedIs(u);
    if u != "" {
      var t := TrimNewlinesRight(u);
      BlankParts(u);
      TrimmedNewlines(u);
      assert t != "" by {
        assert AllOf("", IsNewline);
      }
      assert t[0] == u[0];
      assert TrimNewlinesLeft(t) == t;
      TrimOneMore(u);
      hide Section;
    }
  }

  lemma TrimOneMore(u: string)
    ensures TrimNewlinesRight(TrimNewlinesRight(u) + NEWLINE) == TrimNewlinesRight(u)
  {
    assert AllOf(NEWLINE, IsNewline);
    var t := TrimNewlinesRight(u);
    TrimRightConcat(t, NEWLINE, IsNewline);
  }

  /** On a file that already carries the start marker, upgrading to s1 and then to s2 gives what
      upgrading to s2 alone gives. */
  lemma UpgradeTwice(target: string, s1: string, s2: string)
    requires Contains(target, BUILTIN_START)
    ensures MergeBuiltinSection(MergeBuiltinSection(target, s1), s2) == MergeBuiltinSection(target, s2)
  {
    hide BUILTIN_END, BUILTIN_START, ExtractUserContent, WrapWithMarkers, Contains, Cleaned, IsBlank, IsNewline;
    StartNotEmpty(target);
    var u := ExtractUserContent(target);
    ExtractedIsFree(target);
    WrappedHasStart(s1, u);
    ExtractWrapped(s1, u);
    WrapCleaned(s2, u);
  }

  lemma StartNotEmpty(target: string)
    ensures Contains(target, BUILTIN_START) ==> target != ""
  {
  }

  // --------------------------------------------------------------------------
  // Files without the start marker
  // --------------------------------------------------------------------------

  lemma WrappedLength(source: string, userContent: string)
    ensures |WrapWithMarkers(source, userContent)| ==
            |Section(source)| + if userContent == "" then 0 else 2 + |TrimNewlinesRight(userContent)|
  {
    hide Section, TrimNewlinesRight;
  }

  /** The trimmed text keeps every occurrence of the marker. */
  lemma TrimKeepsMarker(t: string, i: int)
    requires OccursAt(t, BUILTIN_END, i)
    ensures OccursAt(TrimNewlinesRight(t), BUILTIN_END, i)
  {
    EndIsMarker();
    TrimmedNewlines(t);
    OccursChars(t, BUILTIN_END, i);
    var u := TrimNewlinesRight(t);
    var n := |BUILTIN_END|;
    assert t[i + n - 1] == BUILTIN_END[n - 1] && t[i + n - 1] != '\n';
    hide BUILTIN_END, TrimNewlinesRight;
    forall j | |u| <= j < |t| ensures t[j] == '\n' {
      assert t[|u|..][j - |u|] == t[j];
    }
    assert i + n <= |u|;
    OccursInParts(u, t[|u|..], BUILTIN_END, i);
  }

  /** An end marker in the kept text costs everything before it at the next upgrade. */
  lemma EndMarkerCuts(source: string, t: string, i: int)
    requires t != "" && OccursAt(t, BUILTIN_END, i)
    ensures |ExtractUserContent(WrapWithMarkers(source, t))| < |TrimNewlinesRight(t)|
  {
    MarkerLength();
    hide BUILTIN_END, TrimNewlinesRight, SectionFront, LastIndex, WrapWithMarkers, TrimNewlinesLeft, IsBlank;
    TrimKeepsMarker(t, i);
    WrappedParts(source, t);
    UserPartIs(t);
    var u := TrimNewlinesRight(t);
    var front := SectionFront(source) + BUILTIN_END + (NEWLINE + NEWLINE);
    var w := WrapWithMarkers(source, t);
    assert w == front + (u + NEWLINE);
    OccursInParts(u, NEWLINE, BUILTIN_END, i);
    OccursInParts(front, u + NEWLINE, BUILTIN_END, i);
    assert OccursAt(w, BUILTIN_END, |front| + i);
    var k := LastIndex(w, BUILTIN_END).value;
    assert k >= |front| + i;
    TrimmedLeftParts(w[k + |BUILTIN_END|..]);
  }

  lemma MarkerLength()
    ensures |BUILTIN_END| > 2
  {
  }

  /** Two upgrades in a row of a file with visible text, no markers and a visible first line. */
  lemma LegacyTwice(t: string, s2: string)
    requires t != ""
    ensures WrapWithMarkers(s2, Cleaned(t)) == WrapWithMarkers(s2, t) <==> !IsBlank(t) && !IsNewline(t[0])
  {
    hide TrimNewlinesRight, TrimNewlinesLeft, IsBlank, IsNewline, Section, Cleaned, WrapWithMarkers;
    CleanedIs(t);
    WrappedLength(s2, t);
    if IsBlank(t) {
      WrappedLength(s2, "");
    } else {
      var u := TrimNewlinesRight(t);
      VisibleTrimmed(t);
      TrimmedLeftParts(u);
      var l := TrimNewlinesLeft(u);
      WrappedLength(s2, l + NEWLINE);
      LeftThenRight(u);
      if IsNewline(t[0]) {
        assert |l| < |u|;
      } else {
        NothingLeft(u);
        WrapCleaned(s2, t);
      }
    }
  }

  lemma VisibleTrimmed(t: string)
    requires t != "" && !IsBlank(t)
    ensures TrimNewlinesRight(t) != "" && TrimNewlinesRight(t)[0] == t[0]
    ensures !IsNewline(TrimNewlinesRight(t)[|TrimNewlinesRight(t)| - 1])
  {
    BlankParts(t);
    TrimmedNewlines(t);
    BlankNothing();
  }

  lemma LeftThenRight(u: string)
    requires u != "" && !IsNewline(u[|u| - 1])
    ensures var l := TrimNewlinesLeft(u); TrimNewlinesRight(l + NEWLINE) == l && l != ""
    ensures IsNewline(u[0]) ==> |TrimNewlinesLeft(u)| < |u|
  {
    TrimmedLeftParts(u);
    var l := TrimNewlinesLeft(u);
    assert AllOf(NEWLINE, IsNewline);
    forall j | 0 <= j < |u| - |l| ensures IsNewline(u[j]) {
      assert u[..|u| - |l|][j] == u[j];
    }
    assert l[|l| - 1] == u[|u| - 1];
    TrimRightIs(l, NEWLINE, IsNewline);
  }

  lemma NothingLeft(u: string)
    requires u != "" && !IsNewline(u[0])
    ensures TrimNewlinesLeft(u) == u
  {
  }

  /** Upgrading twice is upgrading once exactly for files that carry the start marker, for empty
      files, and for marker-free files with visible text that do not start with a line feed. */
  lemma UpgradeTwiceIff(target: string, s1: string, s2: string)
    ensures MergeBuiltinSection(MergeBuiltinSection(target, s1), s2) == MergeBuiltinSection(target, s2) <==>
            || Contains(target, BUILTIN_START)
            || target == ""
            || (Free(target, BUILTIN_END) && !IsBlank(target) && !IsNewline(target[0]))
  {
    hide BUILTIN_END, BUILTIN_START, ExtractUserContent, WrapWithMarkers, Contains, Cleaned, IsBlank, IsNewline, Free, Section;
    if Contains(target, BUILTIN_START) {
      UpgradeTwice(target, s1, s2);
    } else {
      WrappedHasStart(s1, target);
      if target == "" {
        EmptyTwice(s1, s2);
        WrappedHasStart(s1, "");
      } else if Free(target, BUILTIN_END) {
        ExtractWrapped(s1, target);
        LegacyTwice(target, s2);
      } else {
        CutTwice(s1, s2, target);
      }
    }
  }

  lemma EmptyTwice(s1: string, s2: string)
    ensures WrapWithMarkers(s2, ExtractUserContent(WrapWithMarkers(s1, ""))) == WrapWithMarkers(s2, "")
  {
    hide ExtractUserContent, WrapWithMarkers;
    EndIsMarker();
    FreeEmpty(BUILTIN_END);
    ExtractWrapped(s1, "");
    WrapCleaned(s2, "");
  }

  lemma CutTwice(s1: string, s2: string, target: string)
    requires target != "" && !Free(target, BUILTIN_END)
    ensures WrapWithMarkers(s2, ExtractUserContent(WrapWithMarkers(s1, target))) != WrapWithMarkers(s2, target)
  {
    hide ExtractUserContent, WrapWithMarkers, BUILTIN_END, Section, TrimNewlinesRight;
    var i :| OccursAt(target, BUILTIN_END, i);
    EndMarkerCuts(s1, target, i);
    var u := ExtractUserContent(WrapWithMarkers(s1, target));
    WrappedLength(s2, u);
    WrappedLength(s2, target);
    TrimmedNewlines(u);
  }

  // --------------------------------------------------------------------------
  // The user's text
  // --------------------------------------------------------------------------

  /** The text after the last end marker, without the line feeds at its two ends. */
  function UserText(t: string): string {
    match LastIndex(t, BUILTIN_END)
    case None => ""
    case Some(k) => TrimNewlinesRight(TrimNewlinesLeft(t[k + |BUILTIN_END|..]))
  }

  function Upgraded(target: string, sources: seq<string>): string {
    if sources == [] then target else MergeBuiltinSection(Upgraded(target, sources[..|sources| - 1]), sources[|sources| - 1])
  }

  /** Any number of upgrades is the last of them. */
  lemma {:induction false} UpgradesCollapse(target: string, sources: seq<string>)
    requires sources != [] && Contains(target, BUILTIN_START)
    ensures Upgraded(target, sources) == MergeBuiltinSection(target, sources[|sources| - 1])
    ensures Contains(Upgraded(target, sources), BUILTIN_START)
  {
    hide MergeBuiltinSection, Contains, BUILTIN_START;
    var n := |sources| - 1;
    if n > 0 {
      UpgradesCollapse(target, sources[..n]);
      UpgradeTwice(target, sources[n - 1], sources[n]);
    } else {
      assert Upgraded(target, sources[..0]) == target;
    }
    MergedHasStart(target, sources[n]);
  }

  lemma MergedHasStart(target: string, source: string)
    ensures Contains(MergeBuiltinSection(target, source), BUILTIN_START)
  {
    hide WrapWithMarkers, Contains, BUILTIN_START, ExtractUserContent;
    WrappedHasStart(source, "");
    WrappedHasStart(source, target);
    WrappedHasStart(source, ExtractUserContent(target));
  }

  lemma UserTextOfWrapped(source: string, u: string)
    requires Free(u, BUILTIN_END)
    ensures UserText(WrapWithMarkers(source, u)) == TrimNewlinesRight(TrimNewlinesLeft(UserPart(u)))
  {
    hide BUILTIN_END, SectionFront, UserPart, Free, TrimNewlinesLeft, TrimNewlinesRight, LastIndex, WrapWithMarkers, IsMarker;
    EndIsMarker();
    WrappedParts(source, u);
    UserPartFree(u);
    var a, b := SectionFront(source), UserPart(u);
    LastMarkerAt(a, BUILTIN_END, b);
    PartAfter(a, BUILTIN_END, b);
  }

  lemma UserTextExtracted(target: string)
    ensures TrimNewlinesRight(ExtractUserContent(target)) == if IsBlank(UserText(target)) then "" else UserText(target)
  {
    hide BUILTIN_END, LastIndex, TrimNewlinesRight, TrimNewlinesLeft, IsBlank;
    BlankNothing();
    TrimNothing();
    if LastIndex(target, BUILTIN_END).Some? {
      BlankParts(TrimNewlinesLeft(target[LastIndex(target, BUILTIN_END).value + |BUILTIN_END|..]));
    }
  }

  lemma TrimNothing()
    ensures TrimNewlinesRight("") == ""
  {
  }

  lemma UserPartTrimmed(u: string)
    requires u == "" || (!IsBlank(u) && !IsNewline(u[0]))
    ensures TrimNewlinesRight(TrimNewlinesLeft(UserPart(u))) == TrimNewlinesRight(u)
  {
    hide IsNewline, TrimNewlinesLeft, TrimNewlinesRight, IsBlank, UserPart;
    UserPartIs(u);
    TrimNothing();
    NewlinesTrimmed(TrimNewlinesRight(u));
    if u != "" {
      VisibleTrimmed(u);
      NothingLeft(TrimNewlinesRight(u));
      TrimOneMore(u);
    }
  }

  /** The text after the last end marker survives any number of upgrades, up to line feeds at
      its two ends; text that is blank altogether is dropped. */
  lemma UserTextSurvives(target: string, sources: seq<string>)
    requires sources != [] && Contains(target, BUILTIN_START)
    ensures UserText(Upgraded(target, sources)) == if IsBlank(UserText(target)) then "" else UserText(target)
  {
    hide BUILTIN_END, BUILTIN_START, ExtractUserContent, WrapWithMarkers, Contains, IsBlank, UserText, TrimNewlinesLeft,
      TrimNewlinesRight, IsNewline, Free, UserPart;
    UpgradesCollapse(target, sources);
    StartNotEmpty(target);
    var u := ExtractUserContent(target);
    ExtractedIsFree(target);
    UserTextOfWrapped(sources[|sources| - 1], u);
    UserPartTrimmed(u);
    UserTextExtracted(target);
  }
}
