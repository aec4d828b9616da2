/** A plan's text read declaratively: the regular expressions, the fields and the sections that
    copaw/src/copaw_worker/task.py looks for, and that the scans find exactly what these describe. */
module PlanPatterns {
  import opened Text
  import opened Dag
  import opened TaskLine
  import opened PlanText

  predicate Spaces(w: string) {
    AllOf(w, IsSpace)
  }

  predicate SomeSpaces(w: string) {
    w != [] && Spaces(w)
  }

  /** The markers and what they stand for. */
  predicate Marks(marker: char, status: Status) {
    || (marker == ' ' && status == Pending)
    || (marker == '~' && status == Delegated)
    || (marker == 'x' && status == Completed)
    || (marker == '!' && status == Blocked)
    || (marker == '\U{2192}' && status == Revision)
  }

  predicate IsDash(c: char) {
    c == '\U{2014}' || c == '-'
  }

  /** The variable parts of a line up to its title: white space, marker, id, dash. */
  datatype Pieces = Pieces(a: string, b: string, marker: char, c: string, id: string, d: string, dash: char, e: string)

  predicate Fit(p: Pieces) {
    && Spaces(p.a) && SomeSpaces(p.b) && SomeSpaces(p.c) && SomeSpaces(p.d) && SomeSpaces(p.e)
    && SafeId(p.id) && IsDash(p.dash)
  }

  function AfterMarker(p: Pieces, body: string): string {
    p.id + (p.d + ([p.dash] + (p.e + body)))
  }

  function Line(p: Pieces, body: string): string {
    p.a + ("-" + (p.b + ("[" + [p.marker] + "]" + (p.c + AfterMarker(p, body)))))
  }

  /** The line is a marked item with an id and a dash, and the body is what comes after the white space. */
  ghost predicate HeadOf(line: string, head: Head) {
    && (head.body == [] || !IsSpace(head.body[0]))
    && exists p: Pieces :: Fit(p) && Marks(p.marker, head.status) && p.id == head.id && line == Line(p, head.body)
  }

  const UPPER := "ABCDEFGHIJKLMNOPQRSTUVWXYZ"
  const LOWER := "abcdefghijklmnopqrstuvwxyz"
  const DIGITS := "0123456789"

  lemma InUpper(c: char)
    ensures 'A' <= c <= 'Z' <==> c in UPPER
  {
    assert 'A' <= c <= 'Z' ==> UPPER[c as int - 'A' as int] == c;
  }

  lemma InLower(c: char)
    ensures 'a' <= c <= 'z' <==> c in LOWER
  {
    assert 'a' <= c <= 'z' ==> LOWER[c as int - 'a' as int] == c;
  }

  lemma InDigits(c: char)
    ensures '0' <= c <= '9' <==> c in DIGITS
  {
    assert '0' <= c <= '9' ==> DIGITS[c as int - '0' as int] == c;
  }

  /** Ids are made of the letters and digits of ASCII, underscores and hyphens. */
  lemma SafeIdIff(id: string)
    ensures SafeId(id) <==> id != [] && forall c :: c in id ==> c in UPPER || c in LOWER || c in DIGITS || c == '_' || c == '-'
  {
    hide UPPER, LOWER, DIGITS;
    forall c ensures IsIdChar(c) <==> c in UPPER || c in LOWER || c in DIGITS || c == '_' || c == '-' {
      InUpper(c);
      InLower(c);
      InDigits(c);
    }
  }

  lemma MarksIff(marker: char, status: Status)
    ensures Marks(marker, status) <==> StatusOf(marker) == Some(status)
  {
  }

  lemma SkipIs(s: string, w: string, r: string)
    requires s == w + r && Spaces(w) && (r == [] || !IsSpace(r[0]))
    ensures StripLeft(s) == r && SkipSpaces(s) == if w == [] then None else Some(r)
  {
    hide IsSpace;
    TrimLeftIs(w, r, IsSpace);
  }

  /** Every string is its leading white space and the rest. */
  lemma Skipped(s: string) returns (w: string)
    ensures s == w + StripLeft(s) && Spaces(w)
    ensures StripLeft(s) == [] || !IsSpace(StripLeft(s)[0])
    ensures SkipSpaces(s).Some? <==> w != []
    ensures SkipSpaces(s).Some? ==> SkipSpaces(s).value == StripLeft(s)
  {
    hide IsSpace;
    TrimLeftPart(s, IsSpace);
    w := s[..|s| - |StripLeft(s)|];
  }

  lemma PlainChars()
    ensures !IsSpace('-') && !IsSpace('[') && !IsSpace('\U{2014}') && DASH[0] == '\U{2014}'
    ensures forall c :: IsIdChar(c) ==> !IsSpace(c)
  {
  }

  lemma IdIsRead(status: Status, p: Pieces, body: string)
    requires Fit(p) && (body == [] || !IsSpace(body[0]))
    ensures ParseIdAndBody(status, AfterMarker(p, body)) == Some(Head(status, p.id, body))
  {
    PlainChars();
    hide IsSpace;
    var c, n := AfterMarker(p, body), |p.id|;
    assert forall i :: 0 <= i < n ==> c[i] == p.id[i];
    assert c[n] == p.d[0];
    FirstIndexIs(c, x => !IsIdChar(x), n);
    assert c[..n] == p.id && c[n..] == p.d + ([p.dash] + (p.e + body));
    SkipIs(c[n..], p.d, [p.dash] + (p.e + body));
    assert ([p.dash] + (p.e + body))[1..] == p.e + body;
    SkipIs(p.e + body, p.e, body);
  }

  lemma HeadIsRead(p: Pieces, status: Status, body: string)
    requires Fit(p) && Marks(p.marker, status) && (body == [] || !IsSpace(body[0]))
    ensures ParseHead(Line(p, body)) == Some(Head(status, p.id, body))
  {
    PlainChars();
    IdIsRead(status, p, body);
    MarksIff(p.marker, status);
    hide IsSpace, Marks, StatusOf, ParseIdAndBody, TrimLeft;
    var rest := AfterMarker(p, body);
    assert rest[0] == p.id[0];
    var b := "[" + [p.marker] + "]" + (p.c + rest);
    SkipIs(Line(p, body), p.a, "-" + (p.b + b));
    assert ("-" + (p.b + b))[1..] == p.b + b;
    SkipIs(p.b + b, p.b, b);
    assert b[0] == '[' && b[1] == p.marker && b[2] == ']' && b[3..] == p.c + rest;
    SkipIs(p.c + rest, p.c, rest);
  }

  /** The scan of the head finds what the pattern describes, and nothing else. */
  lemma HeadIff(line: string, head: Head)
    ensures ParseHead(line) == Some(head) <==> HeadOf(line, head)
  {
    if ParseHead(line) == Some(head) {
      var p := HeadIsWritten(line, head);
    } else if HeadOf(line, head) {
      var p: Pieces :| Fit(p) && Marks(p.marker, head.status) && p.id == head.id && line == Line(p, head.body);
      HeadIsRead(p, head.status, head.body);
    }
  }

  lemma HeadIsWritten(line: string, head: Head) returns (p: Pieces)
    requires ParseHead(line) == Some(head)
    ensures Fit(p) && Marks(p.marker, head.status) && p.id == head.id && line == Line(p, head.body)
    ensures head.body == [] || !IsSpace(head.body[0])
  {
    hide IsSpace, ParseIdAndBody, StatusOf, Marks;
    var a := Skipped(line);
    var item := StripLeft(line);
    var b := Skipped(item[1..]);
    var box := StripLeft(item[1..]);
    var c := Skipped(box[3..]);
    var rest := StripLeft(box[3..]);
    var status := StatusOf(box[1]).value;
    MarksIff(box[1], status);
    p := IdIsWritten(status, rest, head);
    p := p.(a := a, b := b, marker := box[1], c := c);
    assert item == "-" + item[1..];
    assert box == "[" + [box[1]] + "]" + box[3..];
  }

  lemma IdIsWritten(status: Status, c: string, head: Head) returns (p: Pieces)
    requires ParseIdAndBody(status, c) == Some(head)
    ensures head.status == status && p.id == head.id && c == AfterMarker(p, head.body)
    ensures SafeId(p.id) && SomeSpaces(p.d) && IsDash(p.dash) && SomeSpaces(p.e)
    ensures head.body == [] || !IsSpace(head.body[0])
  {
    PlainChars();
    hide IsSpace;
    var n := FirstIndex(c, x => !IsIdChar(x));
    var d := Skipped(c[n..]);
    var dashed := StripLeft(c[n..]);
    var e := Skipped(dashed[1..]);
    p := Pieces("", "", ' ', "", c[..n], d, dashed[0], e);
    assert dashed == [dashed[0]] + dashed[1..];
    assert c == c[..n] + c[n..];
  }

  // --------------------------------------------------------------------------
  // Title and details
  // --------------------------------------------------------------------------

  /** The tail is white space, details in parentheses and white space; the details have no line feed. */
  ghost predicate DetailsTail(tail: string, meta: string) {
    NoneOf(meta, IsNewline) && exists w, e :: SomeSpaces(w) && Spaces(e) && tail == w + ("(" + meta + ")" + e)
  }

  /** A line can end with this tail, with these details. */
  ghost predicate EndsWith(tail: string, meta: string) {
    DetailsTail(tail, meta) || (Spaces(tail) && meta == "")
  }

  /** The shortest title after which the body can end, and the details there. */
  ghost predicate BodyOf(s: string, body: Body) {
    && body.title <= s && NoneOf(body.title, IsNewline)
    && EndsWith(s[|body.title|..], body.meta)
    && forall k, meta {:trigger EndsWith(s[k..], meta)} :: 0 <= k < |body.title| ==> !EndsWith(s[k..], meta)
  }

  lemma DetailsIff(s: string, n: nat, meta: string)
    requires n <= |s|
    ensures MetaAt(s, n) == Some(meta) <==> DetailsTail(s[n..], meta)
  {
    if MetaAt(s, n) == Some(meta) {
      DetailsAreWritten(s, n, meta);
    } else if DetailsTail(s[n..], meta) {
      var w, e :| SomeSpaces(w) && Spaces(e) && s[n..] == w + ("(" + meta + ")" + e);
      DetailsAreRead(s, n, w, meta, e);
    }
  }

  lemma DetailsAreRead(s: string, n: nat, w: string, meta: string, e: string)
    requires n <= |s| && s[n..] == w + ("(" + meta + ")" + e)
    requires SomeSpaces(w) && Spaces(e) && NoneOf(meta, IsNewline)
    ensures MetaAt(s, n) == Some(meta)
  {
    PunctuationIsNoSpace();
    hide IsSpace, TrimLeft, TrimRight;
    var r := "(" + meta + ")" + e;
    SkipIs(s[n..], w, r);
    var q := meta + ")";
    assert r[1..] == q + e;
    TrimRightIs(q, e, IsSpace);
    NoneOfConcat(meta, ")", IsNewline);
    assert q[..|q| - 1] == meta;
  }

  lemma DetailsAreWritten(s: string, n: nat, meta: string)
    requires n <= |s| && MetaAt(s, n) == Some(meta)
    ensures DetailsTail(s[n..], meta)
  {
    hide IsSpace, TrimLeft, TrimRight;
    var w := Skipped(s[n..]);
    var r := StripLeft(s[n..]);
    var q := StripRight(r[1..]);
    TrimRightPart(r[1..], IsSpace);
    var e := r[1..][|q|..];
    assert q == meta + ")" && r == "(" + r[1..] && r[1..] == q + e;
    NoneOfConcat(meta, ")", IsNewline);
    assert NoneOf(meta, IsNewline) && SomeSpaces(w) && Spaces(e);
    assert s[n..] == w + ("(" + meta + ")" + e);
  }

  lemma EndIff(s: string, n: nat, meta: string)
    requires n <= |s|
    ensures EndsWith(s[n..], meta) <==> MetaAt(s, n) == Some(meta) || (AllOf(s[n..], IsSpace) && meta == "")
  {
    hide IsSpace, MetaAt, DetailsTail;
    DetailsIff(s, n, meta);
  }

  lemma BlankIsNoDetails(s: string, n: nat)
    requires n <= |s| && AllOf(s[n..], IsSpace)
    ensures MetaAt(s, n).None?
  {
    hide IsSpace;
    TrimAllOf(s[n..], IsSpace);
  }

  ghost predicate CanEnd(s: string, k: nat)
    requires k <= |s|
  {
    exists meta :: EndsWith(s[k..], meta)
  }

  lemma CanEndIff(s: string, k: nat)
    requires k <= |s|
    ensures CanEnd(s, k) <==> MetaAt(s, k).Some? || AllOf(s[k..], IsSpace)
  {
    hide IsSpace, MetaAt, EndsWith;
    EndIff(s, k, "");
    if MetaAt(s, k).Some? {
      EndIff(s, k, MetaAt(s, k).value);
    }
    if CanEnd(s, k) {
      var meta :| EndsWith(s[k..], meta);
      EndIff(s, k, meta);
    }
  }

  lemma {:induction false} BodyScan(s: string, n: nat)
    requires n <= |s|
    ensures var r := BodyFrom(s, n);
            && (r.Some? ==>
                  var k := |r.value.title|;
                  && n <= k <= |s| && r.value.title == s[..k] && EndsWith(s[k..], r.value.meta)
                  && forall j :: n <= j < k ==> s[j] != '\n' && !CanEnd(s, j))
            && (r.None? ==>
                  exists k :: n <= k < |s| && s[k] == '\n' && forall j :: n <= j <= k ==> !CanEnd(s, j))
    decreases |s| - n
  {
    hide IsSpace, MetaAt, EndsWith, CanEnd;
    CanEndIff(s, n);
    if CanEnd(s, n) {
      EndIff(s, n, if MetaAt(s, n).Some? then MetaAt(s, n).value else "");
    } else if s[n] != '\n' {
      BodyScan(s, n + 1);
      if BodyFrom(s, n + 1).None? {
        var k :| n + 1 <= k < |s| && s[k] == '\n' && forall j :: n + 1 <= j <= k ==> !CanEnd(s, j);
        assert forall j :: n <= j <= k ==> !CanEnd(s, j);
      }
    }
  }

  lemma SameDetails(s: string, k: nat, a: string, b: string)
    requires k <= |s| && EndsWith(s[k..], a) && EndsWith(s[k..], b)
    ensures a == b
  {
    hide IsSpace, MetaAt, EndsWith;
    EndIff(s, k, a);
    EndIff(s, k, b);
    if AllOf(s[k..], IsSpace) {
      BlankIsNoDetails(s, k);
    }
  }

  /** The scan finds the lazy match: the shortest title, with the details that follow it. */
  lemma BodyIff(s: string, body: Body)
    ensures BodyFrom(s, 0) == Some(body) <==> BodyOf(s, body)
  {
    hide BodyFrom, EndsWith;
    BodyScan(s, 0);
    if BodyFrom(s, 0) == Some(body) {
      forall k, meta {:trigger EndsWith(s[k..], meta)} | 0 <= k < |body.title| ensures !EndsWith(s[k..], meta) {
        assert !CanEnd(s, k);
      }
    }
    if BodyOf(s, body) {
      var k := |body.title|;
      assert CanEnd(s, k);
      assert forall j :: 0 <= j < k ==> s[j] == body.title[j];
      var r := BodyFrom(s, 0);
      if r.Some? {
        var m := |r.value.title|;
        assert m <= k;
        assert EndsWith(s[m..], r.value.meta);
        assert m == k;
        SameDetails(s, k, r.value.meta, body.meta);
        assert body.title == s[..k] == r.value.title;
      }
    }
  }

  // --------------------------------------------------------------------------
  // Assignee and dependencies
  // --------------------------------------------------------------------------

  /** The key stands at position i, with a character behind it that its value may hold. */
  predicate Announced(meta: string, key: string, stop: char -> bool, i: int) {
    OccursAt(meta, key, i) && i + |key| < |meta| && !stop(meta[i + |key|])
  }

  /** The value goes on as long as it can. */
  predicate Longest(rest: string, value: string, stop: char -> bool) {
    value <= rest && NoneOf(value, stop) && (value == rest || stop(rest[|value|]))
  }

  /** The value behind the first announcement; no value without one. */
  ghost predicate FieldOf(meta: string, key: string, stop: char -> bool, value: Option<string>) {
    match value
    case None => forall i {:trigger Announced(meta, key, stop, i)} :: !Announced(meta, key, stop, i)
    case Some(v) =>
      exists i {:trigger Announced(meta, key, stop, i)} ::
        && Announced(meta, key, stop, i) && Longest(meta[i + |key|..], v, stop)
        && forall j {:trigger Announced(meta, key, stop, j)} :: 0 <= j < i ==> !Announced(meta, key, stop, j)
  }

  lemma AnnouncedLater(meta: string, key: string, stop: char -> bool, i: int)
    requires meta != []
    ensures 0 <= i ==> (Announced(meta[1..], key, stop, i) <==> Announced(meta, key, stop, i + 1))
  {
    OccursInParts([meta[0]], meta[1..], key, i + 1);
    OccursInParts([meta[0]], meta[1..], key, i);
    assert meta == [meta[0]] + meta[1..];
  }

  lemma AnnouncedHere(meta: string, key: string, stop: char -> bool)
    requires |key| < |meta|
    ensures Announced(meta, key, stop, 0) <==> StartsWith(meta, key) && !stop(meta[|key|])
  {
    assert meta[0..0 + |key|] == meta[..|key|];
  }

  /** The scan finds the first match of a field, and nothing where there is none. */
  lemma {:induction false} FieldScan(meta: string, key: string, stop: char -> bool)
    requires key != []
    ensures FieldOf(meta, key, stop, FieldAfter(meta, key, stop))
    decreases |meta|
  {
    hide Announced, Longest, FieldOf;
    if |meta| > |key| {
      AnnouncedHere(meta, key, stop);
      if StartsWith(meta, key) && !stop(meta[|key|]) {
        FieldHere(meta, key, stop);
      } else {
        FieldScan(meta[1..], key, stop);
        FieldLater(meta, key, stop, FieldAfter(meta[1..], key, stop));
      }
    } else {
      TooShort(meta, key, stop);
    }
  }

  lemma TooShort(meta: string, key: string, stop: char -> bool)
    requires |meta| <= |key|
    ensures FieldOf(meta, key, stop, None)
  {
  }

  lemma FieldHere(meta: string, key: string, stop: char -> bool)
    requires key != [] && Announced(meta, key, stop, 0)
    ensures FieldOf(meta, key, stop, FieldAfter(meta, key, stop))
  {
    AnnouncedHere(meta, key, stop);
    var rest := meta[|key|..];
    var v := rest[..FirstIndex(rest, stop)];
    assert Longest(meta[0 + |key|..], v, stop);
    assert FieldAfter(meta, key, stop) == Some(v);
    hide Longest, FieldAfter;
  }

  lemma FieldLater(meta: string, key: string, stop: char -> bool, value: Option<string>)
    requires meta != [] && !Announced(meta, key, stop, 0) && FieldOf(meta[1..], key, stop, value)
    ensures FieldOf(meta, key, stop, value)
  {
    if value.None? {
      forall i {:trigger Announced(meta, key, stop, i)} ensures !Announced(meta, key, stop, i) {
        if i > 0 {
          AnnouncedLater(meta, key, stop, i - 1);
        }
      }
    } else {
      var i :| Announced(meta[1..], key, stop, i) && Longest(meta[1..][i + |key|..], value.value, stop)
               && forall j {:trigger Announced(meta[1..], key, stop, j)} :: 0 <= j < i ==> !Announced(meta[1..], key, stop, j);
      AnnouncedLater(meta, key, stop, i);
      assert meta[1..][i + |key|..] == meta[i + 1 + |key|..];
      forall j {:trigger Announced(meta, key, stop, j)} | 0 <= j < i + 1 ensures !Announced(meta, key, stop, j) {
        if j > 0 {
          AnnouncedLater(meta, key, stop, j - 1);
        }
      }
    }
  }

  lemma FieldOnce(meta: string, key: string, stop: char -> bool, a: Option<string>, b: Option<string>)
    requires FieldOf(meta, key, stop, a) && FieldOf(meta, key, stop, b)
    ensures a == b
  {
    hide Longest;
    if a.Some? && b.Some? {
      var i :| Announced(meta, key, stop, i) && Longest(meta[i + |key|..], a.value, stop)
               && forall j {:trigger Announced(meta, key, stop, j)} :: 0 <= j < i ==> !Announced(meta, key, stop, j);
      var k :| Announced(meta, key, stop, k) && Longest(meta[k + |key|..], b.value, stop)
               && forall j {:trigger Announced(meta, key, stop, j)} :: 0 <= j < k ==> !Announced(meta, key, stop, j);
      assert i == k;
      LongestIs(meta[i + |key|..], a.value, stop);
      LongestIs(meta[i + |key|..], b.value, stop);
      LongestStarts(meta[i + |key|..], a.value, b.value, stop);
    }
  }

  lemma LongestStarts(rest: string, a: string, b: string, stop: char -> bool)
    requires Longest(rest, a, stop) && Longest(rest, b, stop) && |a| == |b|
    ensures a == b
  {
  }

  lemma LongestIs(rest: string, value: string, stop: char -> bool)
    requires Longest(rest, value, stop)
    ensures FirstIndex(rest, stop) == |value|
  {
    assert forall i :: 0 <= i < |value| ==> rest[i] == value[i];
    FirstIndexIs(rest, stop, |value|);
  }

  /** What stops an assignee and what stops the dependencies. */
  lemma StopsAre(c: char)
    ensures EndsAssignee(c) <==> c in ",)"
    ensures EndsDepends(c) <==> c in ")"
  {
  }

  // --------------------------------------------------------------------------
  // The whole line
  // --------------------------------------------------------------------------

  /** The matches that a line has, one inside the other. */
  datatype Match = Match(head: Head, body: Body, assignee: Option<string>, depends: Option<string>)

  ghost predicate Matches(line: string, m: Match) {
    && HeadOf(line, m.head) && BodyOf(m.head.body, m.body)
    && FieldOf(m.body.meta, "assigned:", EndsAssignee, m.assignee) && FieldOf(m.body.meta, "depends:", EndsDepends, m.depends)
  }

  /** What is made of the parts that were matched. */
  function TaskFrom(m: Match): Task {
    DagTask(m.head.id,
            Strip(m.body.title),
            if m.assignee.None? then "" else Strip(m.assignee.value),
            if m.depends.None? then [] else NonBlank(SplitOn(m.depends.value, ',')),
            m.head.status)
  }

  /** The line has the pattern's form, and the task is made of its parts. */
  ghost predicate TaskOf(line: string, task: Task) {
    exists m: Match :: Matches(line, m) && task == TaskFrom(m)
  }

  /** The parser reads exactly the lines of the pattern, as the task that the pattern gives. */
  lemma TaskLineIff(line: string, task: Task)
    ensures ParseTaskLine(line) == Some(task) <==> TaskOf(line, task)
  {
    hide ParseTaskLine, Matches, TaskFrom;
    if ParseTaskLine(line) == Some(task) {
      var m := IsMatched(line, task);
    } else if TaskOf(line, task) {
      var m: Match :| Matches(line, m) && task == TaskFrom(m);
      MatchIsRead(line, m);
    }
  }

  lemma IsMatched(line: string, task: Task) returns (m: Match)
    requires ParseTaskLine(line) == Some(task)
    ensures Matches(line, m) && task == TaskFrom(m)
  {
    hide ParseHead, BodyFrom, FieldAfter, HeadOf, BodyOf, FieldOf, Strip, NonBlank, SplitOn;
    var head := ParseHead(line).value;
    var body := BodyFrom(head.body, 0).value;
    m := Match(head, body, FieldAfter(body.meta, ASSIGNED, EndsAssignee), FieldAfter(body.meta, DEPENDS, EndsDepends));
    HeadIff(line, head);
    BodyIff(head.body, body);
    FieldScan(body.meta, ASSIGNED, EndsAssignee);
    FieldScan(body.meta, DEPENDS, EndsDepends);
  }

  lemma MatchIsRead(line: string, m: Match)
    requires Matches(line, m)
    ensures ParseTaskLine(line) == Some(TaskFrom(m))
  {
    hide ParseHead, BodyFrom, FieldAfter, HeadOf, BodyOf, FieldOf, Strip, NonBlank, SplitOn;
    HeadIff(line, m.head);
    BodyIff(m.head.body, m.body);
    FieldScan(m.body.meta, ASSIGNED, EndsAssignee);
    FieldScan(m.body.meta, DEPENDS, EndsDepends);
    FieldOnce(m.body.meta, ASSIGNED, EndsAssignee, FieldAfter(m.body.meta, ASSIGNED, EndsAssignee), m.assignee);
    FieldOnce(m.body.meta, DEPENDS, EndsDepends, FieldAfter(m.body.meta, DEPENDS, EndsDepends), m.depends);
  }

  /** Splitting gives back the parts that were joined with commas. */
  lemma {:induction false} SplitJoined(parts: seq<string>)
    requires parts != [] && forall i :: 0 <= i < |parts| ==> ',' !in parts[i]
    ensures SplitOn(Join(parts, ","), ',') == parts
  {
    hide SplitOn;
    if |parts| == 1 {
      SplitAtComma(parts[0], "");
    } else {
      SplitJoined(parts[1..]);
      SplitAtComma(parts[0], Join(parts[1..], ","));
      assert parts == [parts[0]] + parts[1..];
    }
  }

  lemma FirstPart(part: string, parts: seq<string>)
    ensures NonBlank([part] + parts) == (if Strip(part) == [] then [] else [Strip(part)]) + NonBlank(parts)
  {
    hide Strip;
    assert ([part] + parts)[1..] == parts;
  }

  /** The parts that are not blank stay, stripped and in order. */
  lemma {:induction false} NonBlankIs(before: seq<string>, part: string, after: seq<string>)
    ensures NonBlank(before + [part] + after) == NonBlank(before) + NonBlank([part]) + NonBlank(after)
    ensures NonBlank([part]) == if AllOf(part, IsSpace) then [] else [Strip(part)]
  {
    TrimIsTrimmed(part, IsSpace);
    NonBlankNil();
    hide IsSpace, Trim, NonBlank;
    FirstPart(part, []);
    assert [part] + [] == [part];
    if before == [] {
      FirstPart(part, after);
      assert before + [part] + after == [part] + after;
    } else {
      var rest := before[1..] + [part] + after;
      NonBlankIs(before[1..], part, after);
      FirstPart(before[0], rest);
      FirstPart(before[0], before[1..]);
      assert before == [before[0]] + before[1..];
      assert before + [part] + after == [before[0]] + rest;
    }
  }

  // --------------------------------------------------------------------------
  // The counters of a loop
  // --------------------------------------------------------------------------

  predicate Digits(s: string) {
    s != [] && AllOf(s, IsDigit)
  }

  datatype Counters = Counters(a: string, x: string, b: string, c: string, y: string, d: string)

  predicate AreCounters(p: Counters) {
    Spaces(p.a) && Digits(p.x) && Spaces(p.b) && Spaces(p.c) && Digits(p.y) && Spaces(p.d)
  }

  function CounterText(p: Counters): string {
    p.a + (p.x + (p.b + ("/" + (p.c + (p.y + p.d)))))
  }

  /** Two numbers with a slash between them and white space anywhere around. */
  ghost predicate CountersOf(value: string, current: nat, max: nat) {
    exists p: Counters :: AreCounters(p) && value == CounterText(p) && current == ParseNat(p.x) && max == ParseNat(p.y)
  }

  lemma DigitsEnd(x: string, rest: string)
    requires Digits(x) && (rest == [] || !IsDigit(rest[0]))
    ensures DigitRun(x + rest) == |x| && (x + rest)[..|x|] == x && (x + rest)[|x|..] == rest
  {
    var s := x + rest;
    assert forall i :: 0 <= i < |x| ==> s[i] == x[i];
    FirstIndexIs(s, NotDigit, |x|);
  }

  lemma DigitIsNoSpace()
    ensures forall c :: IsDigit(c) ==> !IsSpace(c)
    ensures !IsSpace('/') && !IsDigit('/')
  {
  }

  lemma NoDigitFirst(w: string, rest: string)
    requires Spaces(w) && (rest == [] || !IsDigit(rest[0]))
    ensures w + rest == [] || !IsDigit((w + rest)[0])
  {
    DigitIsNoSpace();
  }

  lemma CountersAreRead(p: Counters)
    requires AreCounters(p)
    ensures ParseIteration(CounterText(p)) == Some((ParseNat(p.x), ParseNat(p.y)))
  {
    DigitIsNoSpace();
    hide IsSpace, IsDigit, TrimLeft, DigitRun, ParseNat;
    var second := p.y + p.d;
    var slash := "/" + (p.c + second);
    SkipIs(CounterText(p), p.a, p.x + (p.b + slash));
    NoDigitFirst(p.b, slash);
    DigitsEnd(p.x, p.b + slash);
    SkipIs(p.b + slash, p.b, slash);
    assert slash[1..] == p.c + second;
    SkipIs(p.c + second, p.c, second);
    NoDigitFirst(p.d, []);
    assert p.d + [] == p.d;
    DigitsEnd(p.y, p.d);
  }

  /** The counters are read from exactly the texts of this form. */
  lemma CountersIff(value: string, current: nat, max: nat)
    ensures ParseIteration(value) == Some((current, max)) <==> CountersOf(value, current, max)
  {
    hide ParseNat, ParseIteration, CounterText;
    if ParseIteration(value) == Some((current, max)) {
      var p := CountersAreWritten(value, current, max);
    } else if CountersOf(value, current, max) {
      var p: Counters :| AreCounters(p) && value == CounterText(p) && current == ParseNat(p.x) && max == ParseNat(p.y);
      CountersAreRead(p);
    }
  }

  lemma CountersAreWritten(value: string, current: nat, max: nat) returns (p: Counters)
    requires ParseIteration(value) == Some((current, max))
    ensures AreCounters(p) && value == CounterText(p) && current == ParseNat(p.x) && max == ParseNat(p.y)
  {
    hide IsSpace, IsDigit, TrimLeft, DigitRun, ParseNat;
    var a := Skipped(value);
    var first := StripLeft(value);
    var x := first[..DigitRun(first)];
    var b := Skipped(first[|x|..]);
    var slash := StripLeft(first[|x|..]);
    var c := Skipped(slash[1..]);
    var second := StripLeft(slash[1..]);
    var y := second[..DigitRun(second)];
    p := Counters(a, x, b, c, y, second[|y|..]);
    assert slash == "/" + slash[1..] && first == x + first[|x|..] && second == y + second[|y|..];
  }

  // --------------------------------------------------------------------------
  // The parts of a plan
  // --------------------------------------------------------------------------

  /** The value behind the first line that starts with the prefix, stripped; empty without such a line. */
  ghost predicate FieldValue(lines: seq<string>, prefix: string, value: string) {
    || (value == "" && forall i :: 0 <= i < |lines| ==> !StartsWith(lines[i], prefix))
    || exists k :: 0 <= k < |lines| && StartsWith(lines[k], prefix) && value == Strip(lines[k][|prefix|..])
                   && forall j :: 0 <= j < k ==> !StartsWith(lines[j], prefix)
  }

  lemma FieldValueIs(lines: seq<string>, prefix: string)
    ensures FieldValue(lines, prefix, PlanField(lines, prefix))
    ensures forall value :: FieldValue(lines, prefix, value) ==> value == PlanField(lines, prefix)
  {
    hide StartsWith, Strip;
    var k := FirstIndex(lines, line => StartsWith(line, prefix));
    forall value | FieldValue(lines, prefix, value) ensures value == PlanField(lines, prefix) {
      if k < |lines| {
        assert StartsWith(lines[k], prefix);
      }
    }
  }

  predicate IsFirst(lines: seq<string>, heading: string, k: int) {
    0 <= k < |lines| && Strip(lines[k]) == heading && forall j :: 0 <= j < k ==> Strip(lines[j]) != heading
  }

  /** The section that begins behind line k goes on up to line e. */
  predicate GoesOnTo(lines: seq<string>, k: int, e: int) {
    && 0 <= k < e <= |lines| && (e < |lines| ==> StartsWith(lines[e], "## "))
    && forall j :: k < j < e ==> !StartsWith(lines[j], "## ")
  }

  /** The lines behind the first line that is the heading, up to the next section. */
  ghost predicate SectionOf(lines: seq<string>, heading: string, section: seq<string>) {
    if forall i :: 0 <= i < |lines| ==> Strip(lines[i]) != heading then section == []
    else exists k, e :: IsFirst(lines, heading, k) && GoesOnTo(lines, k, e) && section == lines[k + 1..e]
  }

  lemma SectionEnds(lines: seq<string>, k: nat) returns (e: nat)
    requires k < |lines|
    ensures k < e <= |lines| && GoesOnTo(lines, k, e) && lines[k + 1..][..FirstIndex(lines[k + 1..], IsSection)] == lines[k + 1..e]
  {
    assert SECTION == "## ";
    hide StartsWith, SECTION;
    var rest := lines[k + 1..];
    e := k + 1 + FirstIndex(rest, IsSection);
    forall j | k < j < e ensures !StartsWith(lines[j], "## ") {
      assert lines[j] == rest[j - k - 1] && !IsSection(rest[j - k - 1]);
    }
    assert e < |lines| ==> lines[e] == rest[e - k - 1] && IsSection(rest[e - k - 1]);
  }

  lemma SectionIs(lines: seq<string>, heading: string)
    ensures SectionOf(lines, heading, SectionLines(lines, heading))
  {
    hide StartsWith, Strip, GoesOnTo, IsSection;
    var k := HeadingIndex(lines, heading);
    if k < |lines| {
      var e := SectionEnds(lines, k);
      assert IsFirst(lines, heading, k) && SectionLines(lines, heading) == lines[k + 1..e];
    }
  }

  /** The line names the type of the plan, in any case. */
  predicate NamesType(line: string, word: string) {
    StartsWith(line, "**Plan Type**:") && Lower(Strip(line[|"**Plan Type**:"|..])) == word
  }

  /** A line names the loop type, and none before it a type. */
  ghost predicate IsLoopPlan(lines: seq<string>) {
    exists k :: 0 <= k < |lines| && NamesType(lines[k], "loop") && forall j :: 0 <= j < k ==> !NamesType(lines[j], "dag")
  }

  lemma TypeOfLine(line: string)
    ensures PlanTypeOfLine(line) == Some(LoopKind) <==> NamesType(line, "loop")
    ensures PlanTypeOfLine(line) == Some(DagPlan) <==> NamesType(line, "dag")
  {
    assert PLAN_TYPE == "**Plan Type**:" && "loop"[0] != "dag"[0];
    hide StartsWith, Lower, Strip, PLAN_TYPE;
  }

  lemma {:induction false} TypeIs(lines: seq<string>)
    ensures PlanTypeOf(lines) == Some(LoopKind) <==> IsLoopPlan(lines)
  {
    hide PlanTypeOfLine, NamesType, IsLoopPlan;
    if lines == [] {
      NoLines();
    } else {
      TypeOfLine(lines[0]);
      TypeIs(lines[1..]);
      FirstOrLater(lines);
      match PlanTypeOfLine(lines[0])
      case None =>
        assert PlanTypeOf(lines) == PlanTypeOf(lines[1..]);
      case Some(DagPlan) =>
      case Some(LoopKind) =>
    }
  }

  lemma NoLines()
    ensures !IsLoopPlan([])
  {
  }

  lemma FirstOrLater(lines: seq<string>)
    requires lines != []
    ensures IsLoopPlan(lines) <==> NamesType(lines[0], "loop") || (!NamesType(lines[0], "dag") && IsLoopPlan(lines[1..]))
  {
    hide NamesType;
    if IsLoopPlan(lines) {
      var k :| 0 <= k < |lines| && NamesType(lines[k], "loop") && forall j :: 0 <= j < k ==> !NamesType(lines[j], "dag");
      if k > 0 {
        assert NamesType(lines[1..][k - 1], "loop");
        forall j | 0 <= j < k - 1 ensures !NamesType(lines[1..][j], "dag") {
          assert lines[1..][j] == lines[j + 1];
        }
        assert !NamesType(lines[0], "dag");
      }
    } else if IsLoopPlan(lines[1..]) {
      var k :| 0 <= k < |lines[1..]| && NamesType(lines[1..][k], "loop") && forall j :: 0 <= j < k ==> !NamesType(lines[1..][j], "dag");
      assert NamesType(lines[k + 1], "loop");
      assert forall j :: 0 < j < k + 1 ==> lines[j] == lines[1..][j - 1];
    }
  }

  /** Every part of a loop plan, as its text gives it. */
  ghost predicate LoopOf(lines: seq<string>, loop: LoopPlan) {
    && FieldValue(lines, "**Goal**:", loop.goal) && FieldValue(lines, "**Stop Condition**:", loop.stopCondition)
    && StatusIn(lines, loop.status) && CountersIn(lines, loop.currentIteration, loop.maxIterations)
    && (exists section :: SectionOf(lines, "## Iteration Template", section) && loop.template == Strip(Join(section, "\n")))
    && (exists section :: SectionOf(lines, "## Current Iteration", section) && loop.tasks == CollectTasks(section))
    && exists section :: SectionOf(lines, "## Iteration History", section) && loop.history == HistoryOf(section)
  }

  /** The status in lower case; running if none is given. */
  ghost predicate StatusIn(lines: seq<string>, status: string) {
    exists value :: FieldValue(lines, "**Loop Status**:", value) && status == (if value == "" then "running" else Lower(Strip(value)))
  }

  /** The counters; 0 of 1 if none are given. */
  ghost predicate CountersFor(value: string, current: nat, max: nat) {
    if value == "" then current == 0 && max == 1 else CountersOf(value, current, max)
  }

  ghost predicate CountersIn(lines: seq<string>, current: nat, max: nat) {
    exists value :: FieldValue(lines, "**Iteration**:", value) && CountersFor(value, current, max)
  }

  ghost predicate HasCounters(lines: seq<string>) {
    exists current, max :: CountersIn(lines, current, max)
  }

  ghost predicate HasStatus(lines: seq<string>) {
    exists status :: StatusIn(lines, status) && status in {"running", "waiting_results", "evaluating", "waiting_user", "completed", "blocked"}
  }

  lemma RunningStays()
    ensures Lower(Strip("running")) == "running" && IsLoopStatus("running")
  {
    assert !IsSpace('r') && !IsSpace('g');
    TrimmedStays("running", IsSpace);
    LowerIff("running", "running");
  }

  lemma StatusIs(lines: seq<string>)
    ensures var read := SafeLoopStatus(OrElse(PlanField(lines, LOOP_STATUS), "running"));
            && (read.Some? <==> HasStatus(lines))
            && (read.Some? ==> StatusIn(lines, read.value))
  {
    assert LOOP_STATUS == "**Loop Status**:";
    RunningStays();
    FieldValueIs(lines, LOOP_STATUS);
    hide PlanField, FieldValue, Lower, Strip, LOOP_STATUS;
    var value := PlanField(lines, LOOP_STATUS);
    var status := if value == "" then "running" else Lower(Strip(value));
    assert StatusIn(lines, status);
    assert forall other :: StatusIn(lines, other) ==> other == status;
  }

  lemma CountersForIs(value: string, current: nat, max: nat)
    ensures ParseIteration(OrElse(value, "0 / 1")) == Some((current, max)) <==> CountersFor(value, current, max)
  {
    hide ParseIteration, CountersOf;
    ZeroOfOne();
    CountersIff(value, current, max);
  }

  lemma CountersAre(lines: seq<string>)
    ensures var read := ParseIteration(OrElse(PlanField(lines, ITERATION), "0 / 1"));
            && (read.Some? <==> HasCounters(lines))
            && (read.Some? ==> CountersIn(lines, read.value.0, read.value.1))
  {
    assert ITERATION == "**Iteration**:";
    FieldValueIs(lines, ITERATION);
    hide PlanField, FieldValue, ParseIteration, CountersFor, OrElse, ITERATION;
    var value := PlanField(lines, ITERATION);
    forall current: nat, max: nat
      ensures ParseIteration(OrElse(value, "0 / 1")) == Some((current, max)) <==> CountersFor(value, current, max)
    {
      CountersForIs(value, current, max);
    }
    assert forall current: nat, max: nat :: CountersIn(lines, current, max) <==> CountersFor(value, current, max);
  }

  lemma ZeroOfOne()
    ensures ParseIteration("0 / 1") == Some((0, 1))
  {
    OneDigit();
    hide ParseIteration, ParseNat, Spaces, Digits;
    var p := Counters("", "0", " ", " ", "1", "");
    assert "/" + (" " + ("1" + "")) == "/ 1";
    assert "0" + (" " + "/ 1") == "0 / 1";
    assert CounterText(p) == "" + ("0" + (" " + "/ 1")) == "0 / 1";
    CountersAreRead(p);
  }

  lemma OneDigit()
    ensures Digits("0") && Digits("1") && ParseNat("0") == 0 && ParseNat("1") == 1
    ensures Spaces("") && Spaces(" ")
  {
    assert ParseNat("") == 0;
  }

  /** Which texts are loop plans, which of them are refused and why, and what the others say. */
  lemma LoopIff(plan: string)
    ensures var lines, read := SplitLines(plan), ParseLoopPlan(plan);
            && (read == Ok(None) <==> !IsLoopPlan(lines))
            && (IsLoopPlan(lines) ==>
                  && (read.Ok? <==> HasCounters(lines) && HasStatus(lines))
                  && (read.Ok? ==> LoopOf(lines, read.value.value))
                  && (read.Err? ==> read.error == if HasCounters(lines) then InvalidStatus else InvalidIteration))
  {
    HeadingTexts();
    hide SplitLines, PlanField, FieldValue, SectionLines, SectionOf, IsLoopPlan, HasCounters, HasStatus, StatusIn, CountersIn,
      SafeLoopStatus, ParseIteration, OrElse, PlanTypeOf, CollectTasks, HistoryOf, Join, Strip, GOAL, STOP, TEMPLATE_HEADING,
      CURRENT_HEADING, HISTORY_HEADING, LOOP_STATUS, ITERATION;
    var lines := SplitLines(plan);
    TypeIs(lines);
    StatusIs(lines);
    CountersAre(lines);
    FieldValueIs(lines, GOAL);
    FieldValueIs(lines, STOP);
    SectionIs(lines, TEMPLATE_HEADING);
    SectionIs(lines, CURRENT_HEADING);
    SectionIs(lines, HISTORY_HEADING);
  }

  lemma HeadingTexts()
    ensures GOAL == "**Goal**:" && STOP == "**Stop Condition**:" && TEMPLATE_HEADING == "## Iteration Template"
    ensures CURRENT_HEADING == "## Current Iteration" && HISTORY_HEADING == "## Iteration History" && NEWLINE == "\n"
  {
  }
}
