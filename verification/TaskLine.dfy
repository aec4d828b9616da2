/** One task of a plan as a Markdown check-list line: render_dag_task and _parse_dag_line in
    copaw/src/copaw_worker/task.py. The parser is the source's regular expression, read as the
    scan that its greedy and lazy parts amount to; its dot matches everything but a line feed. */
module TaskLine {
  import opened Text
  import opened Dag

  type Task = DagTask<string>

  const DASH := "\U{2014}"
  const ASSIGNED := "assigned:"
  const DEPENDS := "depends:"

  function MarkerOf(status: Status): char {
    match status
    case Pending => ' '
    case Delegated => '~'
    case Completed => 'x'
    case Blocked => '!'
    case Revision => '\U{2192}'
  }

  function StatusOf(marker: char): Option<Status> {
    if marker == ' ' then Some(Pending)
    else if marker == '~' then Some(Delegated)
    else if marker == 'x' then Some(Completed)
    else if marker == '!' then Some(Blocked)
    else if marker == '\U{2192}' then Some(Revision)
    else None
  }

  predicate IsIdChar(c: char) {
    'A' <= c <= 'Z' || 'a' <= c <= 'z' || '0' <= c <= '9' || c == '_' || c == '-'
  }

  predicate SafeId(id: string) {
    id != [] && AllOf(id, IsIdChar)
  }

  // --------------------------------------------------------------------------
  // Rendering
  // --------------------------------------------------------------------------

  function Details(task: Task): string {
    ASSIGNED + " " + task.assignedTo + DependsPart(task.dependsOn)
  }

  /** What follows the assignee in the details. */
  function DependsPart(deps: seq<string>): string {
    if deps == [] then "" else ", " + DEPENDS + " " + Join(deps, ", ")
  }

  function RenderBody(task: Task): string {
    task.title + " (" + Details(task) + ")"
  }

  function RenderHead(status: Status, id: string, body: string): string {
    "- [" + [MarkerOf(status)] + "] " + id + " " + DASH + " " + body
  }

  function RenderTask(task: Task): string {
    RenderHead(task.status, task.taskId, RenderBody(task))
  }

  // --------------------------------------------------------------------------
  // Parsing
  // --------------------------------------------------------------------------

  /** \s+ : at least one white-space character, as many as there are. */
  function SkipSpaces(s: string): Option<string> {
    var r := StripLeft(s);
    if |r| < |s| then Some(r) else None
  }

  datatype Head = Head(status: Status, id: string, body: string)

  function ParseHead(line: string): Option<Head> {
    var a := StripLeft(line);
    if a == [] || a[0] != '-' then None
    else
      match SkipSpaces(a[1..])
      case None => None
      case Some(b) =>
        if |b| < 3 || b[0] != '[' || b[2] != ']' then None
        else
          match (StatusOf(b[1]), SkipSpaces(b[3..]))
          case (Some(status), Some(c)) => ParseIdAndBody(status, c)
          case _ => None
  }

  function ParseIdAndBody(status: Status, c: string): Option<Head> {
    var n := FirstIndex(c, x => !IsIdChar(x));
    if n == 0 then None
    else
      match SkipSpaces(c[n..])
      case None => None
      case Some(d) =>
        if d == [] || (d[0] != DASH[0] && d[0] != '-') then None
        else
          match SkipSpaces(d[1..])
          case None => None
          case Some(body) => Some(Head(status, c[..n], body))
  }

  /** The parenthesised details, if they start (after white space) at position n of s and take up
      the rest of it without a line feed. */
  function MetaAt(s: string, n: nat): Option<string>
    requires n <= |s|
  {
    match SkipSpaces(s[n..])
    case None => None
    case Some(r) =>
      if r == [] || r[0] != '(' then None
      else
        var q := StripRight(r[1..]);
        if q == [] || q[|q| - 1] != ')' || !NoneOf(q, IsNewline) then None else Some(q[..|q| - 1])
  }

  datatype Body = Body(title: string, meta: string)

  /** The shortest title from position n on after which the line can end, if no line feed comes
      first. */
  function BodyFrom(s: string, n: nat): Option<Body>
    requires n <= |s|
    decreases |s| - n
  {
    var meta := MetaAt(s, n);
    if meta.Some? then Some(Body(s[..n], meta.value))
    else if AllOf(s[n..], IsSpace) then Some(Body(s[..n], ""))
    else if s[n] == '\n' then None
    else BodyFrom(s, n + 1)
  }

  /** The text after the first occurrence of key that is followed by a character other than a
      stop character, up to the next stop character. */
  function FieldAfter(meta: string, key: string, stop: char -> bool): Option<string>
    requires key != []
    decreases |meta|
  {
    if |meta| <= |key| then None
    else if StartsWith(meta, key) && !stop(meta[|key|]) then
      var rest := meta[|key|..];
      Some(rest[..FirstIndex(rest, stop)])
    else FieldAfter(meta[1..], key, stop)
  }

  predicate IsComma(c: char) {
    c == ','
  }

  predicate EndsAssignee(c: char) {
    c == ',' || c == ')'
  }

  predicate EndsDepends(c: char) {
    c == ')'
  }

  function AssigneeOf(meta: string): string {
    match FieldAfter(meta, ASSIGNED, EndsAssignee)
    case None => ""
    case Some(v) => Strip(v)
  }

  function DependsOf(meta: string): seq<string> {
    match FieldAfter(meta, DEPENDS, EndsDepends)
    case None => []
    case Some(v) => NonBlank(SplitOn(v, ','))
  }

  function NonBlank(parts: seq<string>): seq<string> {
    if parts == [] then []
    else (if Strip(parts[0]) == [] then [] else [Strip(parts[0])]) + NonBlank(parts[1..])
  }

  /** The task a plan line stands for, if any. */
  function ParseTaskLine(line: string): Option<Task> {
    match ParseHead(line)
    case None => None
    case Some(head) =>
      match BodyFrom(head.body, 0)
      case None => None
      case Some(body) =>
        Some(DagTask(head.id, Strip(body.title), AssigneeOf(body.meta), DependsOf(body.meta), head.status))
  }

  // --------------------------------------------------------------------------
  // The head of a rendered line
  // --------------------------------------------------------------------------

  lemma StatusRoundTrip(status: Status)
    ensures StatusOf(MarkerOf(status)) == Some(status)
  {
  }

  lemma SkipOneSpace(rest: string)
    requires rest == [] || !IsSpace(rest[0])
    ensures SkipSpaces(" " + rest) == Some(rest)
  {
    TrimLeftIs(" ", rest, IsSpace);
  }

  lemma IdAndBody(status: Status, id: string, body: string)
    requires SafeId(id) && (body == [] || !IsSpace(body[0]))
    ensures ParseIdAndBody(status, id + " " + DASH + " " + body) == Some(Head(status, id, body))
  {
    var c := id + " " + DASH + " " + body;
    assert c == id + (" " + (DASH + (" " + body)));
    assert c[|id|] == ' ';
    assert forall i :: 0 <= i < |id| ==> c[i] == id[i];
    FirstIndexIs(c, x => !IsIdChar(x), |id|);
    assert c[..|id|] == id;
    assert c[|id|..] == " " + (DASH + (" " + body));
    SkipOneSpace(DASH + (" " + body));
    SkipOneSpace(body);
  }

  lemma NothingToSkip(s: string)
    requires s != [] && !IsSpace(s[0])
    ensures StripLeft(s) == s
  {
  }

  lemma NothingToCut(s: string)
    requires s != [] && !IsSpace(s[|s| - 1])
    ensures StripRight(s) == s
  {
  }

  lemma PunctuationIsNoSpace()
    ensures !IsSpace('-') && !IsSpace('[') && !IsSpace('(') && !IsSpace(')') && !IsSpace(DASH[0]) && IsSpace(' ')
    ensures forall c :: IsIdChar(c) ==> !IsSpace(c)
  {
  }

  /** Everything of a line up to the id. */
  lemma BracketRoundTrip(status: Status, c: string)
    requires c != [] && !IsSpace(c[0])
    ensures ParseHead("-" + (" " + ("[" + [MarkerOf(status)] + "]" + (" " + c)))) == ParseIdAndBody(status, c)
  {
    hide IsSpace, TrimLeft, ParseIdAndBody, StatusOf, MarkerOf;
    PunctuationIsNoSpace();
    var b := "[" + [MarkerOf(status)] + "]" + (" " + c);
    var line := "-" + (" " + b);
    NothingToSkip(line);
    assert line[1..] == " " + b;
    SkipOneSpace(b);
    assert b[3..] == " " + c;
    SkipOneSpace(c);
    StatusRoundTrip(status);
  }

  lemma HeadRoundTrip(status: Status, id: string, body: string)
    requires SafeId(id) && (body == [] || !IsSpace(body[0]))
    ensures ParseHead(RenderHead(status, id, body)) == Some(Head(status, id, body))
  {
    hide IsSpace, ParseHead, ParseIdAndBody, MarkerOf;
    PunctuationIsNoSpace();
    var c := id + " " + DASH + " " + body;
    assert c[0] == id[0];
    assert RenderHead(status, id, body) == "-" + (" " + ("[" + [MarkerOf(status)] + "]" + (" " + c)));
    BracketRoundTrip(status, c);
    IdAndBody(status, id, body);
  }

  // --------------------------------------------------------------------------
  // Title and details
  // --------------------------------------------------------------------------

  /** White space directly before an opening parenthesis. */
  predicate SpaceParenAt(s: string, i: int) {
    0 <= i && i + 1 < |s| && IsSpace(s[i]) && s[i + 1] == '('
  }

  ghost predicate HasSpaceParen(s: string) {
    exists i {:trigger SpaceParenAt(s, i)} :: SpaceParenAt(s, i)
  }

  /** Where the details match, white space directly precedes a parenthesis further on. */
  lemma MetaNeedsSpaceParen(s: string, n: nat)
    requires n <= |s| && MetaAt(s, n).Some?
    ensures exists i :: n <= i && SpaceParenAt(s, i) && forall j :: n <= j <= i ==> IsSpace(s[j])
  {
    var r := StripLeft(s[n..]);
    TrimLeftPart(s[n..], IsSpace);
    var i := |s| - |r| - 1;
    assert s[n..][|s[n..]| - |r|..] == r;
    assert s[i + 1] == r[0];
    forall j | n <= j <= i ensures IsSpace(s[j]) {
      assert s[n..][..|s[n..]| - |r|][j - n] == s[j];
    }
    assert SpaceParenAt(s, i);
  }

  lemma MetaMatches(s: string, n: nat, meta: string)
    requires n <= |s| && s[n..] == " (" + meta + ")" && NoneOf(meta, IsNewline)
    ensures MetaAt(s, n) == Some(meta)
  {
    hide IsSpace, TrimLeft, TrimRight;
    PunctuationIsNoSpace();
    NoneOfConcat(meta, ")", IsNewline);
    assert s[n..] == " " + ("(" + meta + ")");
    SkipOneSpace("(" + meta + ")");
    var q := meta + ")";
    assert ("(" + meta + ")")[1..] == q;
    NothingToCut(q);
    assert q[..|q| - 1] == meta;
  }

  /** Any white space before a parenthesis ends the title, when the line ends in a parenthesis. */
  lemma MetaMatchesAtSpaceParen(s: string, i: nat)
    requires SpaceParenAt(s, i) && i + 2 < |s| && s[|s| - 1] == ')' && NoneOf(s, IsNewline)
    ensures MetaAt(s, i).Some?
  {
    hide IsSpace, TrimLeft, TrimRight;
    PunctuationIsNoSpace();
    assert s[i..] == [s[i]] + s[i + 1..];
    TrimLeftIs([s[i]], s[i + 1..], IsSpace);
    var q := s[i + 1..][1..];
    assert q[|q| - 1] == ')';
    NothingToCut(q);
  }

  lemma {:induction false} BodySkips(s: string, n: nat, m: nat)
    requires n <= m <= |s|
    requires forall k :: n <= k < m ==> MetaAt(s, k).None? && !AllOf(s[k..], IsSpace) && s[k] != '\n'
    ensures BodyFrom(s, n) == BodyFrom(s, m)
    decreases m - n
  {
    if n < m {
      BodySkips(s, n + 1, m);
    }
  }

  lemma {:induction false} BodyStopsBy(s: string, n: nat, m: nat)
    requires n <= m <= |s| && MetaAt(s, m).Some? && NoneOf(s, IsNewline)
    ensures BodyFrom(s, n).Some? && |BodyFrom(s, n).value.title| <= m
    decreases m - n
  {
    if n < m {
      BodyStopsBy(s, n + 1, m);
    }
  }

  lemma NotBlankBefore(s: string, k: nat)
    requires k < |s| && !IsSpace(s[|s| - 1])
    ensures !AllOf(s[k..], IsSpace)
  {
    var t := s[k..];
    assert t[|t| - 1] == s[|s| - 1];
  }

  /** Details can only be taken to start inside the title at white space before a parenthesis. */
  lemma MetaInsideTitle(title: string, meta: string, k: nat)
    requires k < |title| && !IsSpace(title[|title| - 1])
    requires MetaAt(title + " (" + meta + ")", k).Some?
    ensures HasSpaceParen(title)
  {
    hide IsSpace;
    var s := title + " (" + meta + ")";
    MetaNeedsSpaceParen(s, k);
    var i :| k <= i && SpaceParenAt(s, i) && forall j :: k <= j <= i ==> IsSpace(s[j]);
    assert s[|title| - 1] == title[|title| - 1];
    assert i < |title| - 1;
    assert s[i] == title[i] && s[i + 1] == title[i + 1];
    assert SpaceParenAt(title, i);
  }

  /** The title is found whole when it holds no white space directly before a parenthesis. */
  lemma BodyRoundTrip(title: string, meta: string)
    requires title != [] && Trimmed(title, IsSpace) && !HasSpaceParen(title)
    requires NoneOf(title, IsNewline) && NoneOf(meta, IsNewline)
    ensures BodyFrom(title + " (" + meta + ")", 0) == Some(Body(title, meta))
  {
    hide IsSpace, MetaAt, HasSpaceParen;
    PunctuationIsNoSpace();
    var s := title + " (" + meta + ")";
    var n := |title|;
    assert s[..n] == title;
    assert s[n..] == " (" + meta + ")";
    forall k | 0 <= k < n ensures MetaAt(s, k).None? && !AllOf(s[k..], IsSpace) && s[k] != '\n' {
      assert s[k] == title[k];
      NotBlankBefore(s, k);
      if MetaAt(s, k).Some? {
        MetaInsideTitle(title, meta, k);
      }
    }
    BodySkips(s, 0, n);
    MetaMatches(s, n, meta);
  }

  /** So is a title that nothing follows. */
  lemma BareTitle(title: string)
    requires title != [] && Trimmed(title, IsSpace) && !HasSpaceParen(title) && NoneOf(title, IsNewline)
    ensures BodyFrom(title, 0) == Some(Body(title, ""))
  {
    hide IsSpace, MetaAt, HasSpaceParen, SpaceParenAt;
    var n := |title|;
    forall k | 0 <= k <= n ensures MetaAt(title, k).None? {
      if MetaAt(title, k).Some? {
        MetaNeedsSpaceParen(title, k);
        NotSpaceParen(title);
      }
    }
    forall k | 0 <= k < n ensures !AllOf(title[k..], IsSpace) && title[k] != '\n' {
      NotBlankBefore(title, k);
    }
    BodySkips(title, 0, n);
    assert title[..n] == title && title[n..] == [];
  }

  lemma NotSpaceParen(s: string)
    requires !HasSpaceParen(s)
    ensures forall i {:trigger SpaceParenAt(s, i)} :: !SpaceParenAt(s, i)
  {
  }

  /** Otherwise the title comes back shorter. */
  lemma BodyCutsTitle(title: string, meta: string)
    requires HasSpaceParen(title) && NoneOf(title, IsNewline) && NoneOf(meta, IsNewline)
    ensures BodyFrom(title + " (" + meta + ")", 0).Some?
    ensures |Strip(BodyFrom(title + " (" + meta + ")", 0).value.title)| < |title|
  {
    var s := title + " (" + meta + ")";
    var i :| SpaceParenAt(title, i);
    assert s[i] == title[i] && s[i + 1] == title[i + 1];
    assert NoneOf(s, IsNewline);
    MetaMatchesAtSpaceParen(s, i);
    BodyStopsBy(s, 0, i);
    TrimIsTrimmed(BodyFrom(s, 0).value.title, IsSpace);
  }

  // --------------------------------------------------------------------------
  // The assignee
  // --------------------------------------------------------------------------

  lemma FieldAtFront(key: string, value: string, tail: string, stop: char -> bool)
    requires key != [] && value + tail != [] && !stop((value + tail)[0])
    requires NoneOf(value, stop) && (tail == [] || stop(tail[0]))
    ensures FieldAfter(key + value + tail, key, stop) == Some(value)
  {
    var meta := key + value + tail;
    var rest := value + tail;
    assert meta == key + rest;
    assert meta[..|key|] == key && meta[|key|..] == rest;
    FirstIndexIs(rest, stop, |value|);
    assert rest[..|value|] == value;
  }

  /** The details, cut inside the assignee. */
  lemma DetailsCut(task: Task, n: nat)
    requires n <= |task.assignedTo|
    ensures var a := task.assignedTo;
            Details(task) == ASSIGNED + (" " + a[..n]) + (a[n..] + DependsPart(task.dependsOn))
  {
    var a := task.assignedTo;
    assert a == a[..n] + a[n..];
  }

  lemma AssigneeInDetails(task: Task, tail: string)
    requires tail == [] || tail[0] == ')'
    requires NoneOf(task.assignedTo, EndsAssignee)
    ensures ASSIGNED != [] && !EndsAssignee(' ') && NoneOf(" " + task.assignedTo, EndsAssignee)
    ensures var rest := DependsPart(task.dependsOn) + tail;
            Details(task) + tail == ASSIGNED + (" " + task.assignedTo) + rest && (rest == [] || EndsAssignee(rest[0]))
  {
    hide Join, DEPENDS, ASSIGNED;
    KeyNotEmpty();
  }

  /** The assignee is found in the details, whatever follows them behind a closing parenthesis. */
  lemma AssigneeRoundTrip(task: Task, tail: string)
    requires Trimmed(task.assignedTo, IsSpace) && NoneOf(task.assignedTo, EndsAssignee)
    requires tail == [] || tail[0] == ')'
    ensures AssigneeOf(Details(task) + tail) == task.assignedTo
  {
    hide IsSpace, Trim, FieldAfter, Details, EndsAssignee, DependsPart, NoneOf, Trimmed, ASSIGNED;
    var a := task.assignedTo;
    var rest := DependsPart(task.dependsOn) + tail;
    AssigneeInDetails(task, tail);
    FieldAtFront(ASSIGNED, " " + a, rest, EndsAssignee);
    PunctuationIsNoSpace();
    TrimFinds(" ", a, "", IsSpace);
    assert " " + a + "" == " " + a;
  }

  /** An assignee with a comma or a closing parenthesis is cut there. */
  lemma AssigneeIsCut(task: Task)
    requires !NoneOf(task.assignedTo, EndsAssignee)
    ensures |AssigneeOf(Details(task))| < |task.assignedTo|
  {
    hide IsSpace, Trim, FieldAfter, Details;
    var a := task.assignedTo;
    var n := FirstIndex(a, EndsAssignee);
    assert n < |a|;
    DetailsCut(task, n);
    FieldAtFront(ASSIGNED, " " + a[..n], a[n..] + DependsPart(task.dependsOn), EndsAssignee);
    StripAfterSpace(a[..n]);
  }

  lemma StripAfterSpace(s: string)
    ensures |Strip(" " + s)| <= |s|
  {
    hide IsSpace;
    PunctuationIsNoSpace();
    TrimLeftConcat(" ", s, IsSpace);
    TrimIsTrimmed(s, IsSpace);
  }

  // --------------------------------------------------------------------------
  // The dependencies
  // --------------------------------------------------------------------------

  /** Scanning passes over a stretch of text that the key does not start in. */
  lemma {:induction false} FieldSkips(front: string, rest: string, key: string, stop: char -> bool)
    requires key != []
    requires forall i :: 0 <= i < |front| ==> !StartsWith((front + rest)[i..], key)
    ensures FieldAfter(front + rest, key, stop) == FieldAfter(rest, key, stop)
  {
    if front == [] {
      assert front + rest == rest;
    } else {
      var s := front + rest;
      assert s[0..] == s;
      assert s[1..] == front[1..] + rest;
      forall i | 0 <= i < |front[1..]| ensures !StartsWith((front[1..] + rest)[i..], key) {
        assert (front[1..] + rest)[i..] == s[i + 1..];
      }
      FieldSkips(front[1..], rest, key, stop);
    }
  }

  lemma IdCharIsPlain(c: char)
    requires IsIdChar(c)
    ensures !IsSpace(c) && !IsLineBreak(c) && !EndsAssignee(c) && !IsComma(c) && !EndsDepends(c)
  {
  }

  lemma SafeIdIsPlain(id: string)
    requires SafeId(id)
    ensures Trimmed(id, IsSpace) && NoneOf(id, EndsAssignee) && NoneOf(id, IsSpace) && OneLine(id)
    ensures NoneOf(id, IsComma) && NoneOf(id, EndsDepends)
  {
    hide IsSpace, IsIdChar, IsLineBreak, EndsAssignee, IsComma, EndsDepends;
    forall i | 0 <= i < |id|
      ensures !IsSpace(id[i]) && !IsLineBreak(id[i]) && !EndsAssignee(id[i]) && !IsComma(id[i]) && !EndsDepends(id[i])
    {
      IdCharIsPlain(id[i]);
    }
  }

  predicate AllSafe(ids: seq<string>) {
    forall i :: 0 <= i < |ids| ==> SafeId(ids[i])
  }

  lemma SplitAtComma(a: string, rest: string)
    requires NoneOf(a, IsComma)
    ensures SplitOn(a + "," + rest, ',') == [a] + SplitOn(rest, ',')
    ensures SplitOn(a, ',') == [a]
  {
    var s := a + "," + rest;
    FirstIndexIs(s, c => c == ',', |a|);
    FirstIndexIs(a, c => c == ',', |a|);
    assert s[..|a|] == a && s[|a| + 1..] == rest;
  }

  lemma OnePart(dep: string)
    requires SafeId(dep)
    ensures NoneOf(" " + dep, IsComma) && NoneOf(dep, EndsDepends)
    ensures Strip(" " + dep) == dep
  {
    SafeIdIsPlain(dep);
    hide IsSpace, IsIdChar, Trim, SafeId, EndsDepends, EndsAssignee;
    PunctuationIsNoSpace();
    TrimFinds(" ", dep, "", IsSpace);
    assert " " + dep + "" == " " + dep;
  }

  lemma {:induction false} NoParenInDepends(deps: seq<string>)
    requires AllSafe(deps)
    ensures NoneOf(Join(deps, ", "), EndsDepends)
  {
    hide IsIdChar;
    if deps != [] {
      OnePart(deps[0]);
      NoParenInDepends(deps[1..]);
    }
  }

  lemma NonBlankCons(part: string, parts: seq<string>)
    requires Strip(part) != []
    ensures NonBlank([part] + parts) == [Strip(part)] + NonBlank(parts)
  {
    assert ([part] + parts)[1..] == parts;
  }

  lemma DependsListCons(deps: seq<string>)
    requires |deps| > 1
    ensures " " + Join(deps, ", ") == " " + deps[0] + "," + (" " + Join(deps[1..], ", "))
  {
  }

  lemma AllSafeParts(deps: seq<string>)
    requires deps != [] && AllSafe(deps)
    ensures SafeId(deps[0]) && AllSafe(deps[1..])
  {
  }

  lemma DependsListOne(dep: string)
    requires SafeId(dep)
    ensures NonBlank(SplitOn(" " + dep, ',')) == [dep]
  {
    OnePart(dep);
    hide IsSpace, SafeId, IsIdChar, Trim, SplitOn, NonBlank;
    SplitAtComma(" " + dep, "");
    NonBlankCons(" " + dep, []);
    assert [" " + dep] + [] == [" " + dep];
    assert NonBlank([]) == [] by { NonBlankNil(); }
  }

  lemma NonBlankNil()
    ensures NonBlank([]) == []
  {
  }

  lemma {:induction false} DependsListRoundTrip(deps: seq<string>)
    requires deps != [] && AllSafe(deps)
    ensures NonBlank(SplitOn(" " + Join(deps, ", "), ',')) == deps
  {
    hide IsSpace, AllSafe, SafeId, Trim, SplitOn, NonBlank;
    AllSafeParts(deps);
    if |deps| == 1 {
      DependsListOne(deps[0]);
    } else {
      hide Join;
      OnePart(deps[0]);
      DependsListCons(deps);
      DependsListRoundTrip(deps[1..]);
      var rest := " " + Join(deps[1..], ", ");
      SplitAtComma(" " + deps[0], rest);
      NonBlankCons(" " + deps[0], SplitOn(rest, ','));
      assert deps == [deps[0]] + deps[1..];
    }
  }

  /** "depends:" occurs in s only where s ends with it. */
  ghost predicate DependsOnlyAtEnd(s: string) {
    forall i {:trigger OccursAt(s, DEPENDS, i)} :: OccursAt(s, DEPENDS, i) ==> i + |DEPENDS| == |s|
  }

  ghost predicate NoDepends(s: string) {
    forall i {:trigger OccursAt(s, DEPENDS, i)} :: !OccursAt(s, DEPENDS, i)
  }

  lemma PrefixChars(s: string, i: nat, key: string)
    requires i <= |s| && StartsWith(s[i..], key)
    ensures i + |key| <= |s| && forall m :: i <= m < i + |key| ==> s[m] == key[m - i]
  {
    forall m | i <= m < i + |key| ensures s[m] == key[m - i] {
      assert s[i..][..|key|][m - i] == s[m];
    }
  }

  /** The key occurs in the details only where it occurs in the assignee, or where the
      dependencies are announced. */
  lemma DependsOccurs(a: string, tail: string, i: nat)
    requires NoneOf(a, IsComma) && (tail == [] || tail[0] == ',')
    requires i <= |ASSIGNED| + 1 + |a|
    requires StartsWith((ASSIGNED + " " + a + tail)[i..], DEPENDS)
    ensures |ASSIGNED| + 1 <= i && OccursAt(a, DEPENDS, i - |ASSIGNED| - 1)
  {
    var front := ASSIGNED + " ";
    var s := front + a + tail;
    var n := |front| + |a|;
    PrefixChars(s, i, DEPENDS);
    assert DEPENDS[0] == 'd' && DEPENDS[1] == 'e' && ',' !in DEPENDS;
    assert forall m :: 0 <= m < |front| ==> s[m] == front[m];
    assert s[i] == 'd' && s[i + 1] == 'e';
    assert n < |s| ==> s[n] == ',';
    assert i + |DEPENDS| <= n;
    assert a[i - |front|..i - |front| + |DEPENDS|] == s[i..][..|DEPENDS|];
  }

  /** The dependencies come back when the assignee does not announce any. */
  lemma DependsRoundTrip(task: Task)
    requires AllSafe(task.dependsOn) && NoneOf(task.assignedTo, EndsAssignee)
    requires AnnouncesNothing(task)
    ensures DependsOf(Details(task)) == task.dependsOn
  {
    if task.dependsOn == [] {
      NoDependsFound(task);
    } else {
      DependsFound(task, "");
      assert Details(task) + "" == Details(task);
    }
  }

  lemma NoDependsFound(task: Task)
    requires task.dependsOn == [] && AnnouncesNothing(task) && NoneOf(task.assignedTo, EndsAssignee)
    ensures DependsOf(Details(task)) == []
  {
    hide FieldAfter;
    var s := ASSIGNED + " " + task.assignedTo + "";
    assert Details(task) == s;
    forall i | 0 <= i && i + |DEPENDS| < |s| ensures !StartsWith(s[i..], DEPENDS) {
      if StartsWith(s[i..], DEPENDS) {
        DependsOccurs(task.assignedTo, "", i);
      }
    }
    NoField(s, DEPENDS, EndsDepends);
  }

  lemma DependsFound(task: Task, tail: string)
    requires task.dependsOn != [] && NoDepends(task.assignedTo) && NoneOf(task.assignedTo, EndsAssignee)
    requires AllSafe(task.dependsOn) && (tail == [] || tail[0] == ')')
    ensures DependsOf(Details(task) + tail) == task.dependsOn
  {
    hide FieldAfter, SplitOn, NonBlank, AllSafe, Join;
    var a, list := task.assignedTo, " " + Join(task.dependsOn, ", ");
    var front, rest := ASSIGNED + " " + a + ", ", DEPENDS + list + tail;
    var s := front + rest;
    assert Details(task) + tail == s;
    forall i | 0 <= i < |front| ensures !StartsWith((front + rest)[i..], DEPENDS) {
      if i == |front| - 1 {
        assert s[i..][0] == ' ';
      } else if StartsWith(s[i..], DEPENDS) {
        assert s == ASSIGNED + " " + a + (", " + rest);
        DependsOccurs(a, ", " + rest, i);
      }
    }
    FieldSkips(front, rest, DEPENDS, EndsDepends);
    DependsListRoundTrip(task.dependsOn);
    NoParenInDepends(task.dependsOn);
    FieldAtFront(DEPENDS, list, tail, EndsDepends);
  }

  lemma {:induction false} NoField(s: string, key: string, stop: char -> bool)
    requires key != []
    requires forall i :: 0 <= i && i + |key| < |s| ==> !StartsWith(s[i..], key)
    ensures FieldAfter(s, key, stop) == None
  {
    if |s| > |key| {
      assert s[0..] == s;
      forall i | 0 <= i && i + |key| < |s[1..]| ensures !StartsWith(s[1..][i..], key) {
        assert s[1..][i..] == s[i + 1..];
      }
      NoField(s[1..], key, stop);
    }
  }

  lemma {:induction false} NonBlankHas(parts: seq<string>, k: nat)
    requires k < |parts| && Strip(parts[k]) != []
    ensures Strip(parts[k]) in NonBlank(parts)
  {
    if k > 0 {
      NonBlankHas(parts[1..], k - 1);
    }
  }

  lemma NonBlankOfNonBlank(parts: seq<string>)
    requires exists k :: 0 <= k < |parts| && Strip(parts[k]) != []
    ensures NonBlank(parts) != []
  {
    var k :| 0 <= k < |parts| && Strip(parts[k]) != [];
    NonBlankHas(parts, k);
  }

  /** Scanning the details stops at the first announcement in the assignee. */
  lemma ForgedScan(a: string, tail: string, k: nat)
    requires NoneOf(a, IsComma) && (tail == [] || tail[0] == ',')
    requires OccursAt(a, DEPENDS, k) && forall i :: 0 <= i < k ==> !OccursAt(a, DEPENDS, i)
    ensures FieldAfter(ASSIGNED + " " + a + tail, DEPENDS, EndsDepends) ==
            FieldAfter(DEPENDS + a[k + |DEPENDS|..] + tail, DEPENDS, EndsDepends)
  {
    hide FieldAfter;
    var s := ASSIGNED + " " + a + tail;
    var front := ASSIGNED + " " + a[..k];
    var rest := DEPENDS + a[k + |DEPENDS|..] + tail;
    assert a == a[..k] + (DEPENDS + a[k + |DEPENDS|..]);
    assert s == front + rest;
    forall i | 0 <= i < |front| ensures !StartsWith((front + rest)[i..], DEPENDS) {
      if StartsWith(s[i..], DEPENDS) {
        DependsOccurs(a, tail, i);
      }
    }
    FieldSkips(front, rest, DEPENDS, EndsDepends);
  }

  /** An assignee that announces dependencies itself makes wrong ones appear. */
  lemma DependsAreForged(task: Task)
    requires AllSafe(task.dependsOn) && NoneOf(task.assignedTo, EndsAssignee)
    requires Trimmed(task.assignedTo, IsSpace)
    requires !NoDepends(task.assignedTo)
    requires task.dependsOn != [] || !DependsOnlyAtEnd(task.assignedTo)
    ensures DependsOf(Details(task)) != task.dependsOn
  {
    hide FieldAfter, AllSafe, Trimmed;
    var a, deps := task.assignedTo, task.dependsOn;
    var i :| OccursAt(a, DEPENDS, i);
    assert Index(a, DEPENDS).Some?;
    var k := Index(a, DEPENDS).value;
    assert Details(task) == ASSIGNED + " " + a + DependsPart(deps);
    ForgedScan(a, DependsPart(deps), k);
    ForgedValue(a[k + |DEPENDS|..], deps, a);
  }

  /** The value read after an announcement inside the assignee. */
  lemma ForgedValue(after: string, deps: seq<string>, a: string)
    requires AllSafe(deps) && NoneOf(after, EndsAssignee)
    requires |after| < |a| && after == a[|a| - |after|..] && Trimmed(a, IsSpace)
    requires after != [] || deps != []
    ensures DependsOf(DEPENDS + after + DependsPart(deps)) != deps
  {
    if deps == [] {
      ForgedAlone(after, a);
      assert DEPENDS + after + DependsPart(deps) == DEPENDS + after + "";
    } else {
      ForgedInFront(after, deps);
    }
  }

  lemma ForgedAlone(after: string, a: string)
    requires NoneOf(after, EndsAssignee) && after != []
    requires |after| < |a| && after == a[|a| - |after|..] && Trimmed(a, IsSpace)
    ensures DependsOf(DEPENDS + after + "") != []
  {
    hide IsSpace, Trim;
    FieldAtFront(DEPENDS, after, "", EndsDepends);
    SplitAtComma(after, "");
    assert after[|after| - 1] == a[|a| - 1];
    TrimIsTrimmed(after, IsSpace);
    assert [after][0] == after;
    NonBlankOfNonBlank([after]);
  }

  lemma ForgedInFront(after: string, deps: seq<string>)
    requires AllSafe(deps) && NoneOf(after, EndsAssignee) && deps != []
    ensures DependsOf(DEPENDS + after + DependsPart(deps)) != deps
  {
    hide IsSpace, Trim, SplitOn, NonBlank, FieldAfter, AllSafe;
    var rest := " " + DEPENDS + " " + Join(deps, ", ");
    var value := after + "," + rest;
    NoParenInDepends(deps);
    assert NoneOf(value, EndsDepends);
    assert DEPENDS + after + DependsPart(deps) == DEPENDS + value + "";
    FieldAtFront(DEPENDS, value, "", EndsDepends);
    SplitAtComma(after, rest);
    ForgedFirst(deps, rest);
    var parts := SplitOn(rest, ',');
    assert ([after] + parts)[1] == parts[0];
    NonBlankHas([after] + parts, 1);
  }

  /** A dependency with "depends:" in it is no safe id. */
  lemma ForgedFirst(deps: seq<string>, rest: string)
    requires deps != [] && AllSafe(deps) && rest == " " + DEPENDS + " " + Join(deps, ", ")
    ensures Strip(SplitOn(rest, ',')[0]) != [] && Strip(SplitOn(rest, ',')[0]) !in deps
  {
    var core := DEPENDS + " " + deps[0];
    var first := " " + core;
    ForgedCore(deps[0]);
    hide IsSpace, Trim, SplitOn, SafeId;
    if |deps| == 1 {
      assert rest == first;
      SplitAtComma(first, "");
    } else {
      ForgedTail(deps);
      SplitAtComma(first, " " + Join(deps[1..], ", "));
    }
    assert SplitOn(rest, ',')[0] == first;
    assert forall i :: 0 <= i < |deps| ==> SafeId(deps[i]);
  }

  lemma ForgedTail(deps: seq<string>)
    requires |deps| > 1
    ensures " " + DEPENDS + " " + Join(deps, ", ") ==
            " " + (DEPENDS + " " + deps[0]) + "," + (" " + Join(deps[1..], ", "))
  {
  }

  lemma ForgedCore(dep: string)
    requires SafeId(dep)
    ensures var core := DEPENDS + " " + dep;
            NoneOf(" " + core, IsComma) && Strip(" " + core) == core && core != [] && !SafeId(core)
  {
    var core := DEPENDS + " " + dep;
    SafeIdIsPlain(dep);
    assert core[7] == ':' && !IsIdChar(':');
    assert core[0] == 'd' && core[|core| - 1] == dep[|dep| - 1] && !IsSpace('d');
    hide IsSpace, IsIdChar, Trim;
    PunctuationIsNoSpace();
    assert " " + core + "" == " " + core;
    TrimFinds(" ", core, "", IsSpace);
  }

  // --------------------------------------------------------------------------
  // The round trip
  // --------------------------------------------------------------------------

  /** What the payload check of _dag_task_from_payload lets through. */
  predicate FromPayload(task: Task) {
    && SafeId(task.taskId)
    && AllSafe(task.dependsOn)
    && task.title != [] && Trimmed(task.title, IsSpace)
    && task.assignedTo != [] && Trimmed(task.assignedTo, IsSpace)
  }

  /** What a task line can carry beyond that. */
  ghost predicate Readable(task: Task) {
    && !HasSpaceParen(task.title) && NoneOf(task.title, IsNewline)
    && NoneOf(task.assignedTo, EndsAssignee) && NoneOf(task.assignedTo, IsNewline)
    && AnnouncesNothing(task)
  }

  /** The assignee holds no "depends:", or ends with its only one on a task without
      dependencies. */
  ghost predicate AnnouncesNothing(task: Task) {
    NoDepends(task.assignedTo) || (task.dependsOn == [] && DependsOnlyAtEnd(task.assignedTo))
  }

  lemma ParseRendered(task: Task)
    requires FromPayload(task)
    ensures ParseTaskLine(RenderTask(task)) ==
            match BodyFrom(RenderBody(task), 0)
            case None => None
            case Some(body) =>
              Some(DagTask(task.taskId, Strip(body.title), AssigneeOf(body.meta), DependsOf(body.meta), task.status))
  {
    assert RenderBody(task)[0] == task.title[0];
    HeadRoundTrip(task.status, task.taskId, RenderBody(task));
  }

  lemma TitleRoundTrip(task: Task)
    requires task.title != [] && Trimmed(task.title, IsSpace)
    requires NoneOf(task.title, IsNewline) && NoneOf(Details(task), IsNewline)
    ensures BodyFrom(RenderBody(task), 0).Some?
    ensures var body := BodyFrom(RenderBody(task), 0).value;
            if HasSpaceParen(task.title) then Strip(body.title) != task.title
            else Strip(body.title) == task.title && body.meta == Details(task)
  {
    hide Details;
    if HasSpaceParen(task.title) {
      BodyCutsTitle(task.title, Details(task));
    } else {
      BodyRoundTrip(task.title, Details(task));
      TrimmedStays(task.title, IsSpace);
    }
  }

  lemma KeysAreLines()
    ensures OneLine(ASSIGNED + " ") && OneLine(", ") && OneLine(", " + DEPENDS + " ")
    ensures forall c :: IsNewline(c) ==> IsLineBreak(c)
  {
  }

  lemma DependsAreLines(deps: seq<string>)
    requires AllSafe(deps)
    ensures OneLine(DependsPart(deps))
  {
    KeysAreLines();
    forall i | 0 <= i < |deps| ensures OneLine(deps[i]) {
      SafeIdIsPlain(deps[i]);
    }
    hide SafeId, IsLineBreak, Join;
    if deps != [] {
      NoneOfJoin(deps, ", ", IsLineBreak);
      OneLineConcat(", " + DEPENDS + " ", Join(deps, ", "));
    }
  }

  /** The details bring no line break in besides those of the assignee. */
  lemma DetailsLines(task: Task)
    requires AllSafe(task.dependsOn)
    ensures OneLine(Details(task)) <==> OneLine(task.assignedTo)
    ensures NoneOf(Details(task), IsNewline) <==> NoneOf(task.assignedTo, IsNewline)
  {
    KeysAreLines();
    DependsAreLines(task.dependsOn);
    hide DependsPart, AllSafe, IsLineBreak, IsNewline;
    var front, a, d := ASSIGNED + " ", task.assignedTo, DependsPart(task.dependsOn);
    OneLineConcat(front + a, d);
    OneLineConcat(front, a);
    NoneOfConcat(front + a, d, IsNewline);
    NoneOfConcat(front, a, IsNewline);
  }

  lemma DetailsRoundTrip(task: Task)
    requires Trimmed(task.assignedTo, IsSpace) && AllSafe(task.dependsOn)
    ensures AssigneeOf(Details(task)) == task.assignedTo && DependsOf(Details(task)) == task.dependsOn <==>
            NoneOf(task.assignedTo, EndsAssignee) && AnnouncesNothing(task)
  {
    hide IsSpace, DependsOf, AssigneeOf, Details, NoDepends, DependsOnlyAtEnd, AllSafe;
    if !NoneOf(task.assignedTo, EndsAssignee) {
      AssigneeIsCut(task);
    } else {
      AssigneeRoundTrip(task, "");
      assert Details(task) + "" == Details(task);
      if AnnouncesNothing(task) {
        DependsRoundTrip(task);
      } else {
        DependsAreForged(task);
      }
    }
  }

  // What is read from a line is made of the line's characters.

  lemma HeadPart(line: string, p: char -> bool)
    requires NoneOf(line, p) && ParseHead(line).Some?
    ensures NoneOf(ParseHead(line).value.body, p)
  {
    hide IsSpace, IsIdChar, StatusOf, TrimLeft, FirstIndex;
    NoneOfTrim(line, p, IsSpace);
    var a := StripLeft(line);
    NoneOfTrim(a[1..], p, IsSpace);
    var b := StripLeft(a[1..]);
    NoneOfTrim(b[3..], p, IsSpace);
    var c := StripLeft(b[3..]);
    var n := FirstIndex(c, x => !IsIdChar(x));
    NoneOfTrim(c[n..], p, IsSpace);
    var d := StripLeft(c[n..]);
    NoneOfTrim(d[1..], p, IsSpace);
  }

  lemma MetaPart(s: string, n: nat, p: char -> bool)
    requires n <= |s| && MetaAt(s, n).Some?
    ensures NoneOf(s, p) ==> NoneOf(MetaAt(s, n).value, p)
    ensures NoneOf(MetaAt(s, n).value, IsNewline)
  {
    hide IsSpace, TrimLeft, TrimRight;
    var r := StripLeft(s[n..]);
    if NoneOf(s, p) {
      NoneOfTrim(s[n..], p, IsSpace);
      NoneOfTrim(r[1..], p, IsSpace);
    }
  }

  /** Title and details are parts of the line, and free of line feeds. */
  lemma {:induction false} BodyPart(s: string, n: nat, p: char -> bool)
    requires n <= |s| && NoneOf(s[..n], IsNewline) && BodyFrom(s, n).Some?
    ensures var body := BodyFrom(s, n).value;
            && NoneOf(body.title, IsNewline) && NoneOf(body.meta, IsNewline)
            && (NoneOf(s, p) ==> NoneOf(body.title, p) && NoneOf(body.meta, p))
    decreases |s| - n
  {
    hide IsSpace, MetaAt;
    if MetaAt(s, n).Some? {
      MetaPart(s, n, p);
    } else if !AllOf(s[n..], IsSpace) {
      assert s[..n + 1] == s[..n] + [s[n]];
      BodyPart(s, n + 1, p);
    }
  }

  lemma {:induction false} FieldPart(meta: string, key: string, stop: char -> bool, p: char -> bool)
    requires key != [] && NoneOf(meta, p) && FieldAfter(meta, key, stop).Some?
    ensures NoneOf(FieldAfter(meta, key, stop).value, p)
    decreases |meta|
  {
    if |meta| > |key| && !(StartsWith(meta, key) && !stop(meta[|key|])) {
      FieldPart(meta[1..], key, stop, p);
    }
  }

  lemma AssigneePart(meta: string, p: char -> bool)
    requires NoneOf(meta, p)
    ensures NoneOf(AssigneeOf(meta), p)
  {
    hide FieldAfter, Trim, ASSIGNED;
    KeyNotEmpty();
    var v := FieldAfter(meta, ASSIGNED, EndsAssignee);
    if v.Some? {
      FieldPart(meta, ASSIGNED, EndsAssignee, p);
      NoneOfTrim(v.value, p, IsSpace);
    }
  }

  lemma KeyNotEmpty()
    ensures ASSIGNED != []
  {
  }

  /** A task read from a line has neither a line feed in its title and assignee, nor any character
      there that the line lacks. */
  lemma ParsedPart(line: string, p: char -> bool)
    requires ParseTaskLine(line).Some?
    ensures var t := ParseTaskLine(line).value;
            && NoneOf(t.title, IsNewline) && NoneOf(t.assignedTo, IsNewline)
            && (NoneOf(line, p) ==> NoneOf(t.title, p) && NoneOf(t.assignedTo, p))
  {
    hide IsSpace, IsNewline, ParseHead, BodyFrom, AssigneeOf, DependsOf, Trim;
    var s := ParseHead(line).value.body;
    BodyPart(s, 0, p);
    var body := BodyFrom(s, 0).value;
    NoneOfTrim(body.title, IsNewline, IsSpace);
    AssigneePart(body.meta, IsNewline);
    if NoneOf(line, p) {
      HeadPart(line, p);
      NoneOfTrim(body.title, p, IsSpace);
      AssigneePart(body.meta, p);
    }
  }

  /** A task that passes the payload check is read back from its line exactly when it is
      Readable. */
  lemma LineRoundTrip(task: Task)
    requires FromPayload(task)
    ensures ParseTaskLine(RenderTask(task)) == Some(task) <==> Readable(task)
  {
    hide BodyFrom, AssigneeOf, DependsOf, Details, ParseTaskLine, RenderTask, RenderBody, Trim, IsSpace, IsNewline,
      HasSpaceParen, NoneOf, AnnouncesNothing;
    ParseRendered(task);
    DetailsLines(task);
    DetailsRoundTrip(task);
    if NoneOf(task.title, IsNewline) && NoneOf(task.assignedTo, IsNewline) {
      TitleRoundTrip(task);
    } else if ParseTaskLine(RenderTask(task)).Some? {
      ParsedPart(RenderTask(task), IsNewline);
    }
  }
}
