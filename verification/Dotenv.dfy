/** The .env file of a Hermes worker (hermes/src/hermes_worker/bridge.py): quoting, reading,
    writing, and the bridge step that replaces the keys it owns. */
module Dotenv {
  import opened Text
  import opened Sorting

  type Env = map<string, string>

  const BACKSLASH := "\\"
  const TWO_BACKSLASHES := "\\\\"
  const QUOTE := "\""
  const ESCAPED_QUOTE := "\\\""

  // --------------------------------------------------------------------------
  // Quoting
  // --------------------------------------------------------------------------

  function Escape(value: string): string {
    ReplaceAll(ReplaceAll(value, BACKSLASH, TWO_BACKSLASHES), QUOTE, ESCAPED_QUOTE)
  }

  /** _quote_env_value */
  function Quoted(value: string): string {
    QUOTE + Escape(value) + QUOTE
  }

  function Unescape(s: string): string {
    ReplaceAll(ReplaceAll(s, ESCAPED_QUOTE, QUOTE), TWO_BACKSLASHES, BACKSLASH)
  }

  /** Every backslash doubled. */
  function Doubled(v: string): string {
    if v == [] then [] else (if v[0] == '\\' then TWO_BACKSLASHES else [v[0]]) + Doubled(v[1..])
  }

  /** Every backslash doubled and every quote escaped. */
  function Escaped(v: string): string {
    if v == [] then []
    else (if v[0] == '\\' then TWO_BACKSLASHES else if v[0] == '"' then ESCAPED_QUOTE else [v[0]]) + Escaped(v[1..])
  }

  lemma OneChar(c: char, rest: string, pat: string, sub: string)
    requires |pat| == 1
    ensures ReplaceAll([c] + rest, pat, sub) == (if c == pat[0] then sub else [c]) + ReplaceAll(rest, pat, sub)
  {
    assert ([c] + rest)[..1] == [c];
    assert ([c] + rest)[1..] == rest;
    if c == pat[0] {
      assert [c] == pat;
    }
  }

  lemma {:induction false} DoublingIs(v: string)
    ensures ReplaceAll(v, BACKSLASH, TWO_BACKSLASHES) == Doubled(v)
  {
    if v != [] {
      DoublingIs(v[1..]);
      hide ReplaceAll;
      assert v == [v[0]] + v[1..];
      OneChar(v[0], v[1..], BACKSLASH, TWO_BACKSLASHES);
    }
  }

  lemma TwoChars(c: char, d: char, rest: string, pat: string, sub: string)
    requires |pat| == 1 && c != pat[0] && d != pat[0]
    ensures ReplaceAll([c, d] + rest, pat, sub) == [c, d] + ReplaceAll(rest, pat, sub)
  {
    hide ReplaceAll;
    OneChar(c, [d] + rest, pat, sub);
    OneChar(d, rest, pat, sub);
    assert [c] + ([d] + rest) == [c, d] + rest;
    assert [c] + ([d] + ReplaceAll(rest, pat, sub)) == [c, d] + ReplaceAll(rest, pat, sub);
  }

  lemma {:induction false} EscapingIs(v: string)
    ensures ReplaceAll(Doubled(v), QUOTE, ESCAPED_QUOTE) == Escaped(v)
  {
    hide ReplaceAll;
    if v != [] {
      EscapingIs(v[1..]);
      if v[0] == '\\' {
        TwoChars('\\', '\\', Doubled(v[1..]), QUOTE, ESCAPED_QUOTE);
      } else {
        OneChar(v[0], Doubled(v[1..]), QUOTE, ESCAPED_QUOTE);
      }
    } else {
      ReplaceNothing(QUOTE, ESCAPED_QUOTE);
    }
  }

  lemma ReplaceNothing(pat: string, sub: string)
    requires pat != []
    ensures ReplaceAll([], pat, sub) == []
  {
  }

  lemma NoQuoteFirst(v: string)
    ensures Escaped(v) == [] || Escaped(v)[0] != '"'
  {
  }

  lemma OtherStart(c: char, rest: string, pat: string)
    requires pat != [] && pat[0] != c
    ensures !StartsWith([c] + rest, pat)
  {
    var s := [c] + rest;
    assert |pat| <= |s| ==> s[..|pat|][0] == c;
  }

  /** The first replacement of the reader takes the quotes' backslashes away and no others. */
  lemma {:induction false} UnescapeQuotes(v: string)
    ensures ReplaceAll(Escaped(v), ESCAPED_QUOTE, QUOTE) == Doubled(v)
  {
    hide ReplaceAll, StartsWith;
    if v != [] {
      var rest := Escaped(v[1..]);
      UnescapeQuotes(v[1..]);
      NoQuoteFirst(v[1..]);
      if v[0] == '\\' {
        SkipBackslashes(rest);
      } else if v[0] == '"' {
        ReplaceHits(rest, ESCAPED_QUOTE, QUOTE);
      } else {
        OtherStart(v[0], rest, ESCAPED_QUOTE);
        ReplaceSkipsChar(v[0], rest, ESCAPED_QUOTE, QUOTE);
      }
    } else {
      ReplaceNothing(ESCAPED_QUOTE, QUOTE);
    }
  }

  lemma SkipBackslashes(rest: string)
    requires rest == [] || rest[0] != '"'
    ensures ReplaceAll(TWO_BACKSLASHES + rest, ESCAPED_QUOTE, QUOTE) == TWO_BACKSLASHES + ReplaceAll(rest, ESCAPED_QUOTE, QUOTE)
  {
    hide ReplaceAll, StartsWith;
    NotEscapedQuote(['\\'] + rest);
    NotEscapedQuote(rest);
    ReplaceSkipsChar('\\', ['\\'] + rest, ESCAPED_QUOTE, QUOTE);
    ReplaceSkipsChar('\\', rest, ESCAPED_QUOTE, QUOTE);
    assert ['\\'] + (['\\'] + rest) == TWO_BACKSLASHES + rest;
    var done := ReplaceAll(rest, ESCAPED_QUOTE, QUOTE);
    assert ['\\'] + (['\\'] + done) == TWO_BACKSLASHES + done;
  }

  lemma NotEscapedQuote(rest: string)
    requires rest == [] || rest[0] != '"'
    ensures !StartsWith(['\\'] + rest, ESCAPED_QUOTE)
  {
    var s := ['\\'] + rest;
    if |s| >= 2 {
      assert s[..2][1] == rest[0];
    }
  }

  /** The second replacement halves the backslashes. */
  lemma {:induction false} HalvingIs(v: string)
    ensures ReplaceAll(Doubled(v), TWO_BACKSLASHES, BACKSLASH) == v
  {
    hide ReplaceAll, StartsWith;
    if v != [] {
      var rest := Doubled(v[1..]);
      HalvingIs(v[1..]);
      assert v == [v[0]] + v[1..];
      if v[0] == '\\' {
        ReplaceHits(rest, TWO_BACKSLASHES, BACKSLASH);
      } else {
        OtherStart(v[0], rest, TWO_BACKSLASHES);
        ReplaceSkipsChar(v[0], rest, TWO_BACKSLASHES, BACKSLASH);
      }
    } else {
      ReplaceNothing(TWO_BACKSLASHES, BACKSLASH);
    }
  }

  /** The reader's two replacements, one after the other, undo the writer's, whatever mixture of
      backslashes and quotes the value holds. */
  lemma QuotingRoundTrip(value: string)
    ensures Unescape(Escape(value)) == value
  {
    DoublingIs(value);
    EscapingIs(value);
    UnescapeQuotes(value);
    HalvingIs(value);
  }

  // --------------------------------------------------------------------------
  // Reading
  // --------------------------------------------------------------------------

  predicate IsEquals(c: char) {
    c == '='
  }

  predicate Enclosed(val: string, quote: char) {
    val != [] && val[0] == quote && val[|val| - 1] == quote
  }

  /** The value behind the equals sign; val[1:-1] of a lone quote is empty. */
  function Value(val: string): string {
    if Enclosed(val, '"') || Enclosed(val, '\'') then Unescape(if |val| < 2 then "" else val[1..|val| - 1]) else val
  }

  /** One raw line; None if it is dropped. */
  function ReadLine(raw: string): Option<(string, string)> {
    ReadStripped(Strip(raw))
  }

  function ReadStripped(line: string): Option<(string, string)> {
    if line == [] || line[0] == '#' then None
    else
      var k := FirstIndex(line, IsEquals);
      if k == |line| then None else Some((Strip(line[..k]), Value(Strip(line[k + 1..]))))
  }

  function ReadLines(lines: seq<string>): Env {
    if lines == [] then map[]
    else
      var out := ReadLines(lines[..|lines| - 1]);
      match ReadLine(lines[|lines| - 1])
      case None => out
      case Some(entry) => out[entry.0 := entry.1]
  }

  function Read(text: string): Env {
    ReadLines(SplitLines(text))
  }

  /** _read_env_file on an existing file, with its loop. */
  method ReadEnvFile(text: string) returns (out: Env)
    ensures out == Read(text)
    ensures AllGood(out)
  {
    hide ReadLine, SplitLines, IsSpace, AllGood;
    out := map[];
    var lines := SplitLines(text);
    for i := 0 to |lines|
      invariant out == ReadLines(lines[..i])
    {
      assert lines[..i + 1][..i] == lines[..i];
      var entry := ReadLine(lines[i]);
      if entry.Some? {
        out := out[entry.value.0 := entry.value.1];
      }
    }
    assert lines[..|lines|] == lines;
    ReadIsGood(lines);
  }

  /** The four ways to write a value by hand: in double quotes, in single quotes, with escapes inside
      either, and bare; a lone quote is an empty value. */
  lemma HandWritten(v: string)
    ensures Value(QUOTE + Escape(v) + QUOTE) == v && Value("'" + Escape(v) + "'") == v
    ensures v == [] || v[0] != v[|v| - 1] || v[0] !in {'"', '\''} ==> Value(v) == v
    ensures Value(QUOTE) == Value("'") == ""
    ensures '\\' !in v ==> Value("'" + v + "'") == v && Value(QUOTE + v + QUOTE) == v
  {
    hide Escape, Unescape;
    QuotingRoundTrip(v);
    NothingEscaped("");
    var e := Escape(v);
    assert (QUOTE + e + QUOTE)[1..|QUOTE + e + QUOTE| - 1] == e;
    assert ("'" + e + "'")[1..|"'" + e + "'"| - 1] == e;
    assert (QUOTE + v + QUOTE)[1..|QUOTE + v + QUOTE| - 1] == v;
    assert ("'" + v + "'")[1..|"'" + v + "'"| - 1] == v;
    if '\\' !in v {
      NothingEscaped(v);
    }
  }

  lemma NothingEscaped(v: string)
    requires '\\' !in v
    ensures Unescape(v) == v
  {
    hide ReplaceAll;
    assert v + "" == v;
    ReplaceSkips(v, "", ESCAPED_QUOTE, QUOTE);
    ReplaceSkips(v, "", TWO_BACKSLASHES, BACKSLASH);
    ReplaceNothing(ESCAPED_QUOTE, QUOTE);
    ReplaceNothing(TWO_BACKSLASHES, BACKSLASH);
  }

  /** What a line of the file says, when its key can stand on a line; comments say nothing. */
  lemma LineSays(before: string, key: string, middle: string, val: string, after: string)
    requires AllOf(before, IsSpace) && AllOf(middle, IsSpace) && AllOf(after, IsSpace)
    requires GoodKey(key) && key != [] && Trimmed(val, IsSpace) && val != []
    ensures ReadLine(before + key + middle + "=" + middle + val + after) == Some((key, Value(val)))
    ensures ReadLine(before + "#" + key + "=" + val) == None
  {
    hide Value, IsSpace, OneLine, Trim;
    KeyEnds(key);
    var core := key + middle + "=" + middle + val;
    assert before + key + middle + "=" + middle + val + after == before + core + after;
    assert core[0] == key[0] && core[|core| - 1] == val[|val| - 1];
    TrimFinds(before, core, after, IsSpace);
    var k := |key + middle|;
    assert core[k] == '=';
    SpaceIsNoEquals(middle);
    assert forall i :: 0 <= i < k ==> core[i] == (key + middle)[i];
    FirstIndexIs(core, IsEquals, k);
    assert core[..k] == "" + key + middle && core[k + 1..] == middle + val + "";
    TrimFinds("", key, middle, IsSpace);
    TrimFinds(middle, val, "", IsSpace);
    var note := "#" + key + "=" + val;
    assert before + "#" + key + "=" + val == before + note + "";
    assert note[|note| - 1] == val[|val| - 1];
    HashIsNoSpace();
    TrimFinds(before, note, "", IsSpace);
  }

  lemma KeyEnds(key: string)
    requires GoodKey(key) && key != []
    ensures Trimmed(key, IsSpace)
  {
    TrimIsTrimmed(key, IsSpace);
  }

  lemma SpaceIsNoEquals(s: string)
    requires AllOf(s, IsSpace)
    ensures '=' !in s
  {
    assert !IsSpace('=');
  }

  lemma HashIsNoSpace()
    ensures !IsSpace('#')
  {
  }

  /** A key that a line can hold. */
  predicate GoodKey(key: string) {
    Strip(key) == key && '=' !in key && OneLine(key) && (key == [] || key[0] != '#')
  }

  /** What a line can hold. */
  predicate Good(key: string, val: string) {
    GoodKey(key) && OneLine(val)
  }

  predicate AllGood(env: Env) {
    forall k :: k in env ==> Good(k, env[k])
  }

  lemma OneLinePart(s: string, lo: nat, hi: nat)
    requires OneLine(s) && lo <= hi <= |s|
    ensures OneLine(s[lo..hi])
  {
    assert forall i {:trigger s[lo..hi][i]} :: 0 <= i < hi - lo ==> s[lo..hi][i] == s[lo + i];
  }

  lemma StripPart(s: string)
    ensures exists lo: nat, hi: nat :: lo <= hi <= |s| && Strip(s) == s[lo..hi]
  {
    var l := TrimLeft(s, IsSpace);
    var lo := |s| - |l|;
    TrimLeftPart(s, IsSpace);
    TrimRightPart(l, IsSpace);
    assert Strip(s) == s[lo..lo + |Strip(s)|];
  }

  lemma StripOneLine(s: string)
    requires OneLine(s)
    ensures OneLine(Strip(s))
  {
    hide Strip, OneLine;
    StripPart(s);
    var lo: nat, hi: nat :| lo <= hi <= |s| && Strip(s) == s[lo..hi];
    OneLinePart(s, lo, hi);
  }

  lemma {:induction false} ReplaceOneLine(s: string, pat: string, sub: string)
    requires OneLine(s) && OneLine(sub) && pat != []
    ensures OneLine(ReplaceAll(s, pat, sub))
    decreases |s|
  {
    hide IsLineBreak;
    if |s| < |pat| {
    } else if s[..|pat|] == pat {
      OneLinePart(s, |pat|, |s|);
      ReplaceOneLine(s[|pat|..], pat, sub);
    } else {
      OneLinePart(s, 1, |s|);
      ReplaceOneLine(s[1..], pat, sub);
    }
  }

  lemma ValueOneLine(val: string)
    requires OneLine(val)
    ensures OneLine(Value(val))
  {
    assert OneLine(QUOTE) && OneLine(BACKSLASH);
    hide OneLine, ReplaceAll;
    if Enclosed(val, '"') || Enclosed(val, '\'') {
      if |val| >= 2 {
        OneLinePart(val, 1, |val| - 1);
      } else {
        OneLinePart(val, 0, 0);
        assert val[0..0] == "";
      }
      var inner := if |val| < 2 then "" else val[1..|val| - 1];
      ReplaceOneLine(inner, ESCAPED_QUOTE, QUOTE);
      ReplaceOneLine(ReplaceAll(inner, ESCAPED_QUOTE, QUOTE), TWO_BACKSLASHES, BACKSLASH);
    }
  }

  lemma StripAgain(s: string)
    ensures Strip(Strip(s)) == Strip(s)
  {
    TrimIsTrimmed(s, IsSpace);
    TrimmedStays(Strip(s), IsSpace);
  }

  /** Stripping the front part of a stripped line leaves its first character. */
  lemma StripFront(line: string, k: nat)
    requires line != [] && k <= |line| && Trimmed(line, IsSpace)
    ensures Strip(line[..k]) == [] || Strip(line[..k])[0] == line[0]
    ensures forall c :: c in Strip(line[..k]) ==> c in line[..k]
  {
    hide IsSpace;
    if k > 0 {
      var s := line[..k];
      assert TrimLeft(s, IsSpace) == s;
      TrimRightPart(s, IsSpace);
    }
  }

  lemma StripTrims(s: string)
    ensures Trimmed(Strip(s), IsSpace)
  {
    TrimIsTrimmed(s, IsSpace);
  }

  lemma KeyIsGood(line: string, k: nat)
    requires line != [] && k <= |line| && Trimmed(line, IsSpace) && OneLine(line) && line[0] != '#'
    requires forall i :: 0 <= i < k ==> line[i] != '='
    ensures GoodKey(Strip(line[..k]))
  {
    hide OneLine, Strip, IsSpace;
    OneLinePart(line, 0, k);
    StripOneLine(line[..k]);
    StripAgain(line[..k]);
    StripFront(line, k);
    assert '=' !in line[..k];
  }

  lemma ReadLineIsGood(raw: string)
    requires OneLine(raw)
    ensures ReadLine(raw).Some? ==> Good(ReadLine(raw).value.0, ReadLine(raw).value.1)
  {
    hide OneLine, Strip, Value, IsSpace, GoodKey;
    var line := Strip(raw);
    StripOneLine(raw);
    StripTrims(raw);
    var k := FirstIndex(line, IsEquals);
    if line != [] && k < |line| && line[0] != '#' {
      KeyIsGood(line, k);
      OneLinePart(line, k + 1, |line|);
      assert line[k + 1..|line|] == line[k + 1..];
      StripOneLine(line[k + 1..]);
      ValueOneLine(Strip(line[k + 1..]));
    }
  }

  /** Whatever the file holds, what is read from it can be written to lines again. */
  lemma {:induction false} ReadIsGood(lines: seq<string>)
    requires AllOneLine(lines)
    ensures AllGood(ReadLines(lines))
  {
    hide ReadLine, OneLine, Good;
    if lines != [] {
      var n := |lines| - 1;
      ReadIsGood(lines[..n]);
      ReadLineIsGood(lines[n]);
    }
  }

  // --------------------------------------------------------------------------
  // Writing
  // --------------------------------------------------------------------------

  const COMMENT_1 := "# Generated by " + "hermes-worker bridge.py " + "\U{2014} do not edit " + "by hand."
  const COMMENT_2 := "# Bridge-owned keys " + "(MATRIX_*, OPENAI_*, " + "HERMES_DEFAULT_MODEL" + ") are"
  const COMMENT_3 := "# rewritten on every " + "restart and Manager " + "config push" + "."
  const HEADER := [COMMENT_1, COMMENT_2, COMMENT_3, ""]

  /** The entries that are written. */
  function NonEmpty(env: Env): Env {
    map k | k in env && env[k] != "" :: env[k]
  }

  function EntryLine(key: string, val: string): string {
    key + "=" + Quoted(val)
  }

  function EntryLines(env: Env, keys: seq<string>): seq<string>
    requires forall k :: k in keys ==> k in env
  {
    if keys == [] then []
    else EntryLines(env, keys[..|keys| - 1]) + [EntryLine(keys[|keys| - 1], env[keys[|keys| - 1]])]
  }

  /** The file's text: the header, the entries in key order, and a line feed at the end. */
  ghost function EnvText(env: Env): string {
    var kept := NonEmpty(env);
    ListingIs(kept.Keys);
    Join(HEADER + EntryLines(kept, Listing(kept.Keys)) + [""], NEWLINE)
  }

  /** sorted(env) */
  method SortKeys(env: Env) returns (keys: seq<string>)
    ensures Ascending(keys) && forall k :: k in keys <==> k in env
  {
    hide Ascending, Insert;
    AscendingEmpty();
    keys := [];
    var todo := env.Keys;
    while todo != {}
      invariant todo <= env.Keys
      invariant Ascending(keys) && forall k :: k in keys <==> k in env && k !in todo
      decreases todo
    {
      var k :| k in todo;
      todo := todo - {k};
      InsertKeeps(keys, k);
      keys := Insert(keys, k);
    }
  }

  /** _write_env_file, with its loop. */
  method WriteEnvFile(env: Env) returns (text: string)
    ensures text == EnvText(env)
  {
    hide Insert, Quoted, Join, Listing, HEADER, Ascending, EntryLine, EntryLines;
    var keys := SortKeys(env);
    var lines := HEADER;
    ghost var kept := NonEmpty(env);
    ghost var done: seq<string> := [];
    AscendingEmpty();
    NoEntries(kept);
    for i := 0 to |keys|
      invariant Ascending(done)
      invariant forall k :: k in done <==> k in kept && k in keys[..i]
      invariant lines == HEADER + EntryLines(kept, done)
    {
      assert keys[..i + 1] == keys[..i] + [keys[i]];
      var val := env[keys[i]];
      if val != "" {
        BehindAll(keys, i, done);
        EntryAdded(kept, done, keys[i]);
        lines := lines + [EntryLine(keys[i], val)];
        done := done + [keys[i]];
      }
    }
    lines := lines + [""];
    ListingIs(kept.Keys);
    assert keys[..|keys|] == keys;
    OneListing(done, Listing(kept.Keys));
    text := Join(lines, NEWLINE);
  }

  lemma NoEntries(env: Env)
    ensures HEADER + EntryLines(env, []) == HEADER
  {
    hide HEADER;
  }

  lemma EntryAdded(env: Env, keys: seq<string>, key: string)
    requires forall k :: k in keys + [key] ==> k in env
    ensures forall k :: k in keys ==> k in env
    ensures key in env && EntryLines(env, keys + [key]) == EntryLines(env, keys) + [EntryLine(key, env[key])]
  {
    hide EntryLine;
    assert key in keys + [key];
    assert forall k :: k in keys ==> k in keys + [key];
    assert (keys + [key])[..|keys|] == keys;
  }

  lemma BehindAll(keys: seq<string>, i: nat, done: seq<string>)
    requires Ascending(keys) && i < |keys| && Ascending(done) && forall k :: k in done ==> k in keys[..i]
    ensures Ascending(done + [keys[i]])
  {
    hide Less;
    forall j | 0 <= j < |done| ensures Less(done[j], keys[i]) {
      assert done[j] in keys[..i];
    }
  }

  // --------------------------------------------------------------------------
  // Round trip
  // --------------------------------------------------------------------------

  lemma EqualsAt(key: string, val: string)
    requires '=' !in key
    ensures var line := key + "=" + val; FirstIndex(line, IsEquals) == |key| && line[..|key|] == key && line[|key| + 1..] == val
  {
    var line := key + "=" + val;
    forall i | 0 <= i < |key| ensures !IsEquals(line[i]) {
      assert line[i] == key[i];
    }
    FirstIndexIs(line, IsEquals, |key|);
  }

  lemma ValueOfQuoted(val: string)
    ensures Value(Quoted(val)) == val && Strip(Quoted(val)) == Quoted(val)
  {
    hide Escape, Unescape;
    QuotingRoundTrip(val);
    var q := Quoted(val);
    assert q[1..|q| - 1] == Escape(val);
    TrimmedStays(q, IsSpace);
  }

  /** A written line is read back as its key and value. */
  lemma ReadLineOfEntry(key: string, val: string)
    requires GoodKey(key)
    ensures ReadLine(EntryLine(key, val)) == Some((key, val))
  {
    hide Escape, Value, IsSpace, Strip, FirstIndex, Quoted, GoodKey, ReadStripped, IsEquals, EntryLine, Trimmed;
    GoodKeyParts(key);
    EntryTrimmed(key, val);
    ValueOfQuoted(val);
    EntryParts(key, val);
    ReadLineAt(EntryLine(key, val), |key|, key, Quoted(val));
  }

  lemma EntryParts(key: string, val: string)
    requires '=' !in key
    ensures |key| < |EntryLine(key, val)| && FirstIndex(EntryLine(key, val), IsEquals) == |key|
    ensures EntryLine(key, val)[..|key|] == key && EntryLine(key, val)[|key| + 1..] == Quoted(val)
  {
    hide Escape, Quoted, FirstIndex;
    EqualsAt(key, Quoted(val));
  }

  lemma ReadLineAt(line: string, k: nat, key: string, rest: string)
    requires line != [] && line[0] != '#' && FirstIndex(line, IsEquals) == k < |line|
    requires line[..k] == key && line[k + 1..] == rest
    ensures ReadStripped(line) == Some((Strip(key), Value(Strip(rest))))
  {
    hide Strip, Value, FirstIndex, IsEquals;
  }

  lemma GoodKeyParts(key: string)
    requires GoodKey(key)
    ensures Strip(key) == key && '=' !in key && Trimmed(key, IsSpace)
  {
    hide IsSpace, OneLine;
    StripTrims(key);
  }

  lemma EntryTrimmed(key: string, val: string)
    requires GoodKey(key)
    ensures EntryLine(key, val) != [] && EntryLine(key, val)[0] != '#'
    ensures Strip(EntryLine(key, val)) == EntryLine(key, val)
  {
    GoodKeyParts(key);
    assert key == [] || key[0] != '#';
    hide Escape, GoodKey, Strip;
    var line := EntryLine(key, val);
    assert line[0] == if key == [] then '=' else key[0];
    assert line[|line| - 1] == '"';
    StripStays(line);
  }

  lemma StripStays(s: string)
    requires Trimmed(s, IsSpace)
    ensures Strip(s) == s
  {
    TrimmedStays(s, IsSpace);
  }

  lemma ReadHeader()
    ensures |HEADER| == 4 && AllOneLine(HEADER) && forall i :: 0 <= i < 4 ==> ReadLine(HEADER[i]) == None
  {
    CommentLines();
    BlankLine();
    hide ReadLine, OneLine, COMMENT_1, COMMENT_2, COMMENT_3;
  }

  lemma BlankLine()
    ensures ReadLine("") == None && OneLine("")
  {
  }

  lemma CommentLines()
    ensures OneLine(COMMENT_1) && OneLine(COMMENT_2) && OneLine(COMMENT_3)
    ensures ReadLine(COMMENT_1) == None && ReadLine(COMMENT_2) == None && ReadLine(COMMENT_3) == None
  {
    Pieces1();
    Pieces2();
    Pieces3();
    Comment("# Generated by ", "hermes-worker bridge.py ", "\U{2014} do not edit ", "by hand.");
    Comment("# Bridge-owned keys ", "(MATRIX_*, OPENAI_*, ", "HERMES_DEFAULT_MODEL", ") are");
    Comment("# rewritten on every ", "restart and Manager ", "config push", ".");
    hide ReadLine, OneLine;
  }

  lemma Pieces1()
    ensures OneLine("# Generated by ") && OneLine("hermes-worker bridge.py ") && OneLine("\U{2014} do not edit ") && OneLine("by hand.")
  {
  }

  lemma Pieces2()
    ensures OneLine("# Bridge-owned keys ") && OneLine("(MATRIX_*, OPENAI_*, ") && OneLine("HERMES_DEFAULT_MODEL") && OneLine(") are")
  {
  }

  lemma Pieces3()
    ensures OneLine("# rewritten on every ") && OneLine("restart and Manager ") && OneLine("config push") && OneLine(".")
  {
  }

  /** A comment is one line, and dropped. */
  lemma Comment(a: string, b: string, c: string, d: string)
    requires OneLine(a) && OneLine(b) && OneLine(c) && OneLine(d)
    requires a != [] && a[0] == '#' && d != [] && !IsSpace(d[|d| - 1])
    ensures OneLine(a + b + c + d) && ReadLine(a + b + c + d) == None
  {
    OneLineConcat(a, b);
    OneLineConcat(a + b, c);
    OneLineConcat(a + b + c, d);
    TrimmedStays(a + b + c + d, IsSpace);
  }

  lemma ReadExtended(lines: seq<string>, line: string)
    ensures ReadLines(lines + [line]) ==
            (match ReadLine(line) case None => ReadLines(lines) case Some(e) => ReadLines(lines)[e.0 := e.1])
  {
    hide ReadLine;
    assert (lines + [line])[..|lines|] == lines;
  }

  lemma {:induction false} ReadEntries(env: Env, keys: seq<string>)
    requires forall k :: k in keys ==> k in env && Good(k, env[k])
    ensures ReadLines(HEADER + EntryLines(env, keys)) == map k | k in keys :: env[k]
    ensures AllOneLine(EntryLines(env, keys))
  {
    hide ReadLine, Good, HEADER, ReadLines, EntryLine, OneLine;
    if keys == [] {
      assert HEADER + EntryLines(env, keys) == HEADER;
      ReadNoHeader();
    } else {
      var n := |keys| - 1;
      assert forall k :: k in keys <==> k in keys[..n] || k == keys[n];
      ReadEntries(env, keys[..n]);
      EntryLineIsLine(keys[n], env[keys[n]]);
      assert HEADER + EntryLines(env, keys) == HEADER + EntryLines(env, keys[..n]) + [EntryLine(keys[n], env[keys[n]])];
      ReadExtended(HEADER + EntryLines(env, keys[..n]), EntryLine(keys[n], env[keys[n]]));
    }
  }

  lemma EntryLineIsLine(key: string, val: string)
    requires Good(key, val)
    ensures OneLine(EntryLine(key, val)) && ReadLine(EntryLine(key, val)) == Some((key, val))
  {
    hide GoodKey, ReadLine;
    ReadLineOfEntry(key, val);
    GoodKeyLine(key);
    assert OneLine(TWO_BACKSLASHES) && OneLine(ESCAPED_QUOTE) && OneLine(QUOTE) && OneLine("=");
    hide OneLine, ReplaceAll;
    ReplaceOneLine(val, BACKSLASH, TWO_BACKSLASHES);
    ReplaceOneLine(ReplaceAll(val, BACKSLASH, TWO_BACKSLASHES), QUOTE, ESCAPED_QUOTE);
    OneLineConcat(QUOTE, Escape(val));
    OneLineConcat(QUOTE + Escape(val), QUOTE);
    OneLineConcat(key, "=");
    OneLineConcat(key + "=", Quoted(val));
  }

  lemma GoodKeyLine(key: string)
    requires GoodKey(key)
    ensures OneLine(key)
  {
  }

  lemma ReadNoHeader()
    ensures ReadLines(HEADER) == map[]
  {
    hide HEADER, ReadLine;
    ReadHeader();
    assert HEADER[..4] == HEADER && HEADER[..0] == [];
    Skips(1);
    Skips(2);
    Skips(3);
    Skips(4);
  }

  lemma Skips(n: nat)
    requires 0 < n <= 4 == |HEADER|
    ensures ReadLines(HEADER[..n]) == ReadLines(HEADER[..n - 1])
  {
    hide ReadLine;
    ReadHeader();
    assert HEADER[..n] == HEADER[..n - 1] + [HEADER[n - 1]];
    ReadExtended(HEADER[..n - 1], HEADER[n - 1]);
  }

  lemma LinesOfJoin(lines: seq<string>)
    requires lines != [] && AllOneLine(lines)
    ensures SplitLines(Join(lines + [""], NEWLINE)) == lines
  {
    hide OneLine, SplitLines;
    JoinConcat(lines, [""], NEWLINE);
    JoinIsUnlines(lines);
    assert Join(lines, NEWLINE) + NEWLINE + "" == Join(lines, NEWLINE) + NEWLINE;
    SplitLinesOfUnlines(lines);
  }

  /** Reading a written file gives back exactly the non-empty entries if and only if each of these
      has a key that a line can hold and a value without line breaks. */
  lemma EnvRoundTripIff(env: Env)
    ensures Read(EnvText(env)) == NonEmpty(env) <==> AllGood(NonEmpty(env))
  {
    hide Good, Join, SplitLines, EntryLines, HEADER, ReadLines, OneLine;
    var kept := NonEmpty(env);
    ListingIs(kept.Keys);
    var keys := Listing(kept.Keys);
    if AllGood(kept) {
      ReadEntries(kept, keys);
      ReadHeader();
      LinesOfJoin(HEADER + EntryLines(kept, keys));
      assert (map k | k in keys :: kept[k]) == kept;
    }
    if Read(EnvText(env)) == kept {
      ReadIsGood(SplitLines(EnvText(env)));
    }
  }

  /** A value with a line break writes a second entry. */
  lemma BreakForgesEntry()
    ensures var env: Env := map["A" := "x\nB=y"];
            && "B" in Read(EnvText(env)) && Read(EnvText(env))["B"] == "y\""
            && "B" !in env
  {
    var env: Env := map["A" := "x\nB=y"];
    ForgedText();
    hide EnvText, HEADER, ReadLine, SplitLines, ReadLines;
    ReadHeader();
    var lines := HEADER + ["A=\"x"] + ["B=y\""];
    assert OneLine("A=\"x") && OneLine("B=y\"");
    LinesOfJoin(lines);
    ForgedLine();
    ReadExtended(HEADER + ["A=\"x"], "B=y\"");
  }

  lemma ForgedLine()
    ensures ReadLine("B=y\"") == Some(("B", "y\""))
  {
    EqualsAt("B", "y\"");
    assert "B" + "=" + "y\"" == "B=y\"";
    TrimmedStays("B=y\"", IsSpace);
    TrimmedStays("B", IsSpace);
    TrimmedStays("y\"", IsSpace);
  }

  lemma ForgedText()
    ensures EnvText(map["A" := "x\nB=y"]) == Join(HEADER + ["A=\"x"] + ["B=y\""] + [""], NEWLINE)
  {
    var env: Env := map["A" := "x\nB=y"];
    assert NonEmpty(env) == env;
    ForgedQuote();
    hide HEADER, ReplaceAll, Join, Less, Insert;
    ListingIs({"A"});
    AscendingOne();
    OneListing(Listing({"A"}), ["A"]);
    assert env.Keys == {"A"};
    assert EntryLines(env, ["A"]) == [EntryLine("A", env["A"])] by {
      assert ["A"][..0] == [];
    }
    var front := HEADER;
    JoinTwoLines(front, "A=\"x", "B=y\"");
    assert EntryLine("A", env["A"]) == "A=\"x" + NEWLINE + "B=y\"";
  }

  lemma AscendingOne()
    ensures Ascending(["A"])
  {
  }

  lemma ForgedQuote()
    ensures Quoted("x\nB=y") == "\"x\nB=y\""
  {
    var v := "x\nB=y";
    assert v + "" == v;
    ReplaceSkips(v, "", BACKSLASH, TWO_BACKSLASHES);
    ReplaceSkips(v, "", QUOTE, ESCAPED_QUOTE);
  }

  /** Joining does not tell a line feed in a line from one between lines. */
  lemma JoinTwoLines(front: seq<string>, a: string, b: string)
    ensures Join(front + [a + NEWLINE + b] + [""], NEWLINE) == Join(front + [a] + [b] + [""], NEWLINE)
  {
    var one, two := [a + NEWLINE + b] + [""], [a] + [b] + [""];
    assert front + [a + NEWLINE + b] + [""] == front + one;
    assert front + [a] + [b] + [""] == front + two;
    assert one[1..] == [""] && two[1..] == [b] + [""] && two[1..][1..] == [""];
    assert Join(one, NEWLINE) == Join(two, NEWLINE);
    hide Join;
    JoinConcat(front, one, NEWLINE);
    JoinConcat(front, two, NEWLINE);
  }

  // --------------------------------------------------------------------------
  // The bridge step
  // --------------------------------------------------------------------------

  const OWNED_EXACT := {"OPENAI_API_KEY", "OPENAI_BASE_URL", "HERMES_DEFAULT_MODEL"}
  const OWNED_PREFIX := "MATRIX_"

  predicate IsBridgeOwned(key: string) {
    key in OWNED_EXACT || StartsWith(key, OWNED_PREFIX)
  }

  lemma OwnedKeys(key: string)
    ensures IsBridgeOwned(key) <==>
            key in {"OPENAI_API_KEY", "OPENAI_BASE_URL", "HERMES_DEFAULT_MODEL"} || "MATRIX_" <= key
  {
  }

  function Unowned(env: Env): Env {
    map k | k in env && !IsBridgeOwned(k) :: env[k]
  }

  /** The entries that the configuration sets, later sources over earlier ones. */
  function Sources(sources: seq<Env>): Env {
    if sources == [] then map[] else Sources(sources[..|sources| - 1]) + sources[|sources| - 1]
  }

  /** What the file becomes; None stands for a missing file. */
  ghost function Bridged(file: Option<string>, config: Env): string {
    EnvText(Unowned(if file.Some? then Read(file.value) else map[]) + config)
  }

  /** The inner loop, over the items of one source. */
  method SetAll(before: Env, source: Env) returns (merged: Env)
    ensures merged == before + source
  {
    merged := before;
    var todo := source.Keys;
    while todo != {}
      invariant todo <= source.Keys
      invariant merged == before + (source - todo)
      decreases todo
    {
      var k :| k in todo;
      todo := todo - {k};
      merged := merged[k := source[k]];
    }
    assert source - {} == source;
  }

  /** The .env part of bridge_openclaw_to_hermes, with its loops. */
  method BridgeEnv(file: Option<string>, sources: seq<Env>) returns (text: string)
    ensures text == Bridged(file, Sources(sources))
  {
    hide Read, EnvText, IsBridgeOwned, Unowned, AllGood;
    var existing: Env := map[];
    if file.Some? {
      existing := ReadEnvFile(file.value);
    }
    var merged := Unowned(existing);
    for i := 0 to |sources|
      invariant merged == Unowned(existing) + Sources(sources[..i])
    {
      assert sources[..i + 1][..i] == sources[..i];
      merged := SetAll(merged, sources[i]);
      PlusPlus(Unowned(existing), Sources(sources[..i]), sources[i]);
    }
    assert sources[..|sources|] == sources;
    text := WriteEnvFile(merged);
  }

  lemma PlusPlus(a: Env, b: Env, c: Env)
    ensures (a + b) + c == a + (b + c)
  {
  }

  /** Everything in an existing file is fit to be written again, so what the bridge wrote is read
      back whenever what the configuration sets is fit. */
  lemma BridgedReads(file: Option<string>, config: Env)
    requires AllGood(NonEmpty(config))
    ensures var existing := if file.Some? then Read(file.value) else map[];
            Read(Bridged(file, config)) == NonEmpty(Unowned(existing) + config)
  {
    hide Good, Read, EnvText, IsBridgeOwned;
    var existing: Env := if file.Some? then Read(file.value) else map[];
    if file.Some? {
      ReadGood(file.value);
    }
    assert AllGood(existing);
    GoodTogether(existing, config);
    EnvRoundTripIff(Unowned(existing) + config);
  }

  lemma GoodTogether(existing: Env, config: Env)
    requires AllGood(existing) && AllGood(NonEmpty(config))
    ensures AllGood(NonEmpty(Unowned(existing) + config))
  {
    hide Good, IsBridgeOwned;
    var merged := Unowned(existing) + config;
    forall k | k in NonEmpty(merged) ensures Good(k, merged[k]) {
      if k in config {
        assert k in NonEmpty(config);
      }
    }
  }

  lemma ReadGood(text: string)
    ensures AllGood(Read(text))
  {
    hide ReadLines, SplitLines, Good;
    ReadIsGood(SplitLines(text));
  }

  lemma TextOfNonEmpty(a: Env, b: Env)
    requires NonEmpty(a) == NonEmpty(b)
    ensures EnvText(a) == EnvText(b)
  {
    hide NonEmpty, HEADER, EntryLines, Join, Listing;
  }

  /** Bridging twice with the same configuration is bridging once. */
  lemma BridgeTwice(file: Option<string>, config: Env)
    requires AllGood(NonEmpty(config))
    ensures Bridged(Some(Bridged(file, config)), config) == Bridged(file, config)
  {
    hide Good, Read, EnvText, IsBridgeOwned;
    var existing: Env := if file.Some? then Read(file.value) else map[];
    BridgedReads(file, config);
    TextOfNonEmpty(Unowned(Read(Bridged(file, config))) + config, Unowned(existing) + config);
  }

  /** After the bridge: a key that the configuration sets has the configuration's value; a user's
      key keeps its own; an owned key that the configuration does not set is gone. */
  lemma KeysAfterBridge(text: string, config: Env, key: string)
    requires AllGood(NonEmpty(config))
    ensures var before, after := Read(text), Read(Bridged(Some(text), config));
            && (key in after <==>
                  (key in config && config[key] != "")
                  || (key !in config && key in before && before[key] != ""
                      && key !in {"OPENAI_API_KEY", "OPENAI_BASE_URL", "HERMES_DEFAULT_MODEL"} && !("MATRIX_" <= key)))
            && (key in after ==> after[key] == if key in config then config[key] else before[key])
  {
    OwnedKeys(key);
    hide Good, Read, EnvText, IsBridgeOwned, Bridged;
    BridgedReads(Some(text), config);
    var before := Read(text);
    var merged := Unowned(before) + config;
    assert Read(Bridged(Some(text), config)) == NonEmpty(merged);
    assert key in merged <==> key in config || (key in before && !IsBridgeOwned(key));
    assert key in merged ==> merged[key] == if key in config then config[key] else before[key];
  }
}
