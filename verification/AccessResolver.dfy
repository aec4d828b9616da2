/** Resolving the access entries of workers, team members and managers
    (hiclaw-controller/internal/accessresolver/resolver.go). */
module AccessResolver {
  import opened Text

  // --------------------------------------------------------------------------
  // Template variables
  // --------------------------------------------------------------------------

  const NAME_VAR := "${self.name}"
  const KIND_VAR := "${self.kind}"
  const NAMESPACE_VAR := "${self.namespace}"
  const TEAM_VAR := "${self.team}"

  datatype TemplateCtx = TemplateCtx(kind: string, name: string, namespace: string, team: string)

  function Expanded(t: TemplateCtx, s: string): string {
    ReplaceAll(ReplaceAll(ReplaceAll(ReplaceAll(s, NAME_VAR, t.name), KIND_VAR, t.kind), NAMESPACE_VAR, t.namespace),
               TEAM_VAR, t.team)
  }

  /** A template as it is meant: literal text and variables. */
  datatype Variable = SelfName | SelfKind | SelfNamespace | SelfTeam

  datatype Piece = Literal(text: string) | Use(variable: Variable)

  function Pattern(x: Variable): (r: string)
    ensures r != []
  {
    match x
    case SelfName => NAME_VAR
    case SelfKind => KIND_VAR
    case SelfNamespace => NAMESPACE_VAR
    case SelfTeam => TEAM_VAR
  }

  function ValueOf(t: TemplateCtx, x: Variable): string {
    match x
    case SelfName => t.name
    case SelfKind => t.kind
    case SelfNamespace => t.namespace
    case SelfTeam => t.team
  }

  /** The template's text. */
  function Written(pieces: seq<Piece>): string {
    if pieces == [] then ""
    else (match pieces[0] case Literal(text) => text case Use(x) => Pattern(x)) + Written(pieces[1..])
  }

  /** Every variable replaced by its value, all at once. */
  function Meant(t: TemplateCtx, pieces: seq<Piece>): string {
    if pieces == [] then ""
    else (match pieces[0] case Literal(text) => text case Use(x) => ValueOf(t, x)) + Meant(t, pieces[1..])
  }

  function Filled(pieces: seq<Piece>, x: Variable, value: string): seq<Piece> {
    if pieces == [] then []
    else [if pieces[0] == Use(x) then Literal(value) else pieces[0]] + Filled(pieces[1..], x, value)
  }

  predicate NoDollar(s: string) {
    '$' !in s
  }

  /** The replacement of y comes after that of x. */
  predicate Later(x: Variable, y: Variable) {
    match x
    case SelfName => y != SelfName
    case SelfKind => y == SelfNamespace || y == SelfTeam
    case SelfNamespace => y == SelfTeam
    case SelfTeam => false
  }

  /** No occurrence of pat starts in s: it is not in s, and s does not end in the middle of it. */
  predicate NoStart(s: string, pat: string) {
    forall i :: 0 <= i < |s| ==> !(pat <= s[i..]) && !(s[i..] <= pat)
  }

  /** A value that no later replacement finds something in, whatever follows it. */
  ghost predicate SafeValue(x: Variable, value: string) {
    forall y :: Later(x, y) ==> NoStart(value, Pattern(y))
  }

  ghost predicate SafeLiterals(pieces: seq<Piece>) {
    forall text, y :: Literal(text) in pieces ==> NoStart(text, Pattern(y))
  }

  ghost predicate SafeUses(t: TemplateCtx, pieces: seq<Piece>) {
    forall x :: Use(x) in pieces ==> SafeValue(x, ValueOf(t, x))
  }

  lemma NoStartIff(s: string, pat: string)
    requires pat != []
    ensures NoStart(s, pat) <==> forall rest, i {:trigger OccursAt(s + rest, pat, i)} :: 0 <= i < |s| ==> !OccursAt(s + rest, pat, i)
  {
    if NoStart(s, pat) {
      forall rest, i {:trigger OccursAt(s + rest, pat, i)} | 0 <= i < |s| ensures !OccursAt(s + rest, pat, i) {
        if OccursAt(s + rest, pat, i) {
          StartsThere(s, rest, pat, i);
        }
      }
    } else {
      var i, rest := UnsafeAt(s, pat);
      assert OccursAt(s + rest, pat, i);
    }
  }

  /** A text that ends in the middle of the pattern can be completed to an occurrence. */
  lemma UnsafeAt(s: string, pat: string) returns (i: nat, rest: string)
    requires !NoStart(s, pat)
    ensures i < |s| && OccursAt(s + rest, pat, i) && (rest == "" || (|s| - i < |pat| && rest == pat[|s| - i..]))
  {
    i :| 0 <= i < |s| && (pat <= s[i..] || s[i..] <= pat);
    if pat <= s[i..] {
      rest := "";
      assert s + "" == s;
      assert s[i..i + |pat|] == s[i..][..|pat|];
    } else {
      rest := pat[|s| - i..];
      assert (s + rest)[i..i + |pat|] == s[i..] + rest;
    }
  }

  lemma StartsThere(s: string, rest: string, pat: string, i: nat)
    requires i < |s| && OccursAt(s + rest, pat, i)
    ensures pat <= s[i..] || s[i..] <= pat
  {
    assert (s + rest)[i..] == s[i..] + rest;
    assert (s + rest)[i..i + |pat|] == (s[i..] + rest)[..|pat|];
    if |pat| <= |s| - i {
      assert (s[i..] + rest)[..|pat|] == s[i..][..|pat|];
    } else {
      assert pat[..|s| - i] == s[i..];
    }
  }

  /** Text in which the pattern does not start is copied. */
  lemma {:induction false} ReplaceSkipsText(s: string, rest: string, pat: string, sub: string)
    requires pat != [] && NoStart(s, pat)
    ensures ReplaceAll(s + rest, pat, sub) == s + ReplaceAll(rest, pat, sub)
  {
    if s == [] {
      assert s + rest == rest;
    } else {
      hide ReplaceAll, NoStart, StartsWith;
      NoStartTail(s, pat);
      NotAtFront(s, rest, pat);
      ReplaceSkipsText(s[1..], rest, pat, sub);
      ReplaceSkipsChar(s[0], s[1..] + rest, pat, sub);
      FrontAndRest(s, rest);
      FrontAndRest(s, ReplaceAll(rest, pat, sub));
    }
  }

  lemma FrontAndRest(s: string, rest: string)
    requires s != []
    ensures s + rest == [s[0]] + (s[1..] + rest)
  {
  }

  lemma NotAtFront(s: string, rest: string, pat: string)
    requires s != [] && NoStart(s, pat)
    ensures !StartsWith([s[0]] + (s[1..] + rest), pat)
  {
    FrontAndRest(s, rest);
    assert s[0..] == s;
    if StartsWith(s + rest, pat) {
      StartsThere(s, rest, pat, 0);
    }
  }

  lemma NoStartTail(s: string, pat: string)
    requires s != [] && NoStart(s, pat)
    ensures NoStart(s[1..], pat)
  {
    forall i | 0 <= i < |s[1..]| ensures !(pat <= s[1..][i..]) && !(s[1..][i..] <= pat) {
      assert s[1..][i..] == s[i + 1..];
    }
  }

  lemma DollarlessIsSafe(s: string, y: Variable)
    requires NoDollar(s)
    ensures NoStart(s, Pattern(y))
  {
    Patterns(y, y);
    hide Pattern;
    forall i | 0 <= i < |s| ensures !(Pattern(y) <= s[i..]) && !(s[i..] <= Pattern(y)) {
      assert s[i..][0] == s[i];
    }
  }

  lemma NamePattern()
    ensures NAME_VAR[0] == '$' && NoDollar(NAME_VAR[1..]) && |NAME_VAR| == 12 && NAME_VAR[7] == 'n' && NAME_VAR[11] == '}'
  {
  }

  lemma KindPattern()
    ensures KIND_VAR[0] == '$' && NoDollar(KIND_VAR[1..]) && |KIND_VAR| == 12 && KIND_VAR[7] == 'k' && KIND_VAR[11] == '}'
  {
  }

  lemma NamespacePattern()
    ensures NAMESPACE_VAR[0] == '$' && NoDollar(NAMESPACE_VAR[1..]) && |NAMESPACE_VAR| == 17
    ensures NAMESPACE_VAR[7] == 'n' && NAMESPACE_VAR[11] == 's'
  {
  }

  lemma TeamPattern()
    ensures TEAM_VAR[0] == '$' && NoDollar(TEAM_VAR[1..]) && |TEAM_VAR| == 12 && TEAM_VAR[7] == 't' && TEAM_VAR[11] == '}'
  {
  }

  /** No variable's text starts with another's, and the dollar sign is only at its start. */
  lemma Patterns(x: Variable, y: Variable)
    ensures Pattern(x)[0] == '$' && NoDollar(Pattern(x)[1..]) && |Pattern(x)| >= 12
    ensures x != y ==> Pattern(x)[7] != Pattern(y)[7] || Pattern(x)[11] != Pattern(y)[11]
  {
    NamePattern();
    KindPattern();
    NamespacePattern();
    TeamPattern();
    hide NAME_VAR, KIND_VAR, NAMESPACE_VAR, TEAM_VAR, NoDollar;
  }

  lemma OtherVariable(x: Variable, y: Variable, rest: string)
    requires x != y
    ensures !StartsWith(Pattern(y) + rest, Pattern(x))
  {
    Patterns(x, y);
    Patterns(y, x);
    hide Pattern, NoDollar;
    var s := Pattern(y) + rest;
    assert s[7] == Pattern(y)[7] && s[11] == Pattern(y)[11];
    assert |Pattern(x)| <= |s| ==> s[..|Pattern(x)|][7] == s[7] && s[..|Pattern(x)|][11] == s[11];
  }

  /** Replacing one variable leaves the text of another one alone. */
  lemma SkipVariable(x: Variable, y: Variable, rest: string, value: string)
    requires x != y
    ensures ReplaceAll(Pattern(y) + rest, Pattern(x), value) == Pattern(y) + ReplaceAll(rest, Pattern(x), value)
  {
    hide Pattern, ReplaceAll, StartsWith;
    Patterns(x, y);
    Patterns(y, x);
    OtherVariable(x, y, rest);
    var c, tail := Pattern(y)[0], Pattern(y)[1..];
    assert Pattern(y) == [c] + tail;
    assert Pattern(y) + rest == [c] + (tail + rest);
    ReplaceSkipsChar(c, tail + rest, Pattern(x), value);
    ReplaceSkips(tail, rest, Pattern(x), value);
    assert [c] + (tail + ReplaceAll(rest, Pattern(x), value)) == Pattern(y) + ReplaceAll(rest, Pattern(x), value);
  }

  /** One of the four replacements fills in one variable. */
  lemma {:induction false} ReplaceFills(pieces: seq<Piece>, x: Variable, value: string)
    requires forall text :: Literal(text) in pieces ==> NoStart(text, Pattern(x))
    ensures ReplaceAll(Written(pieces), Pattern(x), value) == Written(Filled(pieces, x, value))
  {
    hide Pattern, ReplaceAll, NoStart;
    if pieces == [] {
      assert ReplaceAll("", Pattern(x), value) == "" by { ReplaceEmpty(Pattern(x), value); }
    } else {
      assert pieces == [pieces[0]] + pieces[1..];
      ReplaceFills(pieces[1..], x, value);
      var rest := Written(pieces[1..]);
      match pieces[0] {
        case Literal(text) =>
          ReplaceSkipsText(text, rest, Pattern(x), value);
        case Use(y) =>
          if x == y {
            ReplaceHits(rest, Pattern(x), value);
          } else {
            SkipVariable(x, y, rest, value);
          }
      }
      FilledStep(pieces, x, value);
    }
  }

  /** What stands in a filled template: what stood there before, and the value if it was asked for. */
  lemma {:induction false} FilledHas(pieces: seq<Piece>, x: Variable, value: string)
    ensures forall p :: p in Filled(pieces, x, value) ==> (p in pieces && p != Use(x)) || (p == Literal(value) && Use(x) in pieces)
  {
    if pieces != [] {
      assert pieces == [pieces[0]] + pieces[1..];
      FilledHas(pieces[1..], x, value);
    }
  }

  lemma ReplaceEmpty(pat: string, sub: string)
    requires pat != []
    ensures ReplaceAll("", pat, sub) == ""
  {
  }

  lemma FilledStep(pieces: seq<Piece>, x: Variable, value: string)
    requires pieces != []
    ensures var first := if pieces[0] == Use(x) then Literal(value) else pieces[0];
            && Filled(pieces, x, value) == [first] + Filled(pieces[1..], x, value)
            && Written(Filled(pieces, x, value)) ==
               (match first case Literal(text) => text case Use(y) => Pattern(y)) + Written(Filled(pieces[1..], x, value))
  {
    hide Pattern;
    var first := if pieces[0] == Use(x) then Literal(value) else pieces[0];
    assert ([first] + Filled(pieces[1..], x, value))[1..] == Filled(pieces[1..], x, value);
  }

  lemma {:induction false} FillingMeans(t: TemplateCtx, pieces: seq<Piece>)
    ensures Written(Filled(Filled(Filled(Filled(pieces, SelfName, t.name), SelfKind, t.kind),
                                  SelfNamespace, t.namespace), SelfTeam, t.team)) == Meant(t, pieces)
  {
    hide Pattern;
    if pieces != [] {
      FillingMeans(t, pieces[1..]);
      var a := Filled(pieces, SelfName, t.name);
      var b := Filled(a, SelfKind, t.kind);
      var c := Filled(b, SelfNamespace, t.namespace);
      FilledStep(pieces, SelfName, t.name);
      FilledStep(a, SelfKind, t.kind);
      FilledStep(b, SelfNamespace, t.namespace);
      FilledStep(c, SelfTeam, t.team);
    }
  }

  /** The four replacements in a row are one simultaneous substitution. */
  lemma ExpandIsSubstitution(t: TemplateCtx, pieces: seq<Piece>)
    requires SafeLiterals(pieces) && SafeUses(t, pieces)
    ensures Expanded(t, Written(pieces)) == Meant(t, pieces)
  {
    hide Written, Meant, Filled, ReplaceAll, NoStart, NAME_VAR, KIND_VAR, NAMESPACE_VAR, TEAM_VAR;
    var a := Filled(pieces, SelfName, t.name);
    var b := Filled(a, SelfKind, t.kind);
    var c := Filled(b, SelfNamespace, t.namespace);
    FilledHas(pieces, SelfName, t.name);
    FilledHas(a, SelfKind, t.kind);
    FilledHas(b, SelfNamespace, t.namespace);
    ReplaceFills(pieces, SelfName, t.name);
    ReplaceFills(a, SelfKind, t.kind);
    ReplaceFills(b, SelfNamespace, t.namespace);
    ReplaceFills(c, SelfTeam, t.team);
    FillingMeans(t, pieces);
  }

  /** templateCtx.expand: four replacements, one after the other. */
  method Expand(t: TemplateCtx, s0: string) returns (s: string)
    ensures s == Expanded(t, s0)
    ensures forall pieces :: s0 == Written(pieces) && SafeLiterals(pieces) && SafeUses(t, pieces) ==> s == Meant(t, pieces)
  {
    hide ReplaceAll, SafeLiterals, SafeUses, Written, Meant, NAME_VAR, KIND_VAR, NAMESPACE_VAR, TEAM_VAR;
    s := s0;
    s := ReplaceAll(s, Pattern(SelfName), t.name);
    s := ReplaceAll(s, Pattern(SelfKind), t.kind);
    s := ReplaceAll(s, Pattern(SelfNamespace), t.namespace);
    s := ReplaceAll(s, Pattern(SelfTeam), t.team);
    forall pieces | s0 == Written(pieces) && SafeLiterals(pieces) && SafeUses(t, pieces) ensures s == Meant(t, pieces) {
      ExpandIsSubstitution(t, pieces);
    }
  }

  // Which values are safe

  /** Replacing by nothing shortens a text that holds the pattern, and copies any other. */
  lemma {:induction false} ReplaceByNothing(s: string, pat: string)
    requires pat != []
    ensures |ReplaceAll(s, pat, "")| <= |s|
    ensures (exists i :: OccursAt(s, pat, i)) ==> |ReplaceAll(s, pat, "")| < |s|
    ensures (forall i :: !OccursAt(s, pat, i)) ==> ReplaceAll(s, pat, "") == s
    decreases |s|
  {
    if |s| >= |pat| {
      if s[..|pat|] == pat {
        assert OccursAt(s, pat, 0);
        ReplaceByNothing(s[|pat|..], pat);
      } else {
        ReplaceByNothing(s[1..], pat);
        assert s == [s[0]] + s[1..];
        if i :| OccursAt(s, pat, i) {
          OccursInParts([s[0]], s[1..], pat, i);
          assert OccursAt(s[1..], pat, i - 1);
        } else {
          forall i ensures !OccursAt(s[1..], pat, i) {
            OccursInParts([s[0]], s[1..], pat, i);
            assert !OccursAt(s, pat, 1 + i);
          }
        }
      }
    }
  }

  /** One more replacement by nothing. */
  lemma StillShorter(s: string, pat: string, bound: string)
    requires pat != [] && (|s| < |bound| || s == bound)
    ensures var r := ReplaceAll(s, pat, ""); |r| < |bound| || (r == s == bound && forall i :: !OccursAt(bound, pat, i))
  {
    hide ReplaceAll, OccursAt;
    ReplaceByNothing(s, pat);
  }

  function EmptyCtx(x: Variable, value: string): TemplateCtx {
    match x
    case SelfName => TemplateCtx("", value, "", "")
    case SelfKind => TemplateCtx(value, "", "", "")
    case SelfNamespace => TemplateCtx("", "", value, "")
    case SelfTeam => TemplateCtx("", "", "", value)
  }

  /** A variable's text stays as it is in the replacements of other variables. */
  lemma Untouched(x: Variable, y: Variable, rest: string, value: string)
    requires x != y && NoDollar(rest)
    ensures ReplaceAll(Pattern(x) + rest, Pattern(y), value) == Pattern(x) + rest
  {
    hide Pattern, ReplaceAll, NoDollar;
    SkipVariable(y, x, rest, value);
    DollarlessIsSafe(rest, y);
    ReplaceSkipsText(rest, "", Pattern(y), value);
    ReplaceEmpty(Pattern(y), value);
    assert rest + "" == rest;
  }

  lemma Uncovered(x: Variable, rest: string, value: string)
    requires NoDollar(rest)
    ensures ReplaceAll(Pattern(x) + rest, Pattern(x), value) == value + rest
  {
    hide Pattern, ReplaceAll, NoDollar;
    ReplaceHits(rest, Pattern(x), value);
    DollarlessIsSafe(rest, x);
    ReplaceSkipsText(rest, "", Pattern(x), value);
    ReplaceEmpty(Pattern(x), value);
    assert rest + "" == rest;
  }

  /** With nothing in the other variables, what a later replacement finds in the value is lost. */
  lemma LaterFindShortens(x: Variable, y: Variable, value: string, rest: string, i: nat)
    requires Later(x, y) && NoDollar(rest) && OccursAt(value + rest, Pattern(y), i)
    ensures |Expanded(EmptyCtx(x, value), Pattern(x) + rest)| < |value + rest|
  {
    hide ReplaceAll, OccursAt, NAME_VAR, KIND_VAR, NAMESPACE_VAR, TEAM_VAR, NoDollar;
    var s := value + rest;
    Uncovered(x, rest, value);
    match x {
      case SelfName =>
        var a := ReplaceAll(s, Pattern(SelfKind), "");
        var b := ReplaceAll(a, Pattern(SelfNamespace), "");
        StillShorter(s, Pattern(SelfKind), s);
        StillShorter(a, Pattern(SelfNamespace), s);
        StillShorter(b, Pattern(SelfTeam), s);
      case SelfKind =>
        Untouched(x, SelfName, rest, "");
        var b := ReplaceAll(s, Pattern(SelfNamespace), "");
        StillShorter(s, Pattern(SelfNamespace), s);
        StillShorter(b, Pattern(SelfTeam), s);
      case SelfNamespace =>
        Untouched(x, SelfName, rest, "");
        Untouched(x, SelfKind, rest, "");
        StillShorter(s, Pattern(SelfTeam), s);
    }
  }

  lemma UseThenText(t: TemplateCtx, x: Variable, rest: string)
    ensures var pieces := [Use(x), Literal(rest)];
            Written(pieces) == Pattern(x) + rest && Meant(t, pieces) == ValueOf(t, x) + rest
  {
    hide Pattern;
    var pieces := [Use(x), Literal(rest)];
    assert pieces[1..] == [Literal(rest)] && pieces[1..][1..] == [];
    assert Written(pieces[1..]) == rest + "" && Meant(t, pieces[1..]) == rest + "";
  }

  lemma EndOfPattern(y: Variable, n: nat)
    requires 0 < n <= |Pattern(y)|
    ensures NoDollar(Pattern(y)[n..])
  {
    Patterns(y, y);
    hide Pattern;
    assert Pattern(y)[n..] == Pattern(y)[1..][n - 1..];
  }

  lemma NothingIsDollarless()
    ensures NoDollar("")
  {
  }

  lemma EmptyCtxIs(x: Variable, value: string)
    ensures ValueOf(EmptyCtx(x, value), x) == value
    ensures forall y :: y != x ==> ValueOf(EmptyCtx(x, value), y) == ""
  {
  }

  /** A value that is not safe spoils some template, even with nothing in the other variables. */
  lemma UnsafeValueShows(x: Variable, value: string) returns (pieces: seq<Piece>)
    requires !SafeValue(x, value)
    ensures SafeLiterals(pieces) && Expanded(EmptyCtx(x, value), Written(pieces)) != Meant(EmptyCtx(x, value), pieces)
  {
    hide Pattern, Expanded, Written, Meant, NoStart, NoDollar;
    var y :| Later(x, y) && !NoStart(value, Pattern(y));
    Patterns(y, y);
    var i, rest := UnsafeAt(value, Pattern(y));
    if rest != "" {
      EndOfPattern(y, |value| - i);
    }
    NothingIsDollarless();
    pieces := [Use(x), Literal(rest)];
    forall text, z | Literal(text) in pieces ensures NoStart(text, Pattern(z)) {
      DollarlessIsSafe(text, z);
    }
    EmptyCtxIs(x, value);
    UseThenText(EmptyCtx(x, value), x, rest);
    LaterFindShortens(x, y, value, rest, i);
  }

  /** A value is safe exactly when it never spoils a template, the other values being plain. */
  lemma SafeValueIff(x: Variable, value: string)
    ensures SafeValue(x, value) <==>
            forall t, pieces :: ValueOf(t, x) == value && (forall y :: y != x ==> NoDollar(ValueOf(t, y))) && SafeLiterals(pieces) ==>
              Expanded(t, Written(pieces)) == Meant(t, pieces)
  {
    hide Pattern, Expanded, Written, Meant, NoStart, SafeLiterals;
    if SafeValue(x, value) {
      forall t, pieces | ValueOf(t, x) == value && (forall y :: y != x ==> NoDollar(ValueOf(t, y))) && SafeLiterals(pieces)
        ensures Expanded(t, Written(pieces)) == Meant(t, pieces)
      {
        forall y, z | y != x ensures NoStart(ValueOf(t, y), Pattern(z)) {
          DollarlessIsSafe(ValueOf(t, y), z);
        }
        ExpandIsSubstitution(t, pieces);
      }
    } else {
      EmptyCtxIs(x, value);
      var pieces := UnsafeValueShows(x, value);
    }
  }

  /** A value with a variable in it is expanded again by a later replacement. */
  lemma ValuesExpandAgain(t: TemplateCtx)
    requires t.name == TEAM_VAR
    ensures Expanded(t, Written([Use(SelfName)])) == t.team
    ensures Meant(t, [Use(SelfName)]) == TEAM_VAR
  {
    assert [Use(SelfName)][1..] == [];
    hide ReplaceAll, NAME_VAR, KIND_VAR, NAMESPACE_VAR, TEAM_VAR;
    assert Written([Use(SelfName)]) == NAME_VAR + "";
    Alone(SelfName, t.name);
    assert TEAM_VAR + "" == TEAM_VAR;
    SkipVariable(SelfKind, SelfTeam, "", t.kind);
    ReplaceEmpty(Pattern(SelfKind), t.kind);
    SkipVariable(SelfNamespace, SelfTeam, "", t.namespace);
    ReplaceEmpty(Pattern(SelfNamespace), t.namespace);
    Alone(SelfTeam, t.team);
  }

  lemma Alone(x: Variable, value: string)
    ensures ReplaceAll(Pattern(x), Pattern(x), value) == value
  {
    hide ReplaceAll, Pattern;
    ReplaceHits("", Pattern(x), value);
    ReplaceEmpty(Pattern(x), value);
    assert Pattern(x) + "" == Pattern(x);
    assert value + "" == value;
  }

  lemma JoinedText()
    ensures "${self." + "kind" + "}" == KIND_VAR
    ensures "${self." == "$" + "{self." && NoDollar("{self.") && NoDollar("}")
  {
  }

  /** A literal that ends in the middle of a variable is completed by a plain value. */
  lemma LiteralsCanJoin(t: TemplateCtx)
    requires t.name == "kind" && NoDollar(t.kind)
    ensures Expanded(t, Written([Literal("${self."), Use(SelfName), Literal("}")])) == t.kind
    ensures Meant(t, [Literal("${self."), Use(SelfName), Literal("}")]) == KIND_VAR
  {
    JoinedText();
    NamePattern();
    ThreePieces(t, "${self.", SelfName, "}");
    hide ReplaceAll, Written, Meant, NAME_VAR, KIND_VAR, NAMESPACE_VAR, TEAM_VAR, NoDollar, StartsWith;
    var rest := "{self." + (NAME_VAR + "}");
    assert "${self." + NAME_VAR + "}" == "$" + rest;
    SeventhDiffers(rest);
    ReplaceSkipsChar('$', rest, NAME_VAR, t.name);
    NoDollarSkips("{self.", NAME_VAR + "}", NAME_VAR, t.name);
    Uncovered(SelfName, "}", t.name);
    assert "$" + ("{self." + (t.name + "}")) == KIND_VAR;
    Alone(SelfKind, t.kind);
    Unchanged(t.kind, SelfNamespace, t.namespace);
    Unchanged(t.kind, SelfTeam, t.team);
  }

  lemma SeventhDiffers(rest: string)
    requires |rest| > 6 && rest[6] == '$'
    ensures !StartsWith(['$'] + rest, NAME_VAR)
  {
    NamePattern();
    hide NAME_VAR;
    var s := ['$'] + rest;
    assert s[7] == '$';
    assert |NAME_VAR| <= |s| ==> s[..|NAME_VAR|][7] == s[7];
  }

  lemma NoDollarSkips(a: string, rest: string, pat: string, sub: string)
    requires NoDollar(a) && pat != [] && pat[0] == '$'
    ensures ReplaceAll(a + rest, pat, sub) == a + ReplaceAll(rest, pat, sub)
  {
    ReplaceSkips(a, rest, pat, sub);
  }

  lemma Unchanged(s: string, x: Variable, value: string)
    requires NoDollar(s)
    ensures ReplaceAll(s, Pattern(x), value) == s
  {
    hide ReplaceAll, Pattern, NoStart;
    DollarlessIsSafe(s, x);
    ReplaceSkipsText(s, "", Pattern(x), value);
    ReplaceEmpty(Pattern(x), value);
    assert s + "" == s;
  }

  // --------------------------------------------------------------------------
  // Entries
  // --------------------------------------------------------------------------

  const OBJECT_STORAGE := "object-storage"
  const AI_GATEWAY := "ai-gateway"
  const AI_REGISTRY := "ai-registry"

  /** An entry's scope, with the fields that the three services read; Undecodable is JSON that does
      not fit the entry's own service. */
  datatype Scope =
    | Absent
    | Undecodable
    | Fields(bucketRef: string, bucket: string, prefixes: seq<string>, gatewayRef: string, gatewayId: string,
             namespaceId: string, resources: seq<string>)

  datatype AccessEntry = AccessEntry(service: string, permissions: seq<string>, scope: Scope)

  datatype Resolved =
    | Storage(permissions: seq<string>, bucket: string, prefixes: seq<string>)
    | Gateway(permissions: seq<string>, gatewayId: string, resources: seq<string>)
    | Registry(permissions: seq<string>, namespaceId: string, resources: seq<string>)

  datatype Config = Config(defaultBucket: string, defaultGatewayId: string)

  datatype Problem =
    | EmptyScope | BadScope | NoBucket | UnknownBucketRef(ref: string) | NoPrefixes
    | NoGateway | UnknownGatewayRef(ref: string) | NoNamespace
    | MissingService | UnsupportedService(service: string)

  function ExpandAll(t: TemplateCtx, xs: seq<string>): (r: seq<string>)
    ensures |r| == |xs| && forall i :: 0 <= i < |xs| ==> r[i] == Expanded(t, xs[i])
  {
    seq(|xs|, i requires 0 <= i < |xs| => Expanded(t, xs[i]))
  }

  /** strings.TrimSpace */
  function TrimSpace(s: string): string {
    Trim(s, IsGoSpace)
  }

  function ResolveStorage(cfg: Config, e: AccessEntry, t: TemplateCtx): Result<Resolved, Problem> {
    match e.scope
    case Absent => Err(EmptyScope)
    case Undecodable => Err(BadScope)
    case Fields(bucketRef, bucket0, prefixes, _, _, _, _) =>
      var bucket := TrimSpace(bucket0);
      if bucket == "" && bucketRef != "" && bucketRef != "workspace" then Err(UnknownBucketRef(bucketRef))
      else if bucket == "" && cfg.defaultBucket == "" then Err(NoBucket)
      else if prefixes == [] then Err(NoPrefixes)
      else Ok(Storage(e.permissions, if bucket == "" then cfg.defaultBucket else bucket, ExpandAll(t, prefixes)))
  }

  function ResolveGateway(cfg: Config, e: AccessEntry, t: TemplateCtx): Result<Resolved, Problem> {
    match e.scope
    case Absent => Err(EmptyScope)
    case Undecodable => Err(BadScope)
    case Fields(_, _, _, gatewayRef, gatewayId0, _, resources) =>
      var gatewayId := TrimSpace(gatewayId0);
      if gatewayId == "" && gatewayRef != "" && gatewayRef != "default" then Err(UnknownGatewayRef(gatewayRef))
      else if gatewayId == "" && cfg.defaultGatewayId == "" then Err(NoGateway)
      else Ok(Gateway(e.permissions, if gatewayId == "" then cfg.defaultGatewayId else gatewayId,
                      if resources == [] then ["*"] else ExpandAll(t, resources)))
  }

  function ResolveRegistry(e: AccessEntry, t: TemplateCtx): Result<Resolved, Problem> {
    match e.scope
    case Absent => Err(EmptyScope)
    case Undecodable => Err(BadScope)
    case Fields(_, _, _, _, _, namespaceId0, resources) =>
      var namespaceId := TrimSpace(Expanded(t, namespaceId0));
      if namespaceId == "" then Err(NoNamespace)
      else Ok(Registry(e.permissions, namespaceId,
                       if resources == [] then ["agentSpec/*", "skill/*"] else ExpandAll(t, resources)))
  }

  function ResolveEntry(cfg: Config, e: AccessEntry, t: TemplateCtx): Result<Resolved, Problem> {
    if e.service == OBJECT_STORAGE then ResolveStorage(cfg, e, t)
    else if e.service == AI_GATEWAY then ResolveGateway(cfg, e, t)
    else if e.service == AI_REGISTRY then ResolveRegistry(e, t)
    else if e.service == "" then Err(MissingService)
    else Err(UnsupportedService(e.service))
  }

  /** Which entry failed, and how. */
  datatype Failure = Failure(index: nat, problem: Problem)

  /** resolveEntries: all entries in order, or the first failure. */
  method ResolveEntries(cfg: Config, entries: seq<AccessEntry>, t: TemplateCtx)
    returns (r: Result<seq<Resolved>, Failure>)
    ensures r == Resolution(cfg, entries, t)
    ensures r.Ok? ==>
              && |r.value| == |entries|
              && forall i :: 0 <= i < |entries| ==> ResolveEntry(cfg, entries[i], t) == Ok(r.value[i])
    ensures r.Err? ==>
              && r.error.index < |entries|
              && ResolveEntry(cfg, entries[r.error.index], t) == Err(r.error.problem)
              && forall i :: 0 <= i < r.error.index ==> ResolveEntry(cfg, entries[i], t).Ok?
  {
    hide ResolveEntry;
    var out := [];
    for i := 0 to |entries|
      invariant |out| == i && forall j :: 0 <= j < i ==> ResolveEntry(cfg, entries[j], t) == Ok(out[j])
      invariant Resolution(cfg, entries[..i], t) == Ok(out)
    {
      var entry := ResolveEntry(cfg, entries[i], t);
      assert entries[..i + 1][..i] == entries[..i];
      if entry.Err? {
        FailsAt(cfg, entries, t, i);
        return Err(Failure(i, entry.error));
      }
      out := out + [entry.value];
    }
    assert entries[..|entries|] == entries;
    r := Ok(out);
  }

  function Resolution(cfg: Config, entries: seq<AccessEntry>, t: TemplateCtx): Result<seq<Resolved>, Failure> {
    if entries == [] then Ok([])
    else
      var n := |entries| - 1;
      match Resolution(cfg, entries[..n], t)
      case Err(e) => Err(e)
      case Ok(out) =>
        match ResolveEntry(cfg, entries[n], t)
        case Err(p) => Err(Failure(n, p))
        case Ok(r) => Ok(out + [r])
  }

  lemma {:induction false} FailsAt(cfg: Config, entries: seq<AccessEntry>, t: TemplateCtx, i: nat)
    requires i < |entries| && Resolution(cfg, entries[..i], t).Ok? && ResolveEntry(cfg, entries[i], t).Err?
    ensures Resolution(cfg, entries, t) == Err(Failure(i, ResolveEntry(cfg, entries[i], t).error))
    decreases |entries|
  {
    hide ResolveEntry;
    var n := |entries| - 1;
    if i < n {
      assert entries[..n][..i] == entries[..i];
      FailsAt(cfg, entries[..n], t, i);
    }
  }

  /** A success keeps the number and the order of the entries. */
  lemma {:induction false} ResolutionIs(cfg: Config, entries: seq<AccessEntry>, t: TemplateCtx)
    requires Resolution(cfg, entries, t).Ok?
    ensures var out := Resolution(cfg, entries, t).value;
            && |out| == |entries|
            && forall i :: 0 <= i < |entries| ==> ResolveEntry(cfg, entries[i], t) == Ok(out[i])
  {
    hide ResolveEntry;
    if entries != [] {
      var n := |entries| - 1;
      ResolutionIs(cfg, entries[..n], t);
      assert forall i :: 0 <= i < n ==> entries[..n][i] == entries[i];
    }
  }

  // --------------------------------------------------------------------------
  // Defaults
  // --------------------------------------------------------------------------

  const ALL_PERMISSIONS := ["read", "write", "list", "delete"]

  function WorkspaceEntry(prefixes: seq<string>): AccessEntry {
    AccessEntry(OBJECT_STORAGE, ALL_PERMISSIONS, Fields("workspace", "", prefixes, "", "", "", []))
  }

  const OWN_PREFIX := "agents/${self.name}/*"
  const SHARED_PREFIX := "shared/*"
  const TEAM_PREFIX := "teams/${self.team}/*"
  const MANAGER_PREFIX := "manager/*"

  const WORKER_DEFAULTS := [WorkspaceEntry([OWN_PREFIX, SHARED_PREFIX])]
  const MEMBER_DEFAULTS := [WorkspaceEntry([OWN_PREFIX, SHARED_PREFIX, TEAM_PREFIX])]
  const MANAGER_DEFAULTS := [WorkspaceEntry([OWN_PREFIX, SHARED_PREFIX, MANAGER_PREFIX])]

  predicate HasService(entries: seq<AccessEntry>, service: string) {
    exists i :: 0 <= i < |entries| && entries[i].service == service
  }

  /** The entries of the resource, with the defaults in front unless it asks for object storage
      itself. */
  function Effective(entries: seq<AccessEntry>, defaults: seq<AccessEntry>): seq<AccessEntry> {
    if entries == [] then defaults
    else if !HasService(entries, OBJECT_STORAGE) then defaults + entries
    else entries
  }

  /** What the cluster answers: the error of Failed is one other than "not found". */
  datatype Answer<T> = Found(value: T) | NotFound | Failed(error: string)

  datatype Member = Member(name: string, workerName: string, entries: seq<AccessEntry>)

  datatype Team = Team(name: string, teamName: string, leader: Member, workers: seq<Member>)

  datatype Refusal = EmptyName | EmptyTeam | Unreachable(error: string) | BadEntry(failure: Failure)

  function OrElse(s: string, other: string): string {
    if s != "" then s else other
  }

  predicate IsMember(m: Member, name: string) {
    m.name == name || (m.workerName != "" && m.workerName == name)
  }

  function Checked(r: Result<seq<Resolved>, Failure>): Result<seq<Resolved>, Refusal> {
    match r
    case Ok(out) => Ok(out)
    case Err(f) => Err(BadEntry(f))
  }

  /** resolveWorker; the resource's own name and worker name are in Member. */
  function WorkerPlan(name: string, namespace: string, cr: Answer<Member>): (seq<AccessEntry>, TemplateCtx) {
    var entries := if cr.Found? then cr.value.entries else [];
    var runtimeName := if cr.Found? && cr.value.name != "" then OrElse(cr.value.workerName, cr.value.name) else name;
    (Effective(entries, WORKER_DEFAULTS), TemplateCtx("Worker", runtimeName, namespace, ""))
  }

  function ResolveWorker(cfg: Config, name: string, namespace: string, cr: Answer<Member>): Result<seq<Resolved>, Refusal> {
    if name == "" then Err(EmptyName)
    else if cr.Failed? then Err(Unreachable(cr.error))
    else
      var (entries, t) := WorkerPlan(name, namespace, cr);
      Checked(Resolution(cfg, entries, t))
  }

  /** The leader if the name is the leader's, else the first worker it fits. */
  function FindMember(team: Team, name: string): (string, Option<Member>) {
    if IsMember(team.leader, name) then ("TeamLeader", Some(team.leader))
    else
      var k := FirstIndex(team.workers, w => IsMember(w, name));
      ("TeamWorker", if k < |team.workers| then Some(team.workers[k]) else None)
  }

  const NO_TEAM := Team("", "", Member("", "", []), [])

  function MemberPlan(name: string, teamName: string, namespace: string, cr: Answer<Team>): (seq<AccessEntry>, TemplateCtx) {
    var team := if cr.Found? then cr.value else NO_TEAM;
    var (kind, member) := FindMember(team, name);
    var entries := if member.Some? then member.value.entries else [];
    var runtimeName := if member.Some? then OrElse(member.value.workerName, member.value.name) else name;
    var runtimeTeam := if team.name != "" then OrElse(team.teamName, team.name) else teamName;
    (Effective(entries, MEMBER_DEFAULTS), TemplateCtx(kind, runtimeName, namespace, runtimeTeam))
  }

  function ResolveTeamMember(cfg: Config, name: string, teamName: string, namespace: string, cr: Answer<Team>)
    : Result<seq<Resolved>, Refusal>
  {
    if name == "" then Err(EmptyName)
    else if teamName == "" then Err(EmptyTeam)
    else if cr.Failed? then Err(Unreachable(cr.error))
    else
      var (entries, t) := MemberPlan(name, teamName, namespace, cr);
      Checked(Resolution(cfg, entries, t))
  }

  /** resolveManager; an empty name means "manager". */
  function ManagerPlan(name: string, namespace: string, cr: Answer<seq<AccessEntry>>): (seq<AccessEntry>, TemplateCtx) {
    (Effective(if cr.Found? then cr.value else [], MANAGER_DEFAULTS),
     TemplateCtx("Manager", OrElse(name, "manager"), namespace, ""))
  }

  function ResolveManager(cfg: Config, name: string, namespace: string, cr: Answer<seq<AccessEntry>>)
    : Result<seq<Resolved>, Refusal>
  {
    if cr.Failed? then Err(Unreachable(cr.error))
    else
      var (entries, t) := ManagerPlan(name, namespace, cr);
      Checked(Resolution(cfg, entries, t))
  }

  // --------------------------------------------------------------------------
  // What every success holds
  // --------------------------------------------------------------------------

  predicate GrantsStorage(out: seq<Resolved>) {
    exists i :: 0 <= i < |out| && out[i].Storage? && out[i].prefixes != [] && out[i].bucket != ""
  }

  /** A storage entry: it needs prefixes, and a bucket, its own or the workspace's. */
  lemma StorageResolved(cfg: Config, e: AccessEntry, t: TemplateCtx)
    requires e.service == "object-storage"
    ensures ResolveEntry(cfg, e, t).Ok? <==>
            && e.scope.Fields? && e.scope.prefixes != []
            && (Trim(e.scope.bucket, IsGoSpace) != "" || (e.scope.bucketRef in {"", "workspace"} && cfg.defaultBucket != ""))
    ensures ResolveEntry(cfg, e, t).Ok? ==>
              var r := ResolveEntry(cfg, e, t).value;
              && r.Storage? && r.permissions == e.permissions && r.prefixes != [] && r.bucket != ""
              && r.bucket == (if Trim(e.scope.bucket, IsGoSpace) == "" then cfg.defaultBucket else Trim(e.scope.bucket, IsGoSpace))
              && |r.prefixes| == |e.scope.prefixes|
              && forall j :: 0 <= j < |r.prefixes| ==> r.prefixes[j] == Expanded(t, e.scope.prefixes[j])
  {
    ServicesDiffer();
    hide Trim, Expanded, OBJECT_STORAGE, AI_GATEWAY, AI_REGISTRY;
  }

  lemma ServicesDiffer()
    ensures OBJECT_STORAGE == "object-storage" && AI_GATEWAY == "ai-gateway" && AI_REGISTRY == "ai-registry"
    ensures OBJECT_STORAGE != AI_GATEWAY && OBJECT_STORAGE != AI_REGISTRY && AI_GATEWAY != AI_REGISTRY
    ensures OBJECT_STORAGE != "" && AI_GATEWAY != "" && AI_REGISTRY != ""
  {
    assert OBJECT_STORAGE[0] == 'o' && AI_GATEWAY[3] == 'g' && AI_REGISTRY[3] == 'r' && AI_GATEWAY[0] == 'a' && AI_REGISTRY[0] == 'a';
  }

  /** A gateway entry: it needs a gateway, its own or the configured one; no resources mean all. */
  lemma GatewayResolved(cfg: Config, e: AccessEntry, t: TemplateCtx)
    requires e.service == "ai-gateway"
    ensures ResolveEntry(cfg, e, t).Ok? <==>
            && e.scope.Fields?
            && (Trim(e.scope.gatewayId, IsGoSpace) != "" || (e.scope.gatewayRef in {"", "default"} && cfg.defaultGatewayId != ""))
    ensures ResolveEntry(cfg, e, t).Ok? ==>
              var r := ResolveEntry(cfg, e, t).value;
              && r.Gateway? && r.permissions == e.permissions && r.gatewayId != ""
              && r.gatewayId == (if Trim(e.scope.gatewayId, IsGoSpace) == "" then cfg.defaultGatewayId else Trim(e.scope.gatewayId, IsGoSpace))
              && (e.scope.resources == [] ==> r.resources == ["*"])
              && (e.scope.resources != [] ==>
                    && |r.resources| == |e.scope.resources|
                    && forall j :: 0 <= j < |r.resources| ==> r.resources[j] == Expanded(t, e.scope.resources[j]))
  {
    ServicesDiffer();
    hide Trim, Expanded, OBJECT_STORAGE, AI_GATEWAY, AI_REGISTRY;
  }

  /** A registry entry: its namespace, expanded and trimmed, must not be empty. */
  lemma RegistryResolved(cfg: Config, e: AccessEntry, t: TemplateCtx)
    requires e.service == "ai-registry"
    ensures ResolveEntry(cfg, e, t).Ok? <==> e.scope.Fields? && Trim(Expanded(t, e.scope.namespaceId), IsGoSpace) != ""
    ensures ResolveEntry(cfg, e, t).Ok? ==>
              var r := ResolveEntry(cfg, e, t).value;
              && r.Registry? && r.permissions == e.permissions && r.namespaceId == Trim(Expanded(t, e.scope.namespaceId), IsGoSpace)
              && (e.scope.resources == [] ==> r.resources == ["agentSpec/*", "skill/*"])
              && (e.scope.resources != [] ==>
                    && |r.resources| == |e.scope.resources|
                    && forall j :: 0 <= j < |r.resources| ==> r.resources[j] == Expanded(t, e.scope.resources[j]))
  {
    ServicesDiffer();
    hide Trim, Expanded, OBJECT_STORAGE, AI_GATEWAY, AI_REGISTRY;
  }

  /** Why an entry is refused. */
  lemma Refused(cfg: Config, e: AccessEntry, t: TemplateCtx)
    requires e.service in {"object-storage", "ai-gateway", "ai-registry"}
    ensures e.scope.Absent? ==> ResolveEntry(cfg, e, t) == Err(EmptyScope)
    ensures e.scope.Undecodable? ==> ResolveEntry(cfg, e, t) == Err(BadScope)
    ensures e.service == "object-storage" && e.scope.Fields? && ResolveEntry(cfg, e, t).Err? ==>
              ResolveEntry(cfg, e, t).error ==
              (if Trim(e.scope.bucket, IsGoSpace) != "" then NoPrefixes
               else if e.scope.bucketRef !in {"", "workspace"} then UnknownBucketRef(e.scope.bucketRef)
               else if cfg.defaultBucket == "" then NoBucket else NoPrefixes)
    ensures e.service == "ai-gateway" && e.scope.Fields? && ResolveEntry(cfg, e, t).Err? ==>
              ResolveEntry(cfg, e, t).error ==
              if e.scope.gatewayRef in {"", "default"} then NoGateway else UnknownGatewayRef(e.scope.gatewayRef)
    ensures e.service == "ai-registry" && e.scope.Fields? && ResolveEntry(cfg, e, t).Err? ==>
              ResolveEntry(cfg, e, t).error == NoNamespace
  {
    ServicesDiffer();
    hide Trim, Expanded, OBJECT_STORAGE, AI_GATEWAY, AI_REGISTRY;
  }

  lemma OtherServiceRefused(cfg: Config, e: AccessEntry, t: TemplateCtx)
    requires e.service !in {"object-storage", "ai-gateway", "ai-registry"}
    ensures ResolveEntry(cfg, e, t) == Err(if e.service == "" then MissingService else UnsupportedService(e.service))
  {
    ServicesDiffer();
    hide OBJECT_STORAGE, AI_GATEWAY, AI_REGISTRY;
  }

  lemma EffectiveHasStorage(entries: seq<AccessEntry>, defaults: seq<AccessEntry>)
    requires defaults != [] && defaults[0].service == OBJECT_STORAGE
    ensures HasService(Effective(entries, defaults), OBJECT_STORAGE)
    ensures Effective(entries, defaults) == if HasService(entries, OBJECT_STORAGE) then entries else defaults + entries
  {
    hide OBJECT_STORAGE;
    assert (defaults + entries)[0] == defaults[0];
    assert entries == [] ==> defaults + entries == defaults;
  }

  /** Every successful resolution answers the effective entries one for one and grants access to
      object storage under at least one prefix. */
  lemma SuccessGrantsStorage(cfg: Config, entries: seq<AccessEntry>, defaults: seq<AccessEntry>, t: TemplateCtx)
    requires defaults != [] && defaults[0].service == OBJECT_STORAGE
    requires Resolution(cfg, Effective(entries, defaults), t).Ok?
    ensures var out := Resolution(cfg, Effective(entries, defaults), t).value;
            && |out| == |Effective(entries, defaults)|
            && GrantsStorage(out)
            && forall i :: 0 <= i < |out| ==> ResolveEntry(cfg, Effective(entries, defaults)[i], t) == Ok(out[i])
  {
    hide Effective, Resolution, ResolveEntry, OBJECT_STORAGE;
    var effective := Effective(entries, defaults);
    EffectiveHasStorage(entries, defaults);
    ResolutionIs(cfg, effective, t);
    var i :| 0 <= i < |effective| && effective[i].service == OBJECT_STORAGE;
    ServicesDiffer();
    StorageResolved(cfg, effective[i], t);
  }

  /** Workers, team members and managers alike. */
  lemma EveryRoleGrantsStorage(cfg: Config, name: string, teamName: string, namespace: string,
                               worker: Answer<Member>, team: Answer<Team>, manager: Answer<seq<AccessEntry>>)
    ensures var r := ResolveWorker(cfg, name, namespace, worker);
            r.Ok? ==> GrantsStorage(r.value) && |r.value| == |WorkerPlan(name, namespace, worker).0|
    ensures var r := ResolveTeamMember(cfg, name, teamName, namespace, team);
            r.Ok? ==> GrantsStorage(r.value) && |r.value| == |MemberPlan(name, teamName, namespace, team).0|
    ensures var r := ResolveManager(cfg, name, namespace, manager);
            r.Ok? ==> GrantsStorage(r.value) && |r.value| == |ManagerPlan(name, namespace, manager).0|
  {
    hide Effective, Resolution, GrantsStorage, FindMember, OrElse, OWN_PREFIX, SHARED_PREFIX, TEAM_PREFIX, MANAGER_PREFIX;
    if ResolveWorker(cfg, name, namespace, worker).Ok? {
      SuccessGrantsStorage(cfg, if worker.Found? then worker.value.entries else [], WORKER_DEFAULTS,
                           WorkerPlan(name, namespace, worker).1);
    }
    if ResolveTeamMember(cfg, name, teamName, namespace, team).Ok? {
      var member := FindMember(if team.Found? then team.value else NO_TEAM, name).1;
      SuccessGrantsStorage(cfg, if member.Some? then member.value.entries else [], MEMBER_DEFAULTS,
                           MemberPlan(name, teamName, namespace, team).1);
    }
    if ResolveManager(cfg, name, namespace, manager).Ok? {
      SuccessGrantsStorage(cfg, if manager.Found? then manager.value else [], MANAGER_DEFAULTS,
                           ManagerPlan(name, namespace, manager).1);
    }
  }

  lemma OwnPrefix(t: TemplateCtx)
    requires SafeValue(SelfName, t.name)
    ensures Expanded(t, OWN_PREFIX) == "agents/" + t.name + "/*"
    ensures Expanded(t, SHARED_PREFIX) == "shared/*"
    ensures Expanded(t, TEAM_PREFIX) == "teams/" + t.team + "/*"
  {
    OwnPieces(t);
    SharedPieces(t);
    TeamPieces(t);
    hide Written, Meant, Expanded, OWN_PREFIX, SHARED_PREFIX, TEAM_PREFIX, NoStart, SafeLiterals, Pattern;
    ExpandIsSubstitution(t, [Literal("agents/"), Use(SelfName), Literal("/*")]);
    ExpandIsSubstitution(t, [Literal("shared/*")]);
    ExpandIsSubstitution(t, [Literal("teams/"), Use(SelfTeam), Literal("/*")]);
  }

  lemma ThreePieces(t: TemplateCtx, a: string, x: Variable, b: string)
    ensures Written([Literal(a), Use(x), Literal(b)]) == a + Pattern(x) + b
    ensures Meant(t, [Literal(a), Use(x), Literal(b)]) == a + ValueOf(t, x) + b
    ensures NoDollar(a) && NoDollar(b) ==> SafeLiterals([Literal(a), Use(x), Literal(b)])
  {
    hide Pattern, NoStart, NoDollar;
    if NoDollar(a) && NoDollar(b) {
      forall text, y | Literal(text) in [Literal(a), Use(x), Literal(b)] ensures NoStart(text, Pattern(y)) {
        DollarlessIsSafe(text, y);
      }
    }
    var last := [Literal(b)];
    var two := [Use(x)] + last;
    assert last[1..] == [] && two[1..] == last && [Literal(a), Use(x), Literal(b)] == [Literal(a)] + two;
    assert ([Literal(a)] + two)[1..] == two;
    assert Written(last) == b + "" && Meant(t, last) == b + "";
    assert Written(two) == Pattern(x) + Written(last) && Meant(t, two) == ValueOf(t, x) + Meant(t, last);
    assert a + (Pattern(x) + (b + "")) == a + Pattern(x) + b;
    assert a + (ValueOf(t, x) + (b + "")) == a + ValueOf(t, x) + b;
  }

  lemma OwnPieces(t: TemplateCtx)
    ensures var pieces := [Literal("agents/"), Use(SelfName), Literal("/*")];
            SafeLiterals(pieces) && Written(pieces) == OWN_PREFIX && Meant(t, pieces) == "agents/" + t.name + "/*"
  {
    assert NoDollar("agents/") && NoDollar("/*");
    hide Written, Meant, NoStart, SafeLiterals, NoDollar;
    ThreePieces(t, "agents/", SelfName, "/*");
    assert OWN_PREFIX == "agents/" + NAME_VAR + "/*";
  }

  lemma TeamPieces(t: TemplateCtx)
    ensures var pieces := [Literal("teams/"), Use(SelfTeam), Literal("/*")];
            SafeLiterals(pieces) && Written(pieces) == TEAM_PREFIX && Meant(t, pieces) == "teams/" + t.team + "/*"
  {
    assert NoDollar("teams/") && NoDollar("/*");
    hide Written, Meant, NoStart, SafeLiterals, NoDollar;
    ThreePieces(t, "teams/", SelfTeam, "/*");
    assert TEAM_PREFIX == "teams/" + TEAM_VAR + "/*";
  }

  lemma SharedPieces(t: TemplateCtx)
    ensures var pieces := [Literal("shared/*")];
            SafeLiterals(pieces) && Written(pieces) == SHARED_PREFIX && Meant(t, pieces) == "shared/*"
  {
    assert NoDollar("shared/*");
    hide Pattern, NoStart, NoDollar;
    forall text, y | Literal(text) in [Literal("shared/*")] ensures NoStart(text, Pattern(y)) {
      DollarlessIsSafe(text, y);
    }
    assert [Literal("shared/*")][1..] == [];
    assert "shared/*" + "" == "shared/*";
  }

  // --------------------------------------------------------------------------
  // Who gets what
  // --------------------------------------------------------------------------

  /** The spec that a name picks from a team: the leader's before the workers', and among these the
      first one that fits; none if the team is not there or nobody fits. */
  ghost predicate Picks(cr: Answer<Team>, name: string, leads: bool, member: Option<Member>) {
    match member
    case None =>
      && !leads
      && (cr.Found? ==>
            && !(cr.value.leader.name == name || (cr.value.leader.workerName != "" && cr.value.leader.workerName == name))
            && forall k :: 0 <= k < |cr.value.workers| ==>
                 var w := cr.value.workers[k]; !(w.name == name || (w.workerName != "" && w.workerName == name)))
    case Some(m) =>
      && cr.Found?
      && (m.name == name || (m.workerName != "" && m.workerName == name))
      && if leads then m == cr.value.leader
         else
           && !(cr.value.leader.name == name || (cr.value.leader.workerName != "" && cr.value.leader.workerName == name))
           && exists k :: 0 <= k < |cr.value.workers| && cr.value.workers[k] == m
                          && forall j :: 0 <= j < k ==>
                               var w := cr.value.workers[j]; !(w.name == name || (w.workerName != "" && w.workerName == name))
  }

  lemma SomethingIsPicked(cr: Answer<Team>, name: string) returns (leads: bool, member: Option<Member>)
    ensures Picks(cr, name, leads, member)
  {
    leads, member := false, None;
    if cr.Found? {
      if IsMember(cr.value.leader, name) {
        return true, Some(cr.value.leader);
      }
      var k := FirstIndex(cr.value.workers, w => IsMember(w, name));
      if k < |cr.value.workers| {
        member := Some(cr.value.workers[k]);
      }
    }
  }

  /** The name of a member's folder: its worker name or else its name; the caller's if nobody fits. */
  function FolderOf(member: Option<Member>, name: string): string {
    match member
    case None => name
    case Some(m) => if m.workerName == "" then m.name else m.workerName
  }

  /** The name of a team's folder: its team name or else its name; the caller's if it is not there. */
  function TeamFolderOf(cr: Answer<Team>, teamName: string): string {
    if cr.Found? && cr.value.name != "" then (if cr.value.teamName == "" then cr.value.name else cr.value.teamName) else teamName
  }

  function EntriesOf(member: Option<Member>): seq<AccessEntry> {
    match member
    case None => []
    case Some(m) => m.entries
  }

  lemma PickedIs(cr: Answer<Team>, name: string, leads: bool, member: Option<Member>)
    requires Picks(cr, name, leads, member) && name != ""
    ensures FindMember(if cr.Found? then cr.value else NO_TEAM, name) == (if leads then "TeamLeader" else "TeamWorker", member)
  {
    if cr.Found? && !leads {
      var workers := cr.value.workers;
      if member.Some? {
        var k :| 0 <= k < |workers| && workers[k] == member.value && forall j :: 0 <= j < k ==> !IsMember(workers[j], name);
        FirstIndexIs(workers, w => IsMember(w, name), k);
      } else {
        FirstIndexIs(workers, w => IsMember(w, name), |workers|);
      }
    }
  }

  /** What a team member gets: its own entries, with the defaults in front unless it asks for object
      storage, under its kind, its folder's name, the namespace and its team's name. */
  lemma MemberGets(cfg: Config, name: string, teamName: string, namespace: string, cr: Answer<Team>, leads: bool, member: Option<Member>)
    requires name != "" && teamName != "" && !cr.Failed? && Picks(cr, name, leads, member)
    ensures ResolveTeamMember(cfg, name, teamName, namespace, cr) ==
            Checked(Resolution(cfg, Effective(EntriesOf(member), MEMBER_DEFAULTS),
                               TemplateCtx(if leads then "TeamLeader" else "TeamWorker", FolderOf(member, name), namespace,
                                           TeamFolderOf(cr, teamName))))
  {
    hide Picks, FindMember, Resolution, Effective, MEMBER_DEFAULTS, OWN_PREFIX, SHARED_PREFIX, TEAM_PREFIX;
    PickedIs(cr, name, leads, member);
  }

  /** A first entry made of default prefixes. */
  lemma DefaultsFirst(cfg: Config, entries: seq<AccessEntry>, defaults: seq<AccessEntry>, prefixes: seq<string>, t: TemplateCtx)
    requires Resolution(cfg, Effective(entries, defaults), t).Ok? && !HasService(entries, OBJECT_STORAGE)
    requires defaults == [WorkspaceEntry(prefixes)]
    ensures var out := Resolution(cfg, Effective(entries, defaults), t).value;
            && |out| == 1 + |entries|
            && out[0] == Storage(ALL_PERMISSIONS, cfg.defaultBucket, ExpandAll(t, prefixes))
            && forall i :: 0 <= i < |entries| ==> ResolveEntry(cfg, entries[i], t) == Ok(out[i + 1])
  {
    hide Effective, Resolution, Expanded, OBJECT_STORAGE;
    EffectiveHasStorage(entries, defaults);
    var effective := Effective(entries, defaults);
    ResolutionIs(cfg, effective, t);
    assert effective[0] == WorkspaceEntry(prefixes);
    ServicesDiffer();
    StorageResolved(cfg, effective[0], t);
    assert TrimSpace("") == "";
    var out := Resolution(cfg, effective, t).value;
    assert ResolveEntry(cfg, effective[0], t) == Ok(out[0]);
    assert out[0].prefixes == ExpandAll(t, prefixes);
    forall i | 0 <= i < |entries| ensures ResolveEntry(cfg, entries[i], t) == Ok(out[i + 1]) {
      assert effective[i + 1] == entries[i];
      assert ResolveEntry(cfg, effective[i + 1], t) == Ok(out[i + 1]);
    }
  }

  /** A team member that asks for no object storage of its own gets its own agent's folder, the
      shared folder and its team's folder in the workspace bucket, in front of what it asks for. */
  lemma MemberDefaults(cfg: Config, name: string, teamName: string, namespace: string, cr: Answer<Team>, leads: bool, member: Option<Member>)
    requires ResolveTeamMember(cfg, name, teamName, namespace, cr).Ok? && Picks(cr, name, leads, member)
    requires !HasService(EntriesOf(member), OBJECT_STORAGE) && SafeValue(SelfName, FolderOf(member, name))
    ensures var out := ResolveTeamMember(cfg, name, teamName, namespace, cr).value;
            && |out| == 1 + |EntriesOf(member)|
            && out[0] == Storage(["read", "write", "list", "delete"], cfg.defaultBucket,
                                 ["agents/" + FolderOf(member, name) + "/*", "shared/*", "teams/" + TeamFolderOf(cr, teamName) + "/*"])
  {
    hide Resolution, Picks, Effective, FindMember, OBJECT_STORAGE, Expanded, SafeValue, ResolveEntry, MemberPlan, OWN_PREFIX, SHARED_PREFIX,
      TEAM_PREFIX;
    MemberGets(cfg, name, teamName, namespace, cr, leads, member);
    var t := TemplateCtx(if leads then "TeamLeader" else "TeamWorker", FolderOf(member, name), namespace, TeamFolderOf(cr, teamName));
    DefaultsFirst(cfg, EntriesOf(member), MEMBER_DEFAULTS, [OWN_PREFIX, SHARED_PREFIX, TEAM_PREFIX], t);
    OwnPrefix(t);
    ExpandThree(t, OWN_PREFIX, SHARED_PREFIX, TEAM_PREFIX);
  }

  lemma KindsArePlain()
    ensures NoDollar("TeamLeader") && NoDollar("TeamWorker") && "TeamLeader" != "TeamWorker"
  {
    assert "TeamLeader"[4] == 'L' && "TeamWorker"[4] == 'W';
  }

  lemma KindExpands(t: TemplateCtx)
    requires NoDollar(t.kind)
    ensures Expanded(t, KIND_VAR) == t.kind
  {
    hide ReplaceAll, NAME_VAR, KIND_VAR, NAMESPACE_VAR, TEAM_VAR, NoDollar;
    NothingIsDollarless();
    assert KIND_VAR + "" == KIND_VAR;
    Untouched(SelfKind, SelfName, "", t.name);
    Alone(SelfKind, t.kind);
    Unchanged(t.kind, SelfNamespace, t.namespace);
    Unchanged(t.kind, SelfTeam, t.team);
  }

  /** Asked for in a prefix, the kind is the leader's exactly for the leader. */
  lemma KindOfMember(cfg: Config, name: string, teamName: string, namespace: string, cr: Answer<Team>, leads: bool, m: Member,
                     i: nat, j: nat)
    requires ResolveTeamMember(cfg, name, teamName, namespace, cr).Ok? && Picks(cr, name, leads, Some(m))
    requires i < |m.entries| && m.entries[i].service == OBJECT_STORAGE && m.entries[i].scope.Fields?
    requires j < |m.entries[i].scope.prefixes| && m.entries[i].scope.prefixes[j] == KIND_VAR
    ensures var out := ResolveTeamMember(cfg, name, teamName, namespace, cr).value;
            && |out| == |m.entries| && out[i].Storage? && j < |out[i].prefixes|
            && out[i].prefixes[j] == (if leads then "TeamLeader" else "TeamWorker")
            && (out[i].prefixes[j] == "TeamLeader" <==> leads)
  {
    hide Resolution, Picks, FindMember, OBJECT_STORAGE, Expanded, MEMBER_DEFAULTS, KIND_VAR, MemberPlan, OWN_PREFIX, SHARED_PREFIX, TEAM_PREFIX,
      NoDollar, ResolveEntry;
    MemberGets(cfg, name, teamName, namespace, cr, leads, Some(m));
    KindsArePlain();
    var t := TemplateCtx(if leads then "TeamLeader" else "TeamWorker", FolderOf(Some(m), name), namespace, TeamFolderOf(cr, teamName));
    assert HasService(m.entries, OBJECT_STORAGE);
    assert Effective(m.entries, MEMBER_DEFAULTS) == m.entries;
    hide Effective;
    ResolutionIs(cfg, m.entries, t);
    ServicesDiffer();
    StorageResolved(cfg, m.entries[i], t);
    KindExpands(t);
  }

  /** What a worker gets; its folder is named like a member's. */
  lemma WorkerGets(cfg: Config, name: string, namespace: string, cr: Answer<Member>)
    requires name != "" && !cr.Failed?
    ensures var member := if cr.Found? && cr.value.name != "" then Some(cr.value) else None;
            ResolveWorker(cfg, name, namespace, cr) ==
            Checked(Resolution(cfg, Effective(if cr.Found? then cr.value.entries else [], WORKER_DEFAULTS),
                               TemplateCtx("Worker", FolderOf(member, name), namespace, "")))
  {
    hide Resolution, Effective, WORKER_DEFAULTS;
  }

  lemma WorkerDefaults(cfg: Config, name: string, namespace: string, cr: Answer<Member>)
    requires ResolveWorker(cfg, name, namespace, cr).Ok?
    requires cr.Found? ==> !HasService(cr.value.entries, OBJECT_STORAGE)
    requires SafeValue(SelfName, FolderOf(if cr.Found? && cr.value.name != "" then Some(cr.value) else None, name))
    ensures var out := ResolveWorker(cfg, name, namespace, cr).value;
            var folder := if cr.Found? && cr.value.name != "" then (if cr.value.workerName == "" then cr.value.name else cr.value.workerName) else name;
            out != [] && out[0] == Storage(["read", "write", "list", "delete"], cfg.defaultBucket, ["agents/" + folder + "/*", "shared/*"])
  {
    hide Resolution, Effective, OBJECT_STORAGE, Expanded, SafeValue, ResolveEntry, WorkerPlan, OWN_PREFIX, SHARED_PREFIX;
    WorkerGets(cfg, name, namespace, cr);
    var t := TemplateCtx("Worker", FolderOf(if cr.Found? && cr.value.name != "" then Some(cr.value) else None, name), namespace, "");
    DefaultsFirst(cfg, if cr.Found? then cr.value.entries else [], WORKER_DEFAULTS, [OWN_PREFIX, SHARED_PREFIX], t);
    OwnPrefix(t);
    assert ExpandAll(t, [OWN_PREFIX, SHARED_PREFIX]) == [Expanded(t, OWN_PREFIX), Expanded(t, SHARED_PREFIX)];
  }

  /** What a manager gets, "manager" being the name of one without. */
  lemma ManagerGets(cfg: Config, name: string, namespace: string, cr: Answer<seq<AccessEntry>>)
    requires !cr.Failed?
    ensures ResolveManager(cfg, name, namespace, cr) ==
            Checked(Resolution(cfg, Effective(if cr.Found? then cr.value else [], MANAGER_DEFAULTS),
                               TemplateCtx("Manager", if name == "" then "manager" else name, namespace, "")))
  {
    hide Resolution, Effective, MANAGER_DEFAULTS;
  }

  lemma ManagerDefaults(cfg: Config, name: string, namespace: string, cr: Answer<seq<AccessEntry>>)
    requires ResolveManager(cfg, name, namespace, cr).Ok?
    requires (cr.Found? ==> !HasService(cr.value, OBJECT_STORAGE)) && SafeValue(SelfName, if name == "" then "manager" else name)
    ensures var out := ResolveManager(cfg, name, namespace, cr).value;
            && out != []
            && out[0] == Storage(["read", "write", "list", "delete"], cfg.defaultBucket,
                                 ["agents/" + (if name == "" then "manager" else name) + "/*", "shared/*", "manager/*"])
  {
    hide Resolution, Effective, OBJECT_STORAGE, Expanded, SafeValue, ResolveEntry, ManagerPlan, OWN_PREFIX, SHARED_PREFIX, MANAGER_PREFIX;
    ManagerGets(cfg, name, namespace, cr);
    var t := TemplateCtx("Manager", if name == "" then "manager" else name, namespace, "");
    DefaultsFirst(cfg, if cr.Found? then cr.value else [], MANAGER_DEFAULTS, [OWN_PREFIX, SHARED_PREFIX, MANAGER_PREFIX], t);
    OwnPrefix(t);
    ManagerPrefix(t);
    ExpandThree(t, OWN_PREFIX, SHARED_PREFIX, MANAGER_PREFIX);
  }

  lemma ManagerPrefix(t: TemplateCtx)
    ensures Expanded(t, MANAGER_PREFIX) == "manager/*"
  {
    assert NoDollar("manager/*") && MANAGER_PREFIX == "manager/*";
    hide ReplaceAll, NoDollar, MANAGER_PREFIX, NAME_VAR, KIND_VAR, NAMESPACE_VAR, TEAM_VAR;
    Unchanged("manager/*", SelfName, t.name);
    Unchanged("manager/*", SelfKind, t.kind);
    Unchanged("manager/*", SelfNamespace, t.namespace);
    Unchanged("manager/*", SelfTeam, t.team);
  }

  lemma ExpandThree(t: TemplateCtx, a: string, b: string, c: string)
    ensures ExpandAll(t, [a, b, c]) == [Expanded(t, a), Expanded(t, b), Expanded(t, c)]
  {
    hide Expanded;
  }
}
