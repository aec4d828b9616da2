/** Parsing and printing of JSON values, as parameters: what is asked of them, and that it can be
    met. */
module JsonCodec {
  import opened Text
  import opened Sorting
  import opened Json

  datatype Codec = Codec(loads: string -> Option<Value>, dumps: Value -> string)

  /** What is printed parses to the same value. */
  ghost predicate Faithful(codec: Codec) {
    forall v :: codec.loads(codec.dumps(v)) == Some(v)
  }

  // --------------------------------------------------------------------------
  // One printed form
  // --------------------------------------------------------------------------

  // A plain form that shows where it ends: numbers in unary, texts and lists with a mark before
  // each member and one behind the last, objects in ascending order of their keys.

  function NatText(n: nat): string {
    if n == 0 then "." else "," + NatText(n - 1)
  }

  function IntText(n: int): string {
    Sign(n) + NatText(Size(n))
  }

  function Sign(n: int): (r: string)
    ensures |r| == 1
  {
    if n < 0 then "-" else "+"
  }

  function Size(n: int): nat {
    if n < 0 then -n else n
  }

  function StrText(s: string): string {
    if s == [] then "." else "," + [s[0]] + StrText(s[1..])
  }

  ghost function ValueText(v: Value): string
    decreases v, 1, 0
  {
    match v
    case Null => "n"
    case Bool(bit) => if bit then "t" else "f"
    case Int(whole) => "i" + IntText(whole)
    case Float(number) => "d" + (IntText(number.mantissa) + IntText(number.exponent))
    case Str(text) => "s" + StrText(text)
    case Arr(items) => "a" + ItemsText(v, 0)
    case Obj(fields) => "o" + FieldsText(v, Listing(fields.Keys))
  }

  ghost function ItemsText(v: Value, n: nat): string
    requires v.Arr? && n <= |v.items|
    decreases v, 0, |v.items| - n
  {
    if n == |v.items| then "." else "," + (ValueText(v.items[n]) + ItemsText(v, n + 1))
  }

  ghost function FieldsText(v: Value, keys: seq<string>): string
    requires v.Obj?
    decreases v, 0, |keys|
  {
    if keys == [] then "."
    else "," + (StrText(keys[0]) + ((if keys[0] in v.fields then ValueText(v.fields[keys[0]]) else "") + FieldsText(v, keys[1..])))
  }

  // Each of these forms determines what was printed, and what follows it.

  lemma SameHead(c: string, a: string, d: string, b: string)
    requires |c| == |d| == 1
    ensures c + a == d + b <==> c == d && a == b
  {
    if c + a == d + b {
      assert (c + a)[0] == c[0] && (d + b)[0] == d[0];
      assert (c + a)[1..] == a && (d + b)[1..] == b;
    }
  }

  lemma {:induction false} NatDecides(m: nat, n: nat, a: string, b: string)
    requires NatText(m) + a == NatText(n) + b
    ensures m == n && a == b
  {
    if m == 0 || n == 0 {
      assert (NatText(m) + a)[0] == NatText(m)[0] && (NatText(n) + b)[0] == NatText(n)[0];
      SameHead(".", a, ".", b);
    } else {
      assert NatText(m) + a == "," + (NatText(m - 1) + a) && NatText(n) + b == "," + (NatText(n - 1) + b);
      SameHead(",", NatText(m - 1) + a, ",", NatText(n - 1) + b);
      NatDecides(m - 1, n - 1, a, b);
    }
  }

  lemma IntDecides(m: int, n: int, a: string, b: string)
    requires IntText(m) + a == IntText(n) + b
    ensures m == n && a == b
  {
    hide NatText, Sign, Size;
    Regroup(Sign(m), NatText(Size(m)), a);
    Regroup(Sign(n), NatText(Size(n)), b);
    SameHead(Sign(m), NatText(Size(m)) + a, Sign(n), NatText(Size(n)) + b);
    NatDecides(Size(m), Size(n), a, b);
    SignAndSize(m, n);
  }

  lemma SignAndSize(m: int, n: int)
    ensures Sign(m) == Sign(n) && Size(m) == Size(n) ==> m == n
  {
    assert Sign(m)[0] == '-' <==> m < 0;
    assert Sign(n)[0] == '-' <==> n < 0;
  }

  lemma {:induction false} StrDecides(s: string, t: string, a: string, b: string)
    requires StrText(s) + a == StrText(t) + b
    ensures s == t && a == b
  {
    if s == [] || t == [] {
      assert (StrText(s) + a)[0] == StrText(s)[0] && (StrText(t) + b)[0] == StrText(t)[0];
      SameHead(".", a, ".", b);
    } else {
      var x, y := StrText(s[1..]) + a, StrText(t[1..]) + b;
      assert StrText(s) + a == "," + ([s[0]] + x) && StrText(t) + b == "," + ([t[0]] + y);
      SameHead(",", [s[0]] + x, ",", [t[0]] + y);
      SameHead([s[0]], x, [t[0]], y);
      StrDecides(s[1..], t[1..], a, b);
      assert s == [s[0]] + s[1..] && t == [t[0]] + t[1..];
    }
  }

  /** The mark that tells the kinds of values apart, and the rest of the form. */
  ghost function Mark(v: Value): string {
    match v
    case Null => "n"
    case Bool(bit) => if bit then "t" else "f"
    case Int(_) => "i"
    case Float(_) => "d"
    case Str(_) => "s"
    case Arr(_) => "a"
    case Obj(_) => "o"
  }

  ghost function Tail(v: Value): string {
    match v
    case Null => ""
    case Bool(_) => ""
    case Int(whole) => IntText(whole)
    case Float(number) => IntText(number.mantissa) + IntText(number.exponent)
    case Str(text) => StrText(text)
    case Arr(_) => ItemsText(v, 0)
    case Obj(fields) => FieldsText(v, Listing(fields.Keys))
  }

  lemma Split(v: Value, a: string)
    ensures ValueText(v) + a == Mark(v) + (Tail(v) + a) && |Mark(v)| == 1
  {
    hide IntText, StrText, ItemsText, FieldsText, Listing;
    assert ValueText(v) == Mark(v) + Tail(v);
  }

  lemma MarksDiffer(v: Value, w: Value)
    requires Mark(v) == Mark(w)
    ensures v.Null? == w.Null? && v.Bool? == w.Bool? && v.Int? == w.Int? && v.Float? == w.Float? && v.Str? == w.Str?
    ensures v.Arr? == w.Arr? && v.Obj? == w.Obj? && (v.Bool? ==> v == w)
  {
    assert Mark(v)[0] == Mark(w)[0];
  }

  lemma {:induction false} ValueDecides(v: Value, w: Value, a: string, b: string)
    requires ValueText(v) + a == ValueText(w) + b
    ensures v == w && a == b
    decreases v, 1, 0
  {
    hide ValueText, IntText, StrText, ItemsText, FieldsText, Listing, Mark;
    Split(v, a);
    Split(w, b);
    SameHead(Mark(v), Tail(v) + a, Mark(w), Tail(w) + b);
    MarksDiffer(v, w);
    match v {
      case Null =>
        NothingBefore(a, b);
      case Bool(_) =>
        NothingBefore(a, b);
      case Int(whole) => IntDecides(whole, w.whole, a, b);
      case Float(number) =>
        Regroup(IntText(number.mantissa), IntText(number.exponent), a);
        Regroup(IntText(w.number.mantissa), IntText(w.number.exponent), b);
        IntDecides(number.mantissa, w.number.mantissa, IntText(number.exponent) + a, IntText(w.number.exponent) + b);
        IntDecides(number.exponent, w.number.exponent, a, b);
      case Str(text) => StrDecides(text, w.text, a, b);
      case Arr(items) =>
        ItemsDecide(v, w, 0, a, b);
        assert items == w.items;
      case Obj(fields) =>
        ListingIs(fields.Keys);
        ListingIs(w.fields.Keys);
        FieldsDecide(v, w, Listing(fields.Keys), Listing(w.fields.Keys), a, b);
        assert fields.Keys == w.fields.Keys;
        assert fields == w.fields;
    }
  }

  lemma NothingBefore(a: string, b: string)
    ensures "" + a == a && "" + b == b
  {
  }

  lemma Regroup(x: string, y: string, a: string)
    ensures x + y + a == x + (y + a)
  {
  }

  lemma {:induction false} ItemsDecide(v: Value, w: Value, n: nat, a: string, b: string)
    requires v.Arr? && w.Arr? && n <= |v.items| && n <= |w.items|
    requires ItemsText(v, n) + a == ItemsText(w, n) + b
    ensures v.items[n..] == w.items[n..] && a == b
    decreases v, 0, |v.items| - n
  {
    hide ValueText;
    ItemsHead(v, n, a);
    ItemsHead(w, n, b);
    hide ItemsText;
    if n == |v.items| || n == |w.items| {
      SameHead(ItemsText(v, n)[..1], (ItemsText(v, n) + a)[1..], ItemsText(w, n)[..1], (ItemsText(w, n) + b)[1..]);
    } else {
      var x, y := ValueText(v.items[n]) + (ItemsText(v, n + 1) + a), ValueText(w.items[n]) + (ItemsText(w, n + 1) + b);
      SameHead(",", x, ",", y);
      ValueDecides(v.items[n], w.items[n], ItemsText(v, n + 1) + a, ItemsText(w, n + 1) + b);
      ItemsDecide(v, w, n + 1, a, b);
      assert v.items[n..] == [v.items[n]] + v.items[n + 1..] && w.items[n..] == [w.items[n]] + w.items[n + 1..];
    }
  }

  lemma ItemsHead(v: Value, n: nat, a: string)
    requires v.Arr? && n <= |v.items|
    ensures ItemsText(v, n) + a ==
            if n == |v.items| then "." + a else "," + (ValueText(v.items[n]) + (ItemsText(v, n + 1) + a))
  {
    hide ValueText;
  }

  lemma {:induction false} FieldsDecide(v: Value, w: Value, ks: seq<string>, ls: seq<string>, a: string, b: string)
    requires v.Obj? && w.Obj? && (forall k :: k in ks ==> k in v.fields) && (forall k :: k in ls ==> k in w.fields)
    requires FieldsText(v, ks) + a == FieldsText(w, ls) + b
    ensures ks == ls && a == b && forall k :: k in ks ==> v.fields[k] == w.fields[k]
    decreases v, 0, |ks|
  {
    hide ValueText, StrText;
    FieldsHead(v, ks, a);
    FieldsHead(w, ls, b);
    hide FieldsText;
    if ks == [] || ls == [] {
      DotIsNoComma();
      if ks == [] && ls == [] {
        SameHead(".", a, ".", b);
      }
    } else {
      assert ks[0] in ks && ls[0] in ls;
      var x, y := FieldsText(v, ks[1..]) + a, FieldsText(w, ls[1..]) + b;
      SameHead(",", StrText(ks[0]) + (ValueText(v.fields[ks[0]]) + x), ",", StrText(ls[0]) + (ValueText(w.fields[ls[0]]) + y));
      StrDecides(ks[0], ls[0], ValueText(v.fields[ks[0]]) + x, ValueText(w.fields[ls[0]]) + y);
      ValueDecides(v.fields[ks[0]], w.fields[ls[0]], x, y);
      FieldsDecide(v, w, ks[1..], ls[1..], a, b);
      assert ks == [ks[0]] + ks[1..] && ls == [ls[0]] + ls[1..];
    }
  }

  lemma DotIsNoComma()
    ensures forall x: string, y: string {:trigger "." + x, "," + y} :: "." + x != "," + y
  {
    forall x: string, y: string {:trigger "." + x, "," + y} ensures "." + x != "," + y {
      assert ("." + x)[0] == '.' && ("," + y)[0] == ',';
    }
  }

  lemma FieldsHead(v: Value, ks: seq<string>, a: string)
    requires v.Obj? && forall k :: k in ks ==> k in v.fields
    ensures FieldsText(v, ks) + a ==
            if ks == [] then "." + a
            else "," + (StrText(ks[0]) + (ValueText(v.fields[ks[0]]) + (FieldsText(v, ks[1..]) + a)))
  {
    hide ValueText, StrText;
    if ks != [] {
      assert ks[0] in ks;
    }
  }

  /** The value that was printed. */
  ghost function ValueOf(s: string): Option<Value> {
    if v :| ValueText(v) == s then Some(v) else None
  }

  /** There is a parser and a printer as the properties of a pull ask for. */
  lemma FaithfulCodecExists()
    ensures exists codec :: Faithful(codec)
  {
    hide ValueText;
    var codec := Codec(s => ValueOf(s), v => ValueText(v));
    forall v ensures codec.loads(codec.dumps(v)) == Some(v) {
      assert ValueText(v) == ValueText(v);
      var w :| ValueOf(ValueText(v)) == Some(w) && ValueText(w) == ValueText(v);
      assert ValueText(v) + "" == ValueText(w) + "";
      ValueDecides(v, w, "", "");
    }
    assert Faithful(codec);
  }
}
