/** Python's sorted(set(...)) on strings, and the order of its characters. */
module Sorting {

  /** Strings compare character by character; a proper prefix comes first. */
  predicate Less(a: string, b: string) {
    if b == [] then false
    else if a == [] then true
    else a[0] < b[0] || (a[0] == b[0] && Less(a[1..], b[1..]))
  }

  lemma {:induction false} LessIsStrict(a: string, b: string)
    ensures !(Less(a, b) && Less(b, a)) && !Less(a, a)
    ensures a == b || Less(a, b) || Less(b, a)
  {
    if a != [] {
      if b != [] {
        LessIsStrict(a[1..], b[1..]);
        if a[0] == b[0] && a[1..] == b[1..] {
          assert a == [a[0]] + a[1..] && b == [b[0]] + b[1..];
        }
      } else {
        LessIsStrict(a[1..], a[1..]);
      }
    }
  }

  lemma {:induction false} LessTransitive(a: string, b: string, c: string)
    requires Less(a, b) && Less(b, c)
    ensures Less(a, c)
  {
    if a != [] && a[0] == b[0] == c[0] {
      LessTransitive(a[1..], b[1..], c[1..]);
    }
  }

  predicate Ascending(xs: seq<string>) {
    forall i, j :: 0 <= i < j < |xs| ==> Less(xs[i], xs[j])
  }

  /** Into its place, unless it is there already. */
  function Insert(xs: seq<string>, x: string): (r: seq<string>) {
    if xs == [] then [x]
    else if Less(x, xs[0]) then [x] + xs
    else if x == xs[0] then xs
    else [xs[0]] + Insert(xs[1..], x)
  }

  lemma {:induction false} InsertKeeps(xs: seq<string>, x: string)
    requires Ascending(xs)
    ensures Ascending(Insert(xs, x))
    ensures forall y :: y in Insert(xs, x) <==> y in xs || y == x
  {
    hide Less;
    if xs == [] {
    } else if Less(x, xs[0]) {
      forall j | 0 <= j < |xs| ensures Less(x, xs[j]) {
        if j > 0 {
          LessTransitive(x, xs[0], xs[j]);
        }
      }
    } else if x != xs[0] {
      LessIsStrict(x, xs[0]);
      assert xs == [xs[0]] + xs[1..];
      InsertKeeps(xs[1..], x);
      forall y | y in Insert(xs[1..], x) ensures Less(xs[0], y) {
        if y != x {
          var j :| 0 <= j < |xs| - 1 && xs[1..][j] == y;
          assert xs[j + 1] == y;
        }
      }
    }
  }

  /** sorted(set(xs)) */
  function SortedSet(xs: seq<string>): (r: seq<string>) {
    if xs == [] then [] else Insert(SortedSet(xs[1..]), xs[0])
  }

  lemma {:induction false} SortedSetIs(xs: seq<string>)
    ensures Ascending(SortedSet(xs))
    ensures forall y :: y in SortedSet(xs) <==> y in xs
  {
    hide Ascending, Insert;
    if xs == [] {
      AscendingEmpty();
    } else {
      SortedSetIs(xs[1..]);
      InsertKeeps(SortedSet(xs[1..]), xs[0]);
      assert xs == [xs[0]] + xs[1..];
    }
  }

  lemma AscendingEmpty()
    ensures Ascending([])
  {
  }

  lemma AscendingRest(xs: seq<string>)
    requires xs != [] && Ascending(xs)
    ensures Ascending(xs[1..])
    ensures forall y :: y in xs[1..] <==> y in xs && y != xs[0]
    ensures forall y :: y in xs ==> y == xs[0] || Less(xs[0], y)
  {
    hide Less;
    assert xs == [xs[0]] + xs[1..];
    forall y | y in xs[1..] ensures y != xs[0] && Less(xs[0], y) {
      var j :| 0 <= j < |xs| - 1 && xs[1..][j] == y;
      assert xs[j + 1] == y;
      LessIsStrict(y, y);
    }
  }

  lemma HeadIsIn(xs: seq<string>)
    ensures xs == [] || xs[0] in xs
  {
  }

  /** A set of strings has one ascending listing. */
  lemma {:induction false} OneListing(xs: seq<string>, ys: seq<string>)
    requires Ascending(xs) && Ascending(ys)
    requires forall y :: y in xs <==> y in ys
    ensures xs == ys
  {
    hide Ascending, Less;
    HeadIsIn(xs);
    HeadIsIn(ys);
    if xs == [] || ys == [] {
    } else {
      AscendingRest(xs);
      AscendingRest(ys);
      LessIsStrict(xs[0], ys[0]);
      OneListing(xs[1..], ys[1..]);
      assert xs == [xs[0]] + xs[1..] && ys == [ys[0]] + ys[1..];
    }
  }

  /** The members of a set in ascending order. */
  ghost function Listing(keys: set<string>): seq<string> {
    if keys == {} then []
    else
      var k :| k in keys;
      Insert(Listing(keys - {k}), k)
  }

  lemma {:induction false} ListingIs(keys: set<string>)
    ensures Ascending(Listing(keys))
    ensures forall k :: k in Listing(keys) <==> k in keys
  {
    hide Ascending, Insert, Less;
    if keys == {} {
      AscendingEmpty();
    } else {
      var k :| k in keys && Listing(keys) == Insert(Listing(keys - {k}), k);
      ListingIs(keys - {k});
      InsertKeeps(Listing(keys - {k}), k);
    }
  }

  /** Adding what is listed already changes nothing. */
  lemma SortedSetAbsorbs(xs: seq<string>, ys: seq<string>)
    ensures SortedSet(xs + SortedSet(xs + ys)) == SortedSet(xs + ys)
  {
    hide Ascending, Less, Insert, SortedSet;
    SortedSetIs(xs + ys);
    SortedSetIs(xs + SortedSet(xs + ys));
    OneListing(SortedSet(xs + SortedSet(xs + ys)), SortedSet(xs + ys));
  }
}
