/** Lists without repetition, and keeping the first of equal elements. */
module Lists {

  predicate Distinct<T(==)>(xs: seq<T>) {
    forall i, j :: 0 <= i < j < |xs| ==> xs[i] != xs[j]
  }

  function Firsts<T(==)>(xs: seq<T>): seq<T> {
    if xs == [] then []
    else
      var before, x := Firsts(xs[..|xs| - 1]), xs[|xs| - 1];
      if x in before then before else before + [x]
  }

  lemma FirstsStep<T>(xs: seq<T>, x: T)
    ensures Firsts(xs + [x]) == if x in Firsts(xs) then Firsts(xs) else Firsts(xs) + [x]
  {
    assert (xs + [x])[..|xs + [x]| - 1] == xs;
  }

  lemma {:induction false} FirstsIs<T>(xs: seq<T>)
    ensures Distinct(Firsts(xs))
    ensures forall x :: x in Firsts(xs) <==> x in xs
  {
    if xs != [] {
      var n := |xs| - 1;
      FirstsIs(xs[..n]);
      assert xs == xs[..n] + [xs[n]];
    }
  }

  /** What was listed first stays first, in its order. */
  lemma {:induction false} FirstsOfConcat<T>(a: seq<T>, b: seq<T>)
    ensures Firsts(a) <= Firsts(a + b)
  {
    if b == [] {
      assert a + b == a;
    } else {
      var n := |b| - 1;
      FirstsOfConcat(a, b[..n]);
      assert a + b == (a + b[..n]) + [b[n]];
      FirstsStep(a + b[..n], b[n]);
    }
  }

  lemma {:induction false} FirstsOfDistinct<T>(xs: seq<T>)
    requires Distinct(xs)
    ensures Firsts(xs) == xs
  {
    if xs != [] {
      var n := |xs| - 1;
      FirstsOfDistinct(xs[..n]);
      assert xs == xs[..n] + [xs[n]];
    }
  }

  lemma {:induction false} FirstsOfFirsts<T>(xs: seq<T>, ys: seq<T>)
    ensures Firsts(Firsts(xs) + ys) == Firsts(xs + ys)
  {
    if ys == [] {
      assert Firsts(xs) + ys == Firsts(xs) && xs + ys == xs;
      FirstsIs(xs);
      FirstsOfDistinct(Firsts(xs));
    } else {
      var n := |ys| - 1;
      FirstsOfFirsts(xs, ys[..n]);
      assert Firsts(xs) + ys == (Firsts(xs) + ys[..n]) + [ys[n]] && xs + ys == (xs + ys[..n]) + [ys[n]];
      FirstsStep(Firsts(xs) + ys[..n], ys[n]);
      FirstsStep(xs + ys[..n], ys[n]);
    }
  }

  /** Elements that are there already add nothing. */
  lemma {:induction false} FirstsAbsorb<T>(xs: seq<T>, more: seq<T>)
    requires Distinct(xs) && forall x :: x in more ==> x in xs
    ensures Firsts(xs + more) == xs
  {
    if more == [] {
      assert xs + more == xs;
      FirstsOfDistinct(xs);
    } else {
      var n := |more| - 1;
      assert more == more[..n] + [more[n]];
      FirstsAbsorb(xs, more[..n]);
      assert xs + more == (xs + more[..n]) + [more[n]];
      FirstsStep(xs + more[..n], more[n]);
    }
  }
}
