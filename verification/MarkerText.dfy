/** Comment markers inside text: where they can occur and where they cannot. */
module MarkerText {
  import opened Text

  /** A marker starts with a character it does not repeat and holds no line feed. */
  predicate IsMarker(m: string) {
    && m != []
    && (forall i :: 0 < i < |m| ==> m[i] != m[0])
    && (forall i :: 0 <= i < |m| ==> m[i] != '\n')
  }

  ghost predicate Free(s: string, m: string) {
    forall i {:trigger OccursAt(s, m, i)} :: !OccursAt(s, m, i)
  }

  lemma FreeIff(s: string, m: string)
    ensures Free(s, m) <==> !Contains(s, m)
    ensures Free(s, m) <==> Index(s, m) == None
    ensures Free(s, m) <==> LastIndex(s, m) == None
  {
    ContainsIff(s, m);
  }

  lemma OccursChars(s: string, m: string, i: int)
    requires OccursAt(s, m, i)
    ensures forall j {:trigger s[j]} :: i <= j < i + |m| ==> s[j] == m[j - i]
  {
    forall j {:trigger s[j]} | i <= j < i + |m| ensures s[j] == m[j - i] {
      assert s[i..i + |m|][j - i] == s[j];
    }
  }

  lemma FirstChar(s: string, m: string, i: int)
    requires m != []
    ensures OccursAt(s, m, i) ==> s[i] == m[0]
  {
    if OccursAt(s, m, i) {
      OccursChars(s, m, i);
    }
  }

  /** An occurrence cannot reach across a line feed. */
  lemma OccursBesideNewline(a: string, b: string, m: string, i: int)
    requires IsMarker(m)
    requires OccursAt(a + NEWLINE + b, m, i)
    ensures OccursAt(a, m, i) || OccursAt(b, m, i - |a| - 1)
  {
    var s := a + NEWLINE + b;
    OccursChars(s, m, i);
    assert s[|a|] == '\n';
    assert s == a + (NEWLINE + b);
    OccursInParts(a, NEWLINE + b, m, i);
    OccursInParts(a + NEWLINE, b, m, i);
  }

  lemma FreeNewline(a: string, b: string, m: string)
    requires IsMarker(m)
    ensures Free(a + NEWLINE + b, m) <==> Free(a, m) && Free(b, m)
  {
    hide IsMarker;
    var s := a + NEWLINE + b;
    if Free(a, m) && Free(b, m) {
      forall i ensures !OccursAt(s, m, i) {
        if OccursAt(s, m, i) {
          OccursBesideNewline(a, b, m, i);
        }
      }
    }
    if Free(s, m) {
      forall i ensures !OccursAt(a, m, i) && !OccursAt(b, m, i) {
        OccursInParts(a, NEWLINE + b, m, i);
        assert s == a + (NEWLINE + b);
        OccursInParts(a + NEWLINE, b, m, i);
      }
    }
  }

  lemma FreeEmpty(m: string)
    requires IsMarker(m)
    ensures Free("", m)
  {
  }

  /** A part of marker-free text is free of the marker. */
  lemma FreePart(s: string, lo: nat, hi: nat, m: string)
    requires lo <= hi <= |s| && Free(s, m)
    ensures Free(s[lo..hi], m)
  {
    var t := s[lo..hi];
    assert s == s[..lo] + (t + s[hi..]);
    forall i ensures !OccursAt(t, m, i) {
      OccursInParts(t, s[hi..], m, i);
      OccursInParts(s[..lo], t + s[hi..], m, i);
      assert !OccursAt(s, m, lo + i);
    }
  }

  /** Behind the marker itself no occurrence starts before its end. */
  lemma OccursAfterMarker(a: string, m: string, b: string, i: int)
    requires IsMarker(m) && |a| < i && OccursAt(a + m + b, m, i)
    ensures OccursAt(b, m, i - |a| - |m|)
  {
    var s := a + m + b;
    FirstChar(s, m, i);
    assert forall j {:trigger s[j]} :: |a| <= j < |a| + |m| ==> s[j] == m[j - |a|];
    assert i >= |a| + |m|;
    OccursInParts(a + m, b, m, i);
  }

  lemma LastMarkerAt(a: string, m: string, b: string)
    requires IsMarker(m) && Free(b, m)
    ensures LastIndex(a + m + b, m) == Some(|a|)
  {
    hide IsMarker;
    var s := a + m + b;
    assert s[|a|..|a| + |m|] == m;
    forall i | |a| < i ensures !OccursAt(s, m, i) {
      if OccursAt(s, m, i) {
        OccursAfterMarker(a, m, b, i);
      }
    }
    LastIndexIs(s, m, |a|);
  }

  lemma PartAfter(a: string, m: string, b: string)
    ensures (a + m + b)[|a| + |m|..] == b
  {
  }

  /** Before the marker itself no occurrence reaches into it. */
  lemma OccursBeforeMarker(a: string, m: string, b: string, i: int)
    requires IsMarker(m) && i < |a| && OccursAt(a + m + b, m, i)
    ensures OccursAt(a, m, i)
  {
    var s := a + m + b;
    OccursChars(s, m, i);
    assert s[|a|] == m[0];
    assert i + |m| <= |a|;
    assert s == a + (m + b);
    OccursInParts(a, m + b, m, i);
  }

  lemma FirstMarkerAt(a: string, m: string, b: string)
    requires IsMarker(m) && Free(a, m)
    ensures Index(a + m + b, m) == Some(|a|)
  {
    hide IsMarker;
    var s := a + m + b;
    assert s[|a|..|a| + |m|] == m;
    forall i | 0 <= i < |a| ensures !OccursAt(s, m, i) {
      if OccursAt(s, m, i) {
        OccursBeforeMarker(a, m, b, i);
      }
    }
    IndexIs(s, m, |a|);
  }

  /** What follows the last occurrence holds no other. */
  lemma AfterLast(s: string, m: string)
    requires IsMarker(m) && LastIndex(s, m).Some?
    ensures var k := LastIndex(s, m).value;
            Free(s[k + |m|..], m) && s == s[..k] + m + s[k + |m|..]
  {
    var k := LastIndex(s, m).value;
    var b := s[k + |m|..];
    assert s == s[..k] + m + b;
    forall i ensures !OccursAt(b, m, i) {
      if OccursAt(b, m, i) {
        OccursInParts(s[..k] + m, b, m, i);
      }
    }
  }
}
