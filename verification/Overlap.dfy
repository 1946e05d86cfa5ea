/** Patterns that cannot overlap, and replacements that therefore pass each other by. */
module Overlap {
  import opened Text
  import opened HelmText

  /** Laid over a from place j, b differs from it somewhere. */
  predicate Clash<T(==)>(a: seq<T>, j: nat, b: seq<T>) {
    exists k: nat :: k < |b| && j + k < |a| && a[j + k] != b[k]
  }

  lemma ClashStarts<T>(a: seq<T>, j: nat, rest: seq<T>, b: seq<T>)
    requires j < |a| && Clash(a, j, b)
    ensures !Starts((a + rest)[j..], b)
  {
    var k: nat :| k < |b| && j + k < |a| && a[j + k] != b[k];
    assert (a + rest)[j..][k] == a[j + k];
    StartsElsewhere((a + rest)[j..], b, k);
  }

  lemma ClashTail<T>(a: seq<T>, j: nat, b: seq<T>)
    requires a != [] && Clash(a, j + 1, b)
    ensures Clash(a[1..], j, b)
  {
    var k: nat :| k < |b| && j + 1 + k < |a| && a[j + 1 + k] != b[k];
    assert a[1..][j + k] == a[j + 1 + k];
  }

  /** Nowhere in a can b begin, whatever follows a. */
  ghost predicate Repels<T>(a: seq<T>, b: seq<T>) {
    forall j: nat :: j < |a| ==> Clash(a, j, b)
  }

  lemma RepelsTail<T>(a: seq<T>, b: seq<T>)
    requires a != [] && Repels(a, b)
    ensures Repels(a[1..], b)
  {
    forall j: nat | j < |a| - 1 ensures Clash(a[1..], j, b) {
      ClashTail(a, j, b);
    }
  }

  lemma RepelsStart<T>(a: seq<T>, rest: seq<T>, b: seq<T>)
    requires a != [] && Repels(a, b)
    ensures !Starts(a + rest, b)
  {
    ClashStarts(a, 0, rest, b);
    assert (a + rest)[0..] == a + rest;
  }

  // ---- Replacement ---------------------------------------------------------------------------

  lemma {:induction false} ReplacePast<T>(a: seq<T>, rest: seq<T>, pat: seq<T>, sub: seq<T>)
    requires pat != [] && Repels(a, pat)
    ensures Replace(a + rest, pat, sub) == a + Replace(rest, pat, sub)
  {
    if a == [] {
      assert a + rest == rest;
    } else {
      RepelsStart(a, rest, pat);
      RepelsTail(a, pat);
      ReplacePast(a[1..], rest, pat, sub);
      var x, t := a[0], a[1..];
      assert a + rest == [x] + (t + rest);
      ReplacePasses(x, t + rest, pat, sub);
      assert [x] + (t + Replace(rest, pat, sub)) == a + Replace(rest, pat, sub);
    }
  }

  /** A replacement whose substitute cannot begin in e does not complete a started e. */
  lemma {:induction false} SuffixKept<T>(d: seq<T>, e: seq<T>, k: nat, pat: seq<T>, sub: seq<T>)
    requires pat != [] && sub != [] && k <= |e| && Repels(e, sub)
    ensures Starts(Replace(d, pat, sub), e[k..]) ==> Starts(d, e[k..])
    decreases |d|
  {
    if k < |e| && d != [] {
      if Starts(d, pat) {
        assert Clash(e, k, sub);
        SubstituteStops(sub, Replace(d[|pat|..], pat, sub), e, k);
      } else {
        var rest := Replace(d[1..], pat, sub);
        assert Replace(d, pat, sub) == [d[0]] + rest && d == [d[0]] + d[1..];
        StartsCons(d[0], rest, e[k..]);
        StartsCons(d[0], d[1..], e[k..]);
        assert e[k..][1..] == e[k + 1..];
        SuffixKept(d[1..], e, k + 1, pat, sub);
      }
    }
  }

  lemma SubstituteStops<T>(sub: seq<T>, rest: seq<T>, e: seq<T>, k: nat)
    requires k < |e| && Clash(e, k, sub)
    ensures !Starts(sub + rest, e[k..])
  {
    var i: nat :| i < |sub| && k + i < |e| && e[k + i] != sub[i];
    StartsElsewhere(sub + rest, e[k..], i);
  }

  lemma RepelsFrom<T>(a: seq<T>, p: seq<T>)
    requires a != [] && Clash(a, 0, p) && Repels(a[1..], p)
    ensures Repels(a, p)
  {
    forall j: nat | j < |a| ensures Clash(a, j, p) {
      if j > 0 {
        assert Clash(a[1..], j - 1, p);
        var k: nat :| k < |p| && j - 1 + k < |a| - 1 && a[1..][j - 1 + k] != p[k];
        assert a[j + k] == a[1..][j - 1 + k];
      }
    }
  }

  lemma RepelsAppend<T>(a: seq<T>, b: seq<T>, p: seq<T>)
    requires Repels(a, p) && Repels(b, p)
    ensures Repels(a + b, p)
  {
    forall j: nat | j < |a + b| ensures Clash(a + b, j, p) {
      if j < |a| {
        assert Clash(a, j, p);
        var k: nat :| k < |p| && j + k < |a| && a[j + k] != p[k];
        assert (a + b)[j + k] == a[j + k];
      } else {
        assert Clash(b, j - |a|, p);
        var k: nat :| k < |p| && j - |a| + k < |b| && b[j - |a| + k] != p[k];
        assert (a + b)[j + k] == b[j - |a| + k];
      }
    }
  }

  lemma RepelsAbsent<T>(a: seq<T>, p: seq<T>)
    requires p != [] && p[0] !in a
    ensures Repels(a, p)
  {
    forall j: nat | j < |a| ensures Clash(a, j, p) {
      assert a[j + 0] != p[0];
    }
  }

  /** A pattern that cannot begin in a can be made longer. */
  lemma RepelsLonger<T>(a: seq<T>, p: seq<T>, more: seq<T>)
    requires Repels(a, p)
    ensures Repels(a, p + more)
  {
    forall j: nat | j < |a| ensures Clash(a, j, p + more) {
      assert Clash(a, j, p);
      var k: nat :| k < |p| && j + k < |a| && a[j + k] != p[k];
      assert (p + more)[k] == p[k];
    }
  }
}
