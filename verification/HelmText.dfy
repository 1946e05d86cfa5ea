/**
 Chart text as tokens: literal characters and template actions. Rendering replaces every action by
 its value; the source text is the rendering in which every action stands for itself.
 */
module HelmText {
  import opened Text

  datatype Tok = Ch(c: char) | Act(text: string)

  type Doc = seq<Tok>

  /** What every action evaluates to. */
  type Values = string -> string

  function Shown(v: Values, t: Tok): string {
    match t case Ch(c) => [c] case Act(text) => v(text)
  }

  function Render(v: Values, d: Doc): string {
    if d == [] then "" else Shown(v, d[0]) + Render(v, d[1..])
  }

  function Raw(text: string): string {
    text
  }

  /** The text as it stands in the chart. */
  function Source(d: Doc): string {
    Render(Raw, d)
  }

  function Lits(s: string): Doc {
    seq(|s|, i requires 0 <= i < |s| => Ch(s[i]))
  }

  lemma {:induction false} RenderAppend(v: Values, a: Doc, b: Doc)
    ensures Render(v, a + b) == Render(v, a) + Render(v, b)
  {
    if a == [] {
      assert a + b == b;
    } else {
      RenderAppend(v, a[1..], b);
      assert (a + b)[1..] == a[1..] + b && (a + b)[0] == a[0];
    }
  }

  lemma {:induction false} RenderLits(v: Values, s: string)
    ensures Render(v, Lits(s)) == s
  {
    if s != "" {
      RenderLits(v, s[1..]);
      assert Lits(s)[1..] == Lits(s[1..]);
      assert [s[0]] + s[1..] == s;
    }
  }

  /** Python's `replace`: every leftmost, non-overlapping occurrence. */
  function Replace<T(==)>(d: seq<T>, pat: seq<T>, sub: seq<T>): seq<T>
    requires pat != []
    decreases |d|
  {
    if d == [] then d
    else if Starts(d, pat) then sub + Replace(d[|pat|..], pat, sub)
    else [d[0]] + Replace(d[1..], pat, sub)
  }

  /** A replacement that renders like what it replaces leaves the rendering of every document alone. */
  lemma {:induction false} ReplaceRenders(v: Values, d: Doc, pat: Doc, sub: Doc)
    requires pat != [] && Render(v, sub) == Render(v, pat)
    ensures Render(v, Replace(d, pat, sub)) == Render(v, d)
    decreases |d|
  {
    if d == [] {
    } else if Starts(d, pat) {
      var rest := d[|pat|..];
      ReplaceRenders(v, rest, pat, sub);
      RenderAppend(v, sub, Replace(rest, pat, sub));
      RenderAppend(v, pat, rest);
      assert d == pat + rest;
    } else {
      ReplaceRenders(v, d[1..], pat, sub);
      RenderAppend(v, [d[0]], Replace(d[1..], pat, sub));
      RenderAppend(v, [d[0]], d[1..]);
      assert d == [d[0]] + d[1..];
    }
  }

  /** The pattern occurs somewhere in the text. */
  predicate Occurs<T(==)>(pattern: seq<T>, s: seq<T>) {
    Starts(s, pattern) || (s != [] && Occurs(pattern, s[1..]))
  }

  /** Nothing else changes: without the pattern a text stays as it is. */
  lemma {:induction false} ReplaceNothing<T>(d: seq<T>, pat: seq<T>, sub: seq<T>)
    requires pat != [] && !Occurs(pat, d)
    ensures Replace(d, pat, sub) == d
  {
    if d != [] {
      ReplaceNothing(d[1..], pat, sub);
    }
  }

  /** The pattern starts nowhere in the first n places. */
  ghost predicate StartsLate<T>(d: seq<T>, pat: seq<T>, n: nat) {
    forall i: nat :: i < n && i <= |d| ==> !Starts(d[i..], pat)
  }

  lemma LateTail<T>(d: seq<T>, pat: seq<T>, n: nat)
    requires d != [] && n >= 1 && StartsLate(d, pat, n)
    ensures !Starts(d, pat) && StartsLate(d[1..], pat, n - 1)
  {
    hide Starts;
    assert d[0..] == d;
    forall i: nat | i < n - 1 && i <= |d[1..]| ensures !Starts(d[1..][i..], pat) {
      assert d[i + 1..] == d[1..][i..];
    }
  }

  /** The leftmost occurrence is replaced, and replacing goes on behind it. */
  lemma {:induction false} ReplaceLeftmost<T>(a: seq<T>, rest: seq<T>, pat: seq<T>, sub: seq<T>)
    requires pat != [] && StartsLate(a + (pat + rest), pat, |a|)
    ensures Replace(a + (pat + rest), pat, sub) == a + (sub + Replace(rest, pat, sub))
  {
    hide StartsLate;
    var d := a + (pat + rest);
    if a == [] {
      assert d == pat + rest && d[..|pat|] == pat && d[|pat|..] == rest;
    } else {
      LateTail(d, pat, |a|);
      assert d[1..] == a[1..] + (pat + rest);
      ReplaceLeftmost(a[1..], rest, pat, sub);
    }
  }

  /** What takes the place of an occurrence is there afterwards. */
  lemma {:induction false} ReplaceBrings(d: Doc, pat: Doc, sub: Doc, t: Tok)
    requires pat != [] && Occurs(pat, d) && t in sub
    ensures t in Replace(d, pat, sub)
    decreases |d|
  {
    if d != [] && !Starts(d, pat) {
      ReplaceBrings(d[1..], pat, sub, t);
    }
  }

  lemma ReplacePasses<T>(x: T, s: seq<T>, pat: seq<T>, sub: seq<T>)
    requires pat != [] && !Starts([x] + s, pat)
    ensures Replace([x] + s, pat, sub) == [x] + Replace(s, pat, sub)
  {
    assert ([x] + s)[1..] == s;
  }
}
