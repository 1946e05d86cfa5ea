/**
 The one rule of the chart that does not give its literal back: the egress sidecar's image is bare in
 kustomize and always quoted by its template. What that does to a rendered document, and exactly when
 the drift checker sees it.
 */
module DriftQuotes {
  import opened Prelude
  import opened Text
  import opened DriftCheck
  import opened DriftNoise
  import opened HelmChart

  // ---- Documents that differ in inert lines --------------------------------------------------

  /** A line that takes part in no key: it starts no field, no hook annotation and no separator. */
  predicate Inert(x: string) {
    && !Starts(x, "kind:") && !Starts(x, "  namespace:") && !Starts(x, "  name:")
    && !Starts(Unopened(TrimLeft(x)), "helm.sh/hook")
    && !Separator(x)
  }

  /** The same line, or two inert lines with the same first word that both survive normalisation. */
  predicate Like(x: string, y: string) {
    x == y || (Inert(x) && Inert(y) && FirstWord(x) == FirstWord(y) && |NormLine(x)| == |NormLine(y)|)
  }

  ghost predicate Likes(a: seq<string>, b: seq<string>) {
    |a| == |b| && forall i :: 0 <= i < |a| ==> Like(a[i], b[i])
  }

  /** The lines have the same normal forms, one by one. */
  ghost predicate SameNorms(a: seq<string>, b: seq<string>) {
    |a| == |b| && forall i :: 0 <= i < |a| ==> NormLine(a[i]) == NormLine(b[i])
  }

  lemma LikesTail(a: seq<string>, b: seq<string>)
    requires Likes(a, b) && a != []
    ensures Likes(a[1..], b[1..]) && Like(a[0], b[0])
    ensures SameNorms(a, b) <==> NormLine(a[0]) == NormLine(b[0]) && SameNorms(a[1..], b[1..])
  {
    hide Like, NormLine;
    assert a == [a[0]] + a[1..] && b == [b[0]] + b[1..];
  }

  lemma LikesHead(x: string, a: seq<string>, b: seq<string>)
    requires Likes(a, b)
    ensures Likes([x] + a, [x] + b)
  {
  }

  lemma LikeFacts(x: string, y: string)
    requires Like(x, y)
    ensures |NormLine(x)| == |NormLine(y)| && FirstWord(x) == FirstWord(y)
  {
  }

  lemma SplitEqual<T>(a: seq<T>, b: seq<T>, c: seq<T>, d: seq<T>)
    requires |a| == |c|
    ensures a + b == c + d <==> a == c && b == d
  {
    assert (a + b)[..|a|] == a && (a + b)[|a|..] == b && (c + d)[..|c|] == c && (c + d)[|c|..] == d;
  }

  /** Such documents have the same normal form exactly when their lines have. */
  lemma {:induction false} LikesNorm(a: seq<string>, b: seq<string>)
    requires Likes(a, b)
    ensures Norm(a) == Norm(b) <==> SameNorms(a, b)
  {
    hide Like, NormLine;
    if a != [] {
      LikesTail(a, b);
      LikeFacts(a[0], b[0]);
      LikesNorm(a[1..], b[1..]);
      SplitEqual(NormLine(a[0]), Norm(a[1..]), NormLine(b[0]), Norm(b[1..]));
    }
  }

  lemma {:induction false} LikesWord(a: seq<string>, b: seq<string>)
    requires Likes(a, b)
    ensures WordFrom(a) == WordFrom(b)
  {
    hide Like, FirstWord;
    if a != [] {
      LikesTail(a, b);
      LikeFacts(a[0], b[0]);
      LikesWord(a[1..], b[1..]);
    }
  }

  lemma {:induction false} LikesField(a: seq<string>, b: seq<string>, p: string)
    requires Likes(a, b) && p in PREFIXES
    ensures Field(a, p) == Field(b, p)
  {
    hide Like, WordFrom;
    if a != [] {
      LikesTail(a, b);
      LikesField(a[1..], b[1..], p);
      LikeStarts(a[0], b[0], p);
      if a[0] == b[0] && Starts(a[0], p) {
        LikesHead(a[0][|p|..], a[1..], b[1..]);
        LikesWord([a[0][|p|..]] + a[1..], [a[0][|p|..]] + b[1..]);
      }
    }
  }

  lemma LikeStarts(x: string, y: string, p: string)
    requires Like(x, y) && p in PREFIXES
    ensures x == y || (!Starts(x, p) && !Starts(y, p))
  {
    hide FirstWord, NormLine, Starts, Separator;
    assert p == "kind:" || p == "  namespace:" || p == "  name:";
  }

  lemma LikesHookHere(a: seq<string>, b: seq<string>)
    requires Likes(a, b) && a != []
    ensures HookHere(a) == HookHere(b)
  {
    hide NormLine;
    if a[0] == b[0] {
      var t := Unopened(TrimLeft(a[0]));
      if Starts(t, "helm.sh/hook") {
        LikesTail(a, b);
        LikesHead(Unopened(t[12..]), a[1..], b[1..]);
        LikesWord([Unopened(t[12..])] + a[1..], [Unopened(t[12..])] + b[1..]);
      }
    } else {
      assert Like(a[0], b[0]);
    }
  }

  lemma {:induction false} LikesHook(a: seq<string>, b: seq<string>)
    requires Likes(a, b)
    ensures IsHook(a) == IsHook(b)
  {
    hide HookHere, Like;
    if a != [] {
      LikesTail(a, b);
      LikesHookHere(a, b);
      LikesHook(a[1..], b[1..]);
    }
  }

  lemma LikesKind(a: seq<string>, b: seq<string>)
    requires Likes(a, b)
    ensures HasKind(a) == HasKind(b) && (Unbroken(a) <==> Unbroken(b))
  {
    hide NormLine, FirstWord;
    assert forall i :: 0 <= i < |a| ==> Like(a[i], b[i]);
  }

  /** The same key, the same kind and the same answer on hooks: the same place in the comparison. */
  ghost predicate Level(a: seq<string>, b: seq<string>) {
    KeyOf(a) == KeyOf(b) && HasKind(a) == HasKind(b) && IsHook(a) == IsHook(b)
  }

  /** Documents that differ in inert lines have one place, and look alike exactly when their normal forms agree line by line. */
  lemma LikesLevel(a: seq<string>, b: seq<string>)
    requires Likes(a, b)
    ensures Level(a, b) && (Unbroken(a) <==> Unbroken(b))
    ensures Alike(a, b) <==> SameNorms(a, b)
  {
    hide Likes, SameNorms, Norm, Field, HasKind, IsHook;
    assert PREFIXES[0] == "kind:" && PREFIXES[1] == "  namespace:" && PREFIXES[2] == "  name:";
    LikesNorm(a, b);
    LikesField(a, b, "kind:");
    LikesField(a, b, "  namespace:");
    LikesField(a, b, "  name:");
    LikesHook(a, b);
    LikesKind(a, b);
  }

  // ---- The quoted line -----------------------------------------------------------------------

  const QUOTED := "\"" + SIDECAR + "\""
  const VALUE := "          value: "

  lemma {:induction false} RunWord(w: string, rest: string)
    requires forall i :: 0 <= i < |w| ==> !Blank(w[i])
    requires rest != "" && Blank(rest[0])
    ensures Run(w + rest) == w
  {
    if w == "" {
      assert w + rest == rest;
    } else {
      RunWord(w[1..], rest);
      assert (w + rest)[1..] == w[1..] + rest;
    }
  }

  lemma ValueParts(x: string)
    ensures (VALUE + x)[..16] + " " == VALUE && (VALUE + x)[16..] == " " + x && (VALUE + x)[16..][1..] == x
    ensures (VALUE + x)[10..] == "value:" + (" " + x) && Starts((VALUE + x)[10..], "value:")
  {
    var s := VALUE + x;
    assert s == "          value:" + (" " + x);
    assert s[10..] == "value:" + (" " + x);
  }

  lemma ValueTrimmed(x: string)
    ensures Indent(VALUE + x) == 10 && TrimLeft(VALUE + x) == "value:" + (" " + x)
  {
    hide TrimLeft;
    var s := VALUE + x;
    assert s[0] == ' ' && s[9] == ' ' && s[10] == 'v';
    TrimLeftIs(s);
    ValueParts(x);
  }

  lemma ValueInert(x: string)
    ensures Inert(VALUE + x)
  {
    hide TrimLeft, Starts;
    var s := VALUE + x;
    ValueTrimmed(x);
    assert s[0] == ' ' && s[2] == ' ';
    StartsElsewhere(s, "kind:", 0);
    StartsElsewhere(s, "  namespace:", 2);
    StartsElsewhere(s, "  name:", 2);
    StartsElsewhere(s, "---", 0);
    StartsElsewhere("value:" + (" " + x), "helm.sh/hook", 0);
  }

  lemma ValueKept(x: string)
    ensures !Ignored(VALUE + x)
  {
    hide Trim, TrimLeft, Starts;
    ValueTrimmed(x);
    TrimFirst(VALUE + x);
    assert (VALUE + x)[10] == 'v';
    StartsElsewhere(Trim(VALUE + x), "app.kubernetes.io/managed-by:", 0);
  }

  lemma ValueLine(x: string)
    ensures Indent(VALUE + x) == 10 && Inert(VALUE + x) && FirstWord(VALUE + x) == "value:" && !Ignored(VALUE + x)
  {
    hide Inert, Ignored, TrimLeft, Run;
    ValueTrimmed(x);
    ValueInert(x);
    ValueKept(x);
    RunWord("value:", " " + x);
  }

  /** Trimming on the right stops at a character that is not blank. */
  lemma {:induction false} TrimRightAfter(a: string, r: string)
    requires a != "" && !Blank(a[|a| - 1])
    ensures TrimRight(a + r) == a + TrimRight(r)
  {
    var s := a + r;
    if r == "" {
      assert s == a;
    } else if Blank(r[|r| - 1]) {
      assert s[..|s| - 1] == a + r[..|r| - 1];
      TrimRightAfter(a, r[..|r| - 1]);
    }
  }

  lemma {:induction false} TrimRightEnds(x: string)
    ensures TrimRight(x) != "" ==> !Blank(TrimRight(x)[|TrimRight(x)| - 1])
    ensures TrimRight(TrimRight(x)) == TrimRight(x)
  {
    if x != "" && Blank(x[|x| - 1]) {
      TrimRightEnds(x[..|x| - 1]);
    }
  }

  predicate Wrapped(y: string) {
    |y| >= 2 && y[0] in "\"'" && y[|y| - 1] == y[0]
  }

  lemma UnquotedAt(s: string, t: string, y: string)
    requires TrimRight(s) == t == VALUE + y && Indent(t) == 10
    requires y != "" && !Blank(y[0])
    ensures Unquoted(s) == if Wrapped(y) then Some(VALUE + y[1..|y| - 1]) else None
  {
    hide TrimRight, Starts;
    ValueParts(y);
    var rest := t[16..];
    assert rest[0] == ' ' && rest[1] == y[0];
    assert Indent(rest) == 1;
    assert t[17] == y[0] && t[|t| - 1] == y[|y| - 1];
    if Wrapped(y) {
      assert t[18..|t| - 1] == y[1..|y| - 1];
    }
  }

  /** The normal form of an environment value's line. */
  lemma ValueNorm(x: string)
    requires x != "" && !Blank(x[0])
    ensures var y := TrimRight(x); NormLine(VALUE + x) == if Wrapped(y) then [VALUE + y[1..|y| - 1]] else [VALUE + y]
  {
    hide Unquoted, Ignored, Inert, TrimRight, FirstWord;
    var y := TrimRight(x);
    TrimRightFirst(x);
    TrimRightAfter("          value:", " " + x);
    TrimRightAfter(" " + [x[0]], x[1..]);
    TrimRightAfter([x[0]], x[1..]);
    assert "          value:" + (" " + x) == VALUE + x && " " + [x[0]] + x[1..] == " " + x && [x[0]] + x[1..] == x;
    assert "          value:" + (" " + [x[0]] + TrimRight(x[1..])) == VALUE + ([x[0]] + TrimRight(x[1..]));
    ValueLine(x);
    ValueLine(y);
    UnquotedAt(VALUE + x, VALUE + y, y);
  }

  predicate Quotes(u: string) {
    forall i :: 0 <= i < |u| ==> u[i] == '"'
  }

  /** What may follow the image on its line without the checker seeing the quotes: quotes, then blanks. */
  predicate Quiet(r: string) {
    Quotes(TrimRight(r))
  }

  /** Only a run of quotes can be shifted by one quote unchanged. */
  lemma {:induction false} ShiftedQuotes(u: string)
    ensures ("\"" + u)[..|u|] == u <==> Quotes(u)
  {
    var s := "\"" + u;
    if s[..|u|] == u {
      ShiftStep(u, |u|);
    }
    if Quotes(u) {
      assert forall i :: 0 <= i < |u| ==> s[..|u|][i] == u[i];
    }
  }

  lemma {:induction false} ShiftStep(u: string, n: nat)
    requires n <= |u| && ("\"" + u)[..|u|] == u
    ensures forall i :: 0 <= i < n ==> u[i] == '"'
  {
    if n > 0 {
      ShiftStep(u, n - 1);
      assert ("\"" + u)[..|u|][n - 1] == u[n - 1];
    }
  }

  lemma WrappedQuoted(u: string)
    ensures Wrapped(QUOTED + u) <==> u == "" || u[|u| - 1] == '"'
    ensures Wrapped(QUOTED + u) ==> (QUOTED + u)[1..|QUOTED + u| - 1] == SIDECAR + ("\"" + u)[..|u|]
  {
    var y := QUOTED + u;
    assert y == "\"" + (SIDECAR + ("\"" + u));
    assert y[1..] == SIDECAR + ("\"" + u);
    assert y[|y| - 1] == ("\"" + u)[|u|];
  }

  lemma Prefixed(p: string, a: string, b: string)
    ensures p + a == p + b <==> a == b
  {
    assert (p + a)[|p|..] == a && (p + b)[|p|..] == b;
  }

  /** The checker tells the bare image line from the quoted one exactly when something else follows the image. */
  lemma QuietExact(r: string)
    ensures |NormLine(VALUE + (SIDECAR + r))| == |NormLine(VALUE + (QUOTED + r))| == 1
    ensures NormLine(VALUE + (SIDECAR + r)) == NormLine(VALUE + (QUOTED + r)) <==> Quiet(r)
  {
    hide NormLine, TrimRight, Wrapped;
    var u := TrimRight(r);
    assert SIDECAR[0] == 'd' && SIDECAR[|SIDECAR| - 1] == 'o' && QUOTED[|QUOTED| - 1] == '"';
    TrimRightAfter(SIDECAR, r);
    TrimRightAfter(QUOTED, r);
    ValueNorm(SIDECAR + r);
    ValueNorm(QUOTED + r);
    BareIsUnwrapped(u);
    WrappedQuoted(u);
    ShiftedQuotes(u);
    Prefixed(VALUE, SIDECAR + ("\"" + u)[..|u|], SIDECAR + u);
    Prefixed(SIDECAR, ("\"" + u)[..|u|], u);
  }

  lemma BareIsUnwrapped(u: string)
    ensures !Wrapped(SIDECAR + u)
  {
    assert (SIDECAR + u)[0] == 'd';
  }

  lemma QuotedLike(r: string)
    ensures Like(VALUE + (SIDECAR + r), VALUE + (QUOTED + r))
  {
    hide NormLine, Inert, FirstWord;
    ValueLine(SIDECAR + r);
    ValueLine(QUOTED + r);
    QuietExact(r);
  }
}
