/**
 What the drift checker makes of single lines, said on the lines themselves: which are dropped, which
 are told apart, where a stream is cut, and what a key or a hook looks like.
 */
module DriftLines {
  import opened Prelude
  import opened Text
  import opened DriftCheck
  import opened DriftNoise
  import opened DriftQuotes

  const PROVENANCE := "app.kubernetes.io/managed-by:"

  /** A blank line, a comment, or the label that names the tool. */
  ghost predicate Dropped(x: string) {
    Indent(x) == |x| || x[Indent(x)] == '#' || Starts(x[Indent(x)..], "app.kubernetes.io/managed-by:")
  }

  /** The lines are the same up to blanks at their ends. */
  ghost predicate SameEnded(x: string, y: string) {
    exists n: nat :: EndsAt(x, n) && EndsAt(y, n) && x[..n] == y[..n]
  }

  /** Only blanks from place n on. */
  ghost predicate EndsAt(x: string, n: nat) {
    n <= |x| && AllBlank(x[n..])
  }

  lemma TrimmedEnds(x: string, y: string)
    requires TrimRight(x) == TrimRight(y)
    ensures SameEnded(x, y)
  {
    hide TrimRight, AllBlank;
    TrimRightIs(x);
    TrimRightIs(y);
    var n := |TrimRight(x)|;
    assert EndsAt(x, n) && EndsAt(y, n) && x[..n] == y[..n];
  }

  lemma EndsTrimmed(x: string, n: nat)
    requires EndsAt(x, n)
    ensures TrimRight(x) == TrimRight(x[..n])
  {
    hide TrimRight, AllBlank;
    TrimRightBlanks(x[..n], x[n..]);
    assert x == x[..n] + x[n..];
  }

  lemma SameTrimmed(x: string, y: string)
    ensures TrimRight(x) == TrimRight(y) <==> SameEnded(x, y)
  {
    hide TrimRight, AllBlank;
    if TrimRight(x) == TrimRight(y) {
      TrimmedEnds(x, y);
    }
    if SameEnded(x, y) {
      var n: nat :| EndsAt(x, n) && EndsAt(y, n) && x[..n] == y[..n];
      EndsTrimmed(x, n);
      EndsTrimmed(y, n);
    }
  }

  lemma DroppedExact(x: string)
    ensures Norm([x]) == [] <==> Dropped(x)
  {
    hide Unquoted, TrimRight;
    NormOne(x);
    TrimFirst(x);
    TrimLeftIs(x);
    TrimRightStarts(x[Indent(x)..], PROVENANCE);
  }

  lemma {:induction false} TrimRightBehind(head: string, z: string)
    requires z != "" && !Blank(z[0])
    ensures TrimRight(head + z) == head + TrimRight(z)
  {
    var x := head + z;
    assert x[|x| - 1] == z[|z| - 1];
    if Blank(z[|z| - 1]) {
      assert x[..|x| - 1] == head + z[..|z| - 1];
      TrimRightBehind(head, z[..|z| - 1]);
    }
  }

  lemma IndentSplit(x: string)
    requires Indent(x) < |x|
    ensures AllBlank(x[..Indent(x)]) && !Blank(x[Indent(x)..][0]) && x == x[..Indent(x)] + x[Indent(x)..]
  {
    hide Indent, Blank, AllBlank;
    IndentBlank(x);
    CutAt(x, Indent(x));
  }

  /** The indentation survives trimming on the right. */
  lemma IndentTrimmed(x: string)
    requires Indent(x) < |x|
    ensures Indent(TrimRight(x)) == Indent(x) && TrimRight(x)[Indent(x)..] == TrimRight(x[Indent(x)..])
  {
    hide TrimRight, Indent, AllBlank;
    var head, z := x[..Indent(x)], x[Indent(x)..];
    IndentSplit(x);
    TrimRightBehind(head, z);
    TrimRightFirst(z);
    IndentIs(head, TrimRight(z));
    assert (head + TrimRight(z))[|head|..] == TrimRight(z);
  }

  lemma {:induction false} IndentIs(a: string, b: string)
    requires AllBlank(a) && (b == "" || !Blank(b[0]))
    ensures Indent(a + b) == |a|
  {
    if a == "" {
      assert a + b == b;
    } else {
      IndentIs(a[1..], b);
      assert (a + b)[0] == a[0] && (a + b)[1..] == a[1..] + b;
    }
  }

  /** A line that holds an environment value. */
  ghost predicate ValueLine(x: string) {
    Starts(x[Indent(x)..], "value:")
  }

  lemma PlainKept(x: string)
    requires !Dropped(x) && !ValueLine(x)
    ensures Norm([x]) == [TrimRight(x)]
  {
    hide TrimRight;
    NormOne(x);
    DroppedExact(x);
    IndentTrimmed(x);
    TrimRightStarts(x[Indent(x)..], "value:");
  }

  /** Two kept lines that hold no value are told apart exactly when they differ in more than blanks at their ends. */
  lemma PlainExact(x: string, y: string)
    requires !Dropped(x) && !Dropped(y) && !ValueLine(x) && !ValueLine(y)
    ensures Norm([x]) != [] && (Norm([x]) == Norm([y]) <==> SameEnded(x, y))
  {
    hide TrimRight, Norm;
    PlainKept(x);
    PlainKept(y);
    SameTrimmed(x, y);
  }

  lemma InTail(t: string, n: nat, i: nat, j: nat)
    requires n <= |t| && i <= j <= |t| - n
    ensures t[n..][i..j] == t[n + i..n + j]
  {
  }

  lemma UnquotedWhen(x: string, head: string, w: string, body: string, gap: nat, quote: char)
    requires var t := TrimRight(x);
             && |head| == Indent(t) + 6 && |head| <= |t| && t[..|head|] == head && t[|head|..] == w && Starts(t[Indent(t)..], "value:")
    requires Indent(w) == gap && gap + 2 <= |w| && w[gap] == w[|w| - 1] == quote && (quote == '"' || quote == '\'')
    requires w[gap + 1..|w| - 1] == body
    ensures Unquoted(x) == Some(head + " " + body)
  {
    hide TrimRight, Indent, Starts;
    var t := TrimRight(x);
    var q := |head| + gap;
    assert quote in "\"'" && t[q] == w[gap] && t[|t| - 1] == w[|w| - 1];
    InTail(t, |head|, gap + 1, |w| - 1);
  }

  lemma QuotedParts(gap: string, quote: char, body: string)
    ensures var w := gap + ([quote] + body + [quote]);
            |w| == |gap| + |body| + 2 && w[|gap|] == w[|w| - 1] == quote && w[|gap| + 1..|w| - 1] == body
  {
    var v := [quote] + body + [quote];
    assert (gap + v)[|gap|..] == v && v[1..|v| - 1] == body;
  }

  lemma ValueShape(indent: string, w: string)
    requires AllBlank(indent)
    ensures var head := indent + "value:";
            var t := head + w;
            && |head| == Indent(t) + 6 && t[..|head|] == head && t[|head|..] == w && Starts(t[Indent(t)..], "value:")
  {
    hide Indent;
    var t, v := indent + "value:" + w, "value:" + w;
    assert t == indent + v && v[0] == 'v' && v[..6] == "value:";
    IndentIs(indent, v);
    assert t[|indent|..] == v;
  }

  lemma TrimmedAt(t: string, end: string)
    requires t != "" && !Blank(t[|t| - 1]) && AllBlank(end)
    ensures TrimRight(t + end) == t
  {
    hide TrimRight;
    TrimRightBlanks(t, end);
    TrimRightAfter(t, "");
    TrimRightIs("");
    assert t + "" == t;
  }

  /** A quoted value loses its quotes, and the blanks around it. */
  lemma QuotedValue(indent: string, gap: string, quote: char, body: string, end: string)
    requires AllBlank(indent) && AllBlank(gap) && AllBlank(end) && (quote == '"' || quote == '\'')
    ensures Norm([indent + "value:" + (gap + ([quote] + body + [quote])) + end]) == [indent + "value:" + " " + body]
  {
    hide TrimRight, Indent, Unquoted, Starts, Ignored;
    var v := [quote] + body + [quote];
    var w := gap + v;
    var t := indent + "value:" + w;
    assert v[0] == quote && t[|t| - 1] == quote;
    TrimmedAt(t, end);
    ValueShape(indent, w);
    QuotedParts(gap, quote, body);
    IndentIs(gap, v);
    UnquotedWhen(t + end, indent + "value:", w, body, |gap|, quote);
    ValueKeptAs(indent, "value:" + w + end);
    assert t + end == indent + ("value:" + w + end);
    NormOne(t + end);
  }

  lemma BareWhen(x: string, head: string, w: string, gap: nat)
    requires var t := TrimRight(x);
             && |head| == Indent(t) + 6 && |head| <= |t| && t[|head|..] == w && Starts(t[Indent(t)..], "value:")
    requires Indent(w) == gap
    requires gap + 2 <= |w| && (w[gap] == '"' || w[gap] == '\'') ==> w[|w| - 1] != w[gap]
    ensures Unquoted(x) == None
  {
    hide TrimRight, Indent, Starts;
    var t := TrimRight(x);
    if gap + 2 <= |w| {
      assert t[|head| + gap] == w[gap] && t[|t| - 1] == w[|w| - 1];
    }
  }

  /** A value that is not in quotes keeps everything but the blanks at its end. */
  lemma BareValue(indent: string, gap: string, value: string, end: string)
    requires AllBlank(indent) && AllBlank(gap) && AllBlank(end)
    requires value != "" && !Blank(value[0]) && !Blank(value[|value| - 1])
    requires |value| >= 2 && (value[0] == '"' || value[0] == '\'') ==> value[|value| - 1] != value[0]
    ensures Norm([indent + "value:" + (gap + value) + end]) == [indent + "value:" + (gap + value)]
  {
    hide TrimRight, Indent, Unquoted, Starts, Ignored;
    var w := gap + value;
    var t := indent + "value:" + w;
    assert t[|t| - 1] == value[|value| - 1] && w[|gap|] == value[0] && w[|w| - 1] == value[|value| - 1];
    TrimmedAt(t, end);
    ValueShape(indent, w);
    IndentIs(gap, value);
    BareWhen(t + end, indent + "value:", w, |gap|);
    ValueKeptAs(indent, "value:" + w + end);
    assert t + end == indent + ("value:" + w + end);
    NormOne(t + end);
  }

  lemma ValueKeptAs(indent: string, rest: string)
    requires AllBlank(indent) && rest != "" && rest[0] == 'v'
    ensures !Ignored(indent + rest)
  {
    hide TrimRight, Indent;
    var x := indent + rest;
    IndentIs(indent, rest);
    StartsElsewhere(rest, PROVENANCE, 0);
    assert x[|indent|..] == rest;
    DroppedExact(x);
    NormOne(x);
  }

  // ---- Whole documents -----------------------------------------------------------------------

  lemma NormMiddle(a: seq<string>, x: string, b: seq<string>)
    ensures Norm(a + [x] + b) == Norm(a) + Norm([x]) + Norm(b)
  {
    hide Norm;
    NormAppend(a + [x], b);
    NormAppend(a, [x]);
  }

  /** Documents that differ in one line have the same normal form exactly when that line has. */
  lemma LineExact(a: seq<string>, x: string, y: string, b: seq<string>)
    ensures Norm(a + [x] + b) == Norm(a + [y] + b) <==> Norm([x]) == Norm([y])
  {
    hide Norm;
    NormMiddle(a, x, b);
    NormMiddle(a, y, b);
    var p, q, r, s := Norm(a), Norm([x]), Norm([y]), Norm(b);
    if p + q + s == p + r + s {
      assert |q| == |r|;
      assert (p + q + s)[|p|..|p| + |q|] == q && (p + r + s)[|p|..|p| + |r|] == r;
    }
  }

  /**
   No change of a line that matters escapes the checker: if a resource of one stream and the resource
   of its key in the other differ in one kept line that holds no value, by more than blanks at its end,
   the key is reported as differing.
   */
  lemma ChangeDiffers(kustomize: seq<seq<string>>, helm: seq<seq<string>>, a: seq<string>, x: string, y: string, b: seq<string>)
    requires Consistent(kustomize) && Consistent(helm)
    requires a + [x] + b in kustomize && a + [y] + b in helm
    requires Resource(a + [x] + b) && Resource(a + [y] + b) && KeyOf(a + [x] + b) == KeyOf(a + [y] + b)
    requires !Dropped(x) && !Dropped(y) && !ValueLine(x) && !ValueLine(y) && !SameEnded(x, y)
    ensures Justified(Differs(KeyOf(a + [x] + b)), Resources(kustomize), Resources(helm))
  {
    hide Norm, KeyOf, Resource, Consistent, Resources, Dropped, ValueLine, SameEnded;
    var d, e := a + [x] + b, a + [y] + b;
    PlainExact(x, y);
    LineExact(a, x, y, b);
    Found(kustomize, d);
    Found(helm, e);
  }

  lemma Found(docs: seq<seq<string>>, d: seq<string>)
    requires Consistent(docs) && d in docs && Resource(d)
    ensures KeyOf(d) in Resources(docs) && Resources(docs)[KeyOf(d)] == Norm(d)
  {
    hide Norm, KeyOf, Resource, Consistent, Resources;
    ResourcesExact(docs, KeyOf(d));
  }

  /** For a line that takes part in no key, such as an image, that is so whatever its document is. */
  lemma InertChangeDiffers(kustomize: seq<seq<string>>, helm: seq<seq<string>>, a: seq<string>, x: string, y: string, b: seq<string>)
    requires Consistent(kustomize) && Consistent(helm)
    requires a + [x] + b in kustomize && a + [y] + b in helm && Resource(a + [x] + b)
    requires Inert(x) && Inert(y) && FirstWord(x) == FirstWord(y)
    requires !Dropped(x) && !Dropped(y) && !ValueLine(x) && !ValueLine(y) && !SameEnded(x, y)
    ensures Justified(Differs(KeyOf(a + [x] + b)), Resources(kustomize), Resources(helm))
  {
    hide NormLine, Inert, Resources, Consistent, Dropped, ValueLine, SameEnded, FirstWord, Field, HasKind, IsHook, TrimRight;
    PlainKept(x);
    PlainKept(y);
    NormOne(x);
    NormOne(y);
    var d, e := a + [x] + b, a + [y] + b;
    assert Likes(d, e);
    LikesLevel(d, e);
    ChangeDiffers(kustomize, helm, a, x, y, b);
  }

  // ---- Cuts, keys and hooks ------------------------------------------------------------------

  /** Three dashes and blanks cut a stream, and nothing else does. */
  lemma CutExact(a: seq<string>, x: string, b: seq<string>)
    ensures (exists blanks :: AllBlank(blanks) && x == "---" + blanks) ==>
              SplitDocs(a + [x] + b) == SplitDocs(a) + SplitDocs(b)
    ensures (!exists blanks :: AllBlank(blanks) && x == "---" + blanks) ==>
              |SplitDocs(a + [x] + b)| == |SplitDocs(a)| + |SplitDocs(b)| - 1
  {
    hide SplitDocs;
    SeparatorIs(x);
    if Separator(x) {
      var rest := SplitDocs(b);
      StreamCut(a, [x] + b);
      CutHead(x, b);
      assert a + [x] + b == a + ([x] + b);
      var docs := SplitDocs(a);
      assert docs[|docs| - 1] + [] == docs[|docs| - 1];
      assert ([[]] + rest)[1..] == rest;
    } else {
      StreamInserted(a, x, b);
    }
  }

  lemma CutHead(x: string, b: seq<string>)
    requires Separator(x)
    ensures SplitDocs([x] + b) == [[]] + SplitDocs(b)
  {
    assert ([x] + b)[1..] == b;
  }

  lemma SeparatorIs(x: string)
    ensures Separator(x) <==> exists blanks :: AllBlank(blanks) && x == "---" + blanks
  {
    if Separator(x) {
      assert x == "---" + x[3..];
    }
    if blanks :| AllBlank(blanks) && x == "---" + blanks {
      assert x[3..] == blanks && x[..3] == "---";
    }
  }

  /** A word: not empty, without blanks. */
  predicate Word(w: string) {
    w != "" && forall i :: 0 <= i < |w| ==> !Blank(w[i])
  }

  lemma {:induction false} FirstWordIs(gap: string, w: string, rest: string)
    requires AllBlank(gap) && Word(w) && (rest == "" || Blank(rest[0]))
    ensures FirstWord(gap + w + rest) == w
  {
    if gap == "" {
      assert gap + w + rest == w + rest;
      if rest == "" {
        assert w + rest == w;
        RunWhole(w);
      } else {
        RunWord(w, rest);
      }
    } else {
      FirstWordIs(gap[1..], w, rest);
      assert (gap + w + rest)[0] == gap[0] && (gap + w + rest)[1..] == gap[1..] + w + rest;
    }
  }

  lemma {:induction false} RunWhole(w: string)
    requires forall i :: 0 <= i < |w| ==> !Blank(w[i])
    ensures Run(w) == w
  {
    if w != "" {
      RunWhole(w[1..]);
    }
  }

  /** A field is the word after its prefix on the first line that starts with it. */
  lemma {:induction false} FieldAt(before: seq<string>, prefix: string, gap: string, w: string, rest: string, after: seq<string>)
    requires forall l :: l in before ==> !Starts(l, prefix)
    requires AllBlank(gap) && Word(w) && (rest == "" || Blank(rest[0]))
    ensures Field(before + [prefix + gap + w + rest] + after, prefix) == w
  {
    hide FirstWord;
    var line := prefix + gap + w + rest;
    var doc := before + [line] + after;
    if before == [] {
      assert doc[0] == line && line[..|prefix|] == prefix && line[|prefix|..] == gap + w + rest;
      FirstWordIs(gap, w, rest);
    } else {
      assert doc[0] == before[0] && doc[1..] == before[1..] + [line] + after && before[0] in before;
      assert forall l :: l in before[1..] ==> l in before;
      FieldAt(before[1..], prefix, gap, w, rest, after);
    }
  }

  lemma {:induction false} FieldNone(doc: seq<string>, prefix: string)
    requires forall l :: l in doc ==> !Starts(l, prefix)
    ensures Field(doc, prefix) == ""
  {
    if doc != [] {
      assert doc[0] in doc && forall l :: l in doc[1..] ==> l in doc;
      FieldNone(doc[1..], prefix);
    }
  }

  /** The first line with the prefix carries the word, or no line has the prefix and there is none. */
  ghost predicate Carries(doc: seq<string>, prefix: string, w: string) {
    || (w == "" && forall l :: l in doc ==> !Starts(l, prefix))
    || exists before, gap, rest, after :: CarriesAt(doc, prefix, w, before, gap, rest, after)
  }

  ghost predicate CarriesAt(doc: seq<string>, prefix: string, w: string,
                            before: seq<string>, gap: string, rest: string, after: seq<string>) {
    && doc == before + [prefix + gap + w + rest] + after && (forall l :: l in before ==> !Starts(l, prefix))
    && AllBlank(gap) && Word(w) && (rest == "" || Blank(rest[0]))
  }

  lemma FieldIs(doc: seq<string>, prefix: string, w: string)
    requires Carries(doc, prefix, w)
    ensures Field(doc, prefix) == w
  {
    if exists before, gap, rest, after :: CarriesAt(doc, prefix, w, before, gap, rest, after) {
      var before, gap, rest, after :| CarriesAt(doc, prefix, w, before, gap, rest, after);
      FieldAt(before, prefix, gap, w, rest, after);
    } else {
      FieldNone(doc, prefix);
    }
  }

  /** The key of a document, on its lines: the kind, the namespace and the name, two blanks in. */
  lemma KeyAt(doc: seq<string>, kind: string, namespace: string, name: string)
    requires Carries(doc, "kind:", kind) && Carries(doc, "  namespace:", namespace) && Carries(doc, "  name:", name)
    ensures KeyOf(doc) == (kind, namespace, name)
  {
    hide Carries, Field;
    FieldIs(doc, "kind:", kind);
    FieldIs(doc, "  namespace:", namespace);
    FieldIs(doc, "  name:", name);
  }

  /** A document is looked at when a line of it starts with the kind. */
  lemma KindAt(doc: seq<string>)
    ensures HasKind(doc) <==> exists l, rest :: l in doc && l == "kind:" + rest
  {
    if HasKind(doc) {
      var i :| 0 <= i < |doc| && Starts(doc[i], "kind:");
      assert doc[i] in doc && doc[i] == "kind:" + doc[i][5..];
    }
    if l, rest :| l in doc && l == "kind:" + rest {
      var i :| 0 <= i < |doc| && doc[i] == l;
      assert l[..5] == "kind:";
    }
  }

  lemma {:induction false} HookBehind(before: seq<string>, doc: seq<string>)
    requires IsHook(doc)
    ensures IsHook(before + doc)
  {
    if before == [] {
      assert before + doc == doc;
    } else {
      assert (before + doc)[1..] == before[1..] + doc;
      HookBehind(before[1..], doc);
    }
  }

  lemma QuoteOpened(open: string, key: string)
    requires open in {"", "\"", "'"} && key != "" && key[0] !in "\"'"
    ensures Unopened(open + key) == key
  {
    if open == "" {
      assert open + key == key;
    } else {
      assert (open + key)[0] == open[0] && (open + key)[1..] == key;
    }
  }

  lemma HookLine(indent: string, open: string, tail: string, after: seq<string>)
    requires AllBlank(indent) && open in {"", "\"", "'"}
    requires Starts(FirstWord(Unopened(tail)), ":")
    ensures HookHere([indent + (open + ("helm.sh/hook" + tail))] + after)
  {
    hide FirstWord, TrimLeft, Unopened;
    var key := "helm.sh/hook" + tail;
    var line := indent + (open + key);
    assert (open + key)[0] in "\"'h";
    TrimLeftIs(line);
    IndentIs(indent, open + key);
    assert line[|indent|..] == open + key;
    QuoteOpened(open, key);
    assert key[12..] == tail && key[..12] == "helm.sh/hook";
    assert ([line] + after)[1..] == after;
    assert ":" != "" && |FirstWord(Unopened(tail))| >= 1;
    WordFirst(Unopened(tail), after);
  }

  /** A line with the hook key, in either kind of quotes or none, and a colon makes its document a hook. */
  lemma HookAt(before: seq<string>, indent: string, open: string, close: string, gap: string, rest: string, after: seq<string>)
    requires AllBlank(indent) && AllBlank(gap)
    requires open in {"", "\"", "'"} && close in {"", "\"", "'"}
    ensures IsHook(before + [indent + (open + ("helm.sh/hook" + (close + (gap + ":" + rest))))] + after)
  {
    hide FirstWord, Unopened, HookHere;
    var tail := close + (gap + ":" + rest);
    var line := indent + (open + ("helm.sh/hook" + tail));
    ColonFirst(gap, rest);
    QuoteOpened(close, gap + ":" + rest);
    HookLine(indent, open, tail, after);
    var doc := [line] + after;
    HookBehind(before, doc);
    assert before + [line] + after == before + doc;
  }

  lemma WordFirst(line: string, lines: seq<string>)
    requires FirstWord(line) != ""
    ensures WordFrom([line] + lines) == FirstWord(line)
  {
  }

  lemma ColonFirst(gap: string, rest: string)
    requires AllBlank(gap)
    ensures FirstWord(gap + ":" + rest) != "" && Starts(FirstWord(gap + ":" + rest), ":")
    ensures (gap + ":" + rest)[0] !in "\"'"
  {
    var s := gap + ":" + rest;
    TrimLeftIs(s);
    assert s == gap + (":" + rest);
    IndentIs(gap, ":" + rest);
    assert s[|gap|..] == ":" + rest;
  }

  /** Behind at most one quote stands the hook key. */
  predicate Keyed(t: string) {
    Starts(t, "helm.sh/hook") || (t != "" && (t[0] == '"' || t[0] == '\'') && Starts(t[1..], "helm.sh/hook"))
  }

  lemma HookHereHas(doc: seq<string>)
    requires doc != [] && HookHere(doc)
    ensures Keyed(doc[0][Indent(doc[0])..])
  {
    hide WordFrom, TrimLeft, Starts;
    TrimLeftIs(doc[0]);
  }

  /** A hook has a line that starts, behind blanks and at most one quote, with the hook key. */
  lemma {:induction false} HookHas(doc: seq<string>) returns (i: nat)
    requires IsHook(doc)
    ensures i < |doc| && Keyed(doc[i][Indent(doc[i])..])
  {
    hide HookHere, Keyed;
    if HookHere(doc) {
      i := 0;
      HookHereHas(doc);
    } else {
      i := HookHas(doc[1..]);
      i := i + 1;
    }
  }
}
