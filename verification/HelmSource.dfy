/**
 The token view of the generator agrees with the text it works on: rewriting the tokens of a document
 and writing it down is rewriting its text, as long as no action can be mistaken for a pattern.
 */
module HelmSource {
  import opened Prelude
  import opened Text
  import opened HelmText
  import opened HelmChart
  import opened Overlap
  import DriftCheck

  /** No literal character is a brace, and every action has the property. */
  ghost predicate Clean(d: Doc, ok: string -> bool) {
    forall i :: 0 <= i < |d| ==> match d[i] case Ch(c) => c != '{' && c != '}' case Act(a) => ok(a)
  }

  lemma CleanTail(d: Doc, ok: string -> bool)
    requires d != [] && Clean(d, ok)
    ensures Clean(d[1..], ok)
  {
  }

  lemma CleanDrop(d: Doc, n: nat, ok: string -> bool)
    requires n <= |d| && Clean(d, ok)
    ensures Clean(d[n..], ok)
  {
  }

  lemma CleanWeaker(d: Doc, ok: string -> bool, more: string -> bool)
    requires Clean(d, ok) && forall a :: ok(a) ==> more(a)
    ensures Clean(d, more)
  {
  }

  lemma SourceCons(t: Tok, d: Doc)
    ensures Source([t] + d) == (match t case Ch(c) => [c] case Act(a) => a) + Source(d)
  {
    assert ([t] + d)[1..] == d;
  }

  lemma SourceLits(s: string)
    ensures Source(Lits(s)) == s
  {
    RenderLits(Raw, s);
  }

  // ---- Matching ------------------------------------------------------------------------------

  /** The action and the text differ before either ends. */
  predicate Differs(a: string, b: string) {
    Clash(a, 0, b)
  }

  lemma DiffersStops(a: string, rest: string, b: string, more: string)
    requires Differs(a, b)
    ensures !Starts(a + rest, b + more)
  {
    var k: nat :| k < |b| && 0 + k < |a| && a[0 + k] != b[k];
    StartsElsewhere(a + rest, b + more, k);
  }

  /** From place i on, the pattern cannot go on in the action. */
  ghost predicate Parted(a: string, p: Doc, i: nat)
    requires i < |p|
  {
    match p[i]
    case Ch(_) => Differs(a, Source(p[i..]))
    case Act(e) => e != "" && e[0] == '{' && (a == e || Differs(a, e))
  }

  /** From no place on can the pattern go on in an action with the property. */
  ghost predicate Separable(p: Doc, ok: string -> bool) {
    && (forall i: nat :: i < |p| && p[i].Act? ==> p[i].text != "" && p[i].text[0] == '{')
    && forall a, i: nat :: ok(a) && i < |p| ==> Parted(a, p, i)
  }

  /** No action with the property can be mistaken for the pattern or a part of it. */
  ghost predicate Legible(p: Doc, ok: string -> bool) {
    && p != [] && p[0].Ch? && Separable(p, ok)
    && forall a :: ok(a) ==> Repels(a, Source(p))
  }

  /** A literal without braces is separable from actions that open with a brace. */
  lemma LitsSeparable(k: string, ok: string -> bool)
    requires '{' !in k && forall a :: ok(a) ==> a != "" && a[0] == '{'
    ensures Separable(Lits(k), ok)
  {
    forall a, i: nat | ok(a) && i < |k| ensures Parted(a, Lits(k), i) {
      assert Lits(k)[i..] == Lits(k[i..]);
      SourceLits(k[i..]);
      assert a[0 + 0] != k[i..][0];
    }
  }

  predicate OpensAt(a: string, n: nat) {
    n < |a| && a[n] == '{' && forall j :: 0 <= j < n ==> a[j] == ' '
  }

  /** It opens with a brace, perhaps behind spaces. */
  ghost predicate Opens(a: string) {
    exists n: nat :: OpensAt(a, n)
  }

  /** A literal without braces that does not end in a space is separable from actions that open so. */
  lemma BlankSeparable(k: string, ok: string -> bool)
    requires k != "" && '{' !in k && k[|k| - 1] != ' ' && forall a :: ok(a) ==> Opens(a)
    ensures Separable(Lits(k), ok)
  {
    forall a, i: nat | ok(a) && i < |k| ensures Parted(a, Lits(k), i) {
      assert Lits(k)[i..] == Lits(k[i..]);
      SourceLits(k[i..]);
      var n: nat :| OpensAt(a, n);
      var j := if n < |k| - i then n else |k| - i - 1;
      assert a[0 + j] != k[i..][j];
    }
  }

  lemma ConsStarts<T>(x: seq<T>, s: seq<T>, t: seq<T>)
    ensures Starts(x + s, x + t) <==> Starts(s, t)
  {
    if |t| <= |s| {
      assert (x + s)[..|x + t|] == x + s[..|t|];
      assert (x + s[..|t|])[|x|..] == s[..|t|] && (x + t)[|x|..] == t;
    }
  }

  /** A pattern starts the text of a document exactly when its tokens start the document. */
  lemma {:induction false} StartsAgree(d: Doc, p: Doc, i: nat, ok: string -> bool)
    requires i <= |p| && Clean(d, ok) && Separable(p, ok)
    ensures Starts(Source(d), Source(p[i..])) <==> Starts(d, p[i..])
    decreases |p| - i
  {
    hide Separable, Source, Parted, Differs;
    if i == |p| {
      assert p[i..] == [];
      SourceLits("");
      assert Lits("") == [];
    } else {
      var q := p[i + 1..];
      assert p[i..] == [p[i]] + q;
      SourceCons(p[i], q);
      if d == [] {
        SourceLits("");
        assert Lits("") == [];
        ActNonEmpty(p, i, ok);
      } else {
        assert d == [d[0]] + d[1..];
        SourceCons(d[0], d[1..]);
        StartsCons(d[0], d[1..], p[i..]);
        CleanTail(d, ok);
        StartsAgree(d[1..], p, i + 1, ok);
        StepAgree(d, p, i, ok);
      }
    }
  }

  lemma ActNonEmpty(p: Doc, i: nat, ok: string -> bool)
    requires Separable(p, ok) && i < |p|
    ensures p[i].Act? ==> p[i].text != "" && p[i].text[0] == '{'
  {
  }

  lemma StepAgree(d: Doc, p: Doc, i: nat, ok: string -> bool)
    requires d != [] && i < |p| && Clean(d, ok) && Separable(p, ok)
    requires Starts(Source(d[1..]), Source(p[i + 1..])) <==> Starts(d[1..], p[i + 1..])
    ensures Starts(Source(d), Source(p[i..])) <==> d[0] == p[i] && Starts(d[1..], p[i + 1..])
  {
    hide Source, Differs;
    var s, q := Source(d[1..]), Source(p[i + 1..]);
    assert d == [d[0]] + d[1..] && p[i..] == [p[i]] + p[i + 1..];
    SourceCons(d[0], d[1..]);
    SourceCons(p[i], p[i + 1..]);
    ActNonEmpty(p, i, ok);
    match d[0] {
      case Ch(x) =>
        match p[i] {
          case Ch(c) => StartsCons(x, s, [c] + q);
          case Act(e) => StartsElsewhere([x] + s, e + q, 0);
        }
      case Act(a) =>
        assert ok(a) && Parted(a, p, i);
        match p[i] {
          case Ch(c) =>
            DiffersStops(a, s, Source(p[i..]), "");
            assert Source(p[i..]) + "" == Source(p[i..]);
          case Act(e) =>
            if a == e {
              ConsStarts(a, s, q);
            } else {
              DiffersStops(a, s, e, q);
            }
        }
    }
  }

  // ---- Replacing and searching ---------------------------------------------------------------

  lemma SourceSplit(d: Doc, n: nat)
    requires n <= |d|
    ensures Source(d) == Source(d[..n]) + Source(d[n..])
  {
    RenderAppend(Raw, d[..n], d[n..]);
    assert d == d[..n] + d[n..];
  }

  /** Replacing tokens is replacing text. */
  lemma {:induction false} ReplaceAgree(d: Doc, p: Doc, sub: Doc, ok: string -> bool)
    requires Clean(d, ok) && Legible(p, ok)
    ensures Source(p) != "" && Source(Replace(d, p, sub)) == Replace(Source(d), Source(p), Source(sub))
    decreases |d|
  {
    hide Separable, Source, Repels, Clean;
    SourceNonEmpty(p, ok);
    StartsAgree(d, p, 0, ok);
    assert p[0..] == p;
    if d == [] {
      SourceLits("");
      assert Lits("") == [];
    } else if Starts(d, p) {
      var rest := d[|p|..];
      CleanDrop(d, |p|, ok);
      ReplaceAgree(rest, p, sub, ok);
      SourceSplit(d, |p|);
      RenderAppend(Raw, sub, Replace(rest, p, sub));
      SourceIs(sub + Replace(rest, p, sub));
      SourceIs(sub);
      SourceIs(Replace(rest, p, sub));
      assert Source(d)[|Source(p)|..] == Source(rest);
    } else {
      CleanTail(d, ok);
      ReplaceAgree(d[1..], p, sub, ok);
      ReplaceStep(d, p, sub, ok);
    }
  }

  lemma SourceIs(d: Doc)
    ensures Source(d) == Render(Raw, d)
  {
  }

  lemma SourceNonEmpty(p: Doc, ok: string -> bool)
    requires Legible(p, ok)
    ensures p != [] && Source(p) != ""
  {
    assert p == [p[0]] + p[1..];
    SourceCons(p[0], p[1..]);
  }

  lemma ReplaceStep(d: Doc, p: Doc, sub: Doc, ok: string -> bool)
    requires d != [] && Clean(d, ok) && Legible(p, ok) && Source(p) != "" && !Starts(d, p) && !Starts(Source(d), Source(p))
    requires Source(Replace(d[1..], p, sub)) == Replace(Source(d[1..]), Source(p), Source(sub))
    ensures Source(Replace(d, p, sub)) == Replace(Source(d), Source(p), Source(sub))
  {
    hide Source, Repels;
    var next := Replace(d[1..], p, sub);
    assert d == [d[0]] + d[1..] && Replace(d, p, sub) == [d[0]] + next;
    SourceCons(d[0], d[1..]);
    SourceCons(d[0], next);
    match d[0] {
      case Ch(c) => ReplacePasses(c, Source(d[1..]), Source(p), Source(sub));
      case Act(a) => ReplacePast(a, Source(d[1..]), Source(p), Source(sub));
    }
  }

  lemma {:induction false} OccursPast(a: string, rest: string, q: string)
    requires Repels(a, q)
    ensures Occurs(q, a + rest) <==> Occurs(q, rest)
  {
    if a == "" {
      assert a + rest == rest;
    } else {
      RepelsStart(a, rest, q);
      RepelsTail(a, q);
      OccursPast(a[1..], rest, q);
      assert (a + rest)[1..] == a[1..] + rest;
    }
  }

  /** A pattern occurs in the text of a document exactly when its tokens occur in the document. */
  lemma {:induction false} OccursAgree(d: Doc, p: Doc, ok: string -> bool)
    requires Clean(d, ok) && Legible(p, ok)
    ensures Occurs(Source(p), Source(d)) <==> Occurs(p, d)
  {
    hide Separable, Source, Repels, Clean;
    SourceNonEmpty(p, ok);
    StartsAgree(d, p, 0, ok);
    assert p[0..] == p;
    if d == [] {
      SourceLits("");
      assert Lits("") == [];
    } else {
      CleanTail(d, ok);
      OccursAgree(d[1..], p, ok);
      OccursStep(d, p, ok);
    }
  }

  lemma OccursStep(d: Doc, p: Doc, ok: string -> bool)
    requires d != [] && Clean(d, ok) && Legible(p, ok)
    ensures Occurs(Source(p), Source(d)) <==> Starts(Source(d), Source(p)) || Occurs(Source(p), Source(d[1..]))
  {
    hide Source, Repels;
    assert d == [d[0]] + d[1..];
    SourceCons(d[0], d[1..]);
    match d[0] {
      case Ch(c) => assert Source(d)[1..] == Source(d[1..]);
      case Act(a) =>
        OccursPast(a, Source(d[1..]), Source(p));
        OccursStart(Source(p), Source(d));
    }
  }

  lemma OccursStart(q: string, s: string)
    ensures Starts(s, q) ==> Occurs(q, s)
  {
  }

  // ---- The namespace rule on text ------------------------------------------------------------

  predicate WordChar(c: char) {
    'a' <= c <= 'z' || 'A' <= c <= 'Z' || '0' <= c <= '9' || c == '_'
  }

  /** Where the install namespace starts, if the text starts with a namespace key holding it. */
  function NamespaceIn(s: string): (at: Option<nat>)
    ensures at.Some? ==> |KEY| <= at.value <= |s| - |INSTALL|
  {
    if !Starts(s, KEY) then None
    else
      var at := |KEY| + DriftCheck.Indent(s[|KEY|..]);
      if !Starts(s[at..], INSTALL) || (at + |INSTALL| < |s| && WordChar(s[at + |INSTALL|])) then None else Some(at)
  }

  /** The regular expression substitution: a standalone namespace key, any blanks, the namespace as a word. */
  function NamespacedText(s: string, inWord: bool): string
    decreases |s|
  {
    if s == "" then ""
    else if !inWord && NamespaceIn(s).Some? then
      var at := NamespaceIn(s).value;
      s[..at] + NAMESPACE + NamespacedText(s[at + |INSTALL|..], true)
    else [s[0]] + NamespacedText(s[1..], WordChar(s[0]))
  }

  lemma NamespaceFound(blanks: string, rest: string)
    requires AllBlank(blanks) && (rest == "" || !WordChar(rest[0]))
    ensures NamespaceIn(KEY + (blanks + (INSTALL + rest))) == Some(|KEY| + |blanks|)
  {
    hide DriftCheck.Indent;
    var tail := blanks + (INSTALL + rest);
    var s := KEY + tail;
    assert s[..|KEY|] == KEY && s[|KEY|..] == tail;
    IndentPast(blanks, INSTALL + rest);
    assert INSTALL[0] == 'c';
    NoIndent(INSTALL + rest);
    InstallStarts(rest);
    assert s[|KEY| + |blanks|..] == INSTALL + rest;
    assert rest != "" ==> (INSTALL + rest)[|INSTALL|] == rest[0];
  }

  lemma InstallStarts(rest: string)
    ensures Starts(INSTALL + rest, INSTALL)
  {
  }

  /** A key, any blanks and the install namespace as a word: the name is replaced by the template. */
  lemma NamespaceReplaced(blanks: string, rest: string)
    requires AllBlank(blanks) && (rest == "" || !WordChar(rest[0]))
    ensures NamespacedText("namespace:" + (blanks + ("ctxmesh" + rest)), false)
         == "namespace:" + blanks + "{{ .Values.namespace }}" + NamespacedText(rest, true)
  {
    hide NamespaceIn;
    NamespaceFound(blanks, rest);
    var s, at := KEY + (blanks + (INSTALL + rest)), |KEY| + |blanks|;
    assert s == (KEY + blanks) + (INSTALL + rest) && s == (KEY + blanks + INSTALL) + rest;
    assert s[..at] == KEY + blanks && s[at + |INSTALL|..] == rest;
  }

  lemma NoIndent(s: string)
    requires s != "" && !Blank(s[0])
    ensures DriftCheck.Indent(s) == 0
  {
  }

  // ---- What the namespace rule leaves --------------------------------------------------------

  /** Up to place q the outputs agree; there a template was put in, behind a key. */
  ghost predicate AgreeUpTo(s: string, r: string, q: nat) {
    && q <= |s| && q <= |r| && r[..q] == s[..q]
    && ((q == |s| && q == |r|) || (1 <= q < |r| && r[q] == '{' && (r[q - 1] == ':' || Blank(r[q - 1]))))
  }

  lemma {:induction false} FirstPutIn(s: string, inWord: bool) returns (q: nat)
    ensures AgreeUpTo(s, NamespacedText(s, inWord), q)
    decreases |s|
  {
    hide NamespaceIn;
    var r := NamespacedText(s, inWord);
    if s == "" {
      q := 0;
    } else if !inWord && NamespaceIn(s).Some? {
      q := NamespaceIn(s).value;
      PutInBehind(s);
      assert r[..q] == s[..q] && r[q] == NAMESPACE[0];
    } else {
      var k := FirstPutIn(s[1..], WordChar(s[0]));
      q := k + 1;
      var t := NamespacedText(s[1..], WordChar(s[0]));
      assert r == [s[0]] + t && r[..q] == [s[0]] + t[..k] && s[..q] == [s[0]] + s[1..][..k];
    }
  }

  lemma PutInBehind(s: string)
    requires NamespaceIn(s).Some?
    ensures var at := NamespaceIn(s).value; at >= 1 && at <= |s| && (s[at - 1] == ':' || Blank(s[at - 1]))
  {
    var n := DriftCheck.Indent(s[|KEY|..]);
    if n == 0 {
      assert s[..|KEY|][9] == KEY[9] == ':';
    } else {
      assert Blank(s[|KEY|..][n - 1]);
    }
  }

  /** What the match of the rule at the start of a text is. */
  ghost predicate Matches(s: string, n: nat) {
    && |KEY| <= n && n + |INSTALL| <= |s|
    && s[..|KEY|] == KEY && AllBlank(s[|KEY|..n]) && s[n..n + |INSTALL|] == INSTALL
    && (n + |INSTALL| == |s| || !WordChar(s[n + |INSTALL|]))
  }

  lemma NamespaceMatches(s: string)
    ensures NamespaceIn(s).Some? ==> Matches(s, NamespaceIn(s).value)
    ensures forall n: nat :: Matches(s, n) ==> NamespaceIn(s) == Some(n)
  {
    if NamespaceIn(s).Some? {
      var n := NamespaceIn(s).value;
      DriftCheck.IndentBlank(s[|KEY|..]);
      assert s[|KEY|..][..n - |KEY|] == s[|KEY|..n] && s[n..][..|INSTALL|] == s[n..n + |INSTALL|];
    }
    forall n: nat | Matches(s, n) ensures NamespaceIn(s) == Some(n) {
      var blanks, rest := s[|KEY|..n], s[n + |INSTALL|..];
      assert s == KEY + (blanks + (INSTALL + rest));
      NamespaceFound(blanks, rest);
    }
  }

  /** A match is inside the part that agrees, so it was one before. */
  lemma MatchKept(s: string, r: string, q: nat, n: nat)
    requires AgreeUpTo(s, r, q) && Matches(r, n)
    ensures Matches(s, n)
  {
    hide WordChar;
    var e := n + |INSTALL|;
    MatchEnds(r, n);
    if q < e {
      MatchHasNoBrace(r, n, q);
    } else if q > e || q == |r| {
      SameSlices(s, r, q, 0, |KEY|);
      SameSlices(s, r, q, |KEY|, n);
      SameSlices(s, r, q, n, e);
      assert q > e ==> r[..q][e] == r[e] && s[..q][e] == s[e];
    }
  }

  lemma MatchEnds(r: string, n: nat)
    requires Matches(r, n)
    ensures r[n + |INSTALL| - 1] == 'h'
  {
    assert r[n..n + |INSTALL|][6] == INSTALL[6];
  }

  lemma MatchHasNoBrace(r: string, n: nat, q: nat)
    requires Matches(r, n) && q < n + |INSTALL|
    ensures r[q] != '{'
  {
    if q < |KEY| {
      assert r[..|KEY|][q] == KEY[q] && '{' !in KEY;
    } else if q < n {
      assert Blank(r[|KEY|..n][q - |KEY|]);
    } else {
      assert r[n..n + |INSTALL|][q - n] == INSTALL[q - n] && '{' !in INSTALL;
    }
  }

  lemma NoKeyHere(s: string, inWord: bool)
    requires s == "" || !WordChar(s[0])
    ensures NamespacedText(s, inWord) == NamespacedText(s, false)
  {
    if s != "" {
      assert KEY[0] == 'n';
      StartsElsewhere(s, KEY, 0);
    }
  }

  lemma KeyedRepels(blanks: string)
    requires AllBlank(blanks)
    ensures Repels("amespace:" + blanks + NAMESPACE, KEY)
  {
    hide Repels;
    assert 'n' == KEY[0] && 'n' !in "amespace:" && 'n' !in blanks;
    RepelsAbsent("amespace:", KEY);
    RepelsAbsent(blanks, KEY);
    RepelsAppend("amespace:", blanks, KEY);
    TemplateRepels();
    RepelsAppend("amespace:" + blanks, NAMESPACE, KEY);
  }

  lemma TemplateRepels()
    ensures Repels(NAMESPACE, KEY)
  {
    var a := NAMESPACE;
    assert ':' !in a && a[|a| - 1] == '}' && KEY[9] == ':' && '}' !in KEY && |KEY| == 10;
    forall j: nat | j < |a| ensures Clash(a, j, KEY) {
      if j + 9 < |a| {
        assert a[j + 9] != KEY[9];
      } else {
        var t := |a| - 1 - j;
        assert a[j + t] != KEY[t];
      }
    }
  }

  /** The rule leaves nothing to do: no namespace key it would rewrite is left. */
  lemma {:induction false} NamespacedOnce(s: string, inWord: bool)
    ensures var r := NamespacedText(s, inWord); NamespacedText(r, inWord) == r
    decreases |s|
  {
    hide NamespaceIn, WordChar;
    if s == "" {
    } else if !inWord && NamespaceIn(s).Some? {
      NamespacedOnce(s[NamespaceIn(s).value + |INSTALL|..], false);
      NamespacedOnceHere(s);
    } else {
      var c, t := s[0], NamespacedText(s[1..], WordChar(s[0]));
      var r := NamespacedText(s, inWord);
      NamespacedOnce(s[1..], WordChar(c));
      var q := FirstPutIn(s, inWord);
      NamespaceMatches(s);
      NamespaceMatches(r);
      if !inWord && NamespaceIn(r).Some? {
        MatchKept(s, r, q, NamespaceIn(r).value);
      }
      assert r == [c] + t && r[0] == c && r[1..] == t;
    }
  }

  lemma NotBehindBlanks(blanks: string, rest: string)
    requires AllBlank(blanks)
    ensures NamespaceIn(KEY + (blanks + (NAMESPACE + rest))) == None
  {
    hide DriftCheck.Indent, Starts, AllBlank;
    var s := KEY + (blanks + (NAMESPACE + rest));
    assert s[|KEY|..] == blanks + (NAMESPACE + rest) && (NAMESPACE + rest)[0] == '{';
    IndentPast(blanks, NAMESPACE + rest);
    NoIndent(NAMESPACE + rest);
    assert s[|KEY| + |blanks|..][0] == '{';
    StartsElsewhere(s[|KEY| + |blanks|..], INSTALL, 0);
  }

  lemma OnceBehindKey(blanks: string, out: string)
    requires AllBlank(blanks) && NamespacedText(out, false) == out
    ensures var r := KEY + (blanks + (NAMESPACE + out)); NamespacedText(r, false) == r
  {
    hide NamespaceIn, Repels, NamespacedText;
    var r, tail := KEY + (blanks + (NAMESPACE + out)), "amespace:" + blanks + NAMESPACE;
    NotBehindBlanks(blanks, out);
    KeyedRepels(blanks);
    assert KEY == ['n'] + "amespace:";
    assert r == ['n'] + (tail + out);
    assert tail[|tail| - 1] == NAMESPACE[|NAMESPACE| - 1] == '}';
    NamespacedTextStep('n', tail + out, false);
    NamespacedTextPast(tail, out, WordChar('n'));
  }

  lemma RestUnkeyed(s: string)
    requires NamespaceIn(s).Some?
    ensures var rest := s[NamespaceIn(s).value + |INSTALL|..]; NamespacedText(rest, true) == NamespacedText(rest, false)
  {
    hide WordChar, NamespacedText;
    var rest := s[NamespaceIn(s).value + |INSTALL|..];
    assert rest != "" ==> rest[0] == s[NamespaceIn(s).value + |INSTALL|];
    NoKeyHere(rest, true);
  }

  lemma KeyAndBlanks(s: string) returns (blanks: string)
    requires NamespaceIn(s).Some?
    ensures AllBlank(blanks) && s[..NamespaceIn(s).value] == KEY + blanks
  {
    hide WordChar, NamespaceIn;
    NamespaceMatches(s);
    var n := NamespaceIn(s).value;
    blanks := s[|KEY|..n];
    CutAt(s[..n], |KEY|);
    SameSlices(s, s[..n], n, 0, |KEY|);
    SameSlices(s, s[..n], n, |KEY|, n);
  }

  lemma NamespacedOnceHere(s: string)
    requires NamespaceIn(s).Some?
    requires var rest := s[NamespaceIn(s).value + |INSTALL|..];
             var r := NamespacedText(rest, false); NamespacedText(r, false) == r
    ensures var r := NamespacedText(s, false); NamespacedText(r, false) == r
  {
    hide NamespaceIn, NamespacedText;
    var n := NamespaceIn(s).value;
    RestUnkeyed(s);
    var blanks := KeyAndBlanks(s);
    var out := NamespacedText(s[n + |INSTALL|..], false);
    OnceBehindKey(blanks, out);
    NamespacedHere(s);
    assert KEY + blanks + NAMESPACE + out == KEY + (blanks + (NAMESPACE + out));
  }

  lemma NamespacedHere(s: string)
    requires NamespaceIn(s).Some?
    ensures var n := NamespaceIn(s).value;
            NamespacedText(s, false) == s[..n] + NAMESPACE + NamespacedText(s[n + |INSTALL|..], true)
  {
    hide NamespaceIn;
  }

  /** A key, blanks and the install namespace as a word, and what follows. */
  ghost predicate InstallKey(s: string, blanks: string, more: string) {
    AllBlank(blanks) && s == "namespace:" + blanks + "ctxmesh" + more && (more == "" || !WordChar(more[0]))
  }

  lemma MatchParts(s: string) returns (blanks: string, more: string)
    requires NamespaceIn(s).Some?
    ensures InstallKey(s, blanks, more)
  {
    hide WordChar, NamespaceIn;
    NamespaceMatches(s);
    var n := NamespaceIn(s).value;
    blanks := KeyAndBlanks(s);
    more := s[n + |INSTALL|..];
    CutAt(s, n + |INSTALL|);
    CutAt(s[..n + |INSTALL|], n);
    SameSlices(s, s[..n + |INSTALL|], n + |INSTALL|, 0, n);
    SameSlices(s, s[..n + |INSTALL|], n + |INSTALL|, n, n + |INSTALL|);
    assert more != "" ==> more[0] == s[n + |INSTALL|];
  }

  /** Anywhere else, or behind a word character, a character stays as it is. */
  lemma NamespaceKept(c: char, rest: string, inWord: bool)
    requires inWord || !exists blanks, more :: InstallKey([c] + rest, blanks, more)
    ensures NamespacedText([c] + rest, inWord) == [c] + NamespacedText(rest, WordChar(c))
  {
    hide NamespacedText, NamespaceIn, InstallKey;
    if NamespaceIn([c] + rest).Some? {
      var blanks, more := MatchParts([c] + rest);
    }
    NamespacedTextStep(c, rest, inWord);
  }

  /** An action the rule passes over: it opens and closes with a brace, and the key cannot begin in it. */
  ghost predicate Opaque(a: string) {
    Opens(a) && a[|a| - 1] == '}' && Repels(a, KEY)
  }

  lemma {:induction false} NamespacedTextPast(a: string, rest: string, inWord: bool)
    requires Repels(a, KEY) && a != "" && a[|a| - 1] == '}'
    ensures NamespacedText(a + rest, inWord) == a + NamespacedText(rest, false)
  {
    hide NamespaceIn;
    RepelsStart(a, rest, KEY);
    NoKeyNoNamespace(a + rest);
    assert (a + rest)[0] == a[0] && (a + rest)[1..] == a[1..] + rest;
    if |a| == 1 {
      assert a[1..] + rest == rest && a == [a[0]];
    } else {
      RepelsTail(a, KEY);
      NamespacedTextPast(a[1..], rest, WordChar(a[0]));
      assert [a[0]] + (a[1..] + NamespacedText(rest, false)) == a + NamespacedText(rest, false);
    }
  }

  lemma NoKeyNoNamespace(s: string)
    requires !Starts(s, KEY)
    ensures NamespaceIn(s).None?
  {
  }

  lemma {:induction false} BlankText(d: Doc)
    requires forall i :: 0 <= i < |d| ==> BlankTok(d[i])
    ensures |Source(d)| == |d| && AllBlank(Source(d))
  {
    if d != [] {
      assert d == [d[0]] + d[1..];
      SourceCons(d[0], d[1..]);
      BlankText(d[1..]);
      assert forall i :: 1 <= i < |Source(d)| ==> Source(d)[i] == Source(d[1..])[i - 1];
    }
  }

  lemma {:induction false} IndentPast(x: string, y: string)
    requires AllBlank(x)
    ensures DriftCheck.Indent(x + y) == |x| + DriftCheck.Indent(y)
  {
    if x == "" {
      assert x + y == y;
    } else {
      IndentPast(x[1..], y);
      assert (x + y)[0] == x[0] && (x + y)[1..] == x[1..] + y;
    }
  }

  lemma OpensIndent(a: string, rest: string)
    requires Opens(a)
    ensures var n := DriftCheck.Indent(a + rest); n < |a| && (a + rest)[n] == '{'
  {
    var n: nat :| OpensAt(a, n);
    IndentPast(a[..n], a[n..] + rest);
    assert a + rest == a[..n] + (a[n..] + rest);
    assert (a[n..] + rest)[0] == '{';
  }

  lemma BlanksEnd(d: Doc)
    requires d == [] || (d[0].Ch? && !BlankTok(d[0]))
    ensures DriftCheck.Indent(Source(d)) == 0
  {
    if d == [] {
      SourceLits("");
      assert Lits("") == [];
    } else {
      assert d == [d[0]] + d[1..];
      SourceCons(d[0], d[1..]);
    }
  }

  lemma BlanksAgree(d: Doc)
    ensures var n := Blanks(d);
            && n <= |Source(d)| && Source(d)[n..] == Source(d[n..]) && Source(d)[..n] == Source(d[..n])
            && DriftCheck.Indent(Source(d)) == n + DriftCheck.Indent(Source(d[n..]))
    ensures var n := Blanks(d); n == |d| || d[n].Ch? ==> DriftCheck.Indent(Source(d[n..])) == 0
  {
    hide Source, Blanks, BlankTok, DriftCheck.Indent;
    var n := Blanks(d);
    BlanksAre(d);
    BlankText(d[..n]);
    SourceSplit(d, n);
    IndentPast(Source(d[..n]), Source(d[n..]));
    if n == |d| || d[n].Ch? {
      BlanksEnd(d[n..]);
    }
  }

  lemma CleanAct(d: Doc, n: nat, ok: string -> bool)
    requires n < |d| && d[n].Act? && Clean(d, ok)
    ensures ok(d[n].text)
  {
  }

  /** The text of a document that starts with an action is indented up to its brace. */
  lemma ActIndent(d: Doc)
    requires d != [] && d[0].Act? && Opens(d[0].text)
    ensures var n := DriftCheck.Indent(Source(d)); n < |Source(d)| && Source(d)[n] == '{'
  {
    hide Source, Opens;
    assert d == [d[0]] + d[1..];
    SourceCons(d[0], d[1..]);
    OpensIndent(d[0].text, Source(d[1..]));
  }

  /** No namespace follows blanks and then an action. */
  lemma ActAfterBlanks(d: Doc, ok: string -> bool)
    requires Clean(d, ok) && (forall a :: ok(a) ==> Opaque(a)) && Blanks(d) < |d| && d[Blanks(d)].Act?
    ensures !Starts(d[Blanks(d)..], Lits(INSTALL))
    ensures var n := DriftCheck.Indent(Source(d)); n < |Source(d)| && Source(d)[n] == '{'
  {
    hide Source, Repels, Opens, Blanks, Clean, DriftCheck.Indent;
    var n := Blanks(d);
    CleanAct(d, n, ok);
    BlanksAgree(d);
    ActIndent(d[n..]);
    StartsElsewhere(d[n..], Lits(INSTALL), 0);
  }

  lemma WordAgree(d: Doc, ok: string -> bool)
    requires Clean(d, ok) && forall a :: ok(a) ==> Opaque(a)
    ensures (d != [] && WordTok(d[0])) <==> (Source(d) != "" && WordChar(Source(d)[0]))
  {
    hide Repels;
    if d == [] {
      SourceLits("");
      assert Lits("") == [];
    } else {
      assert d == [d[0]] + d[1..];
      SourceCons(d[0], d[1..]);
    }
  }

  lemma KeyAgree(d: Doc, ok: string -> bool)
    requires Clean(d, ok) && forall a :: ok(a) ==> Opaque(a)
    ensures Starts(d, Lits(KEY)) <==> Starts(Source(d), KEY)
    ensures Starts(d, Lits(KEY)) ==> Source(d)[|KEY|..] == Source(d[|KEY|..]) && Source(d[..|KEY|]) == KEY
  {
    hide Repels, Source;
    BlankSeparable(KEY, ok);
    StartsAgree(d, Lits(KEY), 0, ok);
    assert Lits(KEY)[0..] == Lits(KEY);
    SourceLits(KEY);
    if Starts(d, Lits(KEY)) {
      SourceSplit(d, |KEY|);
      assert d[..|KEY|] == Lits(KEY);
    }
  }

  lemma InstallAgree(d: Doc, ok: string -> bool)
    requires Clean(d, ok) && forall a :: ok(a) ==> Opaque(a)
    ensures Starts(d, Lits(INSTALL)) <==> Starts(Source(d), INSTALL)
    ensures Starts(d, Lits(INSTALL)) ==> Source(d)[|INSTALL|..] == Source(d[|INSTALL|..])
  {
    hide Repels, Source;
    BlankSeparable(INSTALL, ok);
    StartsAgree(d, Lits(INSTALL), 0, ok);
    assert Lits(INSTALL)[0..] == Lits(INSTALL);
    SourceLits(INSTALL);
    if Starts(d, Lits(INSTALL)) {
      SourceSplit(d, |INSTALL|);
      assert d[..|INSTALL|] == Lits(INSTALL);
    }
  }

  /** The key holding the namespace is found at the same place in tokens and in text. */
  lemma NamespaceAgree(d: Doc, ok: string -> bool)
    requires Clean(d, ok) && forall a :: ok(a) ==> Opaque(a)
    ensures NamespaceAt(d) == NamespaceIn(Source(d))
    ensures NamespaceAt(d).Some? ==>
              var at := NamespaceAt(d).value;
              Source(d[..at]) == Source(d)[..at] && Source(d[at + |INSTALL|..]) == Source(d)[at + |INSTALL|..]
  {
    hide Source, Opaque, Blanks, Clean, WordTok, WordChar;
    KeyAgree(d, ok);
    if Starts(d, Lits(KEY)) {
      var tail := d[|KEY|..];
      if Blanks(tail) < |tail| && tail[Blanks(tail)].Act? {
        NoNamespaceAfterBlanks(d, ok);
      } else {
        NamespaceAfterBlanks(d, ok);
      }
    }
  }

  lemma NoNamespaceAfterBlanks(d: Doc, ok: string -> bool)
    requires Clean(d, ok) && forall a :: ok(a) ==> Opaque(a)
    requires Starts(d, Lits(KEY)) && var tail := d[|KEY|..]; Blanks(tail) < |tail| && tail[Blanks(tail)].Act?
    ensures NamespaceAt(d).None? && NamespaceIn(Source(d)).None?
  {
    hide Source, Opaque, Blanks, Clean, WordTok, WordChar;
    KeyAgree(d, ok);
    var tail := d[|KEY|..];
    CleanDrop(d, |KEY|, ok);
    ActAfterBlanks(tail, ok);
    assert d[|KEY| + Blanks(tail)..] == tail[Blanks(tail)..];
    var m := DriftCheck.Indent(Source(tail));
    assert Source(d)[|KEY| + m..][0] == '{';
  }

  /** A key and the blanks after it are as long in the text. */
  lemma AfterKey(d: Doc, ok: string -> bool)
    requires Clean(d, ok) && (forall a :: ok(a) ==> Opaque(a)) && Starts(d, Lits(KEY))
    ensures var at := |KEY| + Blanks(d[|KEY|..]);
            at <= |d| && at <= |Source(d)| && Source(d[..at]) == Source(d)[..at] && Source(d[at..]) == Source(d)[at..]
  {
    hide Source, Opaque, Blanks, Clean;
    KeyAgree(d, ok);
    var tail, n := d[|KEY|..], Blanks(d[|KEY|..]);
    BlanksAgree(tail);
    var at := |KEY| + n;
    assert d[at..] == tail[n..] && d[..at] == d[..|KEY|] + tail[..n];
    SourceSplit(d[..at], |KEY|);
    assert d[..at][..|KEY|] == d[..|KEY|] && d[..at][|KEY|..] == tail[..n];
    KeyPrefix(Source(d), |KEY|, n);
  }

  lemma NamespaceAfterBlanks(d: Doc, ok: string -> bool)
    requires Clean(d, ok) && forall a :: ok(a) ==> Opaque(a)
    requires Starts(d, Lits(KEY)) && var tail := d[|KEY|..]; Blanks(tail) == |tail| || tail[Blanks(tail)].Ch?
    ensures NamespaceAt(d) == NamespaceIn(Source(d))
    ensures NamespaceAt(d).Some? ==>
              var at := NamespaceAt(d).value;
              Source(d[..at]) == Source(d)[..at] && Source(d[at + |INSTALL|..]) == Source(d)[at + |INSTALL|..]
  {
    hide Source, Opaque, Blanks, Clean, WordTok, WordChar;
    KeyAgree(d, ok);
    BlanksAgree(d[|KEY|..]);
    AfterKey(d, ok);
    var at := |KEY| + Blanks(d[|KEY|..]);
    CleanDrop(d, at, ok);
    InstallAgree(d[at..], ok);
    if Starts(d[at..], Lits(INSTALL)) {
      var rest := d[at + |INSTALL|..];
      assert rest == d[at..][|INSTALL|..] && Source(d)[at + |INSTALL|..] == Source(d)[at..][|INSTALL|..];
      CleanDrop(d, at + |INSTALL|, ok);
      WordAgree(rest, ok);
      assert rest != [] ==> rest[0] == d[at + |INSTALL|];
      assert Source(rest) != "" ==> Source(rest)[0] == Source(d)[at + |INSTALL|];
    }
  }

  lemma KeyPrefix(s: string, k: nat, n: nat)
    requires k + n <= |s|
    ensures s[..k] + s[k..][..n] == s[..k + n]
  {
  }

  /** The namespace rule on tokens is the substitution on text. */
  lemma {:induction false} NamespacedAgree(d: Doc, inWord: bool, ok: string -> bool)
    requires Clean(d, ok) && forall a :: ok(a) ==> Opaque(a)
    ensures Source(Namespaced(d, inWord)) == NamespacedText(Source(d), inWord)
    decreases |d|
  {
    hide Source, Opaque, NamespaceAt, NamespaceIn, Clean, WordTok, WordChar;
    if d == [] {
      SourceLits("");
      assert Lits("") == [];
    } else {
      NamespaceAgree(d, ok);
      if !inWord && NamespaceAt(d).Some? {
        var at := NamespaceAt(d).value;
        var rest := d[at + |INSTALL|..];
        CleanDrop(d, at + |INSTALL|, ok);
        NamespacedAgree(rest, true, ok);
        var next := Namespaced(rest, true);
        SourceSplit(d[..at] + [Act(NAMESPACE)] + next, at + 1);
        SourceSplit(d[..at] + [Act(NAMESPACE)], at);
        assert (d[..at] + [Act(NAMESPACE)] + next)[..at + 1] == d[..at] + [Act(NAMESPACE)];
        assert (d[..at] + [Act(NAMESPACE)] + next)[at + 1..] == next;
        assert (d[..at] + [Act(NAMESPACE)])[..at] == d[..at] && (d[..at] + [Act(NAMESPACE)])[at..] == [Act(NAMESPACE)];
        SourceOne(NAMESPACE);
      } else {
        CleanTail(d, ok);
        NamespacedAgree(d[1..], WordTok(d[0]), ok);
        NamespacedStepAgree(d, inWord, ok);
      }
    }
  }

  lemma SourceOne(a: string)
    ensures Source([Act(a)]) == a
  {
    assert [Act(a)] == [Act(a)] + [];
    SourceCons(Act(a), []);
    assert a + "" == a;
  }

  lemma NamespacedStepAgree(d: Doc, inWord: bool, ok: string -> bool)
    requires d != [] && Clean(d, ok) && (forall a :: ok(a) ==> Opaque(a))
    requires inWord || NamespaceAt(d).None?
    requires NamespaceAt(d) == NamespaceIn(Source(d))
    requires Source(Namespaced(d[1..], WordTok(d[0]))) == NamespacedText(Source(d[1..]), WordTok(d[0]))
    ensures Source(Namespaced(d, inWord)) == NamespacedText(Source(d), inWord)
  {
    hide Source, NamespaceAt, NamespaceIn, NamespacedText, Repels, Opaque;
    var next := Namespaced(d[1..], WordTok(d[0]));
    assert d == [d[0]] + d[1..] && Namespaced(d, inWord) == [d[0]] + next;
    SourceCons(d[0], d[1..]);
    SourceCons(d[0], next);
    match d[0] {
      case Ch(c) => NamespacedTextStep(c, Source(d[1..]), inWord);
      case Act(a) =>
        OpaqueIs(a);
        NamespacedTextPast(a, Source(d[1..]), inWord);
    }
  }

  lemma OpaqueIs(a: string)
    requires Opaque(a)
    ensures a != "" && a[|a| - 1] == '}' && Repels(a, KEY)
  {
    hide Repels;
  }

  lemma NamespacedTextStep(c: char, rest: string, inWord: bool)
    requires inWord || NamespaceIn([c] + rest).None?
    ensures NamespacedText([c] + rest, inWord) == [c] + NamespacedText(rest, WordChar(c))
  {
    hide NamespaceIn;
    assert ([c] + rest)[0] == c && ([c] + rest)[1..] == rest;
  }

  // ---- The chain on text ---------------------------------------------------------------------

  /** What a rule does to the chart text. */
  function TextRewrite(r: Rule, s: string): string
    decreases r
  {
    match r
    case Swap(pat, sub) => if Source(pat) == "" then s else Replace(s, Source(pat), Source(sub))
    case NamespaceKeys => NamespacedText(s, false)
    case Routed(marker, hit, miss) => if Occurs(Source(marker), s) then TextRewrite(hit, s) else TextRewrite(miss, s)
  }

  function TextAll(rules: seq<Rule>, s: string): string {
    if rules == [] then s else TextRewrite(rules[|rules| - 1], TextAll(rules[..|rules| - 1], s))
  }

  /** The substitute's literal characters are among the pattern's, and its actions have the property. */
  ghost predicate Drawn(sub: Doc, pat: Doc, ok: string -> bool) {
    forall t :: t in sub ==> match t case Ch(_) => t in pat case Act(a) => ok(a)
  }

  /** The rule can be read off the text of documents whose actions have one property, and adds only actions with another. */
  ghost predicate Readable(r: Rule, ok: string -> bool, adds: string -> bool)
    decreases r
  {
    match r
    case Swap(pat, sub) => Legible(pat, ok) && Drawn(sub, pat, adds)
    case NamespaceKeys => (forall a :: ok(a) ==> Opaque(a)) && adds(NAMESPACE)
    case Routed(marker, hit, miss) => Legible(marker, ok) && Readable(hit, ok, adds) && Readable(miss, ok, adds)
  }

  lemma {:induction false} ReplaceClean(d: Doc, pat: Doc, sub: Doc, ok: string -> bool)
    requires pat != [] && Clean(d, ok) && Drawn(sub, pat, ok)
    ensures Clean(Replace(d, pat, sub), ok)
    decreases |d|
  {
    if d == [] {
    } else if Starts(d, pat) {
      var rest := d[|pat|..];
      CleanDrop(d, |pat|, ok);
      ReplaceClean(rest, pat, sub, ok);
      assert pat == d[..|pat|];
      DrawnClean(sub, pat, ok);
    } else {
      CleanTail(d, ok);
      ReplaceClean(d[1..], pat, sub, ok);
    }
  }

  lemma DrawnClean(sub: Doc, pat: Doc, ok: string -> bool)
    requires Clean(pat, ok) && Drawn(sub, pat, ok)
    ensures Clean(sub, ok)
  {
    forall i | 0 <= i < |sub| ensures match sub[i] case Ch(c) => c != '{' && c != '}' case Act(a) => ok(a) {
      assert sub[i] in sub;
    }
  }

  lemma {:induction false} NamespacedClean(d: Doc, inWord: bool, ok: string -> bool)
    requires Clean(d, ok) && ok(NAMESPACE)
    ensures Clean(Namespaced(d, inWord), ok)
    decreases |d|
  {
    hide NamespaceAt, WordTok;
    if d == [] {
    } else if !inWord && NamespaceAt(d).Some? {
      var at := NamespaceAt(d).value;
      CleanDrop(d, at + |INSTALL|, ok);
      NamespacedClean(d[at + |INSTALL|..], true, ok);
    } else {
      CleanTail(d, ok);
      NamespacedClean(d[1..], WordTok(d[0]), ok);
    }
  }

  /** Rewriting tokens is rewriting text. */
  lemma {:induction false} RewriteAgree(r: Rule, d: Doc, ok: string -> bool, adds: string -> bool)
    requires Clean(d, ok) && Readable(r, ok, adds) && forall a :: ok(a) ==> adds(a)
    ensures Source(Rewrite(r, d)) == TextRewrite(r, Source(d)) && Clean(Rewrite(r, d), adds)
    decreases r
  {
    hide Clean, Legible, Source, Replace, Namespaced, Opaque, Drawn;
    CleanWeaker(d, ok, adds);
    match r
    case Swap(pat, sub) =>
      LegibleStarts(pat, ok);
      ReplaceAgree(d, pat, sub, ok);
      ReplaceClean(d, pat, sub, adds);
    case NamespaceKeys =>
      NamespacedAgree(d, false, ok);
      NamespacedClean(d, false, adds);
    case Routed(marker, hit, miss) =>
      OccursAgree(d, marker, ok);
      if Occurs(marker, d) {
        RewriteAgree(hit, d, ok, adds);
      } else {
        RewriteAgree(miss, d, ok, adds);
      }
  }

  lemma LegibleStarts(p: Doc, ok: string -> bool)
    requires Legible(p, ok)
    ensures p != []
  {
  }

  /** A whole chain whose rules keep one property of actions, on tokens and on text. */
  lemma {:induction false} ChainAgree(rules: seq<Rule>, d: Doc, ok: string -> bool)
    requires Clean(d, ok) && forall r :: r in rules ==> Readable(r, ok, ok)
    ensures Source(RewriteAll(rules, d)) == TextAll(rules, Source(d)) && Clean(RewriteAll(rules, d), ok)
  {
    hide Clean, Readable, Source, Rewrite, TextRewrite;
    if rules != [] {
      ChainAgree(rules[..|rules| - 1], d, ok);
      RewriteAgree(rules[|rules| - 1], RewriteAll(rules[..|rules| - 1], d), ok, ok);
    }
  }

  lemma {:induction false} TextAllAppend(a: seq<Rule>, b: seq<Rule>, s: string)
    ensures TextAll(a + b, s) == TextAll(b, TextAll(a, s))
  {
    hide TextRewrite;
    if b == [] {
      assert a + b == a;
    } else {
      TextAllAppend(a, b[..|b| - 1], s);
      assert (a + b)[..|a + b| - 1] == a + b[..|b| - 1];
    }
  }

  lemma {:induction false} RewriteAllAppend(a: seq<Rule>, b: seq<Rule>, d: Doc)
    ensures RewriteAll(a + b, d) == RewriteAll(b, RewriteAll(a, d))
  {
    hide Rewrite;
    if b == [] {
      assert a + b == a;
    } else {
      RewriteAllAppend(a, b[..|b| - 1], d);
      assert (a + b)[..|a + b| - 1] == a + b[..|b| - 1];
    }
  }
}
