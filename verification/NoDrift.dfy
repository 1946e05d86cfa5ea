/**
 The no-drift invariant end to end: the chart generated from a kustomize stream, rendered with the
 values of the check, against that stream.
 */
module NoDrift {
  import opened Prelude
  import opened Text
  import opened HelmText
  import opened DriftCheck
  import opened DriftNoise
  import opened HelmChart
  import opened HelmDials
  import opened HelmFiles
  import opened DriftQuotes
  import opened DriftEntries
  import opened ChartFacts

  // ---- The substitution of one document ------------------------------------------------------

  /** Meaning preservation: if every template evaluates to its literal, the document comes back. */
  lemma MeaningPreserved(v: Values, c: Chain, text: string)
    requires forall r :: r in c.before + [EgressRule()] + c.after ==> Preserves(v, r)
    ensures Render(v, Substituted(c, Lits(text))) == text
  {
    hide EgressRule, RewriteAll, Rewrite, Preserves;
    var d := RewriteAll(c.before, Lits(text));
    assert forall r :: r in c.before ==> r in c.before + [EgressRule()] + c.after;
    assert forall r :: r in c.after ==> r in c.before + [EgressRule()] + c.after;
    assert EgressRule() in c.before + [EgressRule()] + c.after;
    RenderLits(v, text);
    ChainRenders(v, c.before, Lits(text));
    RewriteRenders(v, EgressRule(), d);
    ChainRenders(v, c.after, Rewrite(EgressRule(), d));
  }

  /** The values of the no-drift check: literals everywhere, and a quoted image where the template quotes. */
  ghost predicate Defaults(v: Values, c: Chain) {
    && (forall r :: r in c.before ==> Preserves(v, r))
    && (forall r :: r in c.after ==> Preserves(v, r))
    && v(TEMPLATE) == QUOTED
    && v(NAMESPACE) == INSTALL
    && (forall dial :: dial in REPLICA_DIALS + BFF_DIALS ==> v(ReplicaAct(dial.1)) == "1")
  }

  lemma {:induction false} ReplaceGrows(v: Values, d: Doc, pat: Doc, sub: Doc)
    requires pat != [] && |Render(v, sub)| > |Render(v, pat)|
    ensures |Render(v, Replace(d, pat, sub))| >= |Render(v, d)|
    ensures |Render(v, Replace(d, pat, sub))| == |Render(v, d)| <==> !Occurs(pat, d)
    ensures !Occurs(pat, d) ==> Replace(d, pat, sub) == d
    decreases |d|
  {
    if d == [] {
    } else if Starts(d, pat) {
      var rest := d[|pat|..];
      assert d == pat + rest;
      ReplaceGrows(v, rest, pat, sub);
      RenderAppend(v, pat, rest);
      RenderAppend(v, sub, Replace(rest, pat, sub));
    } else {
      var rest := Replace(d[1..], pat, sub);
      ReplaceGrows(v, d[1..], pat, sub);
      assert ([d[0]] + rest)[1..] == rest && [d[0]] + d[1..] == d;
    }
  }

  lemma BeforeRenders(v: Values, c: Chain, text: string)
    requires Defaults(v, c)
    ensures Render(v, RewriteAll(c.before, Lits(text))) == text
  {
    hide RewriteAll, Preserves, Render, Lits;
    RenderLits(v, text);
    ChainRenders(v, c.before, Lits(text));
  }

  lemma AfterRenders(v: Values, c: Chain, d: Doc)
    requires Defaults(v, c)
    ensures Render(v, RewriteAll(c.after, d)) == Render(v, d)
  {
    hide RewriteAll, Preserves, Render;
    ChainRenders(v, c.after, d);
  }

  lemma EgressReplaces(d: Doc)
    ensures EgressRule().Swap? && EgressRule().pat != []
    ensures Rewrite(EgressRule(), d) == Replace(d, EgressRule().pat, EgressRule().sub)
  {
    hide Replace, Injected;
  }

  lemma DefaultsQuote(v: Values, c: Chain)
    requires Defaults(v, c)
    ensures v(TEMPLATE) == QUOTED && v(NAMESPACE) == INSTALL
    ensures forall dial :: dial in REPLICA_DIALS ==> v(ReplicaAct(dial.1)) == "1"
    ensures forall dial :: dial in BFF_DIALS ==> v(ReplicaAct(dial.1)) == "1"
  {
    hide Preserves, ReplicaAct, Injected;
    var all := REPLICA_DIALS + BFF_DIALS;
    assert forall dial :: dial in REPLICA_DIALS ==> dial in all;
    assert forall dial :: dial in BFF_DIALS ==> dial in all;
  }

  lemma {:induction false} NeverOccurs(v: Values, d: Doc)
    ensures Every(v, d, r => false) <==> !Occurs(Lits(ENTRY), d)
    decreases |d|
  {
    hide Head, Render, EnvHead;
    LitsLength(ENTRY);
    if d != [] && !Starts(d, Lits(ENTRY)) {
      NeverOccurs(v, d[1..]);
    }
  }

  /** The entries of the document that reaches the quoting rule are those of the input text. */
  lemma ChartEntriesKept(v: Values, text: string, q: string -> bool)
    requires Defaults(v, ChartRules())
    ensures Every(v, RewriteAll(ChainBefore(), Lits(text)), q) <==> EveryText(text, q)
  {
    hide ChainBefore, ChainAfter, Preserves, Every, EveryText, RewriteAll;
    ChartBypasses();
    EveryChain(v, ChainBefore(), Lits(text), q);
    EveryLits(v, text, q);
  }

  lemma ReachedExact(v: Values, c: Chain, text: string)
    requires Defaults(v, c)
    ensures Render(v, Substituted(c, Lits(text))) == text <==> !Occurs(Lits(ENTRY), RewriteAll(c.before, Lits(text)))
  {
    hide Defaults, EgressRule, RewriteAll, Rewrite, Replace, Render, Occurs;
    var d := RewriteAll(c.before, Lits(text));
    BeforeRenders(v, c, text);
    DefaultsQuote(v, c);
    EntryRenders(v);
    EgressReplaces(d);
    ReplaceGrows(v, d, EgressRule().pat, EgressRule().sub);
    AfterRenders(v, c, Rewrite(EgressRule(), d));
  }

  /**
   With the values of the check the generator's claim fails for one rule: the chart's substitution
   gives a text back if and only if the text has no entry of the egress sidecar's image.
   */
  lemma SubstitutionExact(v: Values, text: string)
    requires Defaults(v, ChartRules())
    ensures Render(v, Substituted(ChartRules(), Lits(text))) == text <==> !Occurs(ENTRY, text)
  {
    hide Defaults, Substituted, RewriteAll, Render, Every, EveryText, Occurs, ChainBefore, ChainAfter;
    ReachedExact(v, ChartRules(), text);
    NeverOccurs(v, RewriteAll(ChainBefore(), Lits(text)));
    ChartEntriesKept(v, text, r => false);
    EveryNever(text);
  }

  /** The failure is real: the entry itself does not come back. */
  lemma EgressQuotes(v: Values)
    requires Defaults(v, ChartRules())
    ensures Render(v, Substituted(ChartRules(), Lits(ENTRY))) != ENTRY
  {
    hide Defaults, Substituted, Render, ChartRules, EnvHead;
    SubstitutionExact(v, ENTRY);
    assert ENTRY[..|ENTRY|] == ENTRY;
  }

  // ---- One document through the generator ----------------------------------------------------

  lemma ReplicaRuleRenders(v: Values, path: string, d: Doc)
    requires v(ReplicaAct(path)) == "1"
    ensures Render(v, Rewrite(ReplicaRule(path), d)) == Render(v, d)
  {
    hide ReplicaAct;
    var act := ReplicaAct(path);
    HeadRenders(v, "  replicas: ", act);
    RenderAppend(v, Lits("  replicas: ") + [Act(act)], Lits("\n"));
    RenderLits(v, "\n");
    RenderLits(v, "  replicas: 1\n");
    assert "  replicas: " + "1" + "\n" == "  replicas: 1\n";
    RewriteRenders(v, ReplicaRule(path), d);
  }

  lemma {:induction false} ReplicaDialRenders(v: Values, dials: seq<(string, string)>, d: Doc)
    requires forall dial :: dial in dials ==> v(ReplicaAct(dial.1)) == "1"
    ensures Render(v, ReplicaDial(dials, d)) == Render(v, d)
  {
    hide ReplicaAct, ReplicaRule;
    if dials != [] {
      assert dials[0] in dials;
      if Occurs(Lits("control-plane: " + dials[0].0), d) {
        ReplicaRuleRenders(v, dials[0].1, d);
      } else {
        ReplicaDialRenders(v, dials[1..], d);
      }
    }
  }

  lemma WrittenRenders(v: Values, c: Chain, file: File, d: Doc)
    requires Defaults(v, c)
    ensures Render(v, Written(file, d)) == Render(v, d)
  {
    hide Defaults, ReplicaDial, ReplicaAct, Render, KindOf;
    DefaultsQuote(v, c);
    ReplicaDialRenders(v, REPLICA_DIALS, d);
    ReplicaDialRenders(v, BFF_DIALS, d);
  }

  /** The values make the document's resources dial, if it has one, evaluate to the block it replaced. */
  ghost predicate DialFits(v: Values, c: Chain, text: string) {
    DialPath(text).Some? ==> DialPreserves(v, Substituted(c, Lits(text)), DialPath(text).value)
  }

  lemma FinalRenders(v: Values, c: Chain, text: string)
    requires Defaults(v, c) && DialFits(v, c, text)
    ensures Render(v, Final(c, text)) == Render(v, Substituted(c, Lits(text)))
  {
    hide Defaults, Substituted, DialPath, DialPreserves, Written, FileOf, Namespaced, Dialed;
    var d := Substituted(c, Lits(text));
    var e := if DialPath(text).Some? then Dialed(d, DialPath(text).value) else d;
    if DialPath(text).Some? {
      DialRenders(v, d, DialPath(text).value);
    }
    DefaultsQuote(v, c);
    NamespacedRenders(v, e, false);
    WrittenRenders(v, c, FileOf(text), Body(c, text));
  }

  /** The rendering of a generated document, line by line. */
  function Shown(v: Values, c: Chain, text: string): seq<string> {
    Lines(Render(v, Final(c, text)))
  }

  /** What follows every entry on its line, in the document that reaches the quoting rule, is quiet. */
  ghost predicate Silent(v: Values, c: Chain, text: string) {
    Every(v, RewriteAll(c.before, Lits(text)), Quiet)
  }

  lemma SubstitutedLikes(v: Values, c: Chain, text: string)
    requires Defaults(v, c)
    ensures var after := Lines(Render(v, Substituted(c, Lits(text))));
            Likes(Lines(text), after) && (SameNorms(Lines(text), after) <==> Silent(v, c, text))
  {
    hide Defaults, EgressRule, RewriteAll, Rewrite, Replace, Render, Likes, SameNorms, Lines, Every;
    var d := RewriteAll(c.before, Lits(text));
    BeforeRenders(v, c, text);
    DefaultsQuote(v, c);
    EntryRenders(v);
    EgressReplaces(d);
    EgressLines(v, d, "", EgressRule().pat, EgressRule().sub);
    AfterRenders(v, c, Rewrite(EgressRule(), d));
    var shown := Render(v, Rewrite(EgressRule(), d));
    assert "" + text == text && "" + shown == shown;
  }

  /**
   Substituted, dialled, written and rendered, a document keeps its place in the comparison, and looks
   to the checker like the one it came from if and only if what follows every entry of the egress
   sidecar's image on its line is quiet.
   */
  lemma FinalExact(v: Values, c: Chain, text: string)
    requires Defaults(v, c) && DialFits(v, c, text)
    ensures Level(Lines(text), Shown(v, c, text)) && (Unbroken(Lines(text)) <==> Unbroken(Shown(v, c, text)))
    ensures Alike(Lines(text), Shown(v, c, text)) <==> Silent(v, c, text)
  {
    hide Defaults, DialFits, Silent, Final, Substituted, Likes, SameNorms, Lines, Level, Alike;
    FinalRenders(v, c, text);
    SubstitutedLikes(v, c, text);
    LikesLevel(Lines(text), Lines(Render(v, Substituted(c, Lits(text)))));
  }

  /** For the chart's own chain that is a condition on the input text. */
  lemma SilentText(v: Values, text: string)
    requires Defaults(v, ChartRules())
    ensures Silent(v, ChartRules(), text) <==> EveryText(text, Quiet)
  {
    hide Defaults, Every, EveryText, RewriteAll, ChainBefore, ChainAfter;
    ChartEntriesKept(v, text, Quiet);
  }

  lemma BareEntryLines()
    ensures Lines(ENTRY + "2") == [NAME, VALUE + (SIDECAR + "2")]
  {
    hide EnvHead, Lines;
    HeadParts(SIDECAR + "2");
    assert EnvHead("EGRESS_SIDECAR_IMAGE") + SIDECAR + "2" == EnvHead("EGRESS_SIDECAR_IMAGE") + (SIDECAR + "2");
    LinesJoin(NAME, VALUE + (SIDECAR + "2"));
    assert '\n' !in NAME && '\n' !in VALUE && '\n' !in SIDECAR && '\n' !in "2";
    assert '\n' !in VALUE + (SIDECAR + "2");
    OneLine(NAME);
    OneLine(VALUE + (SIDECAR + "2"));
  }

  lemma BareEntryHasNoDial()
    ensures DialPath(ENTRY + "2").None?
  {
    hide Lines, EnvHead, Starts, WordFrom;
    BareEntryLines();
    var x := VALUE + (SIDECAR + "2");
    assert x[0] == ' ' && NAME[0] == ' ';
    StartsElsewhere(NAME, "kind:", 0);
    StartsElsewhere(x, "kind:", 0);
    Fieldless(NAME, x, "kind:");
  }

  lemma Fieldless(x: string, y: string, p: string)
    requires !Starts(x, p) && !Starts(y, p)
    ensures Field([x, y], p) == ""
  {
    hide Starts, WordFrom;
    assert [x, y][1..] == [y] && [y][1..] == [];
    assert Field([y], p) == Field([], p);
  }

  /** The failure is real: one more character after the image, and the checker sees the quotes. */
  lemma TrailingTextDrifts(v: Values)
    requires Defaults(v, ChartRules())
    ensures !Alike(Lines(ENTRY + "2"), Shown(v, ChartRules(), ENTRY + "2"))
  {
    hide Defaults, Alike, Shown, Silent, Level, Unbroken, ChartRules, EnvHead, Every, DialPath;
    BareEntryHasNoDial();
    FinalExact(v, ChartRules(), ENTRY + "2");
    SilentText(v, ENTRY + "2");
    EveryTextStep("2", Quiet);
    LoudTwo();
  }

  lemma LoudTwo()
    ensures !Quiet(Head("2"))
  {
    assert Head("2") == "2" && TrimRight("2") == "2" && "2"[0] == '2';
  }

  // ---- The rendered stream -------------------------------------------------------------------

  /** One document of the helm stream: a chart document in its frame, or anything that is no resource. */
  datatype Piece =
    | Chart(pad: seq<string>, text: string, tail: seq<string>)
    | Other(lines: seq<string>)

  /** Banners and blank lines come first, blank lines last; the rest are hooks and empty documents. */
  ghost predicate Framed(p: Piece) {
    match p
    case Chart(pad, _, tail) => (forall x :: x in pad ==> Noise(x)) && forall x :: x in tail ==> BlankLine(x)
    case Other(lines) => Unbroken(lines) && !Resource(lines)
  }

  function Emitted(v: Values, c: Chain, p: Piece): seq<string> {
    match p
    case Chart(pad, text, tail) => pad + Shown(v, c, text) + tail
    case Other(lines) => lines
  }

  lemma {:induction false} TailInvisible(doc: seq<string>, tail: seq<string>)
    requires forall x :: x in tail ==> BlankLine(x)
    ensures Alike(doc + tail, doc)
  {
    hide Norm, KeyOf, HasKind, IsHook, BlankLine;
    if tail == [] {
      assert doc + tail == doc;
    } else {
      var front, last := tail[..|tail| - 1], tail[|tail| - 1];
      TailInvisible(doc, front);
      BlankIsNoise(last);
      NoiseInvisible(doc + front, last, []);
      assert doc + front + [last] + [] == doc + tail && doc + front + [] == doc + front;
    }
  }

  lemma BlankIsNoise(x: string)
    requires BlankLine(x)
    ensures Noise(x)
  {
  }

  /** A document of one piece, with values that fit its resources dial. */
  ghost predicate Tame(v: Values, c: Chain, text: string) {
    Defaults(v, c) && DialFits(v, c, text) && Unbroken(Lines(text))
  }

  lemma FrameAlike(v: Values, c: Chain, p: Piece)
    requires Framed(p) && p.Chart?
    ensures Alike(Emitted(v, c, p), Shown(v, c, p.text))
  {
    hide Shown, Norm, KeyOf, HasKind, IsHook, Noise, BlankLine;
    var shown := Shown(v, c, p.text);
    PaddingInvisible(p.pad, shown);
    TailInvisible(p.pad + shown, p.tail);
  }

  lemma FrameUnbroken(v: Values, c: Chain, p: Piece)
    requires Framed(p) && p.Chart? && Unbroken(Shown(v, c, p.text))
    ensures Unbroken(Emitted(v, c, p))
  {
    hide Shown, Noise, BlankLine, Separator;
    forall x | x in p.pad ensures !Separator(x) {
      NoiseCutsNothing(x);
    }
    forall x | x in p.tail ensures !Separator(x) {
      BlankIsNoise(x);
      NoiseCutsNothing(x);
    }
  }

  /** A framed document has the place of the one it was generated from, and its normal form exactly when that is silent. */
  lemma EmittedExact(v: Values, c: Chain, p: Piece)
    requires Framed(p) && p.Chart? && Tame(v, c, p.text)
    ensures Level(Lines(p.text), Emitted(v, c, p)) && Unbroken(Emitted(v, c, p))
    ensures Norm(Emitted(v, c, p)) == Norm(Shown(v, c, p.text))
    ensures Norm(Emitted(v, c, p)) == Norm(Lines(p.text)) <==> Silent(v, c, p.text)
  {
    hide Defaults, DialFits, Silent, Shown, Lines, Norm, Framed, Emitted, Unbroken, HasKind, IsHook, Field;
    FinalExact(v, c, p.text);
    FrameAlike(v, c, p);
    FrameUnbroken(v, c, p);
  }

  function Streamed(docs: seq<seq<string>>): map<Key, seq<string>> {
    Resources(SplitDocs(JoinDocs(docs)))
  }

  /** An empty stream has no resources; any other is cut into the documents it was joined from. */
  lemma StreamedIs(docs: seq<seq<string>>)
    requires forall i :: 0 <= i < |docs| ==> Unbroken(docs[i])
    ensures Streamed(docs) == Resources(docs)
  {
    hide Unbroken;
    if docs == [] {
      var none: seq<seq<string>> := [[]];
      assert SplitDocs([]) == none && none[..0] == [] && !HasKind(none[0]);
      assert Resources(none) == Resources([]);
    } else {
      SplitJoin(docs);
    }
  }

  lemma KindIsKey(text: string)
    ensures KindOf(text) == KeyOf(Lines(text)).0
  {
  }

  /** What the checker relies on in the kustomize documents, and the generator in the values. */
  ghost predicate Fits(v: Values, c: Chain, docs: seq<string>) {
    && (forall t :: t in docs ==> Tame(v, c, t))
    && DistinctKeys(Map(Lines, docs))
    && (forall t :: t in docs && Resource(Lines(t)) && KindOf(t) == "Namespace" ==> KeyOf(Lines(t)) == RELEASE)
  }

  /** The helm stream carries exactly the chart's documents, in any order and in any frames. */
  ghost predicate Carries(pieces: seq<Piece>, docs: seq<string>) {
    && (forall p :: p in pieces ==> Framed(p))
    && (forall p :: p in pieces && p.Chart? ==> p.text in InFiles(docs))
    && (forall t :: t in InFiles(docs) ==> exists p :: p in pieces && p.Chart? && p.text == t)
  }

  /** A kustomize resource is in the chart exactly when it is not the release Namespace. */
  lemma InChart(v: Values, c: Chain, docs: seq<string>, t: string)
    requires Fits(v, c, docs) && t in docs && Resource(Lines(t))
    ensures t in InFiles(docs) <==> KeyOf(Lines(t)) != RELEASE
  {
    hide Tame, Lines, InFiles, KindOf, KeyOf, Resource, DistinctKeys;
    InFilesExact(docs, t);
    KindIsKey(t);
    assert RELEASE.0 == "Namespace";
  }

  lemma TameAt(v: Values, c: Chain, docs: seq<string>, pieces: seq<Piece>, p: Piece)
    requires Fits(v, c, docs) && Carries(pieces, docs) && p in pieces
    ensures Framed(p) && (p.Chart? ==> p.text in InFiles(docs) && p.text in docs && Tame(v, c, p.text))
  {
    hide Tame, Lines, InFiles, KindOf, DistinctKeys, Resource, KeyOf, Framed;
    if p.Chart? {
      InFilesExact(docs, p.text);
    }
  }

  lemma CarriedAt(pieces: seq<Piece>, docs: seq<string>, t: string) returns (p: Piece)
    requires Carries(pieces, docs) && t in InFiles(docs)
    ensures p in pieces && p.Chart? && p.text == t
  {
    hide InFiles, Framed;
    p :| p in pieces && p.Chart? && p.text == t;
  }

  /** Documents of a list of the form `Map(f, xs)`. */
  lemma InMap<T, U>(f: T -> U, xs: seq<T>, y: U)
    ensures y in Map(f, xs) <==> exists x :: x in xs && f(x) == y
  {
    if y in Map(f, xs) {
      var i :| 0 <= i < |xs| && Map(f, xs)[i] == y;
      assert xs[i] in xs;
    }
    if x :| x in xs && f(x) == y {
      var i :| 0 <= i < |xs| && xs[i] == x;
      assert Map(f, xs)[i] == y;
    }
  }

  /** Resources with one key are one document. */
  lemma OneKey(v: Values, c: Chain, docs: seq<string>, s: string, t: string)
    requires Fits(v, c, docs) && s in docs && t in docs
    requires Resource(Lines(s)) && Resource(Lines(t)) && KeyOf(Lines(s)) == KeyOf(Lines(t))
    ensures s == t
  {
    hide Tame, Lines, KindOf, KeyOf, Resource;
    var i :| 0 <= i < |docs| && docs[i] == s;
    var j :| 0 <= j < |docs| && docs[j] == t;
    var all := Map(Lines, docs);
    assert all[i] == Lines(s) && all[j] == Lines(t);
  }

  /** Where a resource of the helm stream comes from. */
  lemma Origin(v: Values, c: Chain, docs: seq<string>, pieces: seq<Piece>, d: seq<string>) returns (t: string)
    requires Fits(v, c, docs) && Carries(pieces, docs)
    requires d in Map(p => Emitted(v, c, p), pieces) && Resource(d)
    ensures t in docs && t in InFiles(docs) && Level(Lines(t), d) && Resource(Lines(t))
    ensures Norm(d) == Norm(Shown(v, c, t)) && (Norm(d) == Norm(Lines(t)) <==> Silent(v, c, t))
  {
    hide Fits, Carries, Framed, Tame, Lines, InFiles, Norm, KeyOf, HasKind, IsHook, Emitted, Unbroken, Shown, Silent;
    InMap(p => Emitted(v, c, p), pieces, d);
    var p :| p in pieces && Emitted(v, c, p) == d;
    TameAt(v, c, docs, pieces, p);
    OtherIsNone(v, c, p);
    t := p.text;
    EmittedExact(v, c, p);
  }

  lemma OtherIsNone(v: Values, c: Chain, p: Piece)
    requires Framed(p) && Resource(Emitted(v, c, p))
    ensures p.Chart?
  {
  }

  /** A resource of the chart is in the helm stream. */
  lemma Destination(v: Values, c: Chain, docs: seq<string>, pieces: seq<Piece>, t: string) returns (d: seq<string>)
    requires Fits(v, c, docs) && Carries(pieces, docs) && t in InFiles(docs)
    ensures d in Map(p => Emitted(v, c, p), pieces) && Level(Lines(t), d)
  {
    hide Fits, Carries, Framed, Tame, Lines, InFiles, Level, Emitted, Unbroken, Shown, Silent, Norm;
    var p := CarriedAt(pieces, docs, t);
    d := Emitted(v, c, p);
    InMap(p => Emitted(v, c, p), pieces, d);
    TameAt(v, c, docs, pieces, p);
    EmittedExact(v, c, p);
  }

  /** Resources with one key have one normal form. */
  ghost predicate Agree(kustomize: seq<seq<string>>, helm: seq<seq<string>>) {
    forall d, e :: d in helm && e in kustomize && Resource(d) && Resource(e) && KeyOf(d) == KeyOf(e) ==> Norm(d) == Norm(e)
  }

  /** Two lists with the same places, except that one also has the release Namespace, are in sync exactly when they agree. */
  lemma LevelInSync(kustomize: seq<seq<string>>, helm: seq<seq<string>>)
    requires Consistent(kustomize) && Consistent(helm)
    requires forall d :: d in helm && Resource(d) ==> exists e :: e in kustomize && Level(e, d) && KeyOf(e) != RELEASE
    requires forall e :: e in kustomize && Resource(e) && KeyOf(e) != RELEASE ==> exists d :: d in helm && Level(e, d)
    ensures InSync(Resources(kustomize), Resources(helm)) <==> Agree(kustomize, helm)
  {
    hide Norm, KeyOf, HasKind, IsHook, Resources, Consistent;
    var a, b := Resources(kustomize), Resources(helm);
    forall key ensures key in b <==> key in a && key != RELEASE {
      ResourcesExact(kustomize, key);
      ResourcesExact(helm, key);
    }
    if InSync(a, b) {
      forall d, e | d in helm && e in kustomize && Resource(d) && Resource(e) && KeyOf(d) == KeyOf(e) ensures Norm(d) == Norm(e) {
        ResourcesExact(kustomize, KeyOf(e));
        ResourcesExact(helm, KeyOf(d));
      }
    }
    if Agree(kustomize, helm) {
      forall key | key in b ensures b[key] == a[key] {
        ResourcesExact(kustomize, key);
        ResourcesExact(helm, key);
        var d :| d in helm && Resource(d) && KeyOf(d) == key;
        var e :| e in kustomize && Resource(e) && KeyOf(e) == key;
      }
      assert b == a - {RELEASE};
    }
  }

  lemma FromHelm(v: Values, c: Chain, docs: seq<string>, pieces: seq<Piece>, d: seq<string>)
    requires Fits(v, c, docs) && Carries(pieces, docs)
    requires d in Map(p => Emitted(v, c, p), pieces) && Resource(d)
    ensures exists e :: e in Map(Lines, docs) && Level(e, d) && KeyOf(e) != RELEASE
  {
    hide Fits, Carries, Lines, InFiles, Level, KeyOf, Resource, Emitted, Shown, Silent, Norm;
    var t := Origin(v, c, docs, pieces, d);
    InChart(v, c, docs, t);
    InMap(Lines, docs, Lines(t));
  }

  lemma ToHelm(v: Values, c: Chain, docs: seq<string>, pieces: seq<Piece>, e: seq<string>)
    requires Fits(v, c, docs) && Carries(pieces, docs)
    requires e in Map(Lines, docs) && Resource(e) && KeyOf(e) != RELEASE
    ensures exists d :: d in Map(p => Emitted(v, c, p), pieces) && Level(e, d)
  {
    hide Fits, Carries, Lines, InFiles, Level, KeyOf, Resource, Emitted;
    InMap(Lines, docs, e);
    var t :| t in docs && Lines(t) == e;
    InChart(v, c, docs, t);
    var d := Destination(v, c, docs, pieces, t);
  }

  lemma KustomizeUnjoined(v: Values, c: Chain, docs: seq<string>)
    requires Fits(v, c, docs)
    ensures Streamed(Map(Lines, docs)) == Resources(Map(Lines, docs)) && Consistent(Map(Lines, docs))
  {
    hide Defaults, Lines, Streamed, Unbroken, Resource, Resources, Consistent, DistinctKeys, DialFits;
    forall i | 0 <= i < |docs| ensures Unbroken(Map(Lines, docs)[i]) {
      assert docs[i] in docs;
    }
    StreamedIs(Map(Lines, docs));
    DistinctIsConsistent(Map(Lines, docs));
  }

  lemma PieceUnbroken(v: Values, c: Chain, docs: seq<string>, pieces: seq<Piece>, p: Piece)
    requires Fits(v, c, docs) && Carries(pieces, docs) && p in pieces
    ensures Unbroken(Emitted(v, c, p))
  {
    hide Fits, Carries, Tame, Lines, InFiles, Unbroken, Resource, Level, Shown, Silent, Norm;
    TameAt(v, c, docs, pieces, p);
    if p.Chart? {
      EmittedExact(v, c, p);
    }
  }

  lemma HelmUnjoined(v: Values, c: Chain, docs: seq<string>, pieces: seq<Piece>)
    requires Fits(v, c, docs) && Carries(pieces, docs)
    ensures Streamed(Map(p => Emitted(v, c, p), pieces)) == Resources(Map(p => Emitted(v, c, p), pieces))
  {
    hide Fits, Carries, Emitted, Streamed, Unbroken, Resources;
    var stream := Map(p => Emitted(v, c, p), pieces);
    forall i | 0 <= i < |pieces| ensures Unbroken(stream[i]) {
      PieceUnbroken(v, c, docs, pieces, pieces[i]);
    }
    StreamedIs(stream);
  }

  lemma HelmConsistent(v: Values, c: Chain, docs: seq<string>, pieces: seq<Piece>)
    requires Fits(v, c, docs) && Carries(pieces, docs)
    ensures Consistent(Map(p => Emitted(v, c, p), pieces))
  {
    hide Fits, Carries, Emitted, Norm, Lines, Shown, Silent, InFiles, HasKind, IsHook, Field;
    var stream := Map(p => Emitted(v, c, p), pieces);
    forall d, e | d in stream && e in stream && Resource(d) && Resource(e) && KeyOf(d) == KeyOf(e) ensures Norm(d) == Norm(e) {
      var s := Origin(v, c, docs, pieces, d);
      var t := Origin(v, c, docs, pieces, e);
      OneKey(v, c, docs, s, t);
    }
  }

  /** Every chart resource is silent. */
  ghost predicate AllSilent(v: Values, c: Chain, docs: seq<string>) {
    forall t :: t in InFiles(docs) && Resource(Lines(t)) ==> Silent(v, c, t)
  }

  lemma AgreeExact(v: Values, c: Chain, docs: seq<string>, pieces: seq<Piece>)
    requires Fits(v, c, docs) && Carries(pieces, docs)
    ensures Agree(Map(Lines, docs), Map(p => Emitted(v, c, p), pieces)) <==> AllSilent(v, c, docs)
  {
    hide Fits, Carries, Emitted, Norm, Lines, Shown, Silent, InFiles, HasKind, IsHook, Field;
    var kustomize, helm := Map(Lines, docs), Map(p => Emitted(v, c, p), pieces);
    if Agree(kustomize, helm) {
      forall t | t in InFiles(docs) && Resource(Lines(t)) ensures Silent(v, c, t) {
        var d := Destination(v, c, docs, pieces, t);
        var s := Origin(v, c, docs, pieces, d);
        InFilesExact(docs, t);
        OneKey(v, c, docs, s, t);
        InMap(Lines, docs, Lines(t));
      }
    }
    if AllSilent(v, c, docs) {
      forall d, e | d in helm && e in kustomize && Resource(d) && Resource(e) && KeyOf(d) == KeyOf(e) ensures Norm(d) == Norm(e) {
        var s := Origin(v, c, docs, pieces, d);
        InMap(Lines, docs, e);
        var t :| t in docs && Lines(t) == e;
        OneKey(v, c, docs, s, t);
      }
    }
  }

  /**
   End-to-end no-drift: for distinct-keyed documents whose only Namespace is the release one, the
   chart generated from them, rendered with values that give every template its literal and every
   dial its block, is in sync with them if and only if every chart resource is silent.
   */
  lemma EndToEnd(v: Values, c: Chain, docs: seq<string>, pieces: seq<Piece>)
    requires Fits(v, c, docs) && Carries(pieces, docs)
    ensures InSync(Streamed(Map(Lines, docs)), Streamed(Map(p => Emitted(v, c, p), pieces))) <==> AllSilent(v, c, docs)
  {
    hide Fits, Carries, Lines, Level, KeyOf, Resource, Emitted, Streamed, Consistent, Resources, InSync, Agree, AllSilent;
    var kustomize, helm := Map(Lines, docs), Map(p => Emitted(v, c, p), pieces);
    KustomizeUnjoined(v, c, docs);
    HelmUnjoined(v, c, docs, pieces);
    HelmConsistent(v, c, docs, pieces);
    forall d | d in helm && Resource(d) ensures exists e :: e in kustomize && Level(e, d) && KeyOf(e) != RELEASE {
      FromHelm(v, c, docs, pieces, d);
    }
    forall e | e in kustomize && Resource(e) && KeyOf(e) != RELEASE ensures exists d :: d in helm && Level(e, d) {
      ToHelm(v, c, docs, pieces, e);
    }
    LevelInSync(kustomize, helm);
    AgreeExact(v, c, docs, pieces);
  }

  // ---- The program ---------------------------------------------------------------------------

  /** What helm puts around the document at a place of the stream. */
  type Frames = nat -> (seq<string>, seq<string>)

  ghost predicate Framing(frames: Frames) {
    forall k: nat :: (forall x :: x in frames(k).0 ==> Noise(x)) && forall x :: x in frames(k).1 ==> BlankLine(x)
  }

  /** The chart's documents in frames, then everything else helm prints. */
  function Printed(v: Values, chart: seq<Doc>, frames: Frames, others: seq<seq<string>>): seq<seq<string>> {
    seq(|chart|, i requires 0 <= i < |chart| => frames(i).0 + Lines(Render(v, chart[i])) + frames(i).1) + others
  }

  function Pieces(texts: seq<string>, frames: Frames, others: seq<seq<string>>): seq<Piece> {
    seq(|texts|, i requires 0 <= i < |texts| => Chart(frames(i).0, texts[i], frames(i).1)) + Map(lines => Other(lines), others)
  }

  lemma PrintedIs(v: Values, c: Chain, texts: seq<string>, frames: Frames, others: seq<seq<string>>)
    ensures Printed(v, Map((t: string) => Final(c, t), texts), frames, others)
         == Map(p => Emitted(v, c, p), Pieces(texts, frames, others))
  {
    hide Lines, Render, Final;
    var chart, pieces := Map((t: string) => Final(c, t), texts), Pieces(texts, frames, others);
    var printed, emitted := Printed(v, chart, frames, others), Map(p => Emitted(v, c, p), pieces);
    assert |printed| == |emitted| == |texts| + |others|;
    forall i | 0 <= i < |printed| ensures printed[i] == emitted[i] {
      if i >= |texts| {
        assert pieces[i] == Other(others[i - |texts|]);
      }
    }
  }

  lemma PiecesCarry(docs: seq<string>, frames: Frames, others: seq<seq<string>>)
    requires Framing(frames) && forall lines :: lines in others ==> Unbroken(lines) && !Resource(lines)
    ensures Carries(Pieces(InFiles(docs), frames, others), docs)
  {
    hide InFiles, Unbroken, Resource, Noise, BlankLine;
    var texts := InFiles(docs);
    var pieces := Pieces(texts, frames, others);
    forall p | p in pieces ensures Framed(p) && (p.Chart? ==> p.text in texts) {
      var i :| 0 <= i < |pieces| && pieces[i] == p;
      if i >= |texts| {
        assert p == Other(others[i - |texts|]) && others[i - |texts|] in others;
      }
    }
    forall t | t in texts ensures exists p :: p in pieces && p.Chart? && p.text == t {
      var i :| 0 <= i < |texts| && texts[i] == t;
      assert pieces[i] in pieces;
    }
  }

  lemma MapAppend<T, U>(f: T -> U, a: seq<T>, b: seq<T>)
    ensures Map(f, a + b) == Map(f, a) + Map(f, b)
  {
  }

  lemma FilesJoin(c: Chain, crds: seq<string>, control: seq<string>, dev: seq<string>, bff: seq<string>)
    ensures var final := (t: string) => Final(c, t);
            Map(final, crds) + Map(final, control) + Map(final, dev) + Map(final, bff) == Map(final, crds + control + dev + bff)
  {
    hide Final;
    var final := (t: string) => Final(c, t);
    MapAppend(final, crds, control);
    MapAppend(final, crds + control, dev);
    MapAppend(final, crds + control + dev, bff);
  }

  /** The generator: four lists, written as four files, three of them behind their gates. */
  method WriteChart(c: Chain, docs: seq<string>, g: Gates) returns (chart: seq<Doc>)
    ensures chart == Map((t: string) => Final(c, t), Installed(docs, g))
  {
    hide Bodies, Final, Written, Pick, InFiles;
    var crds, control, dev, bff := Generate(c, docs);
    crds := WriteFile(Crds, crds);
    control := WriteFile(ControlPlane, control);
    dev := WriteFile(DevDataPlane, dev);
    bff := WriteFile(Bff, bff);
    WrittenIsFinal(c, docs, Crds);
    WrittenIsFinal(c, docs, ControlPlane);
    WrittenIsFinal(c, docs, DevDataPlane);
    WrittenIsFinal(c, docs, Bff);
    if !g.crds {
      crds := [];
    }
    if !g.devDataPlane {
      dev := [];
    }
    if !g.ui {
      bff := [];
    }
    FilesJoin(c, Gated(g.crds, docs, Crds), Pick(docs, ControlPlane), Gated(g.devDataPlane, docs, DevDataPlane),
              Gated(g.ui, docs, Bff));
    chart := crds + control + dev + bff;
  }

  /**
   Generate the chart, render it, and check it against the documents it came from: nothing is
   reported if and only if every chart resource is silent.
   */
  method VerifyChart(v: Values, c: Chain, docs: seq<string>, frames: Frames, others: seq<seq<string>>)
    returns (problems: seq<Problem>)
    requires Fits(v, c, docs) && Framing(frames) && forall lines :: lines in others ==> Unbroken(lines) && !Resource(lines)
    ensures problems == [] <==> AllSilent(v, c, docs)
  {
    hide Fits, Framing, Unbroken, Resource, InSync, AllSilent, Carries, Emitted, Printed, Pieces, InFiles, Installed, Final;
    AllInstalled(docs);
    var chart := WriteChart(c, docs, ALL_OPEN);
    problems := Check(JoinDocs(Map(Lines, docs)), JoinDocs(Printed(v, chart, frames, others)));
    PrintedIs(v, c, InFiles(docs), frames, others);
    PiecesCarry(docs, frames, others);
    EndToEnd(v, c, docs, Pieces(InFiles(docs), frames, others));
  }

  /** Nothing but quotes and then blanks follows any sidecar entry of a chart resource on its line. */
  ghost predicate AllQuiet(docs: seq<string>) {
    forall t :: t in InFiles(docs) && Resource(Lines(t)) ==> EveryText(t, Quiet)
  }

  lemma ChartAllSilent(v: Values, docs: seq<string>)
    requires Defaults(v, ChartRules())
    ensures AllSilent(v, ChartRules(), docs) <==> AllQuiet(docs)
  {
    hide Defaults, Silent, EveryText, Lines, Resource, InFiles, ChartRules;
    forall t: string ensures Silent(v, ChartRules(), t) <==> EveryText(t, Quiet) {
      SilentText(v, t);
    }
  }

  /**
   For the chart's own rules the verdict is decided by the input texts: the chart generated from the
   kustomize documents is in sync with them if and only if they are all quiet.
   */
  lemma ChartEndToEnd(v: Values, docs: seq<string>, pieces: seq<Piece>)
    requires Defaults(v, ChartRules()) && Fits(v, ChartRules(), docs) && Carries(pieces, docs)
    ensures InSync(Streamed(Map(Lines, docs)), Streamed(Map(p => Emitted(v, ChartRules(), p), pieces))) <==> AllQuiet(docs)
  {
    hide Defaults, Fits, Carries, Emitted, Streamed, InSync, AllSilent, AllQuiet, ChartRules;
    EndToEnd(v, ChartRules(), docs, pieces);
    ChartAllSilent(v, docs);
  }
}
