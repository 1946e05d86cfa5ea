/**
 The values the no-drift verdict assumes exist for whole streams: one assignment gives every rule of the
 chart its literal and every resources dial the block it replaced.
 */
module ChartDials {
  import opened Prelude
  import opened Text
  import opened HelmText
  import opened HelmChart
  import opened HelmDials
  import opened HelmFiles
  import opened HelmSource
  import opened ChartSource
  import opened ChartValues
  import opened DriftEntries
  import NoDrift

  // ---- Values that agree on the chart's templates --------------------------------------------

  /** The two values give every action that opens with a brace the same text. */
  ghost predicate Concur(v: Values, w: Values) {
    forall a :: a != "" && a[0] == '{' ==> v(a) == w(a)
  }

  ghost predicate Braced(d: Doc) {
    forall t :: t in d && t.Act? ==> t.text != "" && t.text[0] == '{'
  }

  lemma BracedTail(d: Doc)
    requires d != [] && Braced(d)
    ensures Braced(d[1..]) && (d[0].Act? ==> d[0].text != "" && d[0].text[0] == '{')
  {
  }

  lemma {:induction false} ConcurRenders(v: Values, w: Values, d: Doc)
    requires Concur(v, w) && Braced(d)
    ensures Render(v, d) == Render(w, d)
  {
    hide Braced;
    if d != [] {
      BracedTail(d);
      ConcurRenders(v, w, d[1..]);
    }
  }

  ghost predicate RuleBraced(r: Rule)
    decreases r
  {
    match r
    case Swap(pat, sub) => Braced(pat) && Braced(sub)
    case NamespaceKeys => true
    case Routed(_, hit, miss) => RuleBraced(hit) && RuleBraced(miss)
  }

  lemma {:induction false} ConcurPreserves(v: Values, w: Values, r: Rule)
    requires Concur(v, w) && RuleBraced(r) && Preserves(w, r)
    ensures Preserves(v, r)
    decreases r
  {
    match r
    case Swap(pat, sub) =>
      ConcurRenders(v, w, pat);
      ConcurRenders(v, w, sub);
    case NamespaceKeys => assert NAMESPACE[0] == '{';
    case Routed(_, hit, miss) =>
      ConcurPreserves(v, w, hit);
      ConcurPreserves(v, w, miss);
  }

  lemma {:induction false} ReadableBraced(r: Rule, ok: string -> bool, adds: string -> bool)
    requires Readable(r, ok, adds) && forall a :: adds(a) ==> Closed(a)
    ensures RuleBraced(r)
    decreases r
  {
    match r
    case Swap(pat, sub) =>
      forall t | t in pat && t.Act? ensures t.text != "" && t.text[0] == '{' {
        var i: nat :| i < |pat| && pat[i] == t;
        ActNonEmpty(pat, i, ok);
      }
    case NamespaceKeys =>
    case Routed(_, hit, miss) =>
      ReadableBraced(hit, ok, adds);
      ReadableBraced(miss, ok, adds);
  }

  lemma ClassesClosed()
    ensures forall a :: Early(a) ==> Closed(a)
    ensures forall a :: Middle(a) ==> Closed(a)
    ensures forall a :: Late(a) ==> Closed(a)
    ensures forall a :: Last(a) ==> Closed(a)
  {
    hide Piece, NoPair;
    forall a | Last(a) ensures Closed(a) {
      LastClosed(a);
    }
  }

  lemma AllBraced(rules: seq<Rule>, ok: string -> bool, adds: string -> bool)
    requires (forall r :: r in rules ==> Readable(r, ok, adds)) && forall a :: adds(a) ==> Closed(a)
    ensures forall r :: r in rules ==> RuleBraced(r)
  {
    hide Readable, RuleBraced, Closed;
    forall r | r in rules ensures RuleBraced(r) {
      ReadableBraced(r, ok, adds);
    }
  }

  lemma AddressesBraced()
    ensures forall r :: r in AddressRules() ==> RuleBraced(r)
  {
    hide Readable, RuleBraced, Early, Middle, Late, Closed;
    ClassesClosed();
    NamespaceReadable();
    ProxyReadable();
    BackendReadable();
    DsnReadable();
    var rules := AddressRules();
    ReadableBraced(rules[0], Early, Early);
    ReadableBraced(rules[1], Early, Early);
    ReadableBraced(rules[2], Early, Middle);
    ReadableBraced(rules[3], Middle, Late);
  }

  lemma FrontBraced()
    ensures forall r :: r in ImageRules() + AddressRules() ==> RuleBraced(r)
  {
    hide Readable, RuleBraced, Early, Middle, Late, Last, Closed, ImageRules, AddressRules;
    ClassesClosed();
    ImagesReadable();
    AllBraced(ImageRules(), Early, Early);
    AddressesBraced();
  }

  lemma MiddleBraced()
    ensures forall r :: r in ConnectRules() + Map(EnvOf, Knobs()) + [RunStoreRule()] ==> RuleBraced(r)
  {
    hide Readable, RuleBraced, Early, Middle, Late, Last, Closed, ConnectRules, Knobs, RunStoreRule, EnvOf;
    ClassesClosed();
    ConnectSplit();
    ConnectReadable();
    RoutedReadable();
    KnobsReadable();
    RunStoreReadable();
    ReadableBraced(ConnectRules()[0], Late, Late);
    ReadableBraced(ConnectRules()[1], Late, Late);
    AllBraced(Map(EnvOf, Knobs()), Late, Late);
    ReadableBraced(RunStoreRule(), Late, Last);
  }

  lemma BackBraced()
    ensures forall r :: r in Map(EnvOf, Switches()) + ChainAfter() ==> RuleBraced(r)
  {
    hide Readable, RuleBraced, Last, Closed, McpSwitches, AuthSwitches, LastEntries, EnvOf, Ready;
    ClassesClosed();
    McpReady();
    AuthReady();
    LastReady();
    ReadyReadable(McpSwitches());
    ReadyReadable(AuthSwitches());
    ReadyReadable(LastEntries());
    EnvsReadable(Switches(), Last);
    EnvsReadable(LastEntries(), Last);
    AllBraced(Map(EnvOf, Switches()), Last, Last);
    AllBraced(ChainAfter(), Last, Last);
  }

  lemma ActsBrace()
    ensures TEMPLATE != "" && TEMPLATE[0] == '{' && NAMESPACE != "" && NAMESPACE[0] == '{'
    ensures forall path :: ReplicaAct(path) != "" && ReplicaAct(path)[0] == '{'
  {
    hide Injected;
    assert "{{ "[0] == '{' && "{{ .Values."[0] == '{';
  }

  /** Values that agree with the chart's defaults on its templates are defaults too. */
  lemma ConcurDefaults(v: Values)
    requires Concur(v, ChartValue)
    ensures NoDrift.Defaults(v, ChartRules())
  {
    hide ChartValue, Preserves, RuleBraced, ReplicaAct, ImageRules, AddressRules, ConnectRules, Knobs, Switches, RunStoreRule,
         ChainAfter, EnvOf;
    ChartHasDefaults();
    FrontBraced();
    MiddleBraced();
    BackBraced();
    ActsBrace();
    forall r | r in ChainBefore() + ChainAfter() ensures Preserves(v, r) {
      ConcurPreserves(v, ChartValue, r);
    }
    assert forall r :: r in ChainBefore() ==> r in ChainBefore() + ChainAfter();
    assert forall r :: r in ChainAfter() ==> r in ChainBefore() + ChainAfter();
  }

  // ---- Values that fit the dials -------------------------------------------------------------

  /** Values with the text given for some actions. */
  function Fitted(base: Values, dials: seq<(string, string)>, a: string): string {
    if dials == [] then base(a) else if dials[0].0 == a then dials[0].1 else Fitted(base, dials[1..], a)
  }

  /** Equal dials stand for equal blocks. */
  ghost predicate Compatible(dials: seq<(string, string)>) {
    forall p, q :: p in dials && q in dials && p.0 == q.0 ==> p.1 == q.1
  }

  lemma {:induction false} FittedElsewhere(base: Values, dials: seq<(string, string)>, a: string)
    requires forall p :: p in dials ==> p.0 != a
    ensures Fitted(base, dials, a) == base(a)
  {
    if dials != [] {
      assert dials[0] in dials && forall p :: p in dials[1..] ==> p in dials;
      FittedElsewhere(base, dials[1..], a);
    }
  }

  lemma {:induction false} FittedAt(base: Values, dials: seq<(string, string)>, p: (string, string))
    requires Compatible(dials) && p in dials
    ensures Fitted(base, dials, p.0) == p.1
  {
    assert dials[0] in dials && dials == [dials[0]] + dials[1..];
    if dials[0].0 != p.0 {
      FittedAt(base, dials[1..], p);
    }
  }

  /** The lines that the resources dial of some lines replaces. */
  function Replaced(lines: seq<Doc>): seq<Doc> {
    var rows := RowsOf(lines);
    var i := FirstFrom(rows, 0);
    if i == |rows| then [] else lines[i + 1..BlockEnd(rows, i)]
  }

  /** The dial, if there is one, and the block it stands for when the chart has its defaults. */
  function DialIn(lines: seq<Doc>, path: string): seq<(string, string)> {
    var rows := RowsOf(lines);
    var i := FirstFrom(rows, 0);
    if i == |rows| then [] else [(Dial(rows[i].indent, path), Render(ChartValue, Join(Replaced(lines), FEED)))]
  }

  function DialOf(text: string): seq<(string, string)> {
    match DialPath(text)
    case None => []
    case Some(path) => DialIn(Split(Substituted(ChartRules(), Lits(text)), FEED), path)
  }

  /** The dial of the document, if it has one, replaces something. */
  ghost predicate Filled(text: string) {
    DialOf(text) != [] ==> Replaced(Split(Substituted(ChartRules(), Lits(text)), FEED)) != []
  }

  lemma DialIndented(lines: seq<Doc>, path: string)
    ensures forall p :: p in DialIn(lines, path) ==> p.0 != "" && p.0[0] == ' '
  {
    hide RowOf, Dialable, BlockEnd, FirstFrom, Replaced, ChartValue;
  }

  lemma DialsIndented(docs: seq<string>, p: (string, string))
    requires p in FlatMap(DialOf, docs)
    ensures p.0 != "" && p.0[0] == ' '
  {
    hide DialPath, Substituted, ChartRules, DialIn;
    var t := OutOf(DialOf, docs, p);
    if DialPath(t).Some? {
      DialIndented(Split(Substituted(ChartRules(), Lits(t)), FEED), DialPath(t).value);
    }
  }

  lemma {:induction false} OutOf<T, U>(f: T -> seq<U>, s: seq<T>, y: U) returns (x: T)
    requires y in FlatMap(f, s)
    ensures x in s && y in f(x)
  {
    if y in f(s[0]) {
      x := s[0];
    } else {
      x := OutOf(f, s[1..], y);
    }
  }

  lemma {:induction false} Into<T, U>(f: T -> seq<U>, s: seq<T>, x: T, y: U)
    requires x in s && y in f(x)
    ensures y in FlatMap(f, s)
  {
    if x != s[0] {
      Into(f, s[1..], x, y);
    }
  }

  lemma LastBraced(a: string)
    requires Last(a)
    ensures a != "" && a[0] == '{'
  {
    hide Piece;
    LastClosed(a);
  }

  lemma {:induction false} HeldBy(pieces: seq<Doc>, t: Tok)
    requires t in Join(pieces, FEED) && t.Act?
    ensures exists p :: p in pieces && t in p
  {
    if |pieces| >= 2 && t !in pieces[0] {
      assert Join(pieces, FEED) == pieces[0] + [FEED] + Join(pieces[1..], FEED);
      HeldBy(pieces[1..], t);
    }
  }

  lemma ReplacedHeld(lines: seq<Doc>)
    ensures forall p :: p in Replaced(lines) ==> p in lines
  {
    hide RowOf, Dialable, BlockEnd, FirstFrom;
  }

  lemma ReplacedBraced(d: Doc)
    requires Clean(d, Last)
    ensures Braced(Join(Replaced(Split(d, FEED)), FEED))
  {
    hide Last, Replaced;
    SplitHolds(d, FEED);
    var lines, block := Split(d, FEED), Replaced(Split(d, FEED));
    ReplacedHeld(lines);
    forall t | t in Join(block, FEED) && t.Act? ensures t.text != "" && t.text[0] == '{' {
      HeldBy(block, t);
      var p :| p in block && t in p;
      assert p in lines && t in d;
      LastBraced(t.text);
    }
  }

  /** A dial that evaluates to its block preserves the lines. */
  lemma FitsLines(v: Values, lines: seq<Doc>, path: string)
    requires DialIn(lines, path) != [] ==> Replaced(lines) != []
    requires forall p :: p in DialIn(lines, path) ==> v(p.0) == p.1
    requires Render(v, Join(Replaced(lines), FEED)) == Render(ChartValue, Join(Replaced(lines), FEED))
    ensures LinesPreserve(v, lines, path)
  {
    hide RowOf, Dialable, BlockEnd, FirstFrom, Dial, Render, ChartValue;
  }

  lemma DocumentFits(v: Values, t: string)
    requires Bare(t) && Filled(t) && Concur(v, ChartValue) && forall p :: p in DialOf(t) ==> v(p.0) == p.1
    ensures NoDrift.DialFits(v, ChartRules(), t)
  {
    hide ChartValue, Bare, DialPath, ChartRules, Render, Braced, Concur, DialIn, Replaced, LinesPreserve, Substituted, Clean,
         Last, Source, TextSubstituted;
    if DialPath(t).Some? {
      var d := Substituted(ChartRules(), Lits(t));
      var lines := Split(d, FEED);
      SubstitutedSource(t);
      ReplacedBraced(d);
      ConcurRenders(v, ChartValue, Join(Replaced(lines), FEED));
      FitsLines(v, lines, DialPath(t).value);
    }
  }

  /**
   The assumptions of the no-drift verdict can be met: for documents without braces, whose dials all
   replace something and stand for equal blocks where they are equal, some values give every template
   of the chart its literal and every dial its block.
   */
  lemma ChartHasValues(docs: seq<string>)
    requires Compatible(FlatMap(DialOf, docs)) && forall t :: t in docs ==> Bare(t) && Filled(t)
    ensures exists v: Values ::
              NoDrift.Defaults(v, ChartRules()) && forall t :: t in docs ==> NoDrift.DialFits(v, ChartRules(), t)
  {
    hide ChartValue, Bare, Filled, NoDrift.Defaults, NoDrift.DialFits, DialOf, Fitted, Compatible, ChartRules, FlatMap;
    var dials := FlatMap(DialOf, docs);
    var v: Values := a => Fitted(ChartValue, dials, a);
    forall a | a != "" && a[0] == '{' ensures v(a) == ChartValue(a) {
      forall p | p in dials ensures p.0 != a {
        DialsIndented(docs, p);
      }
      FittedElsewhere(ChartValue, dials, a);
    }
    ConcurDefaults(v);
    forall t | t in docs ensures NoDrift.DialFits(v, ChartRules(), t) {
      forall p | p in DialOf(t) ensures v(p.0) == p.1 {
        Into(DialOf, docs, t, p);
        FittedAt(ChartValue, dials, p);
      }
      DocumentFits(v, t);
    }
  }
}
