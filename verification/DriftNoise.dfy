/** Comment lines and blank lines in a document, and what they can and cannot change for the checker. */
module DriftNoise {
  import opened Text
  import opened DriftCheck

  predicate BlankLine(x: string) {
    Indent(x) == |x|
  }

  /** A blank line or a full-line comment. */
  predicate Noise(x: string) {
    BlankLine(x) || x[Indent(x)] == '#'
  }

  lemma {:induction false} TrimLeftIs(x: string)
    ensures TrimLeft(x) == x[Indent(x)..]
  {
    if x != "" && Blank(x[0]) {
      TrimLeftIs(x[1..]);
    }
  }

  /** Trimming on the right keeps a first character that is not blank. */
  lemma {:induction false} TrimRightFirst(x: string)
    requires x != "" && !Blank(x[0])
    ensures TrimRight(x) != "" && TrimRight(x)[0] == x[0]
  {
    if Blank(x[|x| - 1]) {
      TrimRightFirst(x[..|x| - 1]);
    }
  }

  lemma TrimFirst(x: string)
    ensures Trim(x) == "" <==> BlankLine(x)
    ensures !BlankLine(x) ==> Trim(x)[0] == x[Indent(x)]
  {
    TrimLeftIs(x);
    if !BlankLine(x) {
      TrimRightFirst(TrimLeft(x));
    }
  }

  lemma NoiseIgnored(x: string)
    requires Noise(x)
    ensures Norm([x]) == []
  {
    TrimFirst(x);
    NormOne(x);
  }

  lemma BlankHasNoWord(x: string)
    ensures FirstWord(x) == "" <==> BlankLine(x)
  {
    TrimLeftIs(x);
  }

  const PREFIXES := ["kind:", "  namespace:", "  name:"]

  lemma FieldLineIsNoNoise(x: string, p: string)
    requires p in PREFIXES && Starts(x, p)
    ensures !Noise(x)
  {
    assert forall i :: 0 <= i < |p| ==> x[i] == p[i];
    if p == "kind:" {
      assert p[0] == 'k';
    } else {
      assert p[0] == ' ' && p[1] == ' ' && p[2] == 'n';
      assert Indent(x[1..]) == 1 + Indent(x[1..][1..]) && x[1..][1..][0] == 'n';
    }
  }

  // ---- Documents in two parts ----------------------------------------------------------------

  lemma {:induction false} WordSplit(a: seq<string>, u: seq<string>)
    ensures WordFrom(a + u) == if WordFrom(a) != "" then WordFrom(a) else WordFrom(u)
  {
    hide FirstWord;
    if a == [] {
      assert a + u == u;
    } else {
      WordSplit(a[1..], u);
      assert (a + u)[1..] == a[1..] + u;
    }
  }

  /** A field line is not blank, so without a word there is no field. */
  lemma {:induction false} WordlessFieldless(u: seq<string>, p: string)
    requires p in PREFIXES && WordFrom(u) == ""
    ensures Field(u, p) == "" && !Mentions(u, p)
  {
    if u != [] {
      BlankHasNoWord(u[0]);
      if Starts(u[0], p) {
        FieldLineIsNoNoise(u[0], p);
      }
      WordlessFieldless(u[1..], p);
    }
  }

  /** Some line starts with the prefix. */
  predicate Mentions(a: seq<string>, p: string) {
    a != [] && (Starts(a[0], p) || Mentions(a[1..], p))
  }

  /** A line starts the field, and nothing in the document gives it a word. */
  predicate Open(a: seq<string>, p: string) {
    Mentions(a, p) && Field(a, p) == ""
  }

  /** The field of a document in two parts: an open first part takes the first word of the second. */
  lemma {:induction false} FieldSplit(a: seq<string>, u: seq<string>, p: string)
    requires p in PREFIXES
    ensures Field(a + u, p) == if Field(a, p) != "" then Field(a, p) else if Open(a, p) then WordFrom(u) else Field(u, p)
  {
    hide WordFrom;
    if a == [] {
      assert a + u == u;
    } else {
      assert (a + u)[0] == a[0] && (a + u)[1..] == a[1..] + u;
      FieldSplit(a[1..], u, p);
      if Starts(a[0], p) {
        var rest := a[0][|p|..];
        WordSplit([rest] + a[1..], u);
        assert [rest] + (a[1..] + u) == [rest] + a[1..] + u;
        if WordFrom([rest] + a[1..]) == "" {
          WordSplit([rest], a[1..]);
          WordSplit(a[1..], u);
          WordlessFieldless(a[1..], p);
          if WordFrom(u) == "" {
            WordlessFieldless(u, p);
          }
        }
      }
    }
  }

  /** The first line is a hook key, perhaps with its colon still to come. */
  predicate HookKey(line: string) {
    Starts(Unopened(TrimLeft(line)), "helm.sh/hook")
  }

  function AfterKey(line: string): string
    requires HookKey(line)
  {
    Unopened(Unopened(TrimLeft(line))[12..])
  }

  /** A hook key that nothing in the document follows. */
  predicate HookOpen(a: seq<string>) {
    a != [] && ((HookKey(a[0]) && WordFrom([AfterKey(a[0])] + a[1..]) == "") || HookOpen(a[1..]))
  }

  lemma HookHereSplit(h: string, t: seq<string>, u: seq<string>)
    ensures HookHere([h] + (t + u)) <==>
              || HookHere([h] + t)
              || (HookKey(h) && WordFrom([AfterKey(h)] + t) == "" && Starts(WordFrom(u), ":"))
  {
    hide WordFrom, TrimLeft;
    assert ([h] + (t + u))[1..] == t + u && ([h] + t)[1..] == t;
    if HookKey(h) {
      var rest := AfterKey(h);
      WordSplit([rest] + t, u);
      assert [rest] + (t + u) == [rest] + t + u;
    }
  }

  /** Whether a document in two parts is a hook: an open first part looks for its colon in the second. */
  lemma {:induction false} HookSplit(a: seq<string>, u: seq<string>)
    ensures IsHook(a + u) <==> IsHook(a) || IsHook(u) || (HookOpen(a) && Starts(WordFrom(u), ":"))
  {
    hide HookHere, HookKey, AfterKey, WordFrom, Starts;
    if a == [] {
      assert a + u == u;
    } else {
      HookSplit(a[1..], u);
      HookHereSplit(a[0], a[1..], u);
      assert a + u == [a[0]] + (a[1..] + u) && a == [a[0]] + a[1..];
      assert (a + u)[1..] == a[1..] + u;
    }
  }

  // ---- Insertion -----------------------------------------------------------------------------

  lemma NoiseStartsNoHook(x: string, rest: seq<string>)
    requires Noise(x)
    ensures !HookHere([x] + rest)
  {
    TrimLeftIs(x);
    var t := TrimLeft(x);
    assert t == "" || t[0] == '#';
  }

  /** What a line of noise is to the part of a document it stands in front of. */
  lemma NoiseHeads(x: string, b: seq<string>)
    requires Noise(x)
    ensures WordFrom([x] + b) == if BlankLine(x) then WordFrom(b) else FirstWord(x)
    ensures !BlankLine(x) ==> FirstWord(x) != "" && FirstWord(x)[0] == '#'
    ensures IsHook([x] + b) == IsHook(b)
    ensures forall p :: p in PREFIXES ==> Field([x] + b, p) == Field(b, p)
  {
    BlankHasNoWord(x);
    TrimLeftIs(x);
    NoiseStartsNoHook(x, b);
    assert ([x] + b)[1..] == b;
    forall p | p in PREFIXES ensures Field([x] + b, p) == Field(b, p) {
      if Starts(x, p) {
        FieldLineIsNoNoise(x, p);
      }
    }
  }

  /** All the checker sees of a document. */
  ghost predicate Alike(a: seq<string>, b: seq<string>) {
    && Norm(a) == Norm(b)
    && KeyOf(a) == KeyOf(b)
    && HasKind(a) == HasKind(b)
    && IsHook(a) == IsHook(b)
  }

  /** The word a comment brings is not taken for the word of an open field. */
  ghost predicate FieldSafe(a: seq<string>, x: string, b: seq<string>, p: string) {
    Open(a, p) ==> FirstWord(x) == WordFrom(b)
  }

  /** The comment does not part the only hook key from its colon. */
  ghost predicate HookSafe(a: seq<string>, b: seq<string>) {
    HookOpen(a) && Starts(WordFrom(b), ":") ==> IsHook(a) || IsHook(b)
  }

  lemma FieldSkips(a: seq<string>, x: string, b: seq<string>, p: string)
    requires Noise(x) && p in PREFIXES
    ensures Field(a + [x] + b, p) == Field(a + b, p) <==> BlankLine(x) || FieldSafe(a, x, b, p)
  {
    hide Field, WordFrom, FirstWord, Noise;
    FieldSplit(a, b, p);
    FieldSplit(a, [x] + b, p);
    NoiseHeads(x, b);
    assert a + ([x] + b) == a + [x] + b;
  }

  lemma HookSkips(a: seq<string>, x: string, b: seq<string>)
    requires Noise(x)
    ensures IsHook(a + [x] + b) == IsHook(a + b) <==> BlankLine(x) || HookSafe(a, b)
  {
    hide IsHook, HookOpen, WordFrom, FirstWord, Noise;
    HookSplit(a, b);
    HookSplit(a, [x] + b);
    NoiseHeads(x, b);
    assert a + ([x] + b) == a + [x] + b;
    assert !BlankLine(x) ==> FirstWord(x)[..1][0] == '#';
  }

  /**
   What noise can change. A blank line changes nothing the checker sees, wherever it is inserted; a
   comment changes nothing if and only if no field before it is left open for its first word to fill,
   unless that very word would have filled it, and it does not part the only hook key from its colon.
   */
  lemma NoiseInvisible(a: seq<string>, x: string, b: seq<string>)
    requires Noise(x)
    ensures Alike(a + [x] + b, a + b) <==>
              BlankLine(x) || (HookSafe(a, b) && forall p :: p in PREFIXES ==> FieldSafe(a, x, b, p))
  {
    hide Field, IsHook, HookSafe, FieldSafe, Norm, HasKind, BlankLine, Noise;
    NoiseNorm(a, x, b);
    assert PREFIXES[0] == "kind:" && PREFIXES[1] == "  namespace:" && PREFIXES[2] == "  name:";
    FieldSkips(a, x, b, "kind:");
    FieldSkips(a, x, b, "  namespace:");
    FieldSkips(a, x, b, "  name:");
    HookSkips(a, x, b);
    KindSkips(a, x, b);
  }

  lemma NoiseNorm(a: seq<string>, x: string, b: seq<string>)
    requires Noise(x)
    ensures Norm(a + [x] + b) == Norm(a + b)
  {
    hide Norm, Noise;
    NormAppend(a + [x], b);
    NormAppend(a, [x]);
    NormAppend(a, b);
    NoiseIgnored(x);
    assert Norm(a) + [] == Norm(a);
  }

  lemma KindSkips(a: seq<string>, x: string, b: seq<string>)
    requires Noise(x)
    ensures HasKind(a + [x] + b) == HasKind(a + b)
  {
    if Starts(x, "kind:") {
      FieldLineIsNoNoise(x, "kind:");
    }
    var long, short := a + [x] + b, a + b;
    if i :| 0 <= i < |long| && Starts(long[i], "kind:") {
      assert i != |a|;
      assert long[i] == short[if i < |a| then i else i - 1];
    }
    if i :| 0 <= i < |short| && Starts(short[i], "kind:") {
      assert short[i] == long[if i < |a| then i else i + 1];
    }
  }

  /** The failure is real: a comment between a bare key and its word is taken for the word. */
  lemma CommentCanHijackAKey()
    ensures Noise("#") && Open(["kind:"], "kind:")
    ensures KeyOf(["kind:", "X"]).0 == "X"
    ensures KeyOf(["kind:", "#", "X"]).0 == "#"
  {
    var doc, noted := ["kind:", "X"], ["kind:", "#", "X"];
    assert Starts("kind:", "kind:") && "kind:"[5..] == "" && FirstWord("") == "";
    assert ["kind:"][0] == "kind:" && ["kind:"][1..] == [];
    assert WordFrom([""] + ["kind:"][1..]) == "";
    assert ([""] + doc[1..])[1..] == ["X"] && ([""] + noted[1..])[1..] == ["#", "X"];
    assert FirstWord("X") == "X" && FirstWord("#") == "#";
    assert WordFrom(["X"]) == "X" && WordFrom(["#", "X"]) == "#";
  }

  /** Nothing is open in front of a document. */
  lemma NothingOpen(x: string, b: seq<string>)
    ensures HookSafe([], b) && forall p :: p in PREFIXES ==> FieldSafe([], x, b, p)
  {
  }

  lemma NoiseInFront(x: string, doc: seq<string>)
    requires Noise(x)
    ensures Alike([x] + doc, doc)
  {
    hide Alike, FieldSafe, HookSafe;
    NoiseInvisible([], x, doc);
    NothingOpen(x, doc);
    assert [] + [x] + doc == [x] + doc && [] + doc == doc;
  }

  /** Any block of noise in front of a document is invisible. */
  lemma {:induction false} PaddingInvisible(pad: seq<string>, doc: seq<string>)
    requires forall i :: 0 <= i < |pad| ==> Noise(pad[i])
    ensures Alike(pad + doc, doc)
  {
    if pad == [] {
      assert pad + doc == doc;
    } else {
      PaddingInvisible(pad[1..], doc);
      assert pad + doc == [pad[0]] + (pad[1..] + doc);
      NoiseInFront(pad[0], pad[1..] + doc);
    }
  }

  // ---- Streams -------------------------------------------------------------------------------

  lemma NoiseCutsNothing(x: string)
    requires Noise(x)
    ensures !Separator(x)
  {
    assert |x| >= 3 ==> x[..3][0] == x[0];
  }

  /** A stream in two parts: the last document of the first goes on with the first of the second. */
  lemma {:induction false} SplitDocsAppend(s: seq<string>, t: seq<string>)
    ensures SplitDocs(s + t) == Glue(SplitDocs(s), SplitDocs(t))
  {
    hide Separator, Glue, Push;
    if s == [] {
      assert s + t == t;
      GlueNothing(SplitDocs(t));
    } else {
      SplitDocsAppend(s[1..], t);
      assert (s + t)[0] == s[0] && (s + t)[1..] == s[1..] + t;
      GluePush(s[0], SplitDocs(s[1..]), SplitDocs(t));
      GlueCons([], SplitDocs(s[1..]), SplitDocs(t));
    }
  }

  lemma {:induction false} ResourcesAlike(before: seq<seq<string>>, d: seq<string>, e: seq<string>, after: seq<seq<string>>)
    requires Alike(d, e)
    ensures Resources(before + [d] + after) == Resources(before + [e] + after)
  {
    hide Norm, KeyOf, HasKind, IsHook;
    var long, short := before + [d] + after, before + [e] + after;
    if after == [] {
      assert long[..|long| - 1] == before && short[..|short| - 1] == before;
    } else {
      var front := after[..|after| - 1];
      ResourcesAlike(before, d, e, front);
      assert long[..|long| - 1] == before + [d] + front && short[..|short| - 1] == before + [e] + front;
    }
  }

  lemma StreamCut(s: seq<string>, t: seq<string>)
    ensures var docs, rest := SplitDocs(s), SplitDocs(t);
            SplitDocs(s + t) == docs[..|docs| - 1] + [docs[|docs| - 1] + rest[0]] + rest[1..]
  {
    SplitDocsAppend(s, t);
  }

  lemma StreamHead(x: string, t: seq<string>)
    requires !Separator(x)
    ensures var rest := SplitDocs(t); SplitDocs([x] + t) == [[x] + rest[0]] + rest[1..]
  {
    hide Separator;
    assert ([x] + t)[0] == x && ([x] + t)[1..] == t;
  }

  lemma StreamInserted(s: seq<string>, x: string, t: seq<string>)
    requires !Separator(x)
    ensures var docs, rest := SplitDocs(s), SplitDocs(t);
            SplitDocs(s + [x] + t) == docs[..|docs| - 1] + [docs[|docs| - 1] + [x] + rest[0]] + rest[1..]
  {
    hide Separator, SplitDocs;
    var docs, rest := SplitDocs(s), SplitDocs(t);
    StreamCut(s, [x] + t);
    StreamHead(x, t);
    assert s + [x] + t == s + ([x] + t);
    assert ([[x] + rest[0]] + rest[1..])[1..] == rest[1..];
    assert docs[|docs| - 1] + ([x] + rest[0]) == docs[|docs| - 1] + [x] + rest[0];
  }

  /**
   What noise can change in a stream: a blank line anywhere, and a comment that is invisible in the
   document it lands in, leave every bucket alone, and with them the verdict on the stream.
   */
  lemma StreamNoise(s: seq<string>, x: string, t: seq<string>)
    requires Noise(x)
    requires var docs := SplitDocs(s);
             var a, b := docs[|docs| - 1], SplitDocs(t)[0];
             BlankLine(x) || (HookSafe(a, b) && forall p :: p in PREFIXES ==> FieldSafe(a, x, b, p))
    ensures Resources(SplitDocs(s + [x] + t)) == Resources(SplitDocs(s + t))
  {
    hide Noise, BlankLine, HookSafe, FieldSafe, Alike, Resources, SplitDocs;
    var docs, rest := SplitDocs(s), SplitDocs(t);
    var a, b := docs[|docs| - 1], rest[0];
    NoiseCutsNothing(x);
    StreamCut(s, t);
    StreamInserted(s, x, t);
    NoiseInvisible(a, x, b);
    ResourcesAlike(docs[..|docs| - 1], a + [x] + b, a + b, rest[1..]);
  }
}
