/**
 The drift checker: two multi-document streams, cut into resources keyed by kind, namespace and
 name, and compared after a normalisation that ignores comments, blank lines, one provenance label
 and the quotes around an environment value. A stream is a list of lines.
 */
module DriftCheck {
  import opened Prelude
  import opened Text

  type Key = (string, string, string)

  const RELEASE: Key := ("Namespace", "", "ctxmesh")

  // ---- Normalisation -------------------------------------------------------------------------

  /** The number of blanks a line starts with. */
  function Indent(s: string): (n: nat)
    ensures n <= |s|
    ensures n < |s| ==> !Blank(s[n])
    ensures forall i :: 0 <= i < n ==> Blank(s[i])
  {
    if s == "" || !Blank(s[0]) then 0 else 1 + Indent(s[1..])
  }

  lemma IndentBlank(s: string)
    ensures AllBlank(s[..Indent(s)])
  {
    hide Blank;
  }

  /** The line of an environment value without the quotes around the value, if it has them. */
  function Unquoted(line: string): Option<string> {
    var t := TrimRight(line);
    var p := Indent(t);
    if !Starts(t[p..], "value:") then None
    else
      var q := p + 6 + Indent(t[p + 6..]);
      if q + 2 <= |t| && t[q] in "\"'" && t[|t| - 1] == t[q]
      then Some(t[..p + 6] + " " + t[q + 1..|t| - 1])
      else None
  }

  predicate Ignored(line: string) {
    var t := Trim(line);
    t == "" || t[0] == '#' || Starts(t, "app.kubernetes.io/managed-by:")
  }

  function NormLine(line: string): seq<string> {
    if Ignored(line) then []
    else if Unquoted(line).Some? then [Unquoted(line).value]
    else [TrimRight(line)]
  }

  function Norm(lines: seq<string>): seq<string> {
    FlatMap(NormLine, lines)
  }

  lemma NormAppend(a: seq<string>, b: seq<string>)
    ensures Norm(a + b) == Norm(a) + Norm(b)
  {
    FlatMapAppend(NormLine, a, b);
  }

  lemma NormOne(line: string)
    ensures Norm([line]) == NormLine(line)
  {
    FlatMapOne(NormLine, line);
  }

  /** Keeps the lines that matter, in order. */
  method Normalize(lines: seq<string>) returns (kept: seq<string>)
    ensures kept == Norm(lines)
  {
    kept := [];
    for i := 0 to |lines|
      invariant kept == Norm(lines[..i])
    {
      NormAppend(lines[..i], [lines[i]]);
      assert lines[..i + 1] == lines[..i] + [lines[i]];
      NormOne(lines[i]);
      if Ignored(lines[i]) {
        continue;
      }
      var plain := Unquoted(lines[i]);
      if plain.Some? {
        kept := kept + [plain.value];
        continue;
      }
      kept := kept + [TrimRight(lines[i])];
    }
    assert lines[..|lines|] == lines;
  }

  // ---- Keys ----------------------------------------------------------------------------------

  /** The first word at or after the start of a list of lines. */
  function WordFrom(lines: seq<string>): string {
    if lines == [] then "" else if FirstWord(lines[0]) != "" then FirstWord(lines[0]) else WordFrom(lines[1..])
  }

  /** The word after the first line-initial occurrence of a prefix; it may stand on a later line. */
  function Field(lines: seq<string>, prefix: string): string {
    if lines == [] then ""
    else if Starts(lines[0], prefix) && WordFrom([lines[0][|prefix|..]] + lines[1..]) != ""
    then WordFrom([lines[0][|prefix|..]] + lines[1..])
    else Field(lines[1..], prefix)
  }

  function KeyOf(doc: seq<string>): Key {
    (Field(doc, "kind:"), Field(doc, "  namespace:"), Field(doc, "  name:"))
  }

  predicate HasKind(doc: seq<string>) {
    exists i :: 0 <= i < |doc| && Starts(doc[i], "kind:")
  }

  function Unopened(s: string): string {
    if s != "" && s[0] in "\"'" then s[1..] else s
  }

  /** The first line starts a hook annotation: the key, perhaps quoted, then a colon. */
  predicate HookHere(lines: seq<string>)
    requires lines != []
  {
    var t := Unopened(TrimLeft(lines[0]));
    && Starts(t, "helm.sh/hook")
    && Starts(WordFrom([Unopened(t[12..])] + lines[1..]), ":")
  }

  predicate IsHook(doc: seq<string>) {
    doc != [] && (HookHere(doc) || IsHook(doc[1..]))
  }

  /** A document the checker looks at. */
  predicate Resource(doc: seq<string>) {
    HasKind(doc) && !IsHook(doc)
  }

  // ---- Streams -------------------------------------------------------------------------------

  predicate Separator(line: string) {
    Starts(line, "---") && AllBlank(line[3..])
  }

  /** The documents of a stream, cut at separator lines. */
  function SplitDocs(lines: seq<string>): (docs: seq<seq<string>>)
    ensures |docs| >= 1
  {
    if lines == [] then [[]]
    else
      var rest := SplitDocs(lines[1..]);
      if Separator(lines[0]) then [[]] + rest else Push(lines[0], rest)
  }

  ghost predicate Unbroken(doc: seq<string>) {
    forall i :: 0 <= i < |doc| ==> !Separator(doc[i])
  }

  lemma {:induction false} SplitFirst(doc: seq<string>, rest: seq<string>)
    requires Unbroken(doc)
    ensures SplitDocs(doc) == [doc]
    ensures SplitDocs(doc + ["---"] + rest) == [doc] + SplitDocs(rest)
  {
    var s := doc + ["---"] + rest;
    if doc == [] {
      assert s[0] == "---" && s[1..] == rest;
    } else {
      SplitFirst(doc[1..], rest);
      assert s[0] == doc[0] && s[1..] == doc[1..] + ["---"] + rest;
      assert [doc[0]] + doc[1..] == doc;
    }
  }

  /** Documents joined by separator lines. */
  function JoinDocs(docs: seq<seq<string>>): seq<string> {
    Join(docs, "---")
  }

  /** Cutting a joined stream gives the documents back. */
  lemma {:induction false} SplitJoin(docs: seq<seq<string>>)
    requires docs != [] && forall i :: 0 <= i < |docs| ==> Unbroken(docs[i])
    ensures SplitDocs(JoinDocs(docs)) == docs
  {
    if |docs| == 1 {
      SplitFirst(docs[0], []);
    } else {
      SplitJoin(docs[1..]);
      SplitFirst(docs[0], JoinDocs(docs[1..]));
    }
  }

  /** The resources of a list of documents by key; a later document replaces an earlier one. */
  function Resources(docs: seq<seq<string>>): map<Key, seq<string>> {
    if docs == [] then map[]
    else
      var front, last := Resources(docs[..|docs| - 1]), docs[|docs| - 1];
      if Resource(last) then front[KeyOf(last) := Norm(last)] else front
  }

  method Bucket(lines: seq<string>) returns (found: map<Key, seq<string>>)
    ensures found == Resources(SplitDocs(lines))
  {
    found := map[];
    var docs := SplitDocs(lines);
    for i := 0 to |docs|
      invariant found == Resources(docs[..i])
    {
      var doc := docs[i];
      assert docs[..i + 1][..i] == docs[..i];
      if !HasKind(doc) {
        continue;
      }
      if IsHook(doc) {
        continue;
      }
      var kept := Normalize(doc);
      found := found[KeyOf(doc) := kept];
    }
    assert docs[..|docs|] == docs;
  }

  // ---- The verdict ---------------------------------------------------------------------------

  datatype Problem = Forbidden | Missing(key: Key) | Extra(key: Key) | Differs(key: Key)

  /** What the problems mean, one by one. */
  ghost predicate Justified(p: Problem, kustomize: map<Key, seq<string>>, helm: map<Key, seq<string>>) {
    match p
    case Forbidden => RELEASE in helm
    case Missing(k) => k in kustomize && k !in helm && k != RELEASE
    case Extra(k) => k in helm && k !in kustomize
    case Differs(k) => k in kustomize && k in helm && kustomize[k] != helm[k]
  }

  /** One problem per key, in some order. */
  method Report(keys: set<Key>, problem: Key -> Problem) returns (problems: seq<Problem>)
    requires forall k :: !problem(k).Forbidden? && problem(k).key == k
    ensures forall p :: p in problems <==> !p.Forbidden? && p.key in keys && p == problem(p.key)
  {
    problems := [];
    var todo := keys;
    while todo != {}
      invariant todo <= keys
      invariant forall p :: p in problems <==> !p.Forbidden? && p.key in keys - todo && p == problem(p.key)
      decreases |todo|
    {
      var k :| k in todo;
      problems := problems + [problem(k)];
      todo := todo - {k};
    }
  }

  /**
   The comparison. It reports exactly the justified problems, so it reports nothing if and only if
   the release Namespace is absent from helm and the two sides agree on every other resource.
   */
  method Compare(kustomize: map<Key, seq<string>>, helm: map<Key, seq<string>>) returns (problems: seq<Problem>)
    ensures forall p :: p in problems <==> Justified(p, kustomize, helm)
  {
    var forbidden := if RELEASE in helm then [Forbidden] else [];
    var exempt := RELEASE in kustomize && RELEASE !in helm;
    var missing := Report(kustomize.Keys - helm.Keys - (if exempt then {RELEASE} else {}), k => Missing(k));
    var extra := Report(helm.Keys - kustomize.Keys, k => Extra(k));
    var unequal := set k | k in kustomize.Keys * helm.Keys && kustomize[k] != helm[k] :: k;
    var differing := Report(unequal, k => Differs(k));
    problems := forbidden + missing + extra + differing;
  }

  /** Agreement up to the release Namespace, which only kustomize may have. */
  ghost predicate InSync(kustomize: map<Key, seq<string>>, helm: map<Key, seq<string>>) {
    RELEASE !in helm && helm == kustomize - {RELEASE}
  }

  /** Soundness and completeness: no problem is justified if and only if the two sides are in sync. */
  lemma VerdictExact(kustomize: map<Key, seq<string>>, helm: map<Key, seq<string>>)
    ensures (forall p :: !Justified(p, kustomize, helm)) <==> InSync(kustomize, helm)
  {
    if forall p :: !Justified(p, kustomize, helm) {
      assert !Justified(Forbidden, kustomize, helm);
      forall k ensures k in helm <==> k in kustomize && k != RELEASE {
        assert !Justified(Missing(k), kustomize, helm) && !Justified(Extra(k), kustomize, helm);
      }
      forall k | k in helm ensures helm[k] == kustomize[k] {
        assert !Justified(Differs(k), kustomize, helm);
      }
      assert helm == kustomize - {RELEASE};
    }
    if InSync(kustomize, helm) {
      forall p ensures !Justified(p, kustomize, helm) {
        assert p.Missing? && p.key in kustomize && p.key != RELEASE ==> p.key in kustomize - {RELEASE};
      }
    }
  }

  /** The whole check of two streams reports what is justified, and nothing if and only if they are in sync. */
  method Check(kustomize: seq<string>, helm: seq<string>) returns (problems: seq<Problem>)
    ensures forall p :: p in problems <==> Justified(p, Resources(SplitDocs(kustomize)), Resources(SplitDocs(helm)))
    ensures problems == [] <==> InSync(Resources(SplitDocs(kustomize)), Resources(SplitDocs(helm)))
  {
    hide InSync, Justified;
    var a := Bucket(kustomize);
    var b := Bucket(helm);
    problems := Compare(a, b);
    VerdictExact(a, b);
    assert problems == [] <==> forall p :: p !in problems by {
      assert problems != [] ==> problems[0] in problems;
    }
  }

  // ---- What the verdict does not depend on ---------------------------------------------------

  /** No two resources of the list have the same key. */
  ghost predicate DistinctKeys(docs: seq<seq<string>>) {
    forall i, j :: 0 <= i < j < |docs| && Resource(docs[i]) && Resource(docs[j]) ==> KeyOf(docs[i]) != KeyOf(docs[j])
  }

  /** Resources with the same key look the same to the checker. */
  ghost predicate Consistent(docs: seq<seq<string>>) {
    forall d, e :: d in docs && e in docs && Resource(d) && Resource(e) && KeyOf(d) == KeyOf(e) ==> Norm(d) == Norm(e)
  }

  lemma DistinctIsConsistent(docs: seq<seq<string>>)
    requires DistinctKeys(docs)
    ensures Consistent(docs)
  {
    forall d, e | d in docs && e in docs && Resource(d) && Resource(e) && KeyOf(d) == KeyOf(e) ensures d == e {
      var i :| 0 <= i < |docs| && docs[i] == d;
      var j :| 0 <= j < |docs| && docs[j] == e;
      assert i == j;
    }
  }

  /** A key is found exactly when a resource has it, with that resource's lines. */
  lemma {:induction false} ResourcesExact(docs: seq<seq<string>>, key: Key)
    requires Consistent(docs)
    ensures key in Resources(docs) <==> exists d :: d in docs && Resource(d) && KeyOf(d) == key
    ensures forall d :: d in docs && Resource(d) && KeyOf(d) == key ==> Resources(docs)[key] == Norm(d)
  {
    if docs != [] {
      var front, last := docs[..|docs| - 1], docs[|docs| - 1];
      assert docs == front + [last];
      assert forall d :: d in docs <==> d in front || d == last;
      ResourcesExact(front, key);
    }
  }

  /** The verdict does not depend on the order of distinct-keyed documents, nor on anything but the resources. */
  lemma OrderIrrelevant(a: seq<seq<string>>, b: seq<seq<string>>)
    requires DistinctKeys(a)
    requires forall d :: Resource(d) ==> (d in a <==> d in b)
    ensures Resources(a) == Resources(b)
  {
    DistinctIsConsistent(a);
    forall key ensures key in Resources(a) <==> key in Resources(b) {
      ResourcesExact(a, key);
      ResourcesExact(b, key);
    }
    forall key | key in Resources(a) ensures Resources(a)[key] == Resources(b)[key] {
      ResourcesExact(a, key);
      ResourcesExact(b, key);
    }
  }
}
