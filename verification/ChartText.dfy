/**
 The generator on text: for a document without braces, everything the generator does to its tokens
 (the rules, the resources dial, the subject namespaces and the replica dials) is what it does to its text.
 */
module ChartText {
  import opened Text
  import opened HelmText
  import opened HelmChart
  import opened HelmDials
  import opened HelmFiles
  import opened HelmSource
  import opened HelmLines
  import opened Overlap
  import opened ChartSource

  // ---- The generator on text -----------------------------------------------------------------

  /** The loop body on text. */
  function TextBody(text: string): string {
    var s := TextSubstituted(text);
    var t := if DialPath(text).Some? then TextDialed(s, DialPath(text).value) else s;
    NamespacedText(t, false)
  }

  const MARK := "control-plane: "
  const ONE_REPLICA := "  replicas: 1\n"

  function TextReplica(dials: seq<(string, string)>, s: string): string {
    if dials == [] then s
    else if Occurs(MARK + dials[0].0, s) then Replace(s, ONE_REPLICA, "  replicas: " + ReplicaAct(dials[0].1) + "\n")
    else TextReplica(dials[1..], s)
  }

  function TextWritten(file: File, s: string): string {
    if KindOf(s) != "Deployment" then s
    else if file == ControlPlane then TextReplica(REPLICA_DIALS, s)
    else if file == Bff then TextReplica(BFF_DIALS, s)
    else s
  }

  function TextFinal(text: string): string {
    TextWritten(FileOf(text), TextBody(text))
  }

  // ---- The actions of a generated document ---------------------------------------------------

  /** One line, opening with a brace behind at most spaces, closing with one, and without a key. */
  ghost predicate Sealed(a: string) {
    Opens(a) && a[|a| - 1] == '}' && Piece(a)
  }

  ghost predicate Dressed(a: string) {
    Sealed(a) || a == WORKER_ACT
  }

  lemma LastDressed(a: string)
    requires Last(a)
    ensures Dressed(a)
  {
    hide Piece;
    if a != WORKER_ACT {
      assert OpensAt(a, 0);
    }
  }

  lemma WorkerOpens()
    ensures Opens(WORKER_ACT) && WORKER_ACT[|WORKER_ACT| - 1] == '}'
  {
    WorkerClosed();
    assert OpensAt(WORKER_ACT, 0);
  }

  lemma SpacesFlat(n: nat)
    ensures Flat(Spaces(n))
  {
  }

  lemma NumberFlat(n: nat)
    ensures Flat(Number(n))
  {
    if n >= 10 {
      NumberFlat(n / 10);
    }
  }

  lemma DialParts()
    ensures Flat("{{- toYaml .Values.") && Flat(".resources | nindent ") && Flat(" }}")
  {
  }

  lemma DialSealed(indent: nat, path: string)
    requires Flat(path)
    ensures Sealed(Dial(indent, path))
  {
    hide Flat, Piece;
    var a, b, c, n := Spaces(indent + 2), "{{- toYaml .Values.", ".resources | nindent ", Number(indent + 2);
    SpacesFlat(indent + 2);
    NumberFlat(indent + 2);
    DialParts();
    FlatAppend(a, b);
    FlatAppend(a + b, path);
    FlatAppend(a + b + path, c);
    FlatAppend(a + b + path + c, n);
    FlatAppend(a + b + path + c + n, " }}");
    PlainPiece(Dial(indent, path));
    assert b[0] == '{' && " }}"[2] == '}';
    assert OpensAt(Dial(indent, path), indent + 2);
  }

  lemma DevPathsFlat()
    ensures Flat("devDataPlane.statelayer") && Flat("devDataPlane.objectstore")
    ensures Flat("devDataPlane.postgres") && Flat("devDataPlane.nats")
  {
  }

  lemma PathsFlat()
    ensures Flat("controllerManager") && Flat("gateway") && Flat("tokenService") && Flat("statelayerProxy") && Flat("bff")
  {
  }

  lemma DialPathFlat(text: string)
    ensures DialPath(text).Some? ==> Flat(DialPath(text).value)
  {
    hide Flat, KindOf, LabelOf;
    DevPathsFlat();
    PathsFlat();
  }

  // ---- What cannot begin in them -------------------------------------------------------------

  lemma WorkerPair(x: char)
    requires x == 's' || x == '-'
    ensures NoPair(WORKER_ACT, x, 'p')
  {
    hide EnvHead;
    ConnectPair(x);
    RunStoreHasNoP();
    NoPairAbsent(RUN_STORE, x, 'p');
    assert CONNECT[|CONNECT| - 1] == '}' by {
      assert " }}"[2] == '}';
    }
    NoPairAppend(CONNECT, RUN_STORE, x, 'p');
  }

  lemma ConnectHead()
    ensures 'p' !in "{{ " + ".Values"
  {
  }

  lemma ConnectTail()
    ensures 's' !in ".bff.providerConnect.enabled | quote" + " }}"
  {
  }

  lemma ConnectParts()
    ensures 'p' !in "{{ " + ".Values"
    ensures 's' !in ".bff.providerConnect.enabled | quote" + " }}" && '-' !in ".bff.providerConnect.enabled | quote" + " }}"
  {
    ConnectHead();
    ConnectTail();
  }

  lemma ConnectPair(x: char)
    requires x == 's' || x == '-'
    ensures NoPair(CONNECT, x, 'p')
  {
    var a, b := "{{ " + ".Values", ".bff.providerConnect.enabled | quote" + " }}";
    ConnectParts();
    NoPairAbsent(a, x, 'p');
    NoPairAbsent(b, x, 'p');
    NoPairAppend(a, b, x, 'p');
    assert CONNECT == a + b;
  }

  lemma OpenHasNoP()
    ensures 'p' !in RUN_STORE_OPEN && '1' !in RUN_STORE_OPEN
  {
  }

  lemma HeadHasNoP()
    ensures 'p' !in EnvHead("RUN_WORKER_DISPATCH") && '1' !in EnvHead("RUN_WORKER_DISPATCH")
  {
  }

  lemma RunStoreHasNoP()
    ensures 'p' !in RUN_STORE && '1' !in RUN_STORE
  {
    hide EnvHead;
    OpenHasNoP();
    HeadHasNoP();
    assert 'p' !in "\"true\"" && '1' !in "\"true\"" && 'p' !in "\n{{- end }}" && '1' !in "\n{{- end }}";
  }

  lemma ConnectHasNoOne()
    ensures '1' !in CONNECT
  {
  }

  lemma WorkerHasNoOne()
    ensures '1' !in WORKER_ACT
  {
    hide EnvHead;
    RunStoreHasNoP();
    ConnectHasNoOne();
  }

  lemma SealedIs(a: string)
    requires Sealed(a)
    ensures Opens(a) && a != "" && a[|a| - 1] == '}' && '\n' !in a && NoPair(a, 'e', ':')
  {
  }

  lemma DressedOpaque(a: string)
    requires Dressed(a)
    ensures Opaque(a)
  {
    hide Sealed, Repels, NoPair, Opens;
    assert Bare(KEY) && KEY[4] == 's' && KEY[5] == 'p' && KEY[8] == 'e' && KEY[9] == ':';
    if Sealed(a) {
      SealedIs(a);
      PairRepels(a, KEY, 8);
    } else {
      WorkerOpens();
      WorkerPair('s');
      PairRepels(a, KEY, 4);
    }
  }

  /** A literal can be read off generated documents when it cannot begin in any of their actions. */
  lemma DressedLegible(k: string)
    requires k != "" && Bare(k) && k[|k| - 1] != ' ' && forall a :: Dressed(a) ==> Opens(a) && Repels(a, k)
    ensures Legible(Lits(k), Dressed)
  {
    hide Dressed, Repels, Opens;
    BareIs(k);
    BlankSeparable(k, Dressed);
    SourceLits(k);
  }

  lemma MarkIs()
    ensures |MARK| == 15 && Bare(MARK) && MARK[7] == '-' && MARK[8] == 'p' && MARK[12] == 'e' && MARK[13] == ':'
  {
  }

  lemma MarkLegible(name: string)
    requires name != "" && Bare(name) && name[|name| - 1] != ' '
    ensures Legible(Lits(MARK + name), Dressed)
  {
    hide Sealed, Repels, NoPair, Opens, Bare;
    var k := MARK + name;
    MarkIs();
    BareAppend(MARK, name);
    forall a | Dressed(a) ensures Opens(a) && Repels(a, k) {
      if Sealed(a) {
        SealedIs(a);
        PairRepels(a, k, 12);
      } else {
        WorkerOpens();
        WorkerPair('-');
        PairRepels(a, k, 7);
      }
    }
    DressedLegible(k);
  }

  lemma ReplicaLegible()
    ensures Legible(Lits(ONE_REPLICA), Dressed)
  {
    hide Sealed, Repels, NoPair, Opens;
    assert |ONE_REPLICA| == 14 && Bare(ONE_REPLICA) && ONE_REPLICA[12] == '1' && ONE_REPLICA[13] == '\n';
    assert forall t :: 0 <= t < 14 ==> ONE_REPLICA[t] in ONE_REPLICA;
    forall a | Dressed(a) ensures Opens(a) && Repels(a, ONE_REPLICA) {
      if Sealed(a) {
        SealedIs(a);
        CharRepels(a, ONE_REPLICA, 13);
      } else {
        WorkerOpens();
        WorkerHasNoOne();
        CharRepels(a, ONE_REPLICA, 12);
      }
    }
    DressedLegible(ONE_REPLICA);
  }

  // ---- The resources dial --------------------------------------------------------------------

  lemma FramedStepped(a: string)
    requires Framed(a)
    ensures Stepped(a)
  {
    OneLine(a);
    assert a[0] == '{';
    BraceIsOdd(a);
  }

  lemma OpenText()
    ensures RUN_STORE_OPEN == "\n" + ("{{- if" + " .Values.bff.runStore.enabled" + " }}") + "\n"
  {
    assert "\n{{- if" == "\n" + "{{- if" && " }}\n" == " }}" + "\n";
    var a, b, c := "{{- if", " .Values.bff.runStore.enabled", " }}";
    assert ("\n" + a) + b + (c + "\n") == "\n" + (a + b + c) + "\n";
  }

  lemma HeadText(name: string)
    ensures EnvHead(name) == "        - name: " + name + "\n" + "          value: "
  {
    assert "\n          value: " == "\n" + "          value: ";
    assert ("        - name: " + name) + ("\n" + "          value: ") == "        - name: " + name + "\n" + "          value: ";
  }

  lemma WorkerText()
    ensures WORKER_ACT == CONNECT + "\n" + ("{{- if" + " .Values.bff.runStore.enabled" + " }}")
                        + "\n" + ("        - name: " + WORKER) + "\n" + ("          value: " + "\"true\"") + "\n" + "{{- end }}"
  {
    hide EnvHead;
    var a, b, c := "{{- if" + " .Values.bff.runStore.enabled" + " }}", "        - name: " + WORKER, "          value: ";
    OpenText();
    HeadText(WORKER);
    assert "\n{{- end }}" == "\n" + "{{- end }}";
    Regrouped(CONNECT, "\n", a, b, c, "\"true\"", "{{- end }}");
  }

  lemma Regrouped(t: string, f: string, a: string, b: string, c: string, d: string, e: string)
    ensures t + (f + a + f + (b + f + c) + d + (f + e)) == t + f + a + f + b + f + (c + d) + f + e
  {
  }

  lemma WorkerUnfed()
    ensures Unfed("{{- if" + " .Values.bff.runStore.enabled" + " }}") && Unfed("        - name: " + WORKER)
    ensures Unfed("          value: " + "\"true\"") && Unfed("{{- end }}")
  {
    assert Unfed("{{- if") && Unfed(" .Values.bff.runStore.enabled") && Unfed(" }}");
    assert Unfed("        - name: ") && Unfed(WORKER) && Unfed("          value: ") && Unfed("\"true\"");
  }

  lemma WorkerOdd()
    ensures Odd("{{- if" + " .Values.bff.runStore.enabled" + " }}") && Odd("        - name: " + WORKER)
    ensures Odd("          value: " + "\"true\"") && Odd("{{- end }}")
  {
    hide Odd;
    assert "{{- if"[0] == '{' && "{{- end }}"[0] == '{';
    BraceIsOdd("{{- if" + " .Values.bff.runStore.enabled" + " }}");
    BraceIsOdd("{{- end }}");
    assert "        - name: "[8] == '-' && "\"true\""[0] == '"';
    OddWith("        - name: " + WORKER, '-');
    OddWith("          value: " + "\"true\"", '"');
  }

  lemma OddWith(line: string, c: char)
    requires c in line && (c == '-' || c == '"')
    ensures Odd(line)
  {
  }

  lemma WorkerStepped()
    ensures Stepped(WORKER_ACT)
  {
    hide Odd, Lines;
    var a, b := "{{- if" + " .Values.bff.runStore.enabled" + " }}", "        - name: " + WORKER;
    var c, d := "          value: " + "\"true\"", "{{- end }}";
    WorkerText();
    WorkerUnfed();
    WorkerOdd();
    ConnectLate();
    LateIs(CONNECT);
    OneLine(CONNECT);
    OneLine(a);
    OneLine(b);
    OneLine(c);
    OneLine(d);
    LinesJoin(CONNECT, a);
    LinesJoin(CONNECT + "\n" + a, b);
    LinesJoin(CONNECT + "\n" + a + "\n" + b, c);
    LinesJoin(CONNECT + "\n" + a + "\n" + b + "\n" + c, d);
    assert CONNECT[0] == '{';
    BraceIsOdd(CONNECT);
    assert Lines(WORKER_ACT) == [CONNECT, a, b, c, d];
  }

  lemma LastStepped(a: string)
    requires Last(a)
    ensures Stepped(a)
  {
    hide Stepped, Framed;
    if a == WORKER_ACT {
      WorkerStepped();
    } else {
      FramedStepped(a);
    }
  }

  lemma {:induction false} JoinHolds<T>(pieces: seq<seq<T>>, sep: T, x: T)
    requires x in Join(pieces, sep)
    ensures x == sep || exists p :: p in pieces && x in p
  {
    if |pieces| >= 2 && x != sep && x !in pieces[0] {
      assert Join(pieces, sep) == pieces[0] + [sep] + Join(pieces[1..], sep);
      JoinHolds(pieces[1..], sep, x);
    }
  }

  /** The dial brings nothing but line feeds and itself. */
  lemma DialedHolds(d: Doc, path: string, t: Tok)
    requires t in Dialed(d, path)
    ensures t in d || t == FEED || exists n: nat :: t == Act(Dial(n, path))
  {
    hide Dialable, RowOf, Dial, BlockEnd, FirstFrom;
    var lines := Split(d, FEED);
    SplitHolds(d, FEED);
    JoinHolds(DialedLines(lines, path), FEED, t);
    if t != FEED {
      var p :| p in DialedLines(lines, path) && t in p;
      if p !in lines {
        var rows := RowsOf(lines);
        assert p == [Act(Dial(rows[FirstFrom(rows, 0)].indent, path))];
      }
    }
  }

  lemma DialedClean(d: Doc, path: string)
    requires Clean(d, Last) && Flat(path)
    ensures Clean(Dialed(d, path), Dressed)
  {
    hide Last, Dressed, Dialed, Dial, Flat;
    var e := Dialed(d, path);
    forall i | 0 <= i < |e| ensures match e[i] case Ch(c) => c != '{' && c != '}' case Act(a) => Dressed(a) {
      DialedHolds(d, path, e[i]);
      if e[i] in d {
        if e[i].Act? {
          LastDressed(e[i].text);
        }
      } else if e[i] != FEED {
        var n: nat :| e[i] == Act(Dial(n, path));
        DialSealed(n, path);
        SealedDressed(Dial(n, path));
      }
    }
  }

  lemma SealedDressed(a: string)
    requires Sealed(a)
    ensures Dressed(a)
  {
  }

  lemma FlatUnfed(a: string)
    requires Flat(a)
    ensures Unfed(a)
  {
    assert forall i :: 0 <= i < |a| ==> a[i] in a;
  }

  /** The injected worker block, if the document has it, does not stand inside a block that could be dialled. */
  ghost predicate Undivided(text: string) {
    DialPath(text).Some? ==> Whole(Split(Substituted(ChartRules(), Lits(text)), FEED))
  }

  // ---- One document --------------------------------------------------------------------------

  lemma DialStage(text: string)
    requires Bare(text) && Undivided(text)
    ensures var d := Substituted(ChartRules(), Lits(text));
            var e := if DialPath(text).Some? then Dialed(d, DialPath(text).value) else d;
            var s := TextSubstituted(text);
            var t := if DialPath(text).Some? then TextDialed(s, DialPath(text).value) else s;
            Source(e) == t && Clean(e, Dressed)
  {
    hide Bare, Whole, Substituted, ChartRules, TextSubstituted, Source, Last, Dressed, Stepped, Dialed, TextDialed, DialPath,
         Flat;
    var d := Substituted(ChartRules(), Lits(text));
    SubstitutedSource(text);
    if DialPath(text).Some? {
      var path := DialPath(text).value;
      DialPathFlat(text);
      FlatUnfed(path);
      forall t | t in d && t.Act? ensures Stepped(t.text) {
        LastStepped(t.text);
      }
      DialAgree(d, path);
      DialedClean(d, path);
    } else {
      forall a | Last(a) ensures Dressed(a) {
        LastDressed(a);
      }
      CleanWeaker(d, Last, Dressed);
    }
  }

  lemma NamespaceDressed()
    ensures Dressed(NAMESPACE)
  {
    hide Early, Late;
    NamespaceEarly();
    EarlyIs(NAMESPACE);
    LastDressed(NAMESPACE);
  }

  /** The loop body on tokens is the loop body on text. */
  lemma BodySource(text: string)
    requires Bare(text) && Undivided(text)
    ensures Source(Body(ChartRules(), text)) == TextBody(text) && Clean(Body(ChartRules(), text), Dressed)
  {
    hide Bare, Undivided, Clean, Source, Dressed, Dialed, TextDialed, DialPath, Opaque, Namespaced, NamespacedText, Substituted,
         ChartRules, TextSubstituted;
    var d := Substituted(ChartRules(), Lits(text));
    var e := if DialPath(text).Some? then Dialed(d, DialPath(text).value) else d;
    DialStage(text);
    forall a | Dressed(a) ensures Opaque(a) {
      DressedOpaque(a);
    }
    NamespacedAgree(e, false, Dressed);
    NamespaceDressed();
    NamespacedClean(e, false, Dressed);
  }

  /** No manifest keeps the install namespace behind a namespace key: the rule would find nothing left to rewrite. */
  lemma NothingHardcoded(text: string)
    requires Bare(text) && Undivided(text)
    ensures var s := Source(Body(ChartRules(), text)); NamespacedText(s, false) == s
  {
    hide Bare, Undivided, Clean, Source, Dressed, Body, NamespacedText, TextSubstituted, TextDialed, DialPath;
    BodySource(text);
    var s := TextSubstituted(text);
    NamespacedOnce(if DialPath(text).Some? then TextDialed(s, DialPath(text).value) else s, false);
  }

  lemma ReplicaSource(path: string)
    ensures Source(Lits("  replicas: ") + [Act(ReplicaAct(path))] + Lits("\n")) == "  replicas: " + ReplicaAct(path) + "\n"
  {
    hide ReplicaAct;
    RenderAppend(Raw, Lits("  replicas: ") + [Act(ReplicaAct(path))], Lits("\n"));
    RenderAppend(Raw, Lits("  replicas: "), [Act(ReplicaAct(path))]);
    RenderLits(Raw, "  replicas: ");
    RenderLits(Raw, "\n");
    RenderOne(Raw, Act(ReplicaAct(path)));
  }

  lemma {:induction false} ReplicaDialSource(dials: seq<(string, string)>, d: Doc)
    requires Clean(d, Dressed)
    requires forall dial :: dial in dials ==> dial.0 != "" && Bare(dial.0) && dial.0[|dial.0| - 1] != ' '
    ensures Source(ReplicaDial(dials, d)) == TextReplica(dials, Source(d))
  {
    hide Clean, Source, Dressed, Bare, ReplicaAct, Legible, Replace, Occurs;
    if dials != [] {
      var name, path := dials[0].0, dials[0].1;
      assert dials[0] in dials;
      MarkLegible(name);
      OccursAgree(d, Lits(MARK + name), Dressed);
      SourceLits(MARK + name);
      ReplicaLegible();
      SourceLits(ONE_REPLICA);
      ReplicaSource(path);
      ReplaceAgree(d, Lits(ONE_REPLICA), Lits("  replicas: ") + [Act(ReplicaAct(path))] + Lits("\n"), Dressed);
      ReplicaDialSource(dials[1..], d);
    }
  }

  lemma NamesBare()
    ensures Bare("controller-manager") && Bare("gateway") && Bare("token-service") && Bare("statelayer-proxy") && Bare("bff")
  {
  }

  lemma ReplicaNames()
    ensures forall dial :: dial in REPLICA_DIALS ==> dial.0 != "" && Bare(dial.0) && dial.0[|dial.0| - 1] != ' '
    ensures forall dial :: dial in BFF_DIALS ==> dial.0 != "" && Bare(dial.0) && dial.0[|dial.0| - 1] != ' '
  {
    hide Bare;
    NamesBare();
  }

  lemma WrittenSource(file: File, d: Doc)
    requires Clean(d, Dressed)
    ensures Source(Written(file, d)) == TextWritten(file, Source(d))
  {
    hide Clean, Source, Dressed, Bare, ReplicaDial, TextReplica, KindOf;
    ReplicaNames();
    ReplicaDialSource(REPLICA_DIALS, d);
    ReplicaDialSource(BFF_DIALS, d);
  }

  /**
   What is written for a document is what the generator makes of its text: rules, resources dial,
   subject namespaces and replica dials, all on text, for every document without braces whose
   injected worker block, if any, does not stand inside a block that could be dialled.
   */
  lemma FinalSource(text: string)
    requires Bare(text) && Undivided(text)
    ensures Source(Final(ChartRules(), text)) == TextFinal(text)
  {
    hide Bare, Undivided, Clean, Source, Dressed, Body, TextBody, Written, TextWritten, FileOf, ChartRules;
    BodySource(text);
    WrittenSource(FileOf(text), Body(ChartRules(), text));
  }
}
