/** The generator's main loop: every document rewritten, and sorted into one of the chart's files. */
module HelmFiles {
  import opened Prelude
  import opened Text
  import opened HelmText
  import opened DriftCheck
  import opened HelmChart
  import opened HelmDials
  import DriftLines

  datatype File = Crds | ControlPlane | DevDataPlane | Bff | Dropped

  function KindOf(text: string): string {
    Field(Lines(text), "kind:")
  }

  function LabelOf(text: string): string {
    Field(Lines(text), "    control-plane:")
  }

  /** The kind is the word after its key on the first line that starts with it. */
  lemma KindOnLines(text: string, before: seq<string>, gap: string, kind: string, rest: string, after: seq<string>)
    requires Lines(text) == before + ["kind:" + gap + kind + rest] + after && forall l :: l in before ==> !Starts(l, "kind:")
    requires AllBlank(gap) && DriftLines.Word(kind) && (rest == "" || Blank(rest[0]))
    ensures KindOf(text) == kind
  {
    DriftLines.FieldAt(before, "kind:", gap, kind, rest, after);
  }

  /** The component is the word after the label on the first line that starts with it, four blanks in. */
  lemma LabelOnLines(text: string, before: seq<string>, gap: string, name: string, rest: string, after: seq<string>)
    requires Lines(text) == before + ["    control-plane:" + gap + name + rest] + after
    requires forall l :: l in before ==> !Starts(l, "    control-plane:")
    requires AllBlank(gap) && DriftLines.Word(name) && (rest == "" || Blank(rest[0]))
    ensures LabelOf(text) == name
  {
    DriftLines.FieldAt(before, "    control-plane:", gap, name, rest, after);
  }

  /** Where a document goes. The chart never owns a Namespace. */
  function FileOf(text: string): File {
    if KindOf(text) == "Namespace" then Dropped
    else if KindOf(text) == "CustomResourceDefinition" then Crds
    else if LabelOf(text) in {"statelayer", "objectstore", "postgres", "nats"} then DevDataPlane
    else if LabelOf(text) == "bff" then Bff
    else ControlPlane
  }

  /** The values path of each workload's resources. */
  const RESOURCE_DIALS := map[
    "controller-manager" := "controllerManager",
    "gateway" := "gateway",
    "token-service" := "tokenService",
    "statelayer-proxy" := "statelayerProxy",
    "bff" := "bff",
    "statelayer" := "devDataPlane.statelayer",
    "objectstore" := "devDataPlane.objectstore",
    "postgres" := "devDataPlane.postgres",
    "nats" := "devDataPlane.nats"]

  function DialPath(text: string): Option<string> {
    if KindOf(text) in {"Deployment", "StatefulSet"} && LabelOf(text) in RESOURCE_DIALS
    then Some(RESOURCE_DIALS[LabelOf(text)]) else None
  }

  const REPLICA_DIALS := [
    ("controller-manager", "controllerManager.replicas"),
    ("gateway", "gateway.replicas"),
    ("token-service", "tokenService.replicas"),
    ("statelayer-proxy", "statelayerProxy.replicas")]

  const BFF_DIALS := [("bff", "bff.replicas")]

  function ReplicaAct(path: string): string {
    "{{ .Values." + path + " | default 1 }}"
  }

  function ReplicaRule(path: string): Rule {
    Swap(Lits("  replicas: 1\n"), Lits("  replicas: ") + [Act(ReplicaAct(path))] + Lits("\n"))
  }

  /** The first dial whose marker the document carries. */
  function ReplicaDial(dials: seq<(string, string)>, d: Doc): Doc {
    if dials == [] then d
    else if Occurs(Lits("control-plane: " + dials[0].0), d) then Rewrite(ReplicaRule(dials[0].1), d)
    else ReplicaDial(dials[1..], d)
  }

  /** The loop body: substitutions, the resources dial, and the subject namespaces. */
  function Body(c: Chain, text: string): Doc {
    var d := Substituted(c, Lits(text));
    var e := if DialPath(text).Some? then Dialed(d, DialPath(text).value) else d;
    Namespaced(e, false)
  }

  /** The replica dials, applied when the file is written. */
  function Written(file: File, d: Doc): Doc {
    if KindOf(Source(d)) != "Deployment" then d
    else if file == ControlPlane then ReplicaDial(REPLICA_DIALS, d)
    else if file == Bff then ReplicaDial(BFF_DIALS, d)
    else d
  }

  function Final(c: Chain, text: string): Doc {
    Written(FileOf(text), Body(c, text))
  }

  function Goes(file: File): string -> bool {
    (text: string) => FileOf(text) == file
  }

  /** The documents of one file, in input order. */
  function Pick(docs: seq<string>, file: File): seq<string> {
    Filter(Goes(file), docs)
  }

  /** The rewritten documents of one file. */
  function Bodies(c: Chain, docs: seq<string>, file: File): seq<Doc> {
    Map((text: string) => Body(c, text), Pick(docs, file))
  }

  lemma BodiesAppend(c: Chain, docs: seq<string>, t: string, file: File)
    ensures Bodies(c, docs + [t], file) == Bodies(c, docs, file) + if FileOf(t) == file then [Body(c, t)] else []
  {
    hide FileOf, Body;
    FilterAppend(Goes(file), docs, t);
  }

  method Rewritten(c: Chain, text: string) returns (d: Doc)
    ensures d == Body(c, text)
  {
    hide Substituted, Dialed, DialPath, Namespaced;
    d := Substitute(c, Lits(text));
    if DialPath(text).Some? {
      d := TemplateResources(d, DialPath(text).value);
    }
    d := Namespaced(d, false);
  }

  /** One pass over the documents fills the four lists, each in input order. */
  method Generate(c: Chain, docs: seq<string>) returns (crds: seq<Doc>, control: seq<Doc>, dev: seq<Doc>, bff: seq<Doc>)
    ensures crds == Bodies(c, docs, Crds) && control == Bodies(c, docs, ControlPlane)
    ensures dev == Bodies(c, docs, DevDataPlane) && bff == Bodies(c, docs, Bff)
  {
    hide FileOf, Body;
    crds, control, dev, bff := [], [], [], [];
    for i := 0 to |docs|
      invariant crds == Bodies(c, docs[..i], Crds) && control == Bodies(c, docs[..i], ControlPlane)
      invariant dev == Bodies(c, docs[..i], DevDataPlane) && bff == Bodies(c, docs[..i], Bff)
    {
      var file := FileOf(docs[i]);
      assert docs[..i + 1] == docs[..i] + [docs[i]];
      forall f: File ensures Bodies(c, docs[..i + 1], f) == Bodies(c, docs[..i], f) + if file == f then [Body(c, docs[i])] else [] {
        BodiesAppend(c, docs[..i], docs[i], f);
      }
      var d := Rewritten(c, docs[i]);
      match file {
        case Dropped =>
        case Crds => crds := crds + [d];
        case DevDataPlane => dev := dev + [d];
        case Bff => bff := bff + [d];
        case ControlPlane => control := control + [d];
      }
    }
    assert docs[..|docs|] == docs;
  }

  method DialReplicas(dials: seq<(string, string)>, doc: Doc) returns (d: Doc)
    ensures d == ReplicaDial(dials, doc)
  {
    hide ReplicaRule, Rewrite;
    d := doc;
    for i := 0 to |dials|
      invariant d == doc && ReplicaDial(dials, doc) == ReplicaDial(dials[i..], doc)
    {
      if Occurs(Lits("control-plane: " + dials[i].0), doc) {
        d := Rewrite(ReplicaRule(dials[i].1), doc);
        break;
      }
    }
  }

  /** Writes the documents of one file, dialling the replicas of its Deployments on the way. */
  method WriteFile(file: File, docs: seq<Doc>) returns (written: seq<Doc>)
    ensures written == Map((d: Doc) => Written(file, d), docs)
  {
    hide ReplicaDial, KindOf;
    written := [];
    for i := 0 to |docs|
      invariant |written| == i && forall k :: 0 <= k < i ==> written[k] == Written(file, docs[k])
    {
      var d := docs[i];
      if KindOf(Source(d)) == "Deployment" {
        if file == ControlPlane {
          d := DialReplicas(REPLICA_DIALS, d);
        } else if file == Bff {
          d := DialReplicas(BFF_DIALS, d);
        }
      }
      written := written + [d];
    }
  }

  /** What is written is the final form of each of the file's documents. */
  lemma WrittenIsFinal(c: Chain, docs: seq<string>, file: File)
    ensures Map((d: Doc) => Written(file, d), Bodies(c, docs, file)) == Map((text: string) => Final(c, text), Pick(docs, file))
  {
    hide FileOf, Body, Written;
    FilterExact(Goes(file), docs);
    var picked := Pick(docs, file);
    forall i | 0 <= i < |picked| ensures Written(file, Body(c, picked[i])) == Final(c, picked[i]) {
      assert picked[i] in picked;
    }
  }

  /** The documents of the chart, file after file. */
  function InFiles(docs: seq<string>): seq<string> {
    Pick(docs, Crds) + Pick(docs, ControlPlane) + Pick(docs, DevDataPlane) + Pick(docs, Bff)
  }

  /** Exactly the documents that are no Namespace are in the chart. */
  lemma InFilesExact(docs: seq<string>, t: string)
    ensures t in InFiles(docs) <==> t in docs && KindOf(t) != "Namespace"
  {
    hide KindOf, LabelOf;
    FilterExact(Goes(Crds), docs);
    FilterExact(Goes(ControlPlane), docs);
    FilterExact(Goes(DevDataPlane), docs);
    FilterExact(Goes(Bff), docs);
    assert forall f: File :: Goes(f)(t) <==> FileOf(t) == f;
  }

  // ---- The gates of the files ----------------------------------------------------------------

  /** The values that switch three of the files on. */
  datatype Gates = Gates(crds: bool, devDataPlane: bool, ui: bool)

  const ALL_OPEN := Gates(true, true, true)

  /** The documents of a file, if its gate is open. */
  function Gated(open: bool, docs: seq<string>, file: File): seq<string> {
    if open then Pick(docs, file) else []
  }

  /** The documents that are installed, file after file. */
  function Installed(docs: seq<string>, g: Gates): seq<string> {
    Gated(g.crds, docs, Crds) + Pick(docs, ControlPlane) + Gated(g.devDataPlane, docs, DevDataPlane) + Gated(g.ui, docs, Bff)
  }

  /**
   Which documents a gate takes away: the custom resource definitions, the four components of the
   development data plane, and the console's back end; a Namespace is never installed.
   */
  lemma InstalledExact(docs: seq<string>, g: Gates, t: string)
    ensures t in Installed(docs, g) <==>
              && t in docs && KindOf(t) != "Namespace"
              && (KindOf(t) == "CustomResourceDefinition" ==> g.crds)
              && (KindOf(t) != "CustomResourceDefinition" ==>
                    && (LabelOf(t) in {"statelayer", "objectstore", "postgres", "nats"} ==> g.devDataPlane)
                    && (LabelOf(t) == "bff" ==> g.ui))
  {
    hide KindOf, LabelOf;
    FilterExact(Goes(Crds), docs);
    FilterExact(Goes(ControlPlane), docs);
    FilterExact(Goes(DevDataPlane), docs);
    FilterExact(Goes(Bff), docs);
    assert forall f: File :: Goes(f)(t) <==> FileOf(t) == f;
    NotABackEnd();
  }

  lemma NotABackEnd()
    ensures "bff" !in {"statelayer", "objectstore", "postgres", "nats"} && "Namespace" != "CustomResourceDefinition"
  {
  }

  lemma AllInstalled(docs: seq<string>)
    ensures Installed(docs, ALL_OPEN) == InFiles(docs)
  {
  }

  /** A dialled workload is behind the gate of the development data plane exactly when its dial is among that plane's values. */
  lemma DialledFile(text: string)
    requires DialPath(text).Some?
    ensures FileOf(text) == DevDataPlane <==> Starts(DialPath(text).value, "devDataPlane.")
    ensures FileOf(text) == Bff <==> DialPath(text).value == "bff"
  {
    hide KindOf, LabelOf;
    NotABackEnd();
    WorkloadKinds();
    var component := LabelOf(text);
    if component in {"statelayer", "objectstore", "postgres", "nats"} {
      PlaneDials();
    } else {
      OtherDials(component);
    }
  }

  lemma WorkloadKinds()
    ensures "Namespace" !in {"Deployment", "StatefulSet"} && "CustomResourceDefinition" !in {"Deployment", "StatefulSet"}
  {
  }

  lemma PlaneDials()
    ensures forall l :: l in {"statelayer", "objectstore", "postgres", "nats"} ==>
              l in RESOURCE_DIALS && Starts(RESOURCE_DIALS[l], "devDataPlane.") && RESOURCE_DIALS[l] != "bff"
  {
  }

  lemma OtherDials(component: string)
    requires component in RESOURCE_DIALS && component !in {"statelayer", "objectstore", "postgres", "nats"}
    ensures !Starts(RESOURCE_DIALS[component], "devDataPlane.") && (RESOURCE_DIALS[component] == "bff" <==> component == "bff")
  {
    hide Starts;
    var path := RESOURCE_DIALS[component];
    assert path[0] != 'd';
    StartsElsewhere(path, "devDataPlane.", 0);
  }

  // ---- The replica dials ---------------------------------------------------------------------

  lemma ReplicaBrought(path: string, d: Doc)
    requires Occurs(Lits("  replicas: 1\n"), d)
    ensures Act("{{ .Values." + path + " | default 1 }}") in Rewrite(ReplicaRule(path), d)
  {
    hide Replace, Occurs;
    ReplaceBrings(d, Lits("  replicas: 1\n"), ReplicaRule(path).sub, Act(ReplicaAct(path)));
  }

  /** A single-replica Deployment of the console's back end is written with its replica template. */
  lemma BackEndReplicas(d: Doc)
    requires KindOf(Source(d)) == "Deployment"
    requires Occurs(Lits("control-plane: bff"), d) && Occurs(Lits("  replicas: 1\n"), d)
    ensures Act("{{ .Values.bff.replicas | default 1 }}") in Written(Bff, d)
  {
    hide Rewrite, Occurs, KindOf, ReplicaRule;
    ReplicaBrought("bff.replicas", d);
    BackEndTexts();
  }

  lemma BackEndTexts()
    ensures "control-plane: " + "bff" == "control-plane: bff"
    ensures "{{ .Values." + "bff.replicas" + " | default 1 }}" == "{{ .Values.bff.replicas | default 1 }}"
  {
  }

  /** The marker of a control-plane workload and the values path of its replicas. */
  predicate PlaneDial(name: string, path: string) {
    || (name == "controller-manager" && path == "controllerManager.replicas")
    || (name == "gateway" && path == "gateway.replicas")
    || (name == "token-service" && path == "tokenService.replicas")
    || (name == "statelayer-proxy" && path == "statelayerProxy.replicas")
  }

  /** A single-replica Deployment of the control plane that carries one marker is written with its replica template. */
  lemma PlaneReplicas(d: Doc, name: string, path: string)
    requires KindOf(Source(d)) == "Deployment" && PlaneDial(name, path)
    requires Occurs(Lits("control-plane: " + name), d) && Occurs(Lits("  replicas: 1\n"), d)
    requires forall n, p :: PlaneDial(n, p) && n != name ==> !Occurs(Lits("control-plane: " + n), d)
    ensures Act("{{ .Values." + path + " | default 1 }}") in Written(ControlPlane, d)
  {
    hide Rewrite, Occurs, KindOf, ReplicaRule;
    ReplicaBrought(path, d);
    assert forall i :: 0 <= i < 4 ==> PlaneDial(REPLICA_DIALS[i].0, REPLICA_DIALS[i].1);
    FirstDial(REPLICA_DIALS, d, name, path);
  }

  lemma {:induction false} FirstDial(dials: seq<(string, string)>, d: Doc, name: string, path: string)
    requires (name, path) in dials && Occurs(Lits("control-plane: " + name), d)
    requires forall dial :: dial in dials && dial != (name, path) ==> !Occurs(Lits("control-plane: " + dial.0), d)
    ensures ReplicaDial(dials, d) == Rewrite(ReplicaRule(path), d)
  {
    hide Rewrite, Occurs, ReplicaRule;
    if dials[0] != (name, path) {
      assert dials[0] in dials && forall dial :: dial in dials[1..] ==> dial in dials;
      FirstDial(dials[1..], d, name, path);
    }
  }

  // ---- Counting ------------------------------------------------------------------------------

  ghost function Count(docs: seq<string>, file: File): multiset<string> {
    multiset(Pick(docs, file))
  }

  lemma CountStep(docs: seq<string>, t: string, file: File)
    ensures Count(docs + [t], file) == Count(docs, file) + if FileOf(t) == file then multiset{t} else multiset{}
  {
    hide FileOf;
    FilterAppend(Goes(file), docs, t);
  }

  lemma {:induction false} FilesCount(docs: seq<string>)
    ensures Count(docs, Crds) + Count(docs, ControlPlane) + Count(docs, DevDataPlane) + Count(docs, Bff) + Count(docs, Dropped)
         == multiset(docs)
  {
    hide FileOf;
    if docs != [] {
      hide Count;
      var front, last := docs[..|docs| - 1], docs[|docs| - 1];
      FilesCount(front);
      assert docs == front + [last];
      CountStep(front, last, Crds);
      CountStep(front, last, ControlPlane);
      CountStep(front, last, DevDataPlane);
      CountStep(front, last, Bff);
      CountStep(front, last, Dropped);
      OneOf(Count(front, Crds), Count(front, ControlPlane), Count(front, DevDataPlane), Count(front, Bff),
            Count(front, Dropped), FileOf(last), last);
    }
  }

  lemma OneOf(a: multiset<string>, b: multiset<string>, c: multiset<string>, d: multiset<string>, e: multiset<string>,
              file: File, t: string)
    ensures a + (if file == Crds then multiset{t} else multiset{})
          + (b + if file == ControlPlane then multiset{t} else multiset{})
          + (c + if file == DevDataPlane then multiset{t} else multiset{})
          + (d + if file == Bff then multiset{t} else multiset{})
          + (e + if file == Dropped then multiset{t} else multiset{})
         == a + b + c + d + e + multiset{t}
  {
    match file case Crds => case ControlPlane => case DevDataPlane => case Bff => case Dropped =>
  }

  /** Nothing is lost or copied: every document is in exactly one file, except the dropped ones. */
  lemma FilesPartition(docs: seq<string>)
    ensures multiset(InFiles(docs)) + multiset(Pick(docs, Dropped)) == multiset(docs)
  {
    hide Pick;
    FilesCount(docs);
  }
}
