/** The chart generator's substitution: the ordered rules that make a chart document of a kustomize one. */
module HelmChart {
  import opened Prelude
  import opened Text
  import opened HelmText

  // ---- The namespace rule --------------------------------------------------------------------

  const NAMESPACE := "{{ .Values.namespace }}"
  const KEY := "namespace:"
  const INSTALL := "ctxmesh"

  predicate WordTok(t: Tok) {
    t.Ch? && ('a' <= t.c <= 'z' || 'A' <= t.c <= 'Z' || '0' <= t.c <= '9' || t.c == '_')
  }

  predicate BlankTok(t: Tok) {
    t.Ch? && Blank(t.c)
  }

  function Blanks(d: Doc): (n: nat)
    ensures n <= |d|
  {
    if d == [] || !BlankTok(d[0]) then 0 else 1 + Blanks(d[1..])
  }

  lemma {:induction false} BlanksAre(d: Doc)
    ensures forall i :: 0 <= i < Blanks(d) ==> BlankTok(d[i])
    ensures Blanks(d) < |d| ==> !BlankTok(d[Blanks(d)])
  {
    if d != [] && BlankTok(d[0]) {
      BlanksAre(d[1..]);
      assert forall i :: 1 <= i < Blanks(d) ==> d[i] == d[1..][i - 1];
    }
  }

  /** Where the install namespace starts, if the document starts with a namespace key holding it. */
  function NamespaceAt(d: Doc): (at: Option<nat>)
    ensures at.Some? ==> |KEY| <= at.value <= |d| - |INSTALL|
    ensures at.Some? ==> d[at.value..][..|INSTALL|] == Lits(INSTALL)
  {
    if !Starts(d, Lits(KEY)) then None
    else
      var at := |KEY| + Blanks(d[|KEY|..]);
      if !Starts(d[at..], Lits(INSTALL)) || (at + |INSTALL| < |d| && WordTok(d[at + |INSTALL|])) then None
      else Some(at)
  }

  /** Points every standalone namespace key at the release namespace; `inWord` tells what came before. */
  function Namespaced(d: Doc, inWord: bool): Doc
    decreases |d|
  {
    if d == [] then []
    else if !inWord && NamespaceAt(d).Some? then
      var at := NamespaceAt(d).value;
      d[..at] + [Act(NAMESPACE)] + Namespaced(d[at + |INSTALL|..], true)
    else [d[0]] + Namespaced(d[1..], WordTok(d[0]))
  }

  lemma NamespaceCut(d: Doc)
    requires NamespaceAt(d).Some?
    ensures var at := NamespaceAt(d).value; d == d[..at] + Lits(INSTALL) + d[at + |INSTALL|..]
  {
    var at := NamespaceAt(d).value;
    assert d[at..][..|INSTALL|] == d[at..at + |INSTALL|];
  }

  lemma {:induction false} NamespacedRenders(v: Values, d: Doc, inWord: bool)
    requires v(NAMESPACE) == INSTALL
    ensures Render(v, Namespaced(d, inWord)) == Render(v, d)
    decreases |d|
  {
    hide NamespaceAt, WordTok;
    if d == [] {
    } else if !inWord && NamespaceAt(d).Some? {
      var at := NamespaceAt(d).value;
      var head, rest := d[..at], d[at + |INSTALL|..];
      var tail := Namespaced(rest, true);
      NamespacedRenders(v, rest, true);
      NamespaceCut(d);
      RenderAppend(v, head + [Act(NAMESPACE)], tail);
      RenderAppend(v, head, [Act(NAMESPACE)]);
      RenderAppend(v, head + Lits(INSTALL), rest);
      RenderAppend(v, head, Lits(INSTALL));
      RenderLits(v, INSTALL);
      RenderOne(v, Act(NAMESPACE));
    } else {
      NamespacedRenders(v, d[1..], WordTok(d[0]));
      RenderAppend(v, [d[0]], Namespaced(d[1..], WordTok(d[0])));
      RenderAppend(v, [d[0]], d[1..]);
      assert d == [d[0]] + d[1..];
    }
  }

  lemma RenderOne(v: Values, t: Tok)
    ensures Render(v, [t]) == Shown(v, t)
  {
    assert [t][1..] == [];
    assert Shown(v, t) + "" == Shown(v, t);
  }

  // ---- The rewrite chain ---------------------------------------------------------------------

  datatype Rule =
    | Swap(pat: Doc, sub: Doc)
    | NamespaceKeys
    | Routed(marker: Doc, hit: Rule, miss: Rule)

  function Rewrite(r: Rule, d: Doc): Doc
    decreases r
  {
    match r
    case Swap(pat, sub) => if pat == [] then d else Replace(d, pat, sub)
    case NamespaceKeys => Namespaced(d, false)
    case Routed(marker, hit, miss) => if Occurs(marker, d) then Rewrite(hit, d) else Rewrite(miss, d)
  }

  function RewriteAll(rules: seq<Rule>, d: Doc): Doc {
    if rules == [] then d else Rewrite(rules[|rules| - 1], RewriteAll(rules[..|rules| - 1], d))
  }

  /** The values make a rule's template evaluate to the literal it replaced. */
  ghost predicate Preserves(v: Values, r: Rule)
    decreases r
  {
    match r
    case Swap(pat, sub) => Render(v, sub) == Render(v, pat)
    case NamespaceKeys => v(NAMESPACE) == INSTALL
    case Routed(_, hit, miss) => Preserves(v, hit) && Preserves(v, miss)
  }

  lemma {:induction false} RewriteRenders(v: Values, r: Rule, d: Doc)
    requires Preserves(v, r)
    ensures Render(v, Rewrite(r, d)) == Render(v, d)
    decreases r
  {
    match r
    case Swap(pat, sub) =>
      if pat != [] {
        ReplaceRenders(v, d, pat, sub);
      }
    case NamespaceKeys => NamespacedRenders(v, d, false);
    case Routed(marker, hit, miss) =>
      if Occurs(marker, d) {
        RewriteRenders(v, hit, d);
      } else {
        RewriteRenders(v, miss, d);
      }
  }

  /** Meaning preservation for a whole ordered chain, including rules that rewrite a rewritten block. */
  lemma {:induction false} ChainRenders(v: Values, rules: seq<Rule>, d: Doc)
    requires forall r :: r in rules ==> Preserves(v, r)
    ensures Render(v, RewriteAll(rules, d)) == Render(v, d)
  {
    if rules != [] {
      ChainRenders(v, rules[..|rules| - 1], d);
      RewriteRenders(v, rules[|rules| - 1], RewriteAll(rules[..|rules| - 1], d));
    }
  }

  /** An environment entry whose value becomes a template. */
  function EnvHead(name: string): string {
    "        - name: " + name + "\n          value: "
  }

  function Env(name: string, literal: string, expr: string): Rule {
    Swap(Lits(EnvHead(name) + literal), Lits(EnvHead(name)) + [Act("{{ " + expr + " }}")])
  }

  function ImageAct(path: string): string {
    "{{ printf \"%s:%s\" " + path + ".repository (" + path + ".tag | default .Chart.AppVersion) }}"
  }

  function Image(name: string, path: string): Rule {
    Swap(Lits("image: " + name + ":latest"), Lits("image: ") + [Act(ImageAct(path))])
  }

  /** An environment rule preserves the rendering exactly when its template evaluates to its literal. */
  lemma EnvPreserves(v: Values, name: string, literal: string, expr: string)
    ensures Preserves(v, Env(name, literal, expr)) <==> v("{{ " + expr + " }}") == literal
  {
    var act := "{{ " + expr + " }}";
    RenderLits(v, EnvHead(name) + literal);
    RenderAppend(v, Lits(EnvHead(name)), [Act(act)]);
    RenderLits(v, EnvHead(name));
    RenderOne(v, Act(act));
    var h := EnvHead(name);
    assert h + v(act) == h + literal ==> (h + v(act))[|h|..] == v(act) && (h + literal)[|h|..] == literal;
  }

  const DSN := "postgres://ctxmesh:" + "ctxmesh-dev-secret" + "@ctxmesh-postgres."
  const DSN_TAIL := ".svc:5432/ctxmesh" + "?sslmode=disable"

  const PROVIDER_CONNECT := ".Values" + ".bff.providerConnect.enabled | quote"
  const CONNECT := "{{ " + PROVIDER_CONNECT + " }}"

  const RUN_STORE_OPEN := "\n{{- if" + " .Values.bff.runStore.enabled" + " }}\n"

  /** What is injected after the provider-connect template. */
  const RUN_STORE := RUN_STORE_OPEN + EnvHead("RUN_WORKER_DISPATCH") + "\"true\"" + "\n{{- end }}"

  /** The template with its injected block, as one action of five lines; by default the block adds nothing. */
  const WORKER_ACT := CONNECT + RUN_STORE

  const GATEWAY := "http://ctxmesh-gateway." + "ctxmesh.svc:4000"

  const ROUTE := " | default (printf" + " \"http" + "://ctxmesh-gateway.%s.svc" + ":4000\"" + " .Values.namespace)"

  function Gateway(path: string): Rule {
    Env("MODEL_GATEWAY_URL", GATEWAY, path + ROUTE)
  }

  function Injected(path: string): string {
    "include \"ctxmesh.injectedImage\"" + " (dict \"ref\" .Values.controllerManager." + path + " \"ctx\" $) | quote"
  }

  function OidcValue(path: string): string {
    "if .Values.auth.oidc.enabled }}" + "{{ .Values.auth.oidc." + path + " | quote }}{{ else }}\"\"{{ end"
  }

  const OBO := ".Values.controllerManager." + "oboEgress.enabled | quote"
  const GENERATION := ".Values.bff.generation." + "platformModels | quote"

  /** An environment variable, its kustomize literal and the expression of its template. */
  datatype Entry = Entry(name: string, literal: string, expr: string)

  function EnvOf(e: Entry): Rule {
    Env(e.name, e.literal, e.expr)
  }

  /** An optional variable: empty by default. */
  function Knob(name: string, path: string): Entry {
    Entry(name, "\"\"", ".Values." + path + " | default \"\" | quote")
  }

  function ImageRules(): seq<Rule> {
    [ Image("controller", ".Values.controllerManager.image"),
      Image("bff", ".Values.bff.image"),
      Image("statelayer-proxy", ".Values.statelayerProxy.image"),
      Image("token-service", ".Values.tokenService.image") ]
  }

  const PROXY := "ctxmesh-statelayer-proxy."
  const BACKEND := "ctxmesh-statelayer.ctxmesh.svc:6379"
  const BACKEND_TEMPLATE :=
    "{{ .Values.statelayer." + "externalAddr | default (printf" + " \"ctxmesh-statelayer.%s.svc" + ":6379\" .Values.namespace) }}"
  const DSN_CHOICE := "{{ if .Values.postgres.externalDsn }}" + "{{ .Values.postgres.externalDsn | quote }}" + "{{ else }}"
  const DSN_TEMPLATE := DSN_CHOICE + "{{ printf \"" + DSN + "%s" + DSN_TAIL + "\" .Values.namespace }}{{ end }}"

  function AddressRules(): seq<Rule> {
    [ NamespaceKeys,
      Swap(Lits(PROXY + "ctxmesh.svc"), Lits(PROXY) + [Act(NAMESPACE)] + Lits(".svc")),
      Swap(Lits(BACKEND), [Act(BACKEND_TEMPLATE)]),
      Swap(Lits(DSN + INSTALL + DSN_TAIL), [Act(DSN_TEMPLATE)]) ]
  }

  function ConnectRules(): seq<Rule> {
    [ Env("PROVIDER_CONNECT_ENABLED", "\"true\"", PROVIDER_CONNECT),
      Routed(Lits("control-plane: token-service"),
             Gateway(".Values.tokenService.modelGatewayURL"), Gateway(".Values.bff.modelGatewayURL")) ]
  }

  function DurabilityKnobs(): seq<Entry> {
    [ Knob("EGRESS_RESPONSE_HEADER_TIMEOUT", "controllerManager." + "egress.responseHeaderTimeout"),
      Knob("EGRESS_STREAM_IDLE_TIMEOUT", "controllerManager." + "egress.streamIdleTimeout"),
      Knob("KNOWLEDGE_SETTLE_WINDOW", "knowledgeSettleWindow") ]
  }

  function ModelKnobs(): seq<Entry> {
    [ Knob("MANAGED_AGENT_IMAGE", "bff.managedAgentImage"),
      Knob("INGEST_OCR_URL", "bff.ingestOcrURL"),
      Knob("KNOWLEDGE_RERANK_URL", "bff.knowledgeRerankURL"),
      Knob("DISCOVERY_EMBEDDING_ROUTE", "bff.discoveryEmbeddingRoute"),
      Knob("DISCOVERY_RERANK_URL", "bff.discoveryRerankURL") ]
  }

  function RunKnobs(): seq<Entry> {
    [ Knob("RUN_EXEC_TIMEOUT", "bff.runExecTimeout"),
      Knob("RUN_EXEC_MAX_TIMEOUT", "bff.runExecMaxTimeout"),
      Knob("ASYNC_BACKEND", "bff.asyncBackend"),
      Knob("NATS_URL", "bff.natsURL"),
      Knob("NATS_CREDENTIALS_FILE", "bff.natsCredentialsFile"),
      Knob("MCP_GRANT_HMAC_KEY", "bff.mcp.grantHmacKey") ]
  }

  function Knobs(): seq<Entry> {
    DurabilityKnobs() + ModelKnobs() + RunKnobs()
  }

  /** Rewrites the block an earlier rule has already rewritten. */
  function RunStoreRule(): Rule {
    Swap(Lits(EnvHead("PROVIDER_CONNECT_ENABLED")) + [Act(CONNECT)],
         Lits(EnvHead("PROVIDER_CONNECT_ENABLED")) + [Act(WORKER_ACT)])
  }

  const CREDENTIAL := ".Values.bff.mcp.credentialNamespace" + " | default .Values.namespace"

  function McpSwitches(): seq<Entry> {
    [ Entry("PLATFORM_GENERATION_MODELS", "\"\"", GENERATION),
      Entry("MCP_ENABLED", "\"true\"", ".Values.bff.mcp.enabled | quote"),
      Entry("MCP_REQUIRE_APPROVAL", "\"false\"", ".Values.bff.mcp.requireApproval | quote"),
      Knob("CONSOLE_URL", "bff.consoleURL"),
      Entry("MCP_CREDENTIAL_NAMESPACE", INSTALL, CREDENTIAL),
      Entry("TOKEN_SERVICE_TLS_REQUIRED", "\"false\"", ".Values.tokenService.tls.required | quote") ]
  }

  function AuthSwitches(): seq<Entry> {
    [ Entry("OIDC_ENABLED", "\"false\"", ".Values.auth.oidc.enabled | quote"),
      Entry("OIDC_ISSUER", "\"\"", OidcValue("issuer")),
      Entry("OIDC_CLIENT_ID", "\"\"", OidcValue("client.id")),
      Entry("COLLECTOR_IMAGE", "\"\"", Injected("injectedImages.collector")),
      Entry("DISCOVERY_IMAGE", "\"\"", Injected("injectedImages.discovery")),
      Entry("MCP_OBO_EGRESS_ENABLED", "\"false\"", OBO) ]
  }

  function Switches(): seq<Entry> {
    McpSwitches() + AuthSwitches()
  }

  /** The rules of the chain before the egress sidecar image, in order. */
  function ChainBefore(): seq<Rule> {
    ImageRules() + AddressRules() + ConnectRules() + Map(EnvOf, Knobs()) + [RunStoreRule()] + Map(EnvOf, Switches())
  }

  /** Where the gateway's address comes from: the token service's own values in its manifest, the back end's in any other. */
  lemma GatewayRouted(d: Doc)
    requires Occurs(Lits(EnvHead("MODEL_GATEWAY_URL") + GATEWAY), d)
    ensures var path := if Occurs(Lits("control-plane: token-service"), d) then ".Values.tokenService.modelGatewayURL"
                        else ".Values.bff.modelGatewayURL";
            Act("{{ " + (path + ROUTE) + " }}") in Rewrite(ConnectRules()[1], d)
  {
    hide Replace, Occurs, EnvHead;
    var token, bff := Gateway(".Values.tokenService.modelGatewayURL"), Gateway(".Values.bff.modelGatewayURL");
    var pat := Lits(EnvHead("MODEL_GATEWAY_URL") + GATEWAY);
    assert |GATEWAY| > 0 && |pat| > 0;
    ReplaceBrings(d, pat, token.sub, Act("{{ " + (".Values.tokenService.modelGatewayURL" + ROUTE) + " }}"));
    ReplaceBrings(d, pat, bff.sub, Act("{{ " + (".Values.bff.modelGatewayURL" + ROUTE) + " }}"));
  }

  const SIDECAR := "dev.local/egress-sidecar:demo"

  /** The one rule whose literal is bare while its template always quotes. */
  function EgressRule(): Rule {
    Env("EGRESS_SIDECAR_IMAGE", SIDECAR, Injected("oboEgress.sidecarImage"))
  }

  const TOKEN_URL := "http://ctxmesh-token-" + "service.ctxmesh.svc:8443"
  const TOKEN_EXPR :=
    ".Values.controllerManager." + "oboEgress.tokenServiceURL" + " | default (printf"
    + " \"%s" + "://ctxmesh-token-" + "service.%s.svc" + ":8443\"" + " (ternary \"https\" \"http\""
    + " .Values.tokenService.tls.required)" + " .Values.namespace)"
  const TENANT_LABEL := "ternary \"true\" \"false\"" + " .Values.security." + "tenantLabelWebhook.enabled | quote"

  function LastEntries(): seq<Entry> {
    [ Knob("MCP_CAPABILITY_AUDIENCE", "controllerManager." + "oboEgress.capabilityAudience"),
      Entry("TOKEN_SERVICE_URL", TOKEN_URL, TOKEN_EXPR),
      Entry("COST_ROLLUP_ENABLED", "\"1\"", ".Values.bff.costRollupEnabled | quote"),
      Entry("MCP_OBO_REQUIRED", "\"false\"", OBO),
      Entry("DEV_DATA_PLANE", "\"true\"", ".Values.devDataPlane.enabled | quote"),
      Entry("ENABLE_TENANT_LABEL_WEBHOOK", "\"true\"", TENANT_LABEL) ]
  }

  function ChainAfter(): seq<Rule> {
    Map(EnvOf, LastEntries())
  }

  /** A chain of rules around the egress sidecar's rule; the chart's own is `ChartRules()`. */
  datatype Chain = Chain(before: seq<Rule>, after: seq<Rule>)

  function ChartRules(): Chain {
    Chain(ChainBefore(), ChainAfter())
  }

  /** The substitution of one document. */
  function Substituted(c: Chain, d: Doc): Doc {
    RewriteAll(c.after, Rewrite(EgressRule(), RewriteAll(c.before, d)))
  }

  method ApplyChain(rules: seq<Rule>, doc: Doc) returns (d: Doc)
    ensures d == RewriteAll(rules, doc)
  {
    d := doc;
    for i := 0 to |rules|
      invariant d == RewriteAll(rules[..i], doc)
    {
      assert rules[..i + 1][..i] == rules[..i];
      d := Rewrite(rules[i], d);
    }
    assert rules[..|rules|] == rules;
  }

  /** Rewrites the document rule by rule. */
  method Substitute(c: Chain, doc: Doc) returns (d: Doc)
    ensures d == Substituted(c, doc)
  {
    hide RewriteAll, Rewrite, EgressRule;
    d := ApplyChain(c.before, doc);
    d := Rewrite(EgressRule(), d);
    d := ApplyChain(c.after, d);
  }
}
