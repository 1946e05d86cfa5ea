/**
 The values of the no-drift check exist: one assignment of the chart's templates to their kustomize
 literals, although several rules share a template.
 */
module ChartValues {
  import opened Prelude
  import opened HelmText
  import opened HelmChart
  import opened HelmFiles
  import opened DriftQuotes
  import opened DriftEntries
  import opened NoDrift

  const TRUE := "\"true\""
  const FALSE := "\"false\""
  const EMPTY := "\"\""

  /**
   Templates whose literals differ have different lengths, or differ at one of two places. A table by
   the templates themselves would need every two of them told apart, which is what the lengths do.
   */
  function ValueOf(n: nat, c: char, end: char): string {
    if n in {38, 50, 52} || (n in {42, 47} && end == '1') then "1"
    else if n in {37, 42, 80, 159} || (n == 49 && c == 'o') then TRUE
    else if n in {39, 45, 47} || (n == 57 && c == 'l') then FALSE
    else if n in {23, 69} then INSTALL
    else if n == 43 then "\"1\""
    else if n == 101 then "bff:latest"
    else if n == 119 then "token-service:latest"
    else if n == 125 then "statelayer-proxy:latest"
    else if n == 129 then "controller:latest"
    else if n == 107 && c == 'a' then BACKEND
    else if n in {107, 116} then GATEWAY
    else if n == 115 then QUOTED
    else if n == 194 then TOKEN_URL
    else if n == 221 then DSN + INSTALL + DSN_TAIL
    else EMPTY
  }

  function ChartValue(text: string): string {
    if |text| < 23 then "" else ValueOf(|text|, text[17], text[|text| - 4])
  }

  ghost predicate Gives(entries: seq<Entry>) {
    forall e :: e in entries ==> ChartValue("{{ " + e.expr + " }}") == e.literal
  }

  lemma EnvsPreserve(entries: seq<Entry>)
    requires Gives(entries)
    ensures forall r :: r in Map(EnvOf, entries) ==> Preserves(ChartValue, r)
  {
    hide Preserves, ChartValue, Env;
    forall r | r in Map(EnvOf, entries) ensures Preserves(ChartValue, r) {
      var i :| 0 <= i < |entries| && Map(EnvOf, entries)[i] == r;
      var e := entries[i];
      assert e in entries;
      EnvPreserves(ChartValue, e.name, e.literal, e.expr);
    }
  }

  lemma Known(expr: string)
    requires |expr| >= 17
    ensures ChartValue("{{ " + expr + " }}") == ValueOf(|expr| + 6, expr[14], expr[|expr| - 1])
  {
    var text := "{{ " + expr + " }}";
    assert text[17] == expr[14] && text[|text| - 4] == expr[|expr| - 1];
  }

  /** The value of a template whose length alone decides. */
  lemma Plain(expr: string, n: nat)
    requires |expr| + 6 == n >= 23 && n !in {42, 47, 49, 57, 107}
    ensures ChartValue("{{ " + expr + " }}") == ValueOf(n, ' ', ' ')
  {
    Known(expr);
  }

  lemma KnobExpr(name: string, path: string)
    requires |path| >= 11
    ensures var expr := Knob(name, path).expr; |expr| == |path| + 29 && expr[14] == path[6] && expr[|expr| - 1] == 'e'
  {
    var expr := ".Values." + path + " | default \"\" | quote";
    assert |".Values."| == 8 && |" | default \"\" | quote"| == 21;
    assert expr[14] == path[6] && expr[|expr| - 1] == " | default \"\" | quote"[20];
  }

  /** A knob evaluates to the quoted empty string. */
  lemma KnobGives(name: string, path: string)
    requires var n := |path| + 35;
             n in {46, 51, 53, 55, 56, 58, 62, 77, 81} || (n == 57 && path[6] != 'l') || (n == 49 && path[6] != 'o')
    ensures Gives([Knob(name, path)])
  {
    hide ChartValue, Knob;
    KnobExpr(name, path);
    Known(Knob(name, path).expr);
    KnobLiteral(name, path);
  }

  lemma KnobLiteral(name: string, path: string)
    ensures Knob(name, path).literal == EMPTY
  {
  }

  lemma GivesAppend(a: seq<Entry>, b: seq<Entry>)
    requires Gives(a) && Gives(b)
    ensures Gives(a + b)
  {
    hide ChartValue;
  }

  lemma DurabilityGive()
    ensures Gives(DurabilityKnobs())
  {
    hide ChartValue, Knob;
    KnobGives("EGRESS_RESPONSE_HEADER_TIMEOUT", "controllerManager." + "egress.responseHeaderTimeout");
    KnobGives("EGRESS_STREAM_IDLE_TIMEOUT", "controllerManager." + "egress.streamIdleTimeout");
    KnobGives("KNOWLEDGE_SETTLE_WINDOW", "knowledgeSettleWindow");
  }

  lemma ModelGive()
    ensures Gives(ModelKnobs())
  {
    hide ChartValue, Knob;
    KnobGives("MANAGED_AGENT_IMAGE", "bff.managedAgentImage");
    KnobGives("INGEST_OCR_URL", "bff.ingestOcrURL");
    KnobGives("KNOWLEDGE_RERANK_URL", "bff.knowledgeRerankURL");
    KnobGives("DISCOVERY_EMBEDDING_ROUTE", "bff.discoveryEmbeddingRoute");
    KnobGives("DISCOVERY_RERANK_URL", "bff.discoveryRerankURL");
  }

  lemma RunGive()
    ensures Gives(RunKnobs())
  {
    hide ChartValue, Knob;
    KnobGives("RUN_EXEC_TIMEOUT", "bff.runExecTimeout");
    KnobGives("RUN_EXEC_MAX_TIMEOUT", "bff.runExecMaxTimeout");
    KnobGives("ASYNC_BACKEND", "bff.asyncBackend");
    KnobGives("NATS_URL", "bff.natsURL");
    KnobGives("NATS_CREDENTIALS_FILE", "bff.natsCredentialsFile");
    KnobGives("MCP_GRANT_HMAC_KEY", "bff.mcp.grantHmacKey");
  }

  lemma McpValues()
    ensures ChartValue("{{ " + GENERATION + " }}") == EMPTY
    ensures ChartValue("{{ " + ".Values.bff.mcp.enabled | quote" + " }}") == TRUE
    ensures ChartValue("{{ " + ".Values.bff.mcp.requireApproval | quote" + " }}") == FALSE
  {
    hide ChartValue;
    Plain(GENERATION, 51);
    Plain(".Values.bff.mcp.enabled | quote", 37);
    Plain(".Values.bff.mcp.requireApproval | quote", 45);
  }

  lemma CredentialValues()
    ensures ChartValue("{{ " + CREDENTIAL + " }}") == INSTALL
    ensures ChartValue("{{ " + ".Values.tokenService.tls.required | quote" + " }}") == FALSE
  {
    hide ChartValue;
    Plain(CREDENTIAL, 69);
    var expr := ".Values.tokenService.tls.required | quote";
    assert |expr| == 41 && expr[40] == 'e';
    Known(expr);
  }

  lemma McpGive()
    ensures Gives(McpSwitches())
  {
    hide ChartValue, Knob, ValueOf;
    McpValues();
    KnobGives("CONSOLE_URL", "bff.consoleURL");
    CredentialValues();
  }

  lemma OidcLength(path: string)
    ensures |OidcValue(path)| == |path| + 81
  {
    assert |"if .Values.auth.oidc.enabled }}" + "{{ .Values.auth.oidc."| == 52;
    assert |" | quote }}{{ else }}\"\"{{ end"| == 29;
  }

  lemma InjectedLength(path: string)
    ensures |Injected(path)| == |path| + 87
  {
    assert |"include \"ctxmesh.injectedImage\"" + " (dict \"ref\" .Values.controllerManager."| == 70;
    assert |" \"ctx\" $) | quote"| == 17;
  }

  lemma OidcValues()
    ensures ChartValue("{{ " + ".Values.auth.oidc.enabled | quote" + " }}") == FALSE
    ensures ChartValue("{{ " + OidcValue("issuer") + " }}") == ChartValue("{{ " + OidcValue("client.id") + " }}") == EMPTY
  {
    hide ChartValue, OidcValue;
    OidcLength("issuer");
    OidcLength("client.id");
    Plain(".Values.auth.oidc.enabled | quote", 39);
    Plain(OidcValue("issuer"), 93);
    Plain(OidcValue("client.id"), 96);
  }

  lemma InjectedGives(path: string)
    requires |path| == 24
    ensures ChartValue("{{ " + Injected(path) + " }}") == EMPTY
  {
    hide ChartValue, Injected;
    InjectedLength(path);
    Plain(Injected(path), 117);
  }

  lemma AuthGive()
    ensures Gives(AuthSwitches())
  {
    hide ChartValue, OidcValue, Injected, ValueOf;
    OidcValues();
    InjectedGives("injectedImages.collector");
    InjectedGives("injectedImages.discovery");
    OboGives();
  }

  lemma OboGives()
    ensures ChartValue("{{ " + OBO + " }}") == FALSE
  {
    hide ChartValue;
    assert |OBO| == 51 && OBO[14] == 'l';
    Known(OBO);
  }

  lemma TokenGives()
    ensures ChartValue("{{ " + TOKEN_EXPR + " }}") == TOKEN_URL
  {
    hide ChartValue;
    assert |TOKEN_EXPR| == 188;
    Plain(TOKEN_EXPR, 194);
  }

  lemma LastGive()
    ensures Gives(LastEntries())
  {
    hide ChartValue, Knob, ValueOf;
    KnobGives("MCP_CAPABILITY_AUDIENCE", "controllerManager." + "oboEgress.capabilityAudience");
    TokenGives();
    OboGives();
    DevPlaneGives();
    RollupGives();
  }

  lemma RollupGives()
    ensures ChartValue("{{ " + ".Values.bff.costRollupEnabled | quote" + " }}") == "\"1\""
    ensures ChartValue("{{ " + TENANT_LABEL + " }}") == TRUE
  {
    hide ChartValue;
    Plain(".Values.bff.costRollupEnabled | quote", 43);
    Plain(TENANT_LABEL, 80);
  }

  lemma DevPlaneGives()
    ensures ChartValue("{{ " + ".Values.devDataPlane.enabled | quote" + " }}") == TRUE
  {
    hide ChartValue;
    var expr := ".Values.devDataPlane.enabled | quote";
    assert |expr| == 36 && expr[35] == 'e';
    Known(expr);
  }

  /** The value of a whole action whose length alone decides. */
  lemma PlainAction(text: string, n: nat)
    requires |text| == n >= 23 && n !in {42, 47, 49, 57, 107}
    ensures ChartValue(text) == ValueOf(n, ' ', ' ')
  {
  }

  lemma ImageLength(path: string)
    ensures |ImageAct(path)| == 2 * |path| + 67
  {
    assert |"{{ printf \"%s:%s\" "| == 18 && |".repository ("| == 13 && |".tag | default .Chart.AppVersion) }}"| == 36;
  }

  lemma ImagePreserved(name: string, path: string)
    requires ChartValue(ImageAct(path)) == name + ":latest"
    ensures Preserves(ChartValue, Image(name, path))
  {
    hide ChartValue;
    HeadRenders(ChartValue, "image: ", ImageAct(path));
    RenderLits(ChartValue, "image: " + name + ":latest");
    assert "image: " + (name + ":latest") == "image: " + name + ":latest";
  }

  lemma ImagesPreserved()
    ensures forall r :: r in ImageRules() ==> Preserves(ChartValue, r)
  {
    hide ChartValue, Image, Preserves, ImageAct;
    ImageLength(".Values.controllerManager.image");
    ImageLength(".Values.bff.image");
    ImageLength(".Values.statelayerProxy.image");
    ImageLength(".Values.tokenService.image");
    PlainAction(ImageAct(".Values.controllerManager.image"), 129);
    PlainAction(ImageAct(".Values.bff.image"), 101);
    PlainAction(ImageAct(".Values.statelayerProxy.image"), 125);
    PlainAction(ImageAct(".Values.tokenService.image"), 119);
    ImageNames();
    ImagePreserved("controller", ".Values.controllerManager.image");
    ImagePreserved("bff", ".Values.bff.image");
    ImagePreserved("statelayer-proxy", ".Values.statelayerProxy.image");
    ImagePreserved("token-service", ".Values.tokenService.image");
  }

  lemma ImageNames()
    ensures "controller" + ":latest" == "controller:latest" && "bff" + ":latest" == "bff:latest"
    ensures "statelayer-proxy" + ":latest" == "statelayer-proxy:latest" && "token-service" + ":latest" == "token-service:latest"
  {
  }

  lemma NamespaceGives()
    ensures ChartValue(NAMESPACE) == INSTALL
  {
  }

  lemma ProxyPreserved()
    ensures Preserves(ChartValue, Swap(Lits(PROXY + "ctxmesh.svc"), Lits(PROXY) + [Act(NAMESPACE)] + Lits(".svc")))
  {
    hide ChartValue;
    NamespaceGives();
    HeadRenders(ChartValue, PROXY, NAMESPACE);
    RenderAppend(ChartValue, Lits(PROXY) + [Act(NAMESPACE)], Lits(".svc"));
    RenderLits(ChartValue, ".svc");
    RenderLits(ChartValue, PROXY + "ctxmesh.svc");
    assert INSTALL + ".svc" == "ctxmesh.svc";
    assert PROXY + INSTALL + ".svc" == PROXY + (INSTALL + ".svc");
  }

  lemma WholePreserved(text: string, act: string)
    requires ChartValue(act) == text
    ensures Preserves(ChartValue, Swap(Lits(text), [Act(act)]))
  {
    hide ChartValue;
    RenderLits(ChartValue, text);
    RenderOne(ChartValue, Act(act));
  }

  lemma BackendGives()
    ensures ChartValue(BACKEND_TEMPLATE) == BACKEND
  {
    var text := BACKEND_TEMPLATE;
    assert |text| == 107;
    assert text[17] == 'a';
  }

  lemma DsnGives()
    ensures ChartValue(DSN_TEMPLATE) == DSN + INSTALL + DSN_TAIL
  {
    hide ChartValue;
    assert |DSN_TEMPLATE| == 221;
    PlainAction(DSN_TEMPLATE, 221);
  }

  lemma AddressesPreserved()
    ensures forall r :: r in AddressRules() ==> Preserves(ChartValue, r)
  {
    hide ChartValue, Render, Lits;
    NamespaceGives();
    ProxyPreserved();
    BackendGives();
    DsnGives();
    WholePreserved(BACKEND, BACKEND_TEMPLATE);
    WholePreserved(DSN + INSTALL + DSN_TAIL, DSN_TEMPLATE);
  }

  lemma ConnectGives()
    ensures ChartValue("{{ " + PROVIDER_CONNECT + " }}") == TRUE
  {
    hide ChartValue;
    assert |PROVIDER_CONNECT| == 43 && PROVIDER_CONNECT[14] == 'o' && PROVIDER_CONNECT[42] == 'e';
    Known(PROVIDER_CONNECT);
  }

  lemma RouteLength()
    ensures |ROUTE| == 74
  {
  }

  lemma GatewayPreserved(path: string)
    requires |path| == 36 || (|path| == 27 && path[14] == 'd')
    ensures Preserves(ChartValue, Gateway(path))
  {
    hide ChartValue;
    RouteLength();
    var expr := path + ROUTE;
    assert expr[14] == path[14];
    Known(expr);
    EnvPreserves(ChartValue, "MODEL_GATEWAY_URL", GATEWAY, expr);
  }

  lemma ConnectPreserved()
    ensures forall r :: r in ConnectRules() ==> Preserves(ChartValue, r)
  {
    hide ChartValue, Env, Gateway;
    ConnectGives();
    EnvPreserves(ChartValue, "PROVIDER_CONNECT_ENABLED", TRUE, PROVIDER_CONNECT);
    GatewayPreserved(".Values.tokenService.modelGatewayURL");
    GatewayPreserved(".Values.bff.modelGatewayURL");
  }

  lemma WorkerGives()
    ensures ChartValue(WORKER_ACT) == TRUE
  {
    hide ChartValue;
    assert |CONNECT| == 49 && |RUN_STORE| == 110;
    PlainAction(WORKER_ACT, 159);
  }

  lemma RunStorePreserved()
    ensures Preserves(ChartValue, RunStoreRule())
  {
    hide ChartValue, EnvHead, Render;
    var head := EnvHead("PROVIDER_CONNECT_ENABLED");
    ConnectGives();
    WorkerGives();
    HeadRenders(ChartValue, head, CONNECT);
    HeadRenders(ChartValue, head, WORKER_ACT);
  }

  lemma TemplateGives()
    ensures ChartValue(TEMPLATE) == QUOTED
  {
    hide ChartValue, Injected;
    InjectedLength("oboEgress.sidecarImage");
    Plain(Injected("oboEgress.sidecarImage"), 115);
  }

  lemma ReplicaGives(path: string)
    requires |path| + 26 in {38, 42, 47, 50, 52}
    ensures ChartValue(ReplicaAct(path)) == "1"
  {
    assert |"{{ .Values."| == 11 && |" | default 1 }}"| == 15;
    var text := ReplicaAct(path);
    assert text[|text| - 4] == " | default 1 }}"[11];
  }

  lemma ReplicasGive()
    ensures forall dial :: dial in REPLICA_DIALS + BFF_DIALS ==> ChartValue(ReplicaAct(dial.1)) == "1"
  {
    hide ChartValue, ReplicaAct;
    ReplicaGives("controllerManager.replicas");
    ReplicaGives("gateway.replicas");
    ReplicaGives("tokenService.replicas");
    ReplicaGives("statelayerProxy.replicas");
    ReplicaGives("bff.replicas");
  }

  /** The chart has values as the no-drift check needs them, so nothing said about them is empty. */
  lemma ChartHasDefaults()
    ensures Defaults(ChartValue, ChartRules())
  {
    hide ChartValue, Preserves, EnvOf, ImageRules, AddressRules, ConnectRules, RunStoreRule, DurabilityKnobs, ModelKnobs,
         RunKnobs, McpSwitches, AuthSwitches, LastEntries, ReplicaAct, Injected;
    ImagesPreserved();
    AddressesPreserved();
    ConnectPreserved();
    DurabilityGive();
    ModelGive();
    RunGive();
    GivesAppend(DurabilityKnobs(), ModelKnobs());
    GivesAppend(DurabilityKnobs() + ModelKnobs(), RunKnobs());
    EnvsPreserve(Knobs());
    RunStorePreserved();
    McpGive();
    AuthGive();
    GivesAppend(McpSwitches(), AuthSwitches());
    EnvsPreserve(Switches());
    LastGive();
    EnvsPreserve(LastEntries());
    TemplateGives();
    NamespaceGives();
    ReplicasGive();
  }
}
