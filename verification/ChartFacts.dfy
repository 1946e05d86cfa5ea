/** The whole chain of the chart before the quoting rule, and the entries of the input text. */
module ChartFacts {
  import opened Prelude
  import opened Text
  import opened HelmText
  import opened HelmChart
  import opened DriftEntries
  import opened ChartEntries
  import opened Overlap

  // ---- The namespace rule --------------------------------------------------------------------

  lemma NamespacedStep(x: Tok, s: Doc, inWord: bool)
    requires !Starts([x] + s, Lits(KEY))
    ensures Namespaced([x] + s, inWord) == [x] + Namespaced(s, WordTok(x))
  {
    assert ([x] + s)[1..] == s;
  }

  lemma {:induction false} NamespacedPast(a: Doc, rest: Doc, inWord: bool)
    requires Repels(a, Lits(KEY))
    ensures Namespaced(a + rest, inWord) == a + Namespaced(rest, if a == [] then inWord else WordTok(a[|a| - 1]))
  {
    hide WordTok, Namespaced, Repels, Starts, Lits;
    if a == [] {
      assert a + rest == rest;
    } else {
      RepelsStart(a, rest, Lits(KEY));
      RepelsTail(a, Lits(KEY));
      var x, t := a[0], a[1..];
      NamespacedPast(t, rest, WordTok(x));
      assert a + rest == [x] + (t + rest);
      NamespacedStep(x, t + rest, inWord);
      assert t != [] ==> t[|t| - 1] == a[|a| - 1];
      var after := Namespaced(rest, WordTok(a[|a| - 1]));
      assert [x] + (t + after) == a + after;
    }
  }

  lemma KeyStarts(d: Doc)
    requires NamespaceAt(d).Some?
    ensures var at := NamespaceAt(d).value;
            && Starts(d, Lits(KEY)) && at >= |KEY|
            && d == d[..at] + Lits(INSTALL) + d[at + |INSTALL|..]
            && d[..at] == Lits(KEY) + d[|KEY|..at] && forall i :: |KEY| <= i < at ==> BlankTok(d[i])
  {
    var at := NamespaceAt(d).value;
    BlanksAre(d[|KEY|..]);
    NamespaceCut(d);
    assert forall i :: |KEY| <= i < at ==> d[i] == d[|KEY|..][i - |KEY|];
  }

  lemma {:induction false} NamespaceSuffix(d: Doc, inWord: bool, e: Doc, k: nat)
    requires k <= |e| && Repels(e, Lits(KEY))
    ensures Starts(Namespaced(d, inWord), e[k..]) ==> Starts(d, e[k..])
    decreases |d|
  {
    hide WordTok, NamespaceAt;
    if k < |e| && d != [] {
      if !inWord && NamespaceAt(d).Some? {
        KeyStarts(d);
        var at := NamespaceAt(d).value;
        var rest := Namespaced(d[at + |INSTALL|..], true);
        assert Namespaced(d, inWord) == Lits(KEY) + (d[|KEY|..at] + [Act(NAMESPACE)] + rest);
        assert Clash(e, k, Lits(KEY));
        SubstituteStops(Lits(KEY), d[|KEY|..at] + [Act(NAMESPACE)] + rest, e, k);
      } else {
        var rest := Namespaced(d[1..], WordTok(d[0]));
        assert Namespaced(d, inWord) == [d[0]] + rest && d == [d[0]] + d[1..];
        StartsCons(d[0], rest, e[k..]);
        StartsCons(d[0], d[1..], e[k..]);
        assert e[k..][1..] == e[k + 1..];
        NamespaceSuffix(d[1..], WordTok(d[0]), e, k + 1);
      }
    }
  }

  /** Neither the key, nor the blanks after it, nor what stands there then can begin an entry. */
  lemma KeyHeadRepels(blanks: Doc, x: Doc)
    requires (forall i :: 0 <= i < |blanks| ==> BlankTok(blanks[i])) && x != [] && x[0] != Ch('-') && BLANK !in x
    ensures Repels(Lits(KEY) + blanks + x, Front())
  {
    var head := blanks + x;
    LitsAbsent(KEY, ' ');
    RepelsAbsent(Lits(KEY), Front());
    forall j: nat | j < |head| ensures Clash(head, j, Front()) {
      if j < |blanks| {
        var k := if |blanks| - j > 8 then 8 else |blanks| - j;
        assert head[j + k] != Front()[k];
      } else {
        assert head[j] == x[j - |blanks|];
        assert head[j + 0] != Front()[0];
      }
    }
    RepelsAppend(Lits(KEY), head, Front());
    assert Lits(KEY) + blanks + x == Lits(KEY) + head;
  }

  lemma RepelsMark(a: Doc)
    requires Repels(a, Front())
    ensures Repels(a, Mark())
  {
    hide Repels, Behind;
    MarkParts();
    RepelsLonger(a, Front(), Behind(EGRESS, Lits(SIDECAR)));
  }

  lemma EveryNamespaceHere(v: Values, d: Doc, q: string -> bool)
    requires NamespaceAt(d).Some?
    ensures var at := NamespaceAt(d).value; var rest := d[at + |INSTALL|..];
            && (Every(v, d, q) <==> Every(v, rest, q))
            && (Every(v, Namespaced(d, false), q) <==> Every(v, Namespaced(rest, true), q))
  {
    hide NamespaceAt, Repels, Every;
    KeyStarts(d);
    var at := NamespaceAt(d).value;
    var blanks, rest := d[|KEY|..at], d[at + |INSTALL|..];
    LitsAbsent(INSTALL, ' ');
    KeyHeadRepels(blanks, Lits(INSTALL));
    KeyHeadRepels(blanks, [Act(NAMESPACE)]);
    RepelsMark(Lits(KEY) + blanks + Lits(INSTALL));
    RepelsMark(Lits(KEY) + blanks + [Act(NAMESPACE)]);
    EverySkips(v, Lits(KEY) + blanks + Lits(INSTALL), rest, q);
    EverySkips(v, Lits(KEY) + blanks + [Act(NAMESPACE)], Namespaced(rest, true), q);
  }

  lemma {:induction false} EveryNamespaced(v: Values, d: Doc, inWord: bool, q: string -> bool)
    requires v(NAMESPACE) == INSTALL
    ensures Every(v, Namespaced(d, inWord), q) <==> Every(v, d, q)
    decreases |d|
  {
    hide Head, Render, Repels, NamespaceAt, WordTok, Mark;
    MarkLength();
    KeyRepels();
    if d == [] {
    } else if Starts(d, Mark()) {
      var rest := d[|ENTRY|..];
      assert d == Mark() + rest;
      var w := WordTok(Mark()[|Mark()| - 1]);
      NamespacedPast(Mark(), rest, inWord);
      NamespacedRenders(v, rest, w);
      EveryOnce(v, rest, q);
      EveryOnce(v, Namespaced(rest, w), q);
      EveryNamespaced(v, rest, w, q);
    } else if !inWord && NamespaceAt(d).Some? {
      EveryNamespaceHere(v, d, q);
      EveryNamespaced(v, d[NamespaceAt(d).value + |INSTALL|..], true, q);
    } else {
      var next := Namespaced(d[1..], WordTok(d[0]));
      assert Namespaced(d, inWord) == [d[0]] + next;
      EveryNamespaced(v, d[1..], WordTok(d[0]), q);
      NamespaceSuffix(d, inWord, Mark(), 0);
      assert Mark()[0..] == Mark();
      EveryTail(v, d, q);
      EveryTail(v, [d[0]] + next, q);
      assert ([d[0]] + next)[1..] == next;
    }
  }

  lemma EveryTail(v: Values, d: Doc, q: string -> bool)
    requires d != [] && !Starts(d, Mark())
    ensures Every(v, d, q) <==> Every(v, d[1..], q)
  {
  }

  // ---- Chains --------------------------------------------------------------------------------

  lemma {:induction false} EveryRewrite(v: Values, r: Rule, d: Doc, q: string -> bool)
    requires Preserves(v, r) && Bypasses(r)
    ensures Every(v, Rewrite(r, d), q) <==> Every(v, d, q)
    decreases r
  {
    hide Every, Aside, Replace, Namespaced;
    match r
    case Swap(pat, sub) =>
      if pat != [] {
        EveryReplace(v, d, pat, sub, q);
      }
    case NamespaceKeys => EveryNamespaced(v, d, false, q);
    case Routed(marker, hit, miss) =>
      if Occurs(marker, d) {
        EveryRewrite(v, hit, d, q);
      } else {
        EveryRewrite(v, miss, d, q);
      }
  }

  lemma {:induction false} EveryChain(v: Values, rules: seq<Rule>, d: Doc, q: string -> bool)
    requires forall r :: r in rules ==> Preserves(v, r) && Bypasses(r)
    ensures Every(v, RewriteAll(rules, d), q) <==> Every(v, d, q)
  {
    hide Every, Bypasses, Preserves, Rewrite;
    if rules != [] {
      EveryChain(v, rules[..|rules| - 1], d, q);
      EveryRewrite(v, rules[|rules| - 1], RewriteAll(rules[..|rules| - 1], d), q);
    }
  }

  /** What follows every entry of a text on its line has the property. */
  ghost predicate EveryText(s: string, q: string -> bool) {
    (Starts(s, ENTRY) ==> q(Head(s[|ENTRY|..]))) && (s == "" || EveryText(s[1..], q))
  }

  lemma StartsLits(s: string, p: string)
    ensures Starts(Lits(s), Lits(p)) <==> Starts(s, p)
  {
    if |p| <= |s| {
      assert Lits(s)[..|p|] == Lits(s[..|p|]);
      if Lits(s[..|p|]) == Lits(p) {
        forall i | 0 <= i < |p| ensures s[..|p|][i] == p[i] {
          assert Lits(s[..|p|])[i] == Lits(p)[i];
        }
      }
    }
  }

  /** No entry begins inside another. */
  lemma {:induction false} EveryTextSkips(a: string, rest: string, q: string -> bool)
    requires Repels(Lits(a), Mark())
    ensures EveryText(a + rest, q) <==> EveryText(rest, q)
  {
    hide Mark, Repels;
    if a == "" {
      assert a + rest == rest;
    } else {
      RepelsStart(Lits(a), Lits(rest), Mark());
      LitsAppend(a, rest);
      MarkIs();
      StartsLits(a + rest, ENTRY);
      RepelsTail(Lits(a), Mark());
      assert Lits(a)[1..] == Lits(a[1..]);
      EveryTextSkips(a[1..], rest, q);
      assert (a + rest)[1..] == a[1..] + rest;
    }
  }

  lemma MarkAlone()
    ensures |ENTRY| > 0 && Repels(Lits(ENTRY[1..]), Mark())
  {
    hide Repels, Behind, EnvHead;
    MarkLength();
    MarkParts();
    SidecarTail();
    EnvRepels(EGRESS, Lits(SIDECAR));
    RepelsMark(Mark()[1..]);
    assert Lits(ENTRY)[1..] == Lits(ENTRY[1..]);
  }

  lemma EveryTextStep(rest: string, q: string -> bool)
    ensures EveryText(ENTRY + rest, q) <==> q(Head(rest)) && EveryText(rest, q)
  {
    hide Head, Repels, EnvHead;
    MarkAlone();
    var s := ENTRY + rest;
    assert s[|ENTRY|..] == rest && s[..|ENTRY|] == ENTRY && s[1..] == ENTRY[1..] + rest;
    EveryTextSkips(ENTRY[1..], rest, q);
  }

  /** The entries of a document of literals are those of its text. */
  lemma {:induction false} EveryLits(v: Values, s: string, q: string -> bool)
    ensures Every(v, Lits(s), q) <==> EveryText(s, q)
    decreases |s|
  {
    hide Head, EnvHead, Render;
    StartsLits(s, ENTRY);
    MarkLength();
    MarkIs();
    if s == "" {
    } else if Starts(s, ENTRY) {
      var rest := s[|ENTRY|..];
      assert s == ENTRY + rest;
      LitsAppend(ENTRY, rest);
      RenderLits(v, rest);
      EveryOnce(v, Lits(rest), q);
      EveryTextStep(rest, q);
      EveryLits(v, rest, q);
    } else {
      assert Lits(s)[1..] == Lits(s[1..]);
      EveryLits(v, s[1..], q);
    }
  }

  /** A text has no entry exactly when nothing can be said of what follows one. */
  lemma {:induction false} EveryNever(s: string)
    ensures EveryText(s, r => false) <==> !Occurs(ENTRY, s)
  {
    hide Head, EnvHead;
    MarkLength();
    if s != "" {
      EveryNever(s[1..]);
    }
  }

  // ---- The chart's chain ---------------------------------------------------------------------

  lemma ImageRulesBypass()
    ensures forall r :: r in ImageRules() ==> Bypasses(r)
  {
    hide Bypasses, Image;
    ImageBypasses("controller", ".Values.controllerManager.image");
    ImageBypasses("bff", ".Values.bff.image");
    ImageBypasses("statelayer-proxy", ".Values.statelayerProxy.image");
    ImageBypasses("token-service", ".Values.tokenService.image");
  }

  lemma ProxyBypasses()
    ensures Bypasses(Swap(Lits(PROXY + "ctxmesh.svc"), Lits(PROXY) + [Act(NAMESPACE)] + Lits(".svc")))
  {
    hide Aside, Repels, Mark;
    MarkRepels();
    var rest := "xmesh-statelayer-proxy.";
    assert PROXY == "ct" + rest;
    LitsAbsent(PROXY + "ctxmesh.svc", ' ');
    LitsAppend("ct", rest + "ctxmesh.svc");
    assert PROXY + "ctxmesh.svc" == "ct" + (rest + "ctxmesh.svc");
    PlainAside(Lits("ct"), Lits(rest + "ctxmesh.svc"));
    LitsAbsent(PROXY, ' ');
    LitsAbsent(".svc", ' ');
    LitsAppend("ct", rest);
    assert Lits("ct") + Lits(rest) + [Act(NAMESPACE)] + Lits(".svc") == Lits("ct") + (Lits(rest) + [Act(NAMESPACE)] + Lits(".svc"));
    PlainAside(Lits("ct"), Lits(rest) + [Act(NAMESPACE)] + Lits(".svc"));
  }

  lemma LiteralBypasses(start: string, rest: string, act: string)
    requires start != "" && ' ' !in start && ' ' !in rest && Repels(Mark(), Lits(start))
    ensures Bypasses(Swap(Lits(start + rest), [Act(act)]))
  {
    hide Aside, Repels, Mark;
    LitsAppend(start, rest);
    LitsAbsent(start, ' ');
    LitsAbsent(rest, ' ');
    PlainAside(Lits(start), Lits(rest));
    ActAside(act);
  }

  lemma BackendParts()
    ensures BACKEND == "ct" + "xmesh-statelayer." + "ctxmesh.svc:6379"
    ensures ' ' !in "xmesh-statelayer." && ' ' !in "ctxmesh.svc:6379" && ' ' !in "ct"
  {
  }

  lemma BackendBypasses()
    ensures Bypasses(Swap(Lits(BACKEND), [Act(BACKEND_TEMPLATE)]))
  {
    hide Bypasses, Repels, Mark, Lits;
    MarkRepels();
    BackendParts();
    LiteralBypasses("ct", "xmesh-statelayer." + "ctxmesh.svc:6379", BACKEND_TEMPLATE);
    assert "ct" + ("xmesh-statelayer." + "ctxmesh.svc:6379") == "ct" + "xmesh-statelayer." + "ctxmesh.svc:6379";
  }

  lemma FirstBypasses(text: string, c: char, act: string)
    requires text != "" && text[0] == c && ' ' !in text && Repels(Mark(), Lits([c]))
    ensures Bypasses(Swap(Lits(text), [Act(act)]))
  {
    hide Bypasses, Repels, Mark, Lits;
    assert [c] + text[1..] == text;
    LiteralBypasses([c], text[1..], act);
  }

  lemma DsnPlain()
    ensures DSN != "" && DSN[0] == 'p' && ' ' !in DSN && ' ' !in DSN_TAIL && ' ' !in INSTALL
  {
  }

  lemma DsnBypasses(act: string)
    ensures Bypasses(Swap(Lits(DSN + INSTALL + DSN_TAIL), [Act(act)]))
  {
    hide Bypasses, Repels, Mark, Lits;
    MarkRepels();
    DsnPlain();
    assert "p" == ['p'];
    FirstBypasses(DSN + INSTALL + DSN_TAIL, 'p', act);
  }

  lemma AddressRulesBypass()
    ensures forall r :: r in AddressRules() ==> Bypasses(r)
  {
    hide Aside, Lits;
    ProxyBypasses();
    BackendBypasses();
    DsnBypasses(DSN_TEMPLATE);
  }

  lemma ConnectBypasses(tail: Doc)
    requires tail != [] && BLANK !in tail
    ensures Aside(Lits(EnvHead("PROVIDER_CONNECT_ENABLED")) + tail)
  {
    hide Aside, EnvHead, Lits;
    EnvAside("PROVIDER_CONNECT_ENABLED", tail, 0);
  }

  lemma RunStoreBypasses()
    ensures Bypasses(RunStoreRule())
  {
    hide Aside, EnvHead, Lits;
    ConnectBypasses([Act(CONNECT)]);
    ConnectBypasses([Act(WORKER_ACT)]);
  }

  lemma ForeignAt(name: string, n: nat)
    requires ' ' !in name && n < |name| && n < |EGRESS| && name[n] != EGRESS[n]
    ensures Foreign(name)
  {
  }

  lemma EgressKnobsForeign()
    ensures Foreign("EGRESS_RESPONSE_HEADER_TIMEOUT") && Foreign("EGRESS_STREAM_IDLE_TIMEOUT")
  {
    hide Foreign;
    ForeignAt("EGRESS_RESPONSE_HEADER_TIMEOUT", 7);
    ForeignAt("EGRESS_STREAM_IDLE_TIMEOUT", 8);
  }

  lemma ModelNamesForeign()
    ensures Foreign("KNOWLEDGE_SETTLE_WINDOW") && Foreign("MANAGED_AGENT_IMAGE") && Foreign("INGEST_OCR_URL")
    ensures Foreign("KNOWLEDGE_RERANK_URL") && Foreign("DISCOVERY_EMBEDDING_ROUTE") && Foreign("DISCOVERY_RERANK_URL")
  {
    hide Foreign;
    ForeignAt("KNOWLEDGE_SETTLE_WINDOW", 0);
    ForeignAt("MANAGED_AGENT_IMAGE", 0);
    ForeignAt("INGEST_OCR_URL", 0);
    ForeignAt("KNOWLEDGE_RERANK_URL", 0);
    ForeignAt("DISCOVERY_EMBEDDING_ROUTE", 0);
    ForeignAt("DISCOVERY_RERANK_URL", 0);
  }

  lemma RunNamesForeign()
    ensures Foreign("RUN_EXEC_TIMEOUT") && Foreign("RUN_EXEC_MAX_TIMEOUT") && Foreign("ASYNC_BACKEND")
    ensures Foreign("NATS_URL") && Foreign("NATS_CREDENTIALS_FILE") && Foreign("MCP_GRANT_HMAC_KEY")
  {
    hide Foreign;
    ForeignAt("RUN_EXEC_TIMEOUT", 0);
    ForeignAt("RUN_EXEC_MAX_TIMEOUT", 0);
    ForeignAt("ASYNC_BACKEND", 0);
    ForeignAt("NATS_URL", 0);
    ForeignAt("NATS_CREDENTIALS_FILE", 0);
    ForeignAt("MCP_GRANT_HMAC_KEY", 0);
  }

  lemma PlatformNamesForeign()
    ensures Foreign("PLATFORM_GENERATION_MODELS") && Foreign("MCP_ENABLED") && Foreign("MCP_REQUIRE_APPROVAL")
    ensures Foreign("CONSOLE_URL")
  {
    hide Foreign;
    ForeignAt("PLATFORM_GENERATION_MODELS", 0);
    ForeignAt("MCP_ENABLED", 0);
    ForeignAt("MCP_REQUIRE_APPROVAL", 0);
    ForeignAt("CONSOLE_URL", 0);
  }

  lemma McpNamesForeign()
    ensures Foreign("MCP_CREDENTIAL_NAMESPACE") && Foreign("TOKEN_SERVICE_TLS_REQUIRED")
  {
    hide Foreign;
    ForeignAt("MCP_CREDENTIAL_NAMESPACE", 0);
    ForeignAt("TOKEN_SERVICE_TLS_REQUIRED", 0);
  }

  lemma AuthNamesForeign()
    ensures Foreign("OIDC_ENABLED") && Foreign("OIDC_ISSUER") && Foreign("OIDC_CLIENT_ID") && Foreign("COLLECTOR_IMAGE")
    ensures Foreign("DISCOVERY_IMAGE") && Foreign("MCP_OBO_EGRESS_ENABLED")
  {
    hide Foreign;
    ForeignAt("OIDC_ENABLED", 0);
    ForeignAt("OIDC_ISSUER", 0);
    ForeignAt("OIDC_CLIENT_ID", 0);
    ForeignAt("COLLECTOR_IMAGE", 0);
    ForeignAt("DISCOVERY_IMAGE", 0);
    ForeignAt("MCP_OBO_EGRESS_ENABLED", 0);
  }

  lemma ConnectNamesForeign()
    ensures Foreign("PROVIDER_CONNECT_ENABLED") && Foreign("MODEL_GATEWAY_URL")
  {
    hide Foreign;
    ForeignAt("PROVIDER_CONNECT_ENABLED", 0);
    ForeignAt("MODEL_GATEWAY_URL", 0);
  }

  lemma LiteralsTidy()
    ensures Tidy("\"\"") && Tidy("\"true\"") && Tidy("\"false\"") && Tidy(INSTALL) && Tidy(GATEWAY)
  {
  }

  lemma ConnectRulesBypass()
    ensures forall r :: r in ConnectRules() ==> Bypasses(r)
  {
    hide Aside, Env, Foreign, Tidy;
    ConnectNamesForeign();
    LiteralsTidy();
    EnvBypasses(Entry("PROVIDER_CONNECT_ENABLED", "\"true\"", PROVIDER_CONNECT));
    GatewayBypasses(".Values.tokenService.modelGatewayURL");
    GatewayBypasses(".Values.bff.modelGatewayURL");
  }

  lemma GatewayBypasses(path: string)
    ensures Bypasses(Gateway(path))
  {
    hide Bypasses, Env, Foreign, Tidy;
    ConnectNamesForeign();
    LiteralsTidy();
    EnvBypasses(Entry("MODEL_GATEWAY_URL", GATEWAY, path + ROUTE));
  }

  /** Every entry of a table is of another variable and has a literal without blanks. */
  ghost predicate Fit(entries: seq<Entry>) {
    forall e :: e in entries ==> Foreign(e.name) && Tidy(e.literal)
  }

  lemma KnobsFit()
    ensures Fit(DurabilityKnobs()) && Fit(ModelKnobs()) && Fit(RunKnobs())
  {
    hide Foreign, Tidy;
    EgressKnobsForeign();
    ModelNamesForeign();
    RunNamesForeign();
    LiteralsTidy();
  }

  lemma SwitchesFit()
    ensures Fit(McpSwitches()) && Fit(AuthSwitches())
  {
    hide Foreign, Tidy, Injected, OidcValue;
    PlatformNamesForeign();
    McpNamesForeign();
    AuthNamesForeign();
    LiteralsTidy();
  }

  lemma EnvsBypass(entries: seq<Entry>)
    requires Fit(entries)
    ensures forall r :: r in Map(EnvOf, entries) ==> Bypasses(r)
  {
    hide Bypasses, EnvOf, Foreign, Tidy;
    forall r | r in Map(EnvOf, entries) ensures Bypasses(r) {
      var i :| 0 <= i < |entries| && Map(EnvOf, entries)[i] == r;
      assert entries[i] in entries;
      EnvBypasses(entries[i]);
    }
  }

  /** No rule of the chart before the quoting one touches an entry. */
  lemma ChartBypasses()
    ensures forall r :: r in ChainBefore() ==> Bypasses(r)
  {
    hide Bypasses, EnvOf, Foreign, Tidy, ImageRules, AddressRules, ConnectRules, DurabilityKnobs, ModelKnobs, RunKnobs,
         RunStoreRule, McpSwitches, AuthSwitches;
    ImageRulesBypass();
    AddressRulesBypass();
    ConnectRulesBypass();
    KnobsFit();
    SwitchesFit();
    RunStoreBypasses();
    assert Fit(Knobs()) && Fit(Switches());
    EnvsBypass(Knobs());
    EnvsBypass(Switches());
  }
}
