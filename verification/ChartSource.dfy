/**
 The chart's chain on its text: for a text without braces, rewriting its tokens rule by rule and writing
 the result down is rewriting the text rule by rule, through the whole ordered chain.
 */
module ChartSource {
  import opened Prelude
  import opened HelmText
  import opened HelmChart
  import opened Overlap
  import opened HelmSource
  import opened ChartEntries

  // ---- What cannot begin in an action --------------------------------------------------------

  /** The two characters are nowhere next to each other. */
  predicate NoPair(a: string, x: char, y: char) {
    forall j :: 0 <= j && j + 1 < |a| ==> a[j] != x || a[j + 1] != y
  }

  lemma NoPairAbsent(a: string, x: char, y: char)
    requires x !in a || y !in a
    ensures NoPair(a, x, y)
  {
  }

  lemma NoPairAppend(a: string, b: string, x: char, y: char)
    requires NoPair(a, x, y) && NoPair(b, x, y)
    requires a == "" || b == "" || a[|a| - 1] != x || b[0] != y
    ensures NoPair(a + b, x, y)
  {
    var s := a + b;
    forall j | 0 <= j && j + 1 < |s| ensures s[j] != x || s[j + 1] != y {
      if j + 1 < |a| {
        assert s[j] == a[j] && s[j + 1] == a[j + 1];
      } else if j >= |a| {
        assert s[j] == b[j - |a|] && s[j + 1] == b[j - |a| + 1];
      }
    }
  }

  predicate Bare(s: string) {
    forall c :: c in s ==> c != '{' && c != '}'
  }

  /** A piece of an action: on one line, without the pair that marks a key. */
  predicate Piece(a: string) {
    '\n' !in a && NoPair(a, 'e', ':')
  }

  lemma PieceAppend(a: string, b: string)
    requires Piece(a) && Piece(b) && (a == "" || b == "" || a[|a| - 1] != 'e' || b[0] != ':')
    ensures Piece(a + b)
  {
    NoPairAppend(a, b, 'e', ':');
  }

  predicate Flat(a: string) {
    forall c :: c in a ==> c != '\n' && c != ':'
  }

  lemma PlainPiece(a: string)
    requires Flat(a)
    ensures Piece(a)
  {
    NoPairAbsent(a, 'e', ':');
  }

  /** A piece whose only colon comes first. */
  lemma ColonPiece(a: string)
    requires Flat(a)
    ensures Piece(":" + a)
  {
    NoPairAbsent(":", 'e', ':');
    NoPairAbsent(a, 'e', ':');
    NoPairAppend(":", a, 'e', ':');
  }

  lemma PieceIs(a: string)
    requires Piece(a)
    ensures '\n' !in a && NoPair(a, 'e', ':')
  {
  }

  /** An action in braces, perhaps over several lines. */
  predicate Closed(a: string) {
    |a| >= 16 && a[0] == '{' && a[|a| - 1] == '}'
  }

  predicate Framed(a: string) {
    Closed(a) && Piece(a)
  }

  /** A pattern with two characters an action never has side by side cannot begin in it. */
  lemma PairRepels(a: string, k: string, m: nat)
    requires a != "" && a[|a| - 1] == '}' && Bare(k) && m + 1 < |k| && NoPair(a, k[m], k[m + 1])
    ensures Repels(a, k)
  {
    forall j: nat | j < |a| ensures Clash(a, j, k) {
      if j + m + 1 < |a| {
        assert a[j + m] != k[m] || a[j + (m + 1)] != k[m + 1];
      } else {
        var t := |a| - 1 - j;
        assert k[t] in k;
        assert a[j + t] != k[t];
      }
    }
  }

  /** A pattern with a character an action does not have cannot begin in it. */
  lemma CharRepels(a: string, k: string, m: nat)
    requires a != "" && a[|a| - 1] == '}' && m < |k| && (forall t :: 0 <= t < m ==> k[t] != '}') && k[m] !in a
    ensures Repels(a, k)
  {
    forall j: nat | j < |a| ensures Clash(a, j, k) {
      if j + m < |a| {
        assert a[j + m] != k[m];
      } else {
        var t := |a| - 1 - j;
        assert a[j + t] != k[t];
      }
    }
  }

  /** A literal rule can be read when it has no braces and cannot begin in an action. */
  lemma LitsLegible(k: string, ok: string -> bool)
    requires k != "" && '{' !in k && forall a :: ok(a) ==> Closed(a) && Repels(a, k)
    ensures Legible(Lits(k), ok)
  {
    hide Repels;
    LitsSeparable(k, ok);
    SourceLits(k);
  }

  // ---- What the actions of the chart are like ------------------------------------------------

  /** It is the connect template, or differs from it early. */
  predicate Unlike(a: string)
    requires |a| >= 16
  {
    a == CONNECT || a[3] != '.' || a[11] != 'b' || a[15] != 'p'
  }

  predicate Late(a: string) {
    Framed(a) && Unlike(a)
  }

  predicate Middle(a: string) {
    Late(a) && '@' !in a
  }

  predicate Early(a: string) {
    Middle(a) && '-' !in a && NoPair(a, ':', ' ')
  }

  predicate Last(a: string) {
    Framed(a) || a == WORKER_ACT
  }

  lemma ConnectPrefix()
    ensures |CONNECT| >= 16 && CONNECT[0] == '{' && CONNECT[3] == '.' && CONNECT[11] == 'b' && CONNECT[15] == 'p'
  {
    assert PROVIDER_CONNECT[0] == '.' && PROVIDER_CONNECT[8] == 'b' && PROVIDER_CONNECT[12] == 'p' && |PROVIDER_CONNECT| == 43;
  }

  lemma UnlikeDiffers(a: string)
    requires Late(a) && a != CONNECT
    ensures Differs(a, CONNECT)
  {
    ConnectPrefix();
    if a[3] != '.' {
      assert a[0 + 3] != CONNECT[3];
    } else if a[11] != 'b' {
      assert a[0 + 11] != CONNECT[11];
    } else {
      assert a[0 + 15] != CONNECT[15];
    }
  }

  // ---- Environment entries -------------------------------------------------------------------

  lemma FeedAt(name: string, rest: string)
    requires Bare(name)
    ensures var k := EnvHead(name) + rest;
            16 + |name| < |k| && k[16 + |name|] == '\n' && forall t :: 0 <= t < 16 + |name| ==> k[t] != '}'
  {
    var head := "        - name: " + name;
    assert |"        - name: "| == 16 && '}' !in "        - name: ";
    assert '}' !in head;
    assert EnvHead(name) + rest == head + ("\n          value: " + rest);
  }

  lemma HeadBare(name: string)
    requires Bare(name)
    ensures Bare(EnvHead(name))
  {
    assert Bare("        - name: ") && Bare("\n          value: ");
  }

  /** An entry cannot begin in an action, because no action has a line feed. */
  lemma EntryRepels(a: string, name: string, rest: string)
    requires Framed(a) && Bare(name)
    ensures Repels(a, EnvHead(name) + rest)
  {
    hide EnvHead;
    FeedAt(name, rest);
    CharRepels(a, EnvHead(name) + rest, 16 + |name|);
  }

  predicate Readies(e: Entry) {
    Bare(e.name) && Bare(e.literal) && e.literal != "" && e.literal[|e.literal| - 1] != '\n'
  }

  lemma EnvLegible(e: Entry, ok: string -> bool)
    requires Readies(e) && forall a :: ok(a) ==> Framed(a)
    ensures Legible(Lits(EnvHead(e.name) + e.literal), ok)
  {
    hide EnvHead, Repels, Piece;
    HeadBare(e.name);
    forall a | ok(a) ensures Closed(a) && Repels(a, EnvHead(e.name) + e.literal) {
      EntryRepels(a, e.name, e.literal);
    }
    LitsLegible(EnvHead(e.name) + e.literal, ok);
  }

  lemma EnvDrawn(e: Entry, ok: string -> bool)
    requires ok("{{ " + e.expr + " }}")
    ensures Drawn(Lits(EnvHead(e.name)) + [Act("{{ " + e.expr + " }}")], Lits(EnvHead(e.name) + e.literal), ok)
  {
    hide EnvHead;
    LitsAppend(EnvHead(e.name), e.literal);
  }

  /** An environment rule can be read off any text whose actions are on one line. */
  lemma EnvReadable(e: Entry, ok: string -> bool, adds: string -> bool)
    requires Readies(e) && (forall a :: ok(a) ==> Framed(a)) && adds("{{ " + e.expr + " }}")
    ensures Readable(EnvOf(e), ok, adds)
  {
    hide EnvHead, Legible, Drawn, Framed, Readies;
    EnvLegible(e, ok);
    EnvDrawn(e, adds);
  }

  lemma ActFramed(expr: string)
    requires |expr| >= 13 && Piece(expr)
    ensures Framed("{{ " + expr + " }}")
    ensures ("{{ " + expr + " }}")[3] == expr[0] && ("{{ " + expr + " }}")[11] == expr[8]
    ensures ("{{ " + expr + " }}")[15] == expr[12]
  {
    hide Piece;
    var a := "{{ " + expr + " }}";
    assert a[|a| - 1] == " }}"[2];
    Braces();
    PieceAppend("{{ ", expr);
    PieceAppend("{{ " + expr, " }}");
  }

  lemma Braces()
    ensures Piece("{{ ") && Piece(" }}")
  {
    hide Piece;
    PlainPiece("{{ ");
    PlainPiece(" }}");
  }

  // ---- The first rules -----------------------------------------------------------------------

  /** A values path: short words and dots. */
  predicate Path(path: string) {
    path != "" && forall c :: c in path ==> c != '\n' && c != '@' && c != '-' && c != ':'
  }

  const PRINTF := "{{ printf \"%s:%s\" "

  lemma PrintfPairs()
    ensures NoPair(PRINTF, ':', ' ') && NoPair(PRINTF, 'e', ':')
    ensures |PRINTF| == 18 && PRINTF[0] == '{' && PRINTF[3] == 'p' && PRINTF[17] == ' '
    ensures '\n' !in PRINTF && '@' !in PRINTF && '-' !in PRINTF
  {
    var a, b := "{{ printf \"%s", ":%s\" ";
    assert PRINTF == a + b;
    NoPairAbsent(a, ':', ' ');
    NoPairAbsent(a, 'e', ':');
    assert NoPair(b, ':', ' ') && NoPair(b, 'e', ':');
    NoPairAppend(a, b, ':', ' ');
    NoPairAppend(a, b, 'e', ':');
  }

  const TAGGED := ".tag | default .Chart.AppVersion) }}"

  lemma TaggedPlain()
    ensures Path(TAGGED) && |TAGGED| == 36 && TAGGED[35] == '}'
  {
  }

  lemma RepositoryPlain()
    ensures Path(".repository (")
  {
  }

  lemma PathAppend(a: string, b: string)
    requires Path(a) && Path(b)
    ensures Path(a + b)
  {
  }

  lemma ImageActEarly(path: string)
    requires Path(path)
    ensures Early(ImageAct(path))
  {
    hide Path;
    TaggedPlain();
    RepositoryPlain();
    PathAppend(path, ".repository (");
    PathAppend(path + ".repository (", path);
    PathAppend(path + ".repository (" + path, TAGGED);
    PrintfThen(path + ".repository (" + path + TAGGED);
    assert ImageAct(path) == PRINTF + (path + ".repository (" + path + TAGGED);
  }

  lemma PrintfThen(rest: string)
    requires Path(rest) && rest[|rest| - 1] == '}'
    ensures Early(PRINTF + rest)
  {
    PrintfPairs();
    NoPairAbsent(rest, ':', ' ');
    NoPairAbsent(rest, 'e', ':');
    NoPairAppend(PRINTF, rest, ':', ' ');
    NoPairAppend(PRINTF, rest, 'e', ':');
  }

  lemma ImageReadable(name: string, path: string)
    requires Bare(name) && Path(path)
    ensures Readable(Image(name, path), Early, Early)
  {
    hide Repels, ImageAct, NoPair, Early;
    var k := "image: " + name + ":latest";
    assert Bare("image: ") && Bare(":latest") && k[5] == ':' && k[6] == ' ';
    forall a | Early(a) ensures Framed(a) && Repels(a, k) {
      EarlyIs(a);
      PairRepels(a, k, 5);
    }
    LitsLegible(k, Early);
    ImageActEarly(path);
    LitsAppend("image: ", name + ":latest");
    assert k == "image: " + (name + ":latest");
  }

  lemma EarlyIs(a: string)
    requires Early(a)
    ensures Framed(a) && Late(a) && NoPair(a, ':', ' ') && NoPair(a, 'e', ':') && '-' !in a && '@' !in a
  {
  }

  lemma ImagesReadable()
    ensures forall r :: r in ImageRules() ==> Readable(r, Early, Early)
  {
    hide Readable, Image, Early, Path, Bare;
    ImagePaths();
    ImageNamesBare();
    ImageReadable("controller", ".Values.controllerManager.image");
    ImageReadable("bff", ".Values.bff.image");
    ImageReadable("statelayer-proxy", ".Values.statelayerProxy.image");
    ImageReadable("token-service", ".Values.tokenService.image");
  }

  lemma ImagePaths()
    ensures Path(".Values.controllerManager.image") && Path(".Values.bff.image")
    ensures Path(".Values.statelayerProxy.image") && Path(".Values.tokenService.image")
  {
    hide Path;
    ManagerPath();
    ProxyPath();
    TokenPath();
  }

  lemma ManagerPath()
    ensures Path(".Values.controllerManager.image") && Path(".Values.bff.image")
  {
  }

  lemma ProxyPath()
    ensures Path(".Values.statelayerProxy.image")
  {
  }

  lemma TokenPath()
    ensures Path(".Values.tokenService.image")
  {
  }

  lemma ImageNamesBare()
    ensures Bare("controller") && Bare("bff") && Bare("statelayer-proxy") && Bare("token-service")
  {
  }

  lemma NamespaceEarly()
    ensures Early(NAMESPACE)
  {
    NoPairAbsent(NAMESPACE, ':', ' ');
    NoPairAbsent(NAMESPACE, 'e', ':');
  }

  lemma NamespaceReadable()
    ensures Readable(NamespaceKeys, Early, Early)
  {
    hide Repels, NoPair, Early;
    NamespaceEarly();
    assert KEY[8] == 'e' && KEY[9] == ':' && Bare(KEY);
    forall a | Early(a) ensures Opaque(a) {
      EarlyIs(a);
      assert OpensAt(a, 0);
      PairRepels(a, KEY, 8);
    }
  }

  /** A literal with a dash can be read off texts whose actions have none. */
  lemma DashLegible(k: string, m: nat)
    requires Bare(k) && m < |k| && k[m] == '-'
    ensures Legible(Lits(k), Early)
  {
    hide Repels, NoPair, Early;
    assert forall t :: 0 <= t < m ==> k[t] in k;
    forall a | Early(a) ensures Framed(a) && Repels(a, k) {
      EarlyIs(a);
      CharRepels(a, k, m);
    }
    LitsLegible(k, Early);
  }

  lemma ProxyReadable()
    ensures Readable(Swap(Lits(PROXY + "ctxmesh.svc"), Lits(PROXY) + [Act(NAMESPACE)] + Lits(".svc")), Early, Early)
  {
    hide Legible, Early;
    NamespaceEarly();
    assert Bare(PROXY) && Bare("ctxmesh.svc") && PROXY[7] == '-';
    DashLegible(PROXY + "ctxmesh.svc", 7);
    LitsAppend(PROXY, "ctxmesh.svc");
    assert "ctxmesh.svc" == "ctxmesh" + ".svc";
    LitsAppend("ctxmesh", ".svc");
  }

  lemma BackendStart()
    ensures Piece("{{ .Values.statelayer.") && Piece("externalAddr | default (printf")
  {
    hide Piece;
    PlainPiece("{{ .Values.statelayer.");
    PlainPiece("externalAddr | default (printf");
  }

  lemma BackendHost()
    ensures Piece(" \"ctxmesh-statelayer.%s.svc")
  {
    hide Piece;
    PlainPiece(" \"ctxmesh-statelayer.%s.svc");
  }

  lemma BackendPort()
    ensures Piece(":6379\" .Values.namespace) }}")
  {
    hide Piece;
    ColonPiece("6379\" .Values.namespace) }}");
    assert ":" + "6379\" .Values.namespace) }}" == ":6379\" .Values.namespace) }}";
  }

  lemma BackendAts()
    ensures '@' !in BACKEND_TEMPLATE
  {
  }

  lemma BackendMiddle()
    ensures Middle(BACKEND_TEMPLATE)
  {
    hide Piece;
    var a, b := "{{ .Values.statelayer.", "externalAddr | default (printf";
    var c, d := " \"ctxmesh-statelayer.%s.svc", ":6379\" .Values.namespace) }}";
    BackendStart();
    BackendHost();
    BackendPort();
    PieceAppend(a, b);
    PieceAppend(a + b, c);
    PieceAppend(a + b + c, d);
    BackendAts();
    assert |a| == 22 && a[0] == '{' && a[11] == 's' && |d| == 28 && d[27] == '}';
    PieceIs(BACKEND_TEMPLATE);
  }

  lemma BackendReadable()
    ensures Readable(Swap(Lits(BACKEND), [Act(BACKEND_TEMPLATE)]), Early, Middle)
  {
    hide Legible, Early, Middle, Bare;
    BackendMiddle();
    BackendBare();
    DashLegible(BACKEND, 7);
  }

  lemma BackendBare()
    ensures Bare(BACKEND) && |BACKEND| == 35 && BACKEND[7] == '-'
  {
  }

  lemma UserPiece()
    ensures Piece("postgres://ctxmesh:")
  {
    hide Piece;
    PlainPiece("postgres");
    ColonPiece("//ctxmesh");
    ColonPiece("");
    PieceAppend("postgres", ":" + "//ctxmesh");
    PieceAppend("postgres" + (":" + "//ctxmesh"), ":" + "");
    assert "postgres" + (":" + "//ctxmesh") + (":" + "") == "postgres://ctxmesh:";
  }

  lemma HostPieces()
    ensures Piece("ctxmesh-dev-secret") && Piece("@ctxmesh-postgres.")
  {
    hide Piece;
    PlainPiece("ctxmesh-dev-secret");
    PlainPiece("@ctxmesh-postgres.");
  }

  lemma DsnPiece()
    ensures Piece(DSN)
  {
    hide Piece;
    UserPiece();
    HostPieces();
    PieceAppend("postgres://ctxmesh:", "ctxmesh-dev-secret");
    PieceAppend("postgres://ctxmesh:" + "ctxmesh-dev-secret", "@ctxmesh-postgres.");
  }

  lemma PortPiece()
    ensures Piece(".svc:5432/ctxmesh")
  {
    hide Piece;
    PlainPiece(".svc");
    ColonPiece("5432/ctxmesh");
    PieceAppend(".svc", ":" + "5432/ctxmesh");
    assert ".svc" + (":" + "5432/ctxmesh") == ".svc:5432/ctxmesh";
  }

  lemma DsnTailPiece()
    ensures Piece(DSN_TAIL)
  {
    hide Piece;
    PortPiece();
    PlainPiece("?sslmode=disable");
    PieceAppend(".svc:5432/ctxmesh", "?sslmode=disable");
  }

  lemma ChoiceParts()
    ensures Piece("{{ if .Values.postgres.externalDsn }}") && Piece("{{ .Values.postgres.externalDsn | quote }}")
    ensures Piece("{{ else }}")
  {
    hide Piece;
    PlainPiece("{{ if .Values.postgres.externalDsn }}");
    PlainPiece("{{ else }}");
    QuotePart();
  }

  lemma QuotePart()
    ensures Piece("{{ .Values.postgres.externalDsn | quote }}")
  {
    hide Piece;
    PlainPiece("{{ .Values.postgres.externalDsn | quote }}");
  }

  lemma ChoicePieces()
    ensures Piece(DSN_CHOICE) && |DSN_CHOICE| >= 37 && DSN_CHOICE[0] == '{' && DSN_CHOICE[3] == 'i'
  {
    hide Piece;
    ChoiceParts();
    assert |"{{ if .Values.postgres.externalDsn }}"| == 37;
    PieceAppend("{{ if .Values.postgres.externalDsn }}", "{{ .Values.postgres.externalDsn | quote }}");
    PieceAppend("{{ if .Values.postgres.externalDsn }}" + "{{ .Values.postgres.externalDsn | quote }}", "{{ else }}");
  }

  lemma PrintfParts()
    ensures Piece("{{ printf \"") && Piece("%s") && Piece("\" .Values.namespace }}{{ end }}")
  {
    hide Piece;
    PlainPiece("{{ printf \"");
    PlainPiece("%s");
    PlainPiece("\" .Values.namespace }}{{ end }}");
  }

  lemma DsnLate()
    ensures Late(DSN_TEMPLATE)
  {
    hide Piece;
    var a, b, c, d, e, f := DSN_CHOICE, "{{ printf \"", DSN, "%s", DSN_TAIL, "\" .Values.namespace }}{{ end }}";
    ChoicePieces();
    DsnPiece();
    DsnTailPiece();
    PrintfParts();
    DsnEnds();
    PieceAppend(a, b);
    PieceAppend(a + b, c);
    PieceAppend(a + b + c, d);
    PieceAppend(a + b + c + d, e);
    PieceAppend(a + b + c + d + e, f);
    PieceIs(DSN_TEMPLATE);
  }

  lemma DsnEnds()
    ensures DSN != "" && DSN[0] == 'p' && DSN_TAIL != "" && DSN_TAIL[0] == '.'
    ensures |"\" .Values.namespace }}{{ end }}"| == 31 && "\" .Values.namespace }}{{ end }}"[30] == '}'
    ensures "\" .Values.namespace }}{{ end }}"[0] == '"'
  {
  }

  lemma DsnBare()
    ensures Bare(DSN + INSTALL + DSN_TAIL) && |DSN| > 37 && DSN[37] == '@'
  {
    hide Bare;
    DsnBarePieces();
    BareAppend(DSN, INSTALL);
    BareAppend(DSN + INSTALL, DSN_TAIL);
    assert |"postgres://ctxmesh:"| == 19 && |"ctxmesh-dev-secret"| == 18;
  }

  lemma BareAppend(a: string, b: string)
    requires Bare(a) && Bare(b)
    ensures Bare(a + b)
  {
  }

  lemma DsnBarePieces()
    ensures Bare(DSN) && Bare(INSTALL) && Bare(DSN_TAIL)
  {
    hide Bare;
    DsnHeadBare();
    DsnTailBare();
  }

  lemma DsnHeadBare()
    ensures Bare(DSN)
  {
  }

  lemma DsnTailBare()
    ensures Bare(INSTALL) && Bare(DSN_TAIL)
  {
  }

  lemma DsnReadable()
    ensures Readable(Swap(Lits(DSN + INSTALL + DSN_TAIL), [Act(DSN_TEMPLATE)]), Middle, Late)
  {
    hide Repels, NoPair, Late, Bare;
    var k := DSN + INSTALL + DSN_TAIL;
    DsnBare();
    DsnLate();
    BareIs(k);
    forall a | Middle(a) ensures Framed(a) && Repels(a, k) {
      LateIs(a);
      CharRepels(a, k, 37);
    }
    LitsLegible(k, Middle);
  }

  lemma BareIs(s: string)
    requires Bare(s)
    ensures '{' !in s && '}' !in s
  {
  }

  lemma ConnectFlat()
    ensures Flat(PROVIDER_CONNECT) && |PROVIDER_CONNECT| == 43
  {
  }

  lemma ConnectLate()
    ensures Late(CONNECT)
  {
    hide Flat, Piece;
    ConnectFlat();
    PlainPiece(PROVIDER_CONNECT);
    ActFramed(PROVIDER_CONNECT);
  }

  const MARKER := "control-plane: token-service"

  lemma MarkerLegible()
    ensures Legible(Lits(MARKER), Late)
  {
    hide Repels, NoPair, Late;
    assert MARKER[12] == 'e' && MARKER[13] == ':' && Bare(MARKER);
    forall a | Late(a) ensures Framed(a) && Repels(a, MARKER) {
      LateIs(a);
      PairRepels(a, MARKER, 12);
    }
    LitsLegible(MARKER, Late);
  }

  lemma RouteHost()
    ensures Piece("://ctxmesh-gateway.%s.svc") && Piece(":4000\"")
  {
    hide Piece;
    ColonPiece("//ctxmesh-gateway.%s.svc");
    ColonPiece("4000\"");
    assert ":" + "//ctxmesh-gateway.%s.svc" == "://ctxmesh-gateway.%s.svc" && ":" + "4000\"" == ":4000\"";
  }

  lemma RouteEnds()
    ensures Piece(" | default (printf") && Piece(" \"http") && Piece(" .Values.namespace)")
  {
    hide Piece;
    PlainPiece(" | default (printf");
    PlainPiece(" \"http");
    PlainPiece(" .Values.namespace)");
  }

  lemma RoutePiece()
    ensures Piece(ROUTE) && ROUTE[0] == ' '
  {
    hide Piece;
    var a, b, c, d, e := " | default (printf", " \"http", "://ctxmesh-gateway.%s.svc", ":4000\"", " .Values.namespace)";
    RouteHost();
    RouteEnds();
    PieceAppend(a, b);
    PieceAppend(a + b, c);
    PieceAppend(a + b + c, d);
    PieceAppend(a + b + c + d, e);
  }

  lemma GatewayLate(path: string)
    requires |path| >= 13 && Flat(path) && path[0] == '.' && (path[8] != 'b' || path[12] != 'p')
    ensures Late("{{ " + (path + ROUTE) + " }}")
  {
    hide Piece;
    RoutePiece();
    PlainPiece(path);
    PieceAppend(path, ROUTE);
    var expr := path + ROUTE;
    assert expr[0] == path[0] && expr[8] == path[8] && expr[12] == path[12];
    ActFramed(expr);
  }

  lemma GatewayReadable(path: string)
    requires |path| >= 13 && Flat(path) && path[0] == '.' && (path[8] != 'b' || path[12] != 'p')
    ensures Readable(Gateway(path), Late, Late)
  {
    hide Late, Readable, Env, Bare;
    ConnectBare();
    GatewayLate(path);
    forall a | Late(a) ensures Framed(a) {
      LateIs(a);
    }
    EnvReadable(Entry("MODEL_GATEWAY_URL", GATEWAY, path + ROUTE), Late, Late);
  }

  lemma ConnectBare()
    ensures Bare("MODEL_GATEWAY_URL") && Bare("PROVIDER_CONNECT_ENABLED") && Bare(GATEWAY) && Bare("\"true\"")
    ensures GATEWAY != "" && GATEWAY[|GATEWAY| - 1] == '0'
  {
  }

  lemma ConnectReadable()
    ensures Readable(ConnectRules()[0], Late, Late)
  {
    hide Late, Readable, Env, Bare;
    ConnectBare();
    ConnectLate();
    forall a | Late(a) ensures Framed(a) {
      LateIs(a);
    }
    EnvReadable(Entry("PROVIDER_CONNECT_ENABLED", "\"true\"", PROVIDER_CONNECT), Late, Late);
  }

  lemma RoutedFlat()
    ensures Flat(".Values.tokenService.modelGatewayURL") && Flat(".Values.bff.modelGatewayURL")
  {
  }

  lemma RoutedReadable()
    ensures Readable(ConnectRules()[1], Late, Late)
  {
    hide Late, Env, Legible, Gateway, Flat;
    RoutedFlat();
    MarkerLegible();
    GatewayReadable(".Values.tokenService.modelGatewayURL");
    GatewayReadable(".Values.bff.modelGatewayURL");
  }

  // ---- Tables of entries ---------------------------------------------------------------------

  ghost predicate AllReadable(entries: seq<Entry>, ok: string -> bool) {
    forall e :: e in entries ==> Readable(EnvOf(e), ok, ok)
  }

  /** The literals of the tables. */
  lemma LiteralsBare()
    ensures Bare("\"\"") && Bare("\"true\"") && Bare("\"false\"") && Bare(INSTALL) && Bare("\"1\"")
  {
  }

  lemma KnobEnds()
    ensures Piece(".Values.") && Piece(" | default \"\" | quote")
  {
    hide Piece;
    PlainPiece(".Values.");
    PlainPiece(" | default \"\" | quote");
  }

  lemma KnobPiece(name: string, path: string)
    requires |path| >= 11 && Flat(path)
    ensures var expr := Knob(name, path).expr;
            Piece(expr) && |expr| >= 13 && expr[0] == '.' && expr[8] == path[0] && expr[12] == path[4]
  {
    hide Piece;
    var expr := ".Values." + path + " | default \"\" | quote";
    assert expr[0] == '.' && expr[8] == path[0] && expr[12] == path[4];
    KnobEnds();
    PlainPiece(path);
    PieceAppend(".Values.", path);
    PieceAppend(".Values." + path, " | default \"\" | quote");
  }

  lemma KnobLate(name: string, path: string)
    requires |path| >= 11 && Flat(path) && (path[0] != 'b' || path[4] != 'p')
    ensures Late("{{ " + Knob(name, path).expr + " }}")
  {
    hide Piece, Knob;
    KnobPiece(name, path);
    ActFramed(Knob(name, path).expr);
  }

  lemma KnobReadable(name: string, path: string)
    requires Bare(name) && |path| >= 11 && Flat(path) && (path[0] != 'b' || path[4] != 'p')
    ensures Readable(EnvOf(Knob(name, path)), Late, Late)
  {
    hide Readable, EnvOf, Bare, Late;
    LiteralsBare();
    KnobLate(name, path);
    forall a | Late(a) ensures Framed(a) {
      LateIs(a);
    }
    EnvReadable(Knob(name, path), Late, Late);
  }

  lemma LateIs(a: string)
    requires Late(a)
    ensures Framed(a) && Closed(a) && NoPair(a, 'e', ':')
  {
  }

  lemma ManagerFlat()
    ensures Flat("controllerManager.") && Flat("egress.responseHeaderTimeout") && Flat("egress.streamIdleTimeout")
    ensures Flat("knowledgeSettleWindow")
  {
  }

  lemma DurabilityFlat()
    ensures Flat("controllerManager." + "egress.responseHeaderTimeout") && Flat("controllerManager." + "egress.streamIdleTimeout")
    ensures Flat("knowledgeSettleWindow")
  {
    hide Flat;
    ManagerFlat();
    FlatAppend("controllerManager.", "egress.responseHeaderTimeout");
    FlatAppend("controllerManager.", "egress.streamIdleTimeout");
  }

  lemma DurabilityReadable()
    ensures AllReadable(DurabilityKnobs(), Late)
  {
    hide Readable, EnvOf, Knob, Bare, Flat;
    DurabilityFlat();
    DurabilityBare();
    KnobReadable("EGRESS_RESPONSE_HEADER_TIMEOUT", "controllerManager." + "egress.responseHeaderTimeout");
    KnobReadable("EGRESS_STREAM_IDLE_TIMEOUT", "controllerManager." + "egress.streamIdleTimeout");
    KnobReadable("KNOWLEDGE_SETTLE_WINDOW", "knowledgeSettleWindow");
  }

  lemma DurabilityBare()
    ensures Bare("EGRESS_RESPONSE_HEADER_TIMEOUT") && Bare("EGRESS_STREAM_IDLE_TIMEOUT") && Bare("KNOWLEDGE_SETTLE_WINDOW")
  {
    hide Bare;
    HeaderBare();
    SettleBare();
  }

  lemma HeaderBare()
    ensures Bare("EGRESS_RESPONSE_HEADER_TIMEOUT")
  {
  }

  lemma SettleBare()
    ensures Bare("EGRESS_STREAM_IDLE_TIMEOUT") && Bare("KNOWLEDGE_SETTLE_WINDOW")
  {
  }

  lemma ModelFlat()
    ensures Flat("bff.managedAgentImage") && Flat("bff.ingestOcrURL") && Flat("bff.knowledgeRerankURL")
    ensures Flat("bff.discoveryEmbeddingRoute") && Flat("bff.discoveryRerankURL")
  {
  }

  lemma ModelReadable()
    ensures AllReadable(ModelKnobs(), Late)
  {
    hide Readable, EnvOf, Knob, Bare, Flat;
    ModelFlat();
    ModelBare();
    KnobReadable("MANAGED_AGENT_IMAGE", "bff.managedAgentImage");
    KnobReadable("INGEST_OCR_URL", "bff.ingestOcrURL");
    KnobReadable("KNOWLEDGE_RERANK_URL", "bff.knowledgeRerankURL");
    KnobReadable("DISCOVERY_EMBEDDING_ROUTE", "bff.discoveryEmbeddingRoute");
    KnobReadable("DISCOVERY_RERANK_URL", "bff.discoveryRerankURL");
  }

  lemma ModelBare()
    ensures Bare("MANAGED_AGENT_IMAGE") && Bare("INGEST_OCR_URL") && Bare("KNOWLEDGE_RERANK_URL")
    ensures Bare("DISCOVERY_EMBEDDING_ROUTE") && Bare("DISCOVERY_RERANK_URL")
  {
  }

  lemma RunFlat()
    ensures Flat("bff.runExecTimeout") && Flat("bff.runExecMaxTimeout") && Flat("bff.asyncBackend")
    ensures Flat("bff.natsURL") && Flat("bff.natsCredentialsFile") && Flat("bff.mcp.grantHmacKey")
  {
  }

  lemma RunReadable()
    ensures AllReadable(RunKnobs(), Late)
  {
    hide Readable, EnvOf, Knob, Bare, Flat;
    RunFlat();
    RunBare();
    KnobReadable("RUN_EXEC_TIMEOUT", "bff.runExecTimeout");
    KnobReadable("RUN_EXEC_MAX_TIMEOUT", "bff.runExecMaxTimeout");
    KnobReadable("ASYNC_BACKEND", "bff.asyncBackend");
    KnobReadable("NATS_URL", "bff.natsURL");
    KnobReadable("NATS_CREDENTIALS_FILE", "bff.natsCredentialsFile");
    KnobReadable("MCP_GRANT_HMAC_KEY", "bff.mcp.grantHmacKey");
  }

  lemma RunBare()
    ensures Bare("RUN_EXEC_TIMEOUT") && Bare("RUN_EXEC_MAX_TIMEOUT") && Bare("ASYNC_BACKEND")
    ensures Bare("NATS_URL") && Bare("NATS_CREDENTIALS_FILE") && Bare("MCP_GRANT_HMAC_KEY")
  {
  }

  // ---- The rule that rewrites a rewritten block ----------------------------------------------

  lemma ConnectSeparable(head: string)
    requires Bare(head)
    ensures Separable(Lits(head) + [Act(CONNECT)], Late)
  {
    hide Late, Differs, Bare;
    ConnectPrefix();
    BareIs(head);
    var p := Lits(head) + [Act(CONNECT)];
    forall a, i: nat | Late(a) && i < |p| ensures Parted(a, p, i) {
      LateIs(a);
      if i < |head| {
        assert p[i..] == [Ch(head[i])] + p[i + 1..];
        SourceCons(Ch(head[i]), p[i + 1..]);
        FirstDiffers(a, Source(p[i..]));
      } else {
        assert p[i] == Act(CONNECT);
        if a != CONNECT {
          UnlikeDiffers(a);
        }
      }
    }
  }

  lemma FirstDiffers(a: string, b: string)
    requires a != "" && b != "" && a[0] != b[0]
    ensures Differs(a, b)
  {
    assert a[0 + 0] != b[0];
  }

  lemma RunStoreReadable()
    ensures Readable(RunStoreRule(), Late, Last)
  {
    hide Repels, EnvHead, Late, Separable, Bare;
    var name := "PROVIDER_CONNECT_ENABLED";
    var head := EnvHead(name);
    ConnectBare();
    HeadBare(name);
    ConnectSeparable(head);
    HeadSource(head);
    HeadFirst(name);
    forall a | Late(a) ensures Repels(a, Source(Lits(head) + [Act(CONNECT)])) {
      LateIs(a);
      EntryRepels(a, name, CONNECT);
    }
    ConnectLate();
    LateIs(CONNECT);
  }

  lemma HeadFirst(name: string)
    ensures EnvHead(name) != ""
  {
  }

  lemma HeadSource(head: string)
    ensures Source(Lits(head) + [Act(CONNECT)]) == head + CONNECT
  {
    RenderAppend(Raw, Lits(head), [Act(CONNECT)]);
    SourceLits(head);
    SourceOne(CONNECT);
  }

  // ---- The rules after it --------------------------------------------------------------------

  const WORKER := "RUN_WORKER_DISPATCH"

  /** Words with a blank before each. */
  lemma LitsWord(a: string, word: string)
    ensures Lits(a + (" " + word)) == Lits(a) + ([BLANK] + Lits(word))
  {
    LitsAppend(a, " " + word);
    LitsAppend(" ", word);
    assert Lits(" ") == [BLANK];
  }

  lemma OpenParts()
    ensures Lits(RUN_STORE_OPEN)
         == Lits("\n{{-") + ([BLANK] + Lits("if")) + ([BLANK] + Lits(".Values.bff.runStore.enabled")) + ([BLANK] + Lits("}}\n"))
  {
    hide Lits;
    var a, b, c := "\n{{-" + (" " + "if"), " " + ".Values.bff.runStore.enabled", " " + "}}\n";
    assert a == "\n{{- if" && b == " .Values.bff.runStore.enabled" && c == " }}\n";
    LitsWord("\n{{-", "if");
    LitsWord(a, ".Values.bff.runStore.enabled");
    LitsWord(a + b, "}}\n");
  }

  lemma CloseParts()
    ensures Lits("\n{{- end }}") == Lits("\n{{-") + ([BLANK] + Lits("end")) + ([BLANK] + Lits("}}"))
  {
    hide Lits;
    assert "\n{{- end }}" == "\n{{-" + (" " + "end") + (" " + "}}");
    LitsWord("\n{{-", "end");
    LitsWord("\n{{-" + (" " + "end"), "}}");
  }

  lemma WorkerParts()
    ensures Lits(RUN_STORE)
         == Lits("\n{{-") + ([BLANK] + Lits("if")) + ([BLANK] + Lits(".Values.bff.runStore.enabled")) + ([BLANK] + Lits("}}\n"))
          + (Lits(EnvHead(WORKER)) + Lits("\"true\"" + "\n{{-")) + ([BLANK] + Lits("end")) + ([BLANK] + Lits("}}"))
  {
    hide EnvHead, Lits;
    var open, close := RUN_STORE_OPEN, "\n{{- end }}";
    OpenParts();
    CloseParts();
    LitsAppend(open + EnvHead(WORKER) + "\"true\"", close);
    LitsAppend(open + EnvHead(WORKER), "\"true\"");
    LitsAppend(open, EnvHead(WORKER));
    LitsAppend("\"true\"", "\n{{-");
    var a, e, t := Lits(open), Lits(EnvHead(WORKER)), Lits("\"true\"");
    var f, g, h := Lits("\n{{-"), [BLANK] + Lits("end"), [BLANK] + Lits("}}");
    assert a + e + t + (f + g + h) == a + (e + (t + f)) + g + h;
  }

  lemma LitsRepels(a: string, b: string)
    requires Repels(Lits(a), Lits(b))
    ensures Repels(a, b)
  {
    forall j: nat | j < |a| ensures Clash(a, j, b) {
      assert Clash(Lits(a), j, Lits(b));
      var k: nat :| k < |b| && j + k < |a| && Lits(a)[j + k] != Lits(b)[k];
    }
  }

  /** A variable's name: capitals and underscores. */
  predicate Caps(name: string) {
    name != "" && forall c :: c in name ==> 'A' <= c <= 'Z' || c == '_'
  }

  /** A variable's name that does not begin like the injected one. */
  predicate Named(name: string) {
    Caps(name) && name[0] != 'R'
  }

  lemma WorkerTail()
    ensures ' ' !in WORKER && WORKER[0] == 'R' && BLANK !in Lits("\"true\"" + "\n{{-") && Lits("\"true\"" + "\n{{-") != []
  {
    LitsAbsent("\"true\"" + "\n{{-", ' ');
  }

  lemma WorkerEntryRepels(name: string, tail: Doc)
    requires Named(name) && tail != [] && BLANK !in tail
    ensures Repels(Lits(EnvHead(WORKER)) + Lits("\"true\"" + "\n{{-"), Lits(EnvHead(name)) + tail)
  {
    hide Repels, EnvHead, Lits, Behind;
    var w, p := Lits(EnvHead(WORKER)) + Lits("\"true\"" + "\n{{-"), Lits(EnvHead(name)) + tail;
    CapsBare(name);
    WorkerTail();
    EnvParts(name, tail);
    EnvRepels(WORKER, Lits("\"true\"" + "\n{{-"));
    RepelsLonger(w[1..], Front(), Behind(name, tail));
    NameAt(WORKER, Lits("\"true\"" + "\n{{-"), 0);
    NameAt(name, tail, 0);
    assert w[0 + 16] != p[16];
    assert Clash(w, 0, p);
    RepelsFrom(w, p);
  }

  lemma FrontPieces()
    ensures Repels(Lits("\n{{-") + ([BLANK] + Lits("if")) + ([BLANK] + Lits(".Values.bff.runStore.enabled")) + ([BLANK] + Lits("}}\n")), Front())
    ensures Repels([BLANK] + Lits("end"), Front()) && Repels([BLANK] + Lits("}}"), Front())
  {
    hide Repels;
    LitsAbsent("\n{{-", ' ');
    LitsAbsent("if", ' ');
    LitsAbsent(".Values.bff.runStore.enabled", ' ');
    LitsAbsent("}}\n", ' ');
    LitsAbsent("end", ' ');
    LitsAbsent("}}", ' ');
    RepelsAbsent(Lits("\n{{-"), Front());
    BlankRepels(Lits("if"));
    BlankRepels(Lits(".Values.bff.runStore.enabled"));
    BlankRepels(Lits("}}\n"));
    BlankRepels(Lits("end"));
    BlankRepels(Lits("}}"));
    RepelsAppend(Lits("\n{{-"), [BLANK] + Lits("if"), Front());
    RepelsAppend(Lits("\n{{-") + ([BLANK] + Lits("if")), [BLANK] + Lits(".Values.bff.runStore.enabled"), Front());
    RepelsAppend(Lits("\n{{-") + ([BLANK] + Lits("if")) + ([BLANK] + Lits(".Values.bff.runStore.enabled")), [BLANK] + Lits("}}\n"), Front());
  }

  /** No other entry begins in the injected block. */
  lemma WorkerRepels(name: string, literal: string)
    requires Named(name) && literal != "" && ' ' !in literal
    ensures Repels(RUN_STORE, EnvHead(name) + literal)
  {
    hide Repels, EnvHead, Behind, Named, Front;
    var tail := Lits(literal);
    LitsAbsent(literal, ' ');
    var p := Lits(EnvHead(name)) + tail;
    EnvParts(name, tail);
    WorkerParts();
    FrontPieces();
    var a := Lits("\n{{-") + ([BLANK] + Lits("if")) + ([BLANK] + Lits(".Values.bff.runStore.enabled")) + ([BLANK] + Lits("}}\n"));
    var w := Lits(EnvHead(WORKER)) + Lits("\"true\"" + "\n{{-");
    RepelsLonger(a, Front(), Behind(name, tail));
    RepelsLonger([BLANK] + Lits("end"), Front(), Behind(name, tail));
    RepelsLonger([BLANK] + Lits("}}"), Front(), Behind(name, tail));
    WorkerEntryRepels(name, tail);
    RepelsAppend(a, w, p);
    RepelsAppend(a + w, [BLANK] + Lits("end"), p);
    RepelsAppend(a + w + ([BLANK] + Lits("end")), [BLANK] + Lits("}}"), p);
    LitsAppend(EnvHead(name), literal);
    LitsRepels(RUN_STORE, EnvHead(name) + literal);
  }

  /** Nor in the template that holds it. */
  lemma WorkerActRepels(name: string, literal: string)
    requires Named(name) && literal != "" && ' ' !in literal
    ensures Repels(WORKER_ACT, EnvHead(name) + literal)
  {
    hide Repels, EnvHead, Named, Framed;
    CapsBare(name);
    WorkerRepels(name, literal);
    ConnectLate();
    LateIs(CONNECT);
    EntryRepels(CONNECT, name, literal);
    RepelsAppend(CONNECT, RUN_STORE, EnvHead(name) + literal);
  }

  lemma WorkerClosed()
    ensures Closed(WORKER_ACT)
  {
    hide EnvHead;
    ConnectPrefix();
    assert "\n{{- end }}"[10] == '}' && |"\n{{- end }}"| == 11;
  }

  lemma LastClosed(a: string)
    requires Last(a)
    ensures Closed(a)
  {
    hide Piece;
    WorkerClosed();
  }

  lemma LastLegible(e: Entry)
    requires Readies(e) && Named(e.name) && ' ' !in e.literal
    ensures Legible(Lits(EnvHead(e.name) + e.literal), Last)
  {
    hide EnvHead, Repels, Named, Framed, Closed;
    var k := EnvHead(e.name) + e.literal;
    HeadBare(e.name);
    forall a | Last(a) ensures Closed(a) && Repels(a, k) {
      LastClosed(a);
      if a == WORKER_ACT {
        WorkerActRepels(e.name, e.literal);
      } else {
        EntryRepels(a, e.name, e.literal);
      }
    }
    LitsLegible(k, Last);
  }

  lemma LastReadable(e: Entry)
    requires Named(e.name) && Plain(e.literal) && Framed("{{ " + e.expr + " }}")
    ensures Readable(EnvOf(e), Last, Last)
  {
    hide EnvHead, Legible, Drawn, Framed, Named, Plain;
    CapsBare(e.name);
    PlainReadies(e);
    LastLegible(e);
    EnvDrawn(e, Last);
  }

  lemma CapsBare(name: string)
    ensures Caps(name) ==> Bare(name) && ' ' !in name
    ensures Named(name) ==> Caps(name)
  {
  }

  lemma PlainReadies(e: Entry)
    requires Plain(e.literal) && Bare(e.name)
    ensures Readies(e) && ' ' !in e.literal
  {
    assert e.literal[|e.literal| - 1] in e.literal;
  }

  ghost predicate Ready(entries: seq<Entry>) {
    forall e :: e in entries ==> Named(e.name) && Plain(e.literal) && Framed("{{ " + e.expr + " }}")
  }

  lemma ReadyReadable(entries: seq<Entry>)
    requires Ready(entries)
    ensures AllReadable(entries, Last)
  {
    hide Framed, Readable, EnvOf, Named, Plain;
    forall e | e in entries ensures Readable(EnvOf(e), Last, Last) {
      LastReadable(e);
    }
  }

  lemma ModelNames()
    ensures Named("PLATFORM_GENERATION_MODELS") && Named("MCP_ENABLED") && Named("MCP_REQUIRE_APPROVAL")
  {
  }

  lemma McpNames()
    ensures Named("CONSOLE_URL") && Named("MCP_CREDENTIAL_NAMESPACE") && Named("TOKEN_SERVICE_TLS_REQUIRED")
  {
  }

  lemma OidcNames()
    ensures Named("OIDC_ENABLED") && Named("OIDC_ISSUER") && Named("OIDC_CLIENT_ID") && Named("COLLECTOR_IMAGE")
  {
  }

  lemma ImageVariableNames()
    ensures Named("DISCOVERY_IMAGE") && Named("MCP_OBO_EGRESS_ENABLED") && Named("EGRESS_SIDECAR_IMAGE")
  {
  }

  lemma CapabilityNames()
    ensures Named("MCP_CAPABILITY_AUDIENCE") && Named("TOKEN_SERVICE_URL") && Named("COST_ROLLUP_ENABLED")
  {
  }

  lemma PlaneNames()
    ensures Named("MCP_OBO_REQUIRED") && Named("DEV_DATA_PLANE") && Named("ENABLE_TENANT_LABEL_WEBHOOK")
  {
  }

  /** A literal as the tables have them. */
  predicate Plain(literal: string) {
    literal != "" && forall c :: c in literal ==> c != '{' && c != '}' && c != ' ' && c != '\n'
  }

  lemma PlainLiterals()
    ensures Plain("\"\"") && Plain("\"true\"") && Plain("\"false\"") && Plain("\"1\"") && Plain(INSTALL)
  {
  }

  lemma PlainUrls()
    ensures Plain(TOKEN_URL) && Plain(SIDECAR)
  {
    hide Plain;
    PlainToken();
    PlainSidecar();
  }

  lemma PlainToken()
    ensures Plain(TOKEN_URL)
  {
  }

  lemma PlainSidecar()
    ensures Plain(SIDECAR)
  {
  }

  lemma KnobFramed(name: string, path: string)
    requires |path| >= 11 && Flat(path)
    ensures Framed("{{ " + Knob(name, path).expr + " }}")
  {
    hide Piece, Knob;
    KnobPiece(name, path);
    ActFramed(Knob(name, path).expr);
  }

  lemma FlatFramed(expr: string)
    requires |expr| >= 13 && Flat(expr)
    ensures Framed("{{ " + expr + " }}")
  {
    hide Piece;
    PlainPiece(expr);
    ActFramed(expr);
  }

  lemma McpFlat()
    ensures Flat(".Values.bff.mcp.enabled | quote") && Flat(".Values.bff.mcp.requireApproval | quote")
  {
  }

  lemma McpFramed()
    ensures Framed("{{ " + ".Values.bff.mcp.enabled | quote" + " }}")
    ensures Framed("{{ " + ".Values.bff.mcp.requireApproval | quote" + " }}")
  {
    hide Framed, Flat;
    McpFlat();
    FlatFramed(".Values.bff.mcp.enabled | quote");
    FlatFramed(".Values.bff.mcp.requireApproval | quote");
  }

  lemma ServiceFlat()
    ensures Flat(".Values.tokenService.tls.required | quote")
  {
  }

  lemma ServiceFramed()
    ensures Framed("{{ " + GENERATION + " }}") && Framed("{{ " + ".Values.tokenService.tls.required | quote" + " }}")
  {
    hide Framed, Flat;
    ServiceFlat();
    GenerationFramed();
    FlatFramed(".Values.tokenService.tls.required | quote");
  }

  lemma GenerationFlat()
    ensures Flat(GENERATION)
  {
  }

  lemma GenerationFramed()
    ensures Framed("{{ " + GENERATION + " }}")
  {
    hide Framed, Flat;
    GenerationFlat();
    FlatFramed(GENERATION);
  }

  lemma CredentialParts()
    ensures Flat(".Values.bff.mcp.credentialNamespace") && Flat(" | default .Values.namespace")
  {
  }

  lemma LabelParts()
    ensures Flat("ternary \"true\" \"false\"") && Flat(" .Values.security.") && Flat("tenantLabelWebhook.enabled | quote")
  {
  }

  lemma CredentialFlat()
    ensures Flat(CREDENTIAL) && Flat(TENANT_LABEL)
  {
    hide Flat;
    CredentialParts();
    LabelParts();
    FlatAppend(".Values.bff.mcp.credentialNamespace", " | default .Values.namespace");
    FlatAppend("ternary \"true\" \"false\"", " .Values.security.");
    FlatAppend("ternary \"true\" \"false\"" + " .Values.security.", "tenantLabelWebhook.enabled | quote");
  }

  lemma CredentialFramed()
    ensures Framed("{{ " + CREDENTIAL + " }}") && Framed("{{ " + TENANT_LABEL + " }}")
  {
    hide Framed, Flat;
    CredentialFlat();
    FlatFramed(CREDENTIAL);
    FlatFramed(TENANT_LABEL);
  }

  lemma OboFlat()
    ensures Flat(OBO) && Flat(".Values.auth.oidc.enabled | quote")
  {
  }

  lemma OboFramed()
    ensures Framed("{{ " + OBO + " }}") && Framed("{{ " + ".Values.auth.oidc.enabled | quote" + " }}")
  {
    hide Framed, Flat;
    OboFlat();
    FlatFramed(OBO);
    FlatFramed(".Values.auth.oidc.enabled | quote");
  }

  lemma CostFlat()
    ensures Flat(".Values.bff.costRollupEnabled | quote") && Flat(".Values.devDataPlane.enabled | quote")
  {
  }

  lemma CostFramed()
    ensures Framed("{{ " + ".Values.bff.costRollupEnabled | quote" + " }}")
    ensures Framed("{{ " + ".Values.devDataPlane.enabled | quote" + " }}")
  {
    hide Framed, Flat;
    CostFlat();
    FlatFramed(".Values.bff.costRollupEnabled | quote");
    FlatFramed(".Values.devDataPlane.enabled | quote");
  }

  lemma TokenStartFlat()
    ensures Flat(".Values.controllerManager.") && Flat("oboEgress.tokenServiceURL") && Flat(" | default (printf")
  {
  }

  lemma TokenStart()
    ensures Piece(".Values.controllerManager.") && Piece("oboEgress.tokenServiceURL") && Piece(" | default (printf")
  {
    hide Piece, Flat;
    TokenStartFlat();
    PlainPiece(".Values.controllerManager.");
    PlainPiece("oboEgress.tokenServiceURL");
    PlainPiece(" | default (printf");
  }

  lemma TokenHostFlat()
    ensures Flat(" \"%s") && Flat("//ctxmesh-token-") && Flat("service.%s.svc") && Flat("8443\"")
  {
  }

  lemma TokenHost()
    ensures Piece(" \"%s") && Piece("://ctxmesh-token-") && Piece("service.%s.svc") && Piece(":8443\"")
  {
    hide Piece, Flat;
    TokenHostFlat();
    PlainPiece(" \"%s");
    ColonPiece("//ctxmesh-token-");
    PlainPiece("service.%s.svc");
    ColonPiece("8443\"");
    assert ":" + "//ctxmesh-token-" == "://ctxmesh-token-" && ":" + "8443\"" == ":8443\"";
  }

  lemma TokenFlat()
    ensures Flat(" (ternary \"https\" \"http\"") && Flat(" .Values.tokenService.tls.required)") && Flat(" .Values.namespace)")
  {
  }

  lemma TokenEnd()
    ensures Piece(" (ternary \"https\" \"http\"") && Piece(" .Values.tokenService.tls.required)") && Piece(" .Values.namespace)")
  {
    hide Piece, Flat;
    TokenFlat();
    PlainPiece(" (ternary \"https\" \"http\"");
    PlainPiece(" .Values.tokenService.tls.required)");
    PlainPiece(" .Values.namespace)");
  }

  const TOKEN_START := ".Values.controllerManager." + "oboEgress.tokenServiceURL" + " | default (printf"
  const TOKEN_HOST := TOKEN_START + " \"%s" + "://ctxmesh-token-" + "service.%s.svc" + ":8443\""

  lemma TokenStarts()
    ensures Piece(TOKEN_START) && |TOKEN_START| >= 26
  {
    hide Piece;
    TokenStart();
    PieceAppend(".Values.controllerManager.", "oboEgress.tokenServiceURL");
    PieceAppend(".Values.controllerManager." + "oboEgress.tokenServiceURL", " | default (printf");
    assert |".Values.controllerManager."| == 26;
  }

  lemma TokenHosts()
    ensures Piece(TOKEN_HOST)
  {
    hide Piece;
    var s, a, b, c, d := TOKEN_START, " \"%s", "://ctxmesh-token-", "service.%s.svc", ":8443\"";
    TokenStarts();
    TokenHost();
    PieceAppend(s, a);
    PieceAppend(s + a, b);
    PieceAppend(s + a + b, c);
    PieceAppend(s + a + b + c, d);
  }

  lemma TokenFramed()
    ensures Framed("{{ " + TOKEN_EXPR + " }}")
  {
    hide Framed, Piece;
    var h, a, b, c := TOKEN_HOST, " (ternary \"https\" \"http\"", " .Values.tokenService.tls.required)", " .Values.namespace)";
    TokenStarts();
    TokenHosts();
    TokenEnd();
    PieceAppend(h, a);
    PieceAppend(h + a, b);
    PieceAppend(h + a + b, c);
    assert TOKEN_EXPR == h + a + b + c;
    ActFramed(TOKEN_EXPR);
  }

  lemma FlatAppend(a: string, b: string)
    requires Flat(a) && Flat(b)
    ensures Flat(a + b)
  {
  }

  lemma OidcEnds()
    ensures Flat("if .Values.auth.oidc.enabled }}") && Flat("{{ .Values.auth.oidc.") && Flat(" | quote }}{{ else }}\"\"{{ end")
  {
  }

  lemma OidcFramed(path: string)
    requires Flat(path)
    ensures Framed("{{ " + OidcValue(path) + " }}")
  {
    hide Flat;
    var a, b, c := "if .Values.auth.oidc.enabled }}", "{{ .Values.auth.oidc.", " | quote }}{{ else }}\"\"{{ end";
    OidcEnds();
    FlatAppend(a, b);
    FlatAppend(a + b, path);
    FlatAppend(a + b + path, c);
    FlatFramed(OidcValue(path));
  }

  lemma InjectedEnds()
    ensures Flat("include \"ctxmesh.injectedImage\"") && Flat(" (dict \"ref\" .Values.controllerManager.")
    ensures Flat(" \"ctx\" $) | quote")
  {
  }

  lemma InjectedFramed(path: string)
    requires Flat(path)
    ensures Framed("{{ " + Injected(path) + " }}")
  {
    hide Flat;
    var a, b, c := "include \"ctxmesh.injectedImage\"", " (dict \"ref\" .Values.controllerManager.", " \"ctx\" $) | quote";
    InjectedEnds();
    FlatAppend(a, b);
    FlatAppend(a + b, path);
    FlatAppend(a + b + path, c);
    FlatFramed(Injected(path));
  }

  lemma ReadyAppend(a: seq<Entry>, b: seq<Entry>)
    requires Ready(a) && Ready(b)
    ensures Ready(a + b)
  {
    hide Named, Plain, Framed;
  }

  lemma McpReady()
    ensures Ready(McpSwitches())
  {
    hide Ready, Knob;
    var m := McpSwitches();
    McpFirst();
    McpSecond();
    ReadyAppend(m[..3], m[3..]);
    assert m == m[..3] + m[3..];
  }

  lemma McpFirst()
    ensures Ready(McpSwitches()[..3])
  {
    hide Named, Plain, Framed, Knob;
    ModelNames();
    PlainLiterals();
    McpFramed();
    ServiceFramed();
  }

  lemma McpSecond()
    ensures Ready(McpSwitches()[3..])
  {
    hide Named, Plain, Framed, Knob;
    McpNames();
    PlainLiterals();
    ServiceFramed();
    CredentialFramed();
    KnobFramed("CONSOLE_URL", "bff.consoleURL");
    KnobIs("CONSOLE_URL", "bff.consoleURL");
  }

  lemma KnobIs(name: string, path: string)
    ensures Knob(name, path).name == name && Knob(name, path).literal == "\"\""
  {
  }

  lemma AuthReady()
    ensures Ready(AuthSwitches())
  {
    hide Named, Plain, Framed, OidcValue, Injected;
    OidcNames();
    ImageVariableNames();
    PlainLiterals();
    OboFramed();
    OidcFramed("issuer");
    OidcFramed("client.id");
    InjectedFramed("injectedImages.collector");
    InjectedFramed("injectedImages.discovery");
  }

  lemma EgressReadable()
    ensures Readable(EgressRule(), Last, Last)
  {
    hide Named, Plain, Framed, Injected, Readable;
    ImageVariableNames();
    PlainUrls();
    InjectedFramed("oboEgress.sidecarImage");
    LastReadable(Entry("EGRESS_SIDECAR_IMAGE", SIDECAR, Injected("oboEgress.sidecarImage")));
  }

  lemma LastReady()
    ensures Ready(LastEntries())
  {
    hide Named, Plain, Framed, Knob;
    CapabilityNames();
    PlaneNames();
    PlainLiterals();
    PlainUrls();
    OboFramed();
    CostFramed();
    CredentialFramed();
    TokenFramed();
    KnobFramed("MCP_CAPABILITY_AUDIENCE", "controllerManager." + "oboEgress.capabilityAudience");
    KnobIs("MCP_CAPABILITY_AUDIENCE", "controllerManager." + "oboEgress.capabilityAudience");
  }

  // ---- The whole chain -----------------------------------------------------------------------

  lemma EnvsReadable(entries: seq<Entry>, ok: string -> bool)
    requires AllReadable(entries, ok)
    ensures forall r :: r in Map(EnvOf, entries) ==> Readable(r, ok, ok)
  {
    hide Readable, EnvOf;
    forall r | r in Map(EnvOf, entries) ensures Readable(r, ok, ok) {
      var i :| 0 <= i < |entries| && Map(EnvOf, entries)[i] == r;
      assert entries[i] in entries;
    }
  }

  lemma Weakenings()
    ensures forall a :: Early(a) ==> Middle(a)
    ensures forall a :: Middle(a) ==> Late(a)
    ensures forall a :: Late(a) ==> Last(a)
  {
  }

  lemma OneRule(r: Rule, d: Doc)
    ensures RewriteAll([r], d) == Rewrite(r, d)
  {
    hide Rewrite;
    assert [r][..0] == [];
    assert RewriteAll([], d) == d;
  }

  lemma OneText(r: Rule, s: string)
    ensures TextAll([r], s) == TextRewrite(r, s)
  {
    hide TextRewrite;
    assert [r][..0] == [];
    assert TextAll([], s) == s;
  }

  /** A rule that changes the property of actions, between chains that keep it. */
  lemma RuleAgree(r: Rule, d: Doc, ok: string -> bool, adds: string -> bool)
    requires Clean(d, ok) && Readable(r, ok, adds) && forall a :: ok(a) ==> adds(a)
    ensures Source(RewriteAll([r], d)) == TextAll([r], Source(d)) && Clean(RewriteAll([r], d), adds)
  {
    hide Clean, Readable, Source, Rewrite, TextRewrite, RewriteAll, TextAll;
    RewriteAgree(r, d, ok, adds);
    OneRule(r, d);
    OneText(r, Source(d));
  }

  /** Two chains one after the other. */
  lemma Compose(a: seq<Rule>, b: seq<Rule>, d: Doc, ok: string -> bool)
    requires Source(RewriteAll(a, d)) == TextAll(a, Source(d))
    requires var e := RewriteAll(a, d); Source(RewriteAll(b, e)) == TextAll(b, Source(e)) && Clean(RewriteAll(b, e), ok)
    ensures Source(RewriteAll(a + b, d)) == TextAll(a + b, Source(d)) && Clean(RewriteAll(a + b, d), ok)
  {
    hide Clean, Source, RewriteAll, TextAll;
    RewriteAllAppend(a, b, d);
    TextAllAppend(a, b, Source(d));
  }

  lemma AddressSplit()
    ensures AddressRules() == [NamespaceKeys, AddressRules()[1]] + [AddressRules()[2]] + [AddressRules()[3]]
  {
  }

  lemma EarlyAgree(d: Doc)
    requires Clean(d, Early)
    ensures var rules := ImageRules() + AddressRules();
            Source(RewriteAll(rules, d)) == TextAll(rules, Source(d)) && Clean(RewriteAll(rules, d), Late)
  {
    hide Clean, Readable, Source, RewriteAll, TextAll, Early, Middle, Late, ImageRules;
    var a, b, c := ImageRules() + [NamespaceKeys, AddressRules()[1]], [AddressRules()[2]], [AddressRules()[3]];
    Weakenings();
    ImagesReadable();
    NamespaceReadable();
    ProxyReadable();
    BackendReadable();
    DsnReadable();
    ChainAgree(a, d, Early);
    RuleAgree(AddressRules()[2], RewriteAll(a, d), Early, Middle);
    Compose(a, b, d, Middle);
    RuleAgree(AddressRules()[3], RewriteAll(a + b, d), Middle, Late);
    Compose(a + b, c, d, Late);
    AddressSplit();
    assert a + b + c == ImageRules() + AddressRules();
  }

  lemma ConnectSplit()
    ensures |ConnectRules()| == 2 && ConnectRules() == [ConnectRules()[0]] + [ConnectRules()[1]]
  {
  }

  lemma KnobsAgree(d: Doc)
    requires Clean(d, Late)
    ensures var rules := ConnectRules() + Map(EnvOf, Knobs()) + [RunStoreRule()];
            Source(RewriteAll(rules, d)) == TextAll(rules, Source(d)) && Clean(RewriteAll(rules, d), Last)
  {
    hide Clean, Readable, Source, RewriteAll, TextAll, Late, Last, ConnectRules, Knobs, RunStoreRule;
    ConnectSplit();
    var a, b, c, e := [ConnectRules()[0]], [ConnectRules()[1]], Map(EnvOf, Knobs()), [RunStoreRule()];
    Weakenings();
    ConnectReadable();
    RoutedReadable();
    KnobsReadable();
    RunStoreReadable();
    RuleAgree(ConnectRules()[0], d, Late, Late);
    RuleAgree(ConnectRules()[1], RewriteAll(a, d), Late, Late);
    Compose(a, b, d, Late);
    ChainAgree(c, RewriteAll(a + b, d), Late);
    Compose(a + b, c, d, Late);
    RuleAgree(RunStoreRule(), RewriteAll(a + b + c, d), Late, Last);
    Compose(a + b + c, e, d, Last);
  }

  lemma KnobsReadable()
    ensures forall r :: r in Map(EnvOf, Knobs()) ==> Readable(r, Late, Late)
  {
    hide Readable, EnvOf, DurabilityKnobs, ModelKnobs, RunKnobs;
    DurabilityReadable();
    ModelReadable();
    RunReadable();
    EnvsReadable(Knobs(), Late);
  }

  lemma SwitchesAgree(d: Doc)
    requires Clean(d, Last)
    ensures var rules := Map(EnvOf, Switches()) + [EgressRule()] + ChainAfter();
            Source(RewriteAll(rules, d)) == TextAll(rules, Source(d)) && Clean(RewriteAll(rules, d), Last)
  {
    hide Clean, Readable, Source, RewriteAll, TextAll, Last, EnvOf, McpSwitches, AuthSwitches, LastEntries, EgressRule, Ready;
    McpReady();
    AuthReady();
    LastReady();
    ReadyReadable(McpSwitches());
    ReadyReadable(AuthSwitches());
    ReadyReadable(LastEntries());
    EnvsReadable(Switches(), Last);
    EnvsReadable(LastEntries(), Last);
    EgressReadable();
    ChainAgree(Map(EnvOf, Switches()) + [EgressRule()] + ChainAfter(), d, Last);
  }

  /** What the generator's chain of replacements does to a text. */
  function TextSubstituted(s: string): string {
    TextAll(ChainBefore() + [EgressRule()] + ChainAfter(), s)
  }

  lemma ChainParts(d: Doc)
    ensures Substituted(ChartRules(), d) == RewriteAll(ChainBefore() + [EgressRule()] + ChainAfter(), d)
  {
    hide ChainBefore, ChainAfter, EgressRule, RewriteAll;
    RewriteAllAppend(ChainBefore() + [EgressRule()], ChainAfter(), d);
    RewriteAllAppend(ChainBefore(), [EgressRule()], d);
    OneRule(EgressRule(), RewriteAll(ChainBefore(), d));
  }

  lemma LitsClean(text: string, ok: string -> bool)
    requires Bare(text)
    ensures Clean(Lits(text), ok)
  {
    assert forall i :: 0 <= i < |text| ==> text[i] in text;
  }

  /**
   The token view is the text: for a text without braces, the substituted document written down is what
   the whole ordered chain of replacements makes of the text, including the namespace expression, the
   routed rule and the rule that rewrites an already rewritten block.
   */
  lemma SubstitutedSource(text: string)
    requires Bare(text)
    ensures Source(Substituted(ChartRules(), Lits(text))) == TextSubstituted(text)
    ensures Clean(Substituted(ChartRules(), Lits(text)), Last)
  {
    hide Bare, Clean, Source, RewriteAll, TextAll, ImageRules, AddressRules, ConnectRules, Knobs, Switches, RunStoreRule,
         EgressRule, ChainAfter, Early, Late, Last, Substituted, EnvOf;
    var d := Lits(text);
    var a, b, c := ImageRules() + AddressRules(), ConnectRules() + Map(EnvOf, Knobs()) + [RunStoreRule()],
                   Map(EnvOf, Switches()) + [EgressRule()] + ChainAfter();
    LitsClean(text, Early);
    SourceLits(text);
    EarlyAgree(d);
    KnobsAgree(RewriteAll(a, d));
    Compose(a, b, d, Last);
    SwitchesAgree(RewriteAll(a + b, d));
    Compose(a + b, c, d, Last);
    ChainParts(d);
    assert a + b + c == ChainBefore() + [EgressRule()] + ChainAfter();
  }
}
