/**
 The synchronous agent-to-agent surface of one launcher: the envelope it stamps on an outgoing
 hop, the three conversation guards, and the access control it runs on an incoming hop.
 */
module Amp {
  import opened Prelude
  import opened Text

  /** The platform-owned message envelope. The payload is a JSON value in its canonical text form. */
  datatype Envelope = Envelope(
    traceId: string,
    registryId: string,
    conversationId: string,
    messageId: string,
    sender: string,
    receiver: string,
    role: string,
    depth: int,
    path: seq<string>,
    budget: int,
    payload: string)

  /** What a launcher learns from its environment. An empty registry id means "not a member". */
  datatype Config = Config(
    registryId: string,
    self: string,
    role: string,
    allowedCallers: seq<string>,
    maxDepth: int,
    hopBudget: int,
    asyncEdge: bool)

  predicate Member(cfg: Config) {
    cfg.registryId != ""
  }

  /**
   JSON, seen from outside: one encoder and the two decoders the launcher uses, the header decoder
   that refuses unknown fields and the event-data decoder that ignores them.
   */
  datatype Codec = Codec(
    marshal: Envelope -> string,
    strict: string -> Option<Envelope>,
    lenient: string -> Option<Envelope>)

  /** Either decoder recovers what the encoder wrote, and an encoding is never the empty text. */
  ghost predicate Lawful(codec: Codec) {
    forall e: Envelope ::
      && codec.marshal(e) != ""
      && codec.strict(codec.marshal(e)) == Some(e)
      && codec.lenient(codec.marshal(e)) == Some(e)
  }

  // ---- Guard configuration -------------------------------------------------------------------

  const DEFAULT_MAX_DEPTH := 8
  const DEFAULT_HOP_BUDGET := 32

  /**
   A guard limit from its environment variable; `number` is the variable read as an integer, if it
   is one. Zero and negative values fall back to the default, so a limit is always positive.
   */
  function ParseGuardInt(val: string, number: Option<int>, default: int): (r: Result<int, string>)
    requires default >= 1
    ensures r.Ok? ==> r.value >= 1
    ensures r.Err? <==> val != "" && number.None?
    ensures r.Ok? && r.value != default ==> val != "" && number == Some(r.value)
    ensures val != "" && number.Some? && number.value >= 1 ==> r == Ok(number.value)
  {
    if val == "" then Ok(default)
    else if number.None? then Err("invalid guard value")
    else if number.value <= 0 then Ok(default)
    else Ok(number.value)
  }

  function Trimmed(parts: seq<string>): seq<string> {
    seq(|parts|, i requires 0 <= i < |parts| => Trim(parts[i]))
  }

  predicate Named(name: string) {
    name != ""
  }

  /** The callers an allowlist names: its comma-separated parts trimmed, blanks dropped, in order. */
  function Callers(raw: string): seq<string> {
    Filter(Named, Trimmed(Split(raw, ',')))
  }

  /** The name stands in the allowlist, between commas or the ends and any blanks. */
  ghost predicate Listed(raw: string, name: string) {
    exists a, before, after, b :: Lists(raw, name, a, before, after, b)
  }

  ghost predicate Lists(raw: string, name: string, a: string, before: string, after: string, b: string) {
    && raw == a + (before + name + after) + b
    && (a == "" || a[|a| - 1] == ',') && (b == "" || b[0] == ',')
    && AllBlank(before) && AllBlank(after)
    && name != "" && !Blank(name[0]) && !Blank(name[|name| - 1]) && ',' !in name
  }

  lemma CallerIsListed(raw: string, name: string)
    requires name in Callers(raw)
    ensures Listed(raw, name)
  {
    hide Split, Trim, Filter, AllBlank;
    var parts := Split(raw, ',');
    FilterExact(Named, Trimmed(parts));
    var i :| 0 <= i < |parts| && Trimmed(parts)[i] == name;
    var a, b := SplitPieces(raw, ',', parts[i]);
    var before, after := TrimmedSplit(parts[i]);
    assert forall c :: c in name ==> c in parts[i];
    assert Lists(raw, name, a, before, after, b);
  }

  lemma ListedIsCaller(raw: string, name: string)
    requires Listed(raw, name)
    ensures name in Callers(raw)
  {
    hide Split, Trim, Filter;
    var a, before, after, b :| Lists(raw, name, a, before, after, b);
    var part := before + name + after;
    assert Between(a, ',', part, b);
    BetweenSplits(a, ',', part, b);
    TrimmedAs(before, name, after);
    var parts := Split(raw, ',');
    var i :| 0 <= i < |parts| && parts[i] == part;
    assert Trimmed(parts)[i] == name;
    FilterExact(Named, Trimmed(parts));
  }

  /** The allowlist holds nothing but commas and blanks. */
  predicate NamesNobody(raw: string) {
    forall i :: 0 <= i < |raw| ==> raw[i] == ',' || Blank(raw[i])
  }

  lemma NobodyCalls(raw: string)
    requires Callers(raw) == []
    ensures NamesNobody(raw)
  {
    hide Split, Trim, Filter;
    var parts := Split(raw, ',');
    FilterExact(Named, Trimmed(parts));
    forall i | 0 <= i < |raw| ensures raw[i] == ',' || Blank(raw[i]) {
      if raw[i] != ',' {
        var part := SplitCovers(raw, ',', raw[i]);
        var k :| 0 <= k < |parts| && parts[k] == part;
        assert Trimmed(parts)[k] in Trimmed(parts);
        TrimmedBlank(part);
      }
    }
  }

  lemma CallersNobody(raw: string)
    ensures Callers(raw) == [] <==> NamesNobody(raw)
  {
    hide Callers;
    if Callers(raw) == [] {
      NobodyCalls(raw);
    } else {
      var name := Callers(raw)[0];
      CallerIsListed(raw, name);
      var a, before, after, b :| Lists(raw, name, a, before, after, b);
      assert raw[|a| + |before|] == name[0];
    }
  }

  /** Exactly the names the text lists are allowed to call, or everybody if it names nobody. */
  lemma CallersExact(raw: string, cfg: Config, env: Envelope)
    requires cfg.allowedCallers == Callers(raw)
    ensures AllowCaller(cfg, env) <==> env.role != "" && (Listed(raw, env.sender) || NamesNobody(raw))
  {
    hide Callers, Listed, NamesNobody;
    CallersNobody(raw);
    if env.sender in Callers(raw) {
      CallerIsListed(raw, env.sender);
    }
    if Listed(raw, env.sender) {
      ListedIsCaller(raw, env.sender);
    }
  }

  /** A blank allowlist names nobody. */
  lemma BlankCallers(raw: string)
    requires Trim(raw) == ""
    ensures Callers(raw) == []
  {
    TrimmedBlank(raw);
    SplitWhole(raw, ',');
    assert Trimmed([raw]) == [""];
    assert [""][..0] == [];
  }

  /** Reads the allowlist part by part. An empty result allows every same-registry caller. */
  method ParseCallerList(raw: string) returns (callers: seq<string>)
    ensures callers == Callers(raw)
  {
    if Trim(raw) == "" {
      BlankCallers(raw);
      return [];
    }
    var parts := Split(raw, ',');
    callers := [];
    ghost var trimmed := Trimmed(parts);
    for i := 0 to |parts|
      invariant callers == Filter(Named, trimmed[..i])
    {
      var p := Trim(parts[i]);
      assert trimmed[..i + 1][..i] == trimmed[..i];
      if p != "" {
        callers := callers + [p];
      }
    }
    assert trimmed[..|parts|] == trimmed;
  }

  /** A numeric environment variable: its text, and the integer it reads as, if it is one. */
  datatype Limit = Limit(val: string, number: Option<int>)

  /** What a launcher is started with; `port` says that its listener port is absent or valid. */
  datatype Environment = Environment(
    registryId: string, port: bool, role: string, callers: string, maxDepth: Limit, hopBudget: Limit, publishUrl: string)

  /** Outside every registry the rest of the environment is irrelevant, even where it is malformed. */
  method LoadConfig(env: Environment, agent: string) returns (r: Result<Config, string>)
    ensures r.Ok? && !Member(r.value) <==> env.registryId == ""
    ensures r.Err? <==> env.registryId != "" && (!env.port || NoLimit(env.maxDepth) || NoLimit(env.hopBudget))
    ensures r.Ok? && Member(r.value) ==> Launched(env, agent, r.value) && r.value.maxDepth >= 1 && r.value.hopBudget >= 1
  {
    if env.registryId == "" {
      return Ok(Config("", "", "", [], 0, 0, false));
    }
    if !env.port {
      return Err("A2A_PORT");
    }
    var maxDepth := ParseGuardInt(env.maxDepth.val, env.maxDepth.number, DEFAULT_MAX_DEPTH);
    if maxDepth.Err? {
      return Err("A2A_MAX_DEPTH");
    }
    var hopBudget := ParseGuardInt(env.hopBudget.val, env.hopBudget.number, DEFAULT_HOP_BUDGET);
    if hopBudget.Err? {
      return Err("A2A_HOP_BUDGET");
    }
    var callers := ParseCallerList(env.callers);
    TrimmedBlank(env.publishUrl);
    return Ok(Config(env.registryId, agent, env.role, callers, maxDepth.value, hopBudget.value, Trim(env.publishUrl) != ""));
  }

  predicate NoLimit(l: Limit) {
    l.val != "" && l.number.None?
  }

  /** A limit is the positive number it was given, and the default if it was given none. */
  ghost predicate Limits(l: Limit, default: int, limit: int) {
    limit == if l.val != "" && l.number.Some? && l.number.value >= 1 then l.number.value else default
  }

  /** What a member runs under. */
  ghost predicate Launched(env: Environment, agent: string, cfg: Config) {
    && cfg.registryId == env.registryId != "" && cfg.self == agent && cfg.role == env.role
    && cfg.allowedCallers == Callers(env.callers)
    && Limits(env.maxDepth, 8, cfg.maxDepth) && Limits(env.hopBudget, 32, cfg.hopBudget)
    && (cfg.asyncEdge <==> !AllBlank(env.publishUrl))
  }

  // ---- The envelope a request carries --------------------------------------------------------

  datatype Carried = Conflict | Nothing | Raw(text: string)

  datatype Source = NoHeader | AmpHeader | LegacyHeader | BothHeaders

  /**
   The envelope text under the current and the legacy header name. Two names that disagree are a
   conflict; the source reports which names were used even then.
   */
  function EnvelopeHeader(amp: string, legacy: string): (r: (Carried, Source))
    ensures r.0.Nothing? <==> amp == "" && legacy == ""
    ensures r.0.Conflict? <==> amp != "" && legacy != "" && amp != legacy
    ensures r.0.Raw? ==> r.0.text != "" && amp in {"", r.0.text} && legacy in {"", r.0.text}
    ensures r.1 == NoHeader <==> r.0.Nothing?
    ensures r.0.Conflict? ==> r.1 == BothHeaders
  {
    if amp != "" && legacy != "" && amp != legacy then (Conflict, BothHeaders)
    else if amp != "" && legacy != "" then (Raw(amp), BothHeaders)
    else if amp != "" then (Raw(amp), AmpHeader)
    else if legacy != "" then (Raw(legacy), LegacyHeader)
    else (Nothing, NoHeader)
  }

  // ---- Outbound: stamping and guarding a hop -------------------------------------------------

  /** The identifiers a launcher mints: a message id per hop, and what a first hop starts from. */
  datatype Fresh = Fresh(messageId: string, traceId: string, conversationId: string)

  /**
   The envelope of the next hop: a first hop when nothing came in, otherwise a chained hop that
   inherits the registry, trace and conversation and extends depth, path and budget by one step.
   */
  function Stamp(cfg: Config, incoming: Option<Envelope>, target: string, payload: string, ids: Fresh): (e: Envelope)
    ensures e.sender == cfg.self && e.receiver == target
    ensures |e.path| >= 1 && e.path[|e.path| - 1] == e.sender
  {
    match incoming
    case None =>
      Envelope(ids.traceId, cfg.registryId, ids.conversationId, ids.messageId, cfg.self, target,
               cfg.role, 1, [cfg.self], cfg.hopBudget, payload)
    case Some(i) =>
      Envelope(i.traceId, i.registryId, i.conversationId, ids.messageId, cfg.self, target,
               cfg.role, i.depth + 1, i.path + [cfg.self], i.budget - 1, payload)
  }

  datatype Guard = DepthExceeded | CycleDetected | BudgetExceeded

  /** The conversation guards on an outgoing envelope; the first that trips wins. */
  function CheckGuards(env: Envelope, maxDepth: int): (g: Option<Guard>)
    ensures g.None? <==> env.depth <= maxDepth && env.receiver !in env.path && env.budget >= 1
    ensures g == Some(DepthExceeded) <==> env.depth > maxDepth
    ensures g == Some(CycleDetected) <==> env.depth <= maxDepth && env.receiver in env.path
    ensures g == Some(BudgetExceeded) <==> env.depth <= maxDepth && env.receiver !in env.path && env.budget <= 0
  {
    if env.depth > maxDepth then Some(DepthExceeded)
    else if env.receiver in env.path then Some(CycleDetected)
    else if env.budget <= 0 then Some(BudgetExceeded)
    else None
  }

  datatype StampError = ConflictingEnvelopes | InvalidIncomingEnvelope

  /** The envelope the agent echoed on its own request: none, one, or an error. */
  function Incoming(codec: Codec, amp: string, legacy: string): (r: Result<Option<Envelope>, StampError>)
    ensures r == Ok(None) <==> amp == "" && legacy == ""
    ensures r == Err(ConflictingEnvelopes) <==> amp != "" && legacy != "" && amp != legacy
    ensures !r.Err? && r != Ok(None) ==> r.value == codec.strict(if amp != "" then amp else legacy)
    ensures r == Err(InvalidIncomingEnvelope) ==> codec.strict(if amp != "" then amp else legacy).None?
  {
    match EnvelopeHeader(amp, legacy).0
    case Conflict => Err(ConflictingEnvelopes)
    case Nothing => Ok(None)
    case Raw(text) =>
      var e := codec.strict(text);
      if e.None? then Err(InvalidIncomingEnvelope) else Ok(e)
  }

  /** Builds the outgoing envelope field by field from the headers of the agent's own request. */
  method BuildEnvelope(codec: Codec, cfg: Config, amp: string, legacy: string,
                       target: string, payload: string, ids: Fresh)
    returns (r: Result<Envelope, StampError>)
    ensures r == match Incoming(codec, amp, legacy)
                 case Err(e) => Err(e)
                 case Ok(incoming) => Ok(Stamp(cfg, incoming, target, payload, ids))
  {
    var carried := EnvelopeHeader(amp, legacy).0;
    if carried.Conflict? {
      return Err(ConflictingEnvelopes);
    }
    var incoming: Option<Envelope> := None;
    if carried.Raw? {
      incoming := codec.strict(carried.text);
      if incoming.None? {
        return Err(InvalidIncomingEnvelope);
      }
    }
    var env := Envelope("", cfg.registryId, "", ids.messageId, cfg.self, target, cfg.role, 0, [], 0, payload);
    if incoming.None? {
      env := env.(traceId := ids.traceId, conversationId := ids.conversationId);
      env := env.(depth := 1, path := [cfg.self], budget := cfg.hopBudget);
      return Ok(env);
    }
    var i := incoming.value;
    env := env.(registryId := i.registryId, traceId := i.traceId, conversationId := i.conversationId);
    env := env.(depth := i.depth + 1);
    env := env.(path := i.path + [cfg.self]);
    env := env.(budget := i.budget - 1);
    return Ok(env);
  }

  predicate LabelChar(c: char) {
    'a' <= c <= 'z' || 'A' <= c <= 'Z' || '0' <= c <= '9' || c == '-'
  }

  const MAX_TARGET_LEN := 63

  /** A target is a short DNS label. */
  predicate Label(target: string) {
    1 <= |target| <= MAX_TARGET_LEN && forall i :: 0 <= i < |target| ==> LabelChar(target[i])
  }

  method ValidTarget(target: string) returns (ok: bool)
    ensures ok <==> Label(target)
    ensures ok <==>
              && 1 <= |target| <= 63
              && forall c :: c in target ==> 'a' <= c <= 'z' || 'A' <= c <= 'Z' || '0' <= c <= '9' || c == '-'
  {
    assert forall i :: 0 <= i < |target| ==> target[i] in target;
    if target == "" || |target| > MAX_TARGET_LEN {
      return false;
    }
    for i := 0 to |target|
      invariant forall k :: 0 <= k < i ==> LabelChar(target[k])
    {
      if !LabelChar(target[i]) {
        return false;
      }
    }
    return true;
  }

  /** A call body after reading: a JSON payload, over the size limit, or unreadable or not JSON. */
  datatype Body = Payload(text: string) | Oversize | Malformed

  /** An agent's call on its launcher. */
  datatype CallRequest = CallRequest(
    target: string, body: Body, amp: string, legacy: string, asyncMode: bool, ids: Fresh)

  datatype CallOutcome =
    | BadRequest
    | PayloadTooLarge
    | Forbidden(guard: Guard)
    | NotImplemented
    | Forward(env: Envelope)
    | Publish(env: Envelope)

  /** The envelope is within the depth limit, its receiver is new to its path, and budget is left. */
  predicate Passes(env: Envelope, maxDepth: int) {
    env.depth <= maxDepth && env.receiver !in env.path && env.budget >= 1
  }

  /** What a call comes to. Whatever its mode, nothing is sent that does not pass the guards. */
  function Decide(codec: Codec, cfg: Config, req: CallRequest): (out: CallOutcome)
    ensures out.PayloadTooLarge? <==> Label(req.target) && req.body.Oversize?
    ensures out.BadRequest? <==>
              || !Label(req.target) || req.body.Malformed?
              || (req.body.Payload? && Incoming(codec, req.amp, req.legacy).Err?)
    ensures !out.PayloadTooLarge? && !out.BadRequest? ==>
              var env := Stamp(cfg, Incoming(codec, req.amp, req.legacy).value, req.target, req.body.text, req.ids);
              && (out.Forbidden? <==> !Passes(env, cfg.maxDepth))
              && (out.Forbidden? ==> CheckGuards(env, cfg.maxDepth) == Some(out.guard))
              && (out.Forward? <==> Passes(env, cfg.maxDepth) && !req.asyncMode)
              && (out.Publish? <==> Passes(env, cfg.maxDepth) && req.asyncMode && cfg.asyncEdge)
              && (out.Forward? || out.Publish? ==> out.env == env)
  {
    var incoming := Incoming(codec, req.amp, req.legacy);
    if !Label(req.target) || req.body.Malformed? then BadRequest
    else if req.body.Oversize? then PayloadTooLarge
    else if incoming.Err? then BadRequest
    else
      var env := Stamp(cfg, incoming.value, req.target, req.body.text, req.ids);
      match CheckGuards(env, cfg.maxDepth)
      case Some(guard) => Forbidden(guard)
      case None => if !req.asyncMode then Forward(env) else if cfg.asyncEdge then Publish(env) else NotImplemented
  }

  /** The outbound handler: target, body, envelope, guards, and only then the transport. */
  method HandleCall(codec: Codec, cfg: Config, req: CallRequest) returns (out: CallOutcome)
    ensures out == Decide(codec, cfg, req)
    ensures out.Forward? || out.Publish? ==>
              out.env.depth <= cfg.maxDepth && out.env.receiver !in out.env.path && out.env.budget >= 1
    ensures out.Publish? ==> req.asyncMode && cfg.asyncEdge
    ensures out.Forward? ==> !req.asyncMode
  {
    var ok := ValidTarget(req.target);
    if !ok {
      return BadRequest;
    }
    match req.body {
      case Malformed => return BadRequest;
      case Oversize => return PayloadTooLarge;
      case Payload(_) =>
    }
    var built := BuildEnvelope(codec, cfg, req.amp, req.legacy, req.target, req.body.text, req.ids);
    if built.Err? {
      return BadRequest;
    }
    var env := built.value;
    var guard := CheckGuards(env, cfg.maxDepth);
    if guard.Some? {
      return Forbidden(guard.value);
    }
    if req.asyncMode {
      if !cfg.asyncEdge {
        return NotImplemented;
      }
      return Publish(env);
    }
    return Forward(env);
  }

  /** The mode of a call decides how it is sent and nothing else; no refusal is laundered by choosing the other. */
  lemma ModesAgree(codec: Codec, cfg: Config, req: CallRequest)
    ensures var sync, deferred := Decide(codec, cfg, req.(asyncMode := false)), Decide(codec, cfg, req.(asyncMode := true));
            && !sync.Publish? && !sync.NotImplemented?
            && deferred == if !sync.Forward? then sync else if cfg.asyncEdge then Publish(sync.env) else NotImplemented
  {
  }

  // ---- Inbound: access control ---------------------------------------------------------------

  datatype Denial = ConflictingHeaders | MalformedEnvelope | CrossRegistry | CallerNotAllowed

  datatype Verdict = Unmediated | Admitted(env: Envelope) | Denied(reason: Denial)

  /** Role and allowlist: an envelope must name a role, and an empty allowlist admits any caller. */
  predicate AllowCaller(cfg: Config, env: Envelope) {
    && env.role != ""
    && (cfg.allowedCallers == [] || env.sender in cfg.allowedCallers)
  }

  /** The callee's decision on a request, from its two possible envelope headers. */
  function EnforceInbound(codec: Codec, cfg: Config, amp: string, legacy: string): (v: Verdict)
    ensures v.Admitted? ==> v.env.registryId == cfg.registryId && AllowCaller(cfg, v.env)
    ensures v.Unmediated? <==> amp == "" && legacy == ""
    ensures v == Denied(ConflictingHeaders) <==> amp != "" && legacy != "" && amp != legacy
    ensures !v.Unmediated? && v != Denied(ConflictingHeaders) ==>
              match codec.strict(if amp != "" then amp else legacy)
              case None => v == Denied(MalformedEnvelope)
              case Some(env) =>
                var listed := env.role != "" && (cfg.allowedCallers == [] || env.sender in cfg.allowedCallers);
                && (v == Denied(CrossRegistry) <==> env.registryId != cfg.registryId)
                && (v == Denied(CallerNotAllowed) <==> env.registryId == cfg.registryId && !listed)
                && (v == Admitted(env) <==> env.registryId == cfg.registryId && listed)
  {
    match EnvelopeHeader(amp, legacy).0
    case Conflict => Denied(ConflictingHeaders)
    case Nothing => Unmediated
    case Raw(text) =>
      match codec.strict(text)
      case None => Denied(MalformedEnvelope)
      case Some(env) =>
        if env.registryId != cfg.registryId then Denied(CrossRegistry)
        else if !AllowCaller(cfg, env) then Denied(CallerNotAllowed)
        else Admitted(env)
  }

  /**
   An envelope sent under the current name, the legacy name or both gets one and the same verdict,
   and is admitted exactly when it is same-registry and its caller is allowed.
   */
  lemma HeaderNamesAgree(codec: Codec, cfg: Config, env: Envelope, amp: string, legacy: string)
    requires Lawful(codec)
    requires amp in {"", codec.marshal(env)} && legacy in {"", codec.marshal(env)}
    requires amp != "" || legacy != ""
    ensures EnforceInbound(codec, cfg, amp, legacy) == EnforceInbound(codec, cfg, codec.marshal(env), codec.marshal(env))
    ensures EnforceInbound(codec, cfg, amp, legacy).Admitted? <==> env.registryId == cfg.registryId && AllowCaller(cfg, env)
    ensures EnforceInbound(codec, cfg, amp, legacy).Admitted? ==> EnforceInbound(codec, cfg, amp, legacy).env == env
  {
    assert codec.strict(codec.marshal(env)) == Some(env);
    assert EnvelopeHeader(amp, legacy).0 == Raw(codec.marshal(env));
  }
}
