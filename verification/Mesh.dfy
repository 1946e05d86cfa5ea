/**
 A mesh of launchers as a transition system. A state is the log of every hop ever forwarded; a run
 is any list of steps, so fan-out, interleaving and the mix of transports are all arbitrary. A step
 the launchers would refuse leaves the log unchanged.

 Assumption about agents, stated by `Chain`: an agent that forwards within a conversation echoes the
 envelope it was delivered. The launcher does not check that an echoed envelope was addressed to it.
 */
module Mesh {
  import opened Prelude
  import opened Amp
  import opened CloudEvents

  datatype Transport = Sync | Async

  /** A delivered hop records the envelope text its callee received. */
  datatype Status = InFlight | Delivered(text: string) | Rejected

  datatype Hop = Hop(env: Envelope, parent: Option<nat>, transport: Transport, status: Status)

  /** The launchers of the namespace that targets resolve in, by agent name. */
  type Fleet = map<string, Config>

  /** Each member launcher runs under its own name, with positive limits (see LoadConfig). */
  ghost predicate Deployed(fleet: Fleet) {
    forall a :: a in fleet && Member(fleet[a]) ==> fleet[a].self == a && fleet[a].maxDepth >= 1 && fleet[a].hopBudget >= 1
  }

  datatype HeaderNames = CurrentName | LegacyName | BothNames

  datatype Step =
    | First(agent: string, target: string, payload: string, ids: Fresh, transport: Transport)
    | Chain(from: nat, names: HeaderNames, target: string, payload: string, ids: Fresh, transport: Transport)
    | Deliver(hop: nat, names: HeaderNames, arriving: string)
    | Lose(hop: nat)

  /** An envelope text under the header names of a request. */
  function Headers(names: HeaderNames, text: string): (string, string) {
    (if names == LegacyName then "" else text, if names == CurrentName then "" else text)
  }

  /** A member makes a call; what its handler sends is in flight. Message ids are never empty. */
  function Call(codec: Codec, cfg: Config, hops: seq<Hop>, req: CallRequest, parent: Option<nat>): seq<Hop> {
    if !Member(cfg) || req.ids.messageId == "" then hops
    else
      match Decide(codec, cfg, req)
      case Forward(env) => hops + [Hop(env, parent, Sync, InFlight)]
      case Publish(env) => hops + [Hop(env, parent, Async, InFlight)]
      case _ => hops
  }

  /** The handler of a member's call puts in flight what it forwards or publishes, and nothing else. */
  method Launch(codec: Codec, cfg: Config, req: CallRequest, ghost hops: seq<Hop>, ghost parent: Option<nat>)
    returns (out: CallOutcome, ghost after: seq<Hop>)
    requires Member(cfg) && req.ids.messageId != ""
    ensures after == Call(codec, cfg, hops, req, parent)
    ensures out.Forward? ==> !req.asyncMode && after == hops + [Hop(out.env, parent, Sync, InFlight)]
    ensures out.Publish? ==> req.asyncMode && cfg.asyncEdge && after == hops + [Hop(out.env, parent, Async, InFlight)]
    ensures !out.Forward? && !out.Publish? ==> after == hops
  {
    hide Decide;
    out := HandleCall(codec, cfg, req);
    after := Call(codec, cfg, hops, req, parent);
  }

  /** The envelope text that reaches the callee; on the bus the payload is whatever was rehydrated. */
  function Carried(codec: Codec, hop: Hop, arriving: string): Option<string> {
    match hop.transport
    case Sync => Some(codec.marshal(hop.env))
    case Async =>
      match Decoded(codec, EventOf(codec, hop.env))
      case Err(_) => None
      case Ok(env) => Some(codec.marshal(env.(payload := arriving)))
  }

  /** The callee's decision; a launcher outside every registry runs no access control at all. */
  predicate Admits(codec: Codec, cfg: Config, names: HeaderNames, text: string) {
    if !Member(cfg) then true
    else
      EnforceInbound(codec, cfg, Headers(names, text).0, Headers(names, text).1).Admitted?
  }

  function Apply(codec: Codec, fleet: Fleet, hops: seq<Hop>, step: Step): seq<Hop> {
    match step
    case First(agent, target, payload, ids, transport) =>
      if agent !in fleet then hops
      else Call(codec, fleet[agent], hops, CallRequest(target, Payload(payload), "", "", transport == Async, ids), None)
    case Chain(from, names, target, payload, ids, transport) =>
      if from >= |hops| || !hops[from].status.Delivered? || hops[from].env.receiver !in fleet then hops
      else
        var echo := Headers(names, hops[from].status.text);
        Call(codec, fleet[hops[from].env.receiver], hops,
             CallRequest(target, Payload(payload), echo.0, echo.1, transport == Async, ids), Some(from))
    case Deliver(hop, names, arriving) =>
      if hop >= |hops| || !hops[hop].status.InFlight? || hops[hop].env.receiver !in fleet then hops
      else
        var text := Carried(codec, hops[hop], arriving);
        if text.None? then hops
        else if !Admits(codec, fleet[hops[hop].env.receiver], names, text.value)
        then hops[hop := hops[hop].(status := Rejected)]
        else hops[hop := hops[hop].(status := Delivered(text.value))]
    case Lose(hop) =>
      if hop >= |hops| || !hops[hop].status.InFlight? then hops
      else hops[hop := hops[hop].(status := Rejected)]
  }

  function Run(codec: Codec, fleet: Fleet, steps: seq<Step>): seq<Hop> {
    if steps == [] then []
    else Apply(codec, fleet, Run(codec, fleet, steps[..|steps| - 1]), steps[|steps| - 1])
  }

  // ---- The mesh invariant --------------------------------------------------------------------

  /** The identity of a conversation, which no hop may change. */
  function Inherited(env: Envelope): (string, string, string) {
    (env.registryId, env.traceId, env.conversationId)
  }

  /** What the stamp of one forwarded envelope says, against the configuration of its origin. */
  ghost predicate Stamped(fleet: Fleet, env: Envelope) {
    && env.depth == |env.path| >= 1
    && Distinct(env.path)
    && env.sender == env.path[|env.path| - 1]
    && env.receiver !in env.path
    && env.messageId != ""
    && Label(env.receiver)
    && (forall i :: 0 <= i < |env.path| ==>
          && env.path[i] in fleet
          && Member(fleet[env.path[i]])
          && fleet[env.path[i]].registryId == env.registryId
          && i + 1 <= fleet[env.path[i]].maxDepth)
    && env.role == fleet[env.sender].role
    && env.budget == fleet[env.path[0]].hopBudget - (env.depth - 1)
    && env.budget >= 1
  }

  /** How a chained hop continues the hop that was delivered to its sender. */
  ghost predicate Continues(hops: seq<Hop>, i: nat)
    requires i < |hops|
  {
    match hops[i].parent
    case None => hops[i].env.depth == 1
    case Some(p) =>
      && p < i
      && hops[p].status.Delivered?
      && hops[i].env.sender == hops[p].env.receiver
      && hops[i].env.path == hops[p].env.path + [hops[i].env.sender]
      && Inherited(hops[i].env) == Inherited(hops[p].env)
  }

  /** A delivered hop carried its own envelope to a callee that, if a member, is of its registry and allows its sender. */
  ghost predicate Received(codec: Codec, fleet: Fleet, hop: Hop) {
    hop.status.Delivered? ==>
      && hop.env.receiver in fleet
      && (Member(fleet[hop.env.receiver]) ==>
            fleet[hop.env.receiver].registryId == hop.env.registryId && AllowCaller(fleet[hop.env.receiver], hop.env))
      && hop.status.text != ""
      && var echo := codec.strict(hop.status.text);
         echo.Some? && echo.value.(payload := "") == hop.env.(payload := "")
  }

  ghost predicate Inv(codec: Codec, fleet: Fleet, hops: seq<Hop>) {
    forall i :: 0 <= i < |hops| ==>
      Stamped(fleet, hops[i].env) && Continues(hops, i) && Received(codec, fleet, hops[i])
  }

  /** A first hop that passes its guards is well stamped. */
  lemma FirstStamped(fleet: Fleet, agent: string, target: string, payload: string, ids: Fresh)
    requires Deployed(fleet) && agent in fleet && Member(fleet[agent])
    requires ids.messageId != "" && Label(target)
    ensures var env := Stamp(fleet[agent], None, target, payload, ids);
            Passes(env, fleet[agent].maxDepth) ==> Stamped(fleet, env)
  {
  }

  /** A chained hop from a well-stamped envelope addressed to this agent is well stamped. */
  lemma ChainStamped(fleet: Fleet, incoming: Envelope, target: string, payload: string, ids: Fresh)
    requires Deployed(fleet) && Stamped(fleet, incoming)
    requires incoming.receiver in fleet && Member(fleet[incoming.receiver])
    requires fleet[incoming.receiver].registryId == incoming.registryId
    requires ids.messageId != "" && Label(target)
    ensures var env := Stamp(fleet[incoming.receiver], Some(incoming), target, payload, ids);
            Passes(env, fleet[incoming.receiver].maxDepth) ==> Stamped(fleet, env)
  {
    var agent := incoming.receiver;
    var env := Stamp(fleet[agent], Some(incoming), target, payload, ids);
    DistinctAppend(incoming.path, agent);
    assert forall i :: 0 <= i < |incoming.path| ==> env.path[i] == incoming.path[i];
  }

  /** Whatever reaches a callee is the sender's envelope, up to the payload. */
  lemma CarriedIsEnvelope(codec: Codec, fleet: Fleet, hop: Hop, arriving: string)
    requires Lawful(codec) && Stamped(fleet, hop.env)
    ensures var text := Carried(codec, hop, arriving);
            text.Some? && text.value != "" &&
            var payload := if hop.transport == Sync then hop.env.payload else arriving;
            text.value == codec.marshal(hop.env.(payload := payload)) &&
            codec.strict(text.value) == Some(hop.env.(payload := payload))
  {
    EventRoundTrip(codec, hop.env);
  }

  lemma AppendKeepsInv(codec: Codec, fleet: Fleet, hops: seq<Hop>, hop: Hop)
    requires Inv(codec, fleet, hops)
    requires hop.status == InFlight && Stamped(fleet, hop.env) && Continues(hops + [hop], |hops|)
    ensures Inv(codec, fleet, hops + [hop])
  {
    var after := hops + [hop];
    forall i | 0 <= i < |after|
      ensures Stamped(fleet, after[i].env) && Continues(after, i) && Received(codec, fleet, after[i])
    {
      if i < |hops| {
        assert Continues(hops, i);
      }
    }
  }

  lemma ResolveKeepsInv(codec: Codec, fleet: Fleet, hops: seq<Hop>, k: nat, status: Status)
    requires Inv(codec, fleet, hops)
    requires k < |hops| && hops[k].status == InFlight
    requires Received(codec, fleet, hops[k].(status := status))
    ensures Inv(codec, fleet, hops[k := hops[k].(status := status)])
  {
    var after := hops[k := hops[k].(status := status)];
    forall i | 0 <= i < |after|
      ensures Stamped(fleet, after[i].env) && Continues(after, i) && Received(codec, fleet, after[i])
    {
      assert Continues(hops, i);
    }
  }

  lemma DeliverKeepsInv(codec: Codec, fleet: Fleet, hops: seq<Hop>, step: Step)
    requires Lawful(codec) && Inv(codec, fleet, hops) && step.Deliver?
    ensures Inv(codec, fleet, Apply(codec, fleet, hops, step))
  {
    var k := step.hop;
    if k < |hops| && hops[k].status.InFlight? && hops[k].env.receiver in fleet {
      var hop := hops[k];
      CarriedIsEnvelope(codec, fleet, hop, step.arriving);
      var text := Carried(codec, hop, step.arriving).value;
      var cfg := fleet[hop.env.receiver];
      if Admits(codec, cfg, step.names, text) {
        if Member(cfg) {
          var sent := hop.env.(payload := if hop.transport == Sync then hop.env.payload else step.arriving);
          HeaderNamesAgree(codec, cfg, sent, Headers(step.names, text).0, Headers(step.names, text).1);
        }
        ResolveKeepsInv(codec, fleet, hops, k, Delivered(text));
      } else {
        ResolveKeepsInv(codec, fleet, hops, k, Rejected);
      }
    }
  }

  /** Under any header names an agent echoes the envelope it was delivered. */
  lemma Echoed(codec: Codec, names: HeaderNames, text: string)
    requires text != "" && codec.strict(text).Some?
    ensures Incoming(codec, Headers(names, text).0, Headers(names, text).1) == Ok(codec.strict(text))
  {
  }

  lemma ChainKeepsInv(codec: Codec, fleet: Fleet, hops: seq<Hop>, step: Step)
    requires Lawful(codec) && Deployed(fleet) && Inv(codec, fleet, hops) && step.Chain?
    ensures Inv(codec, fleet, Apply(codec, fleet, hops, step))
  {
    hide Decide, Label;
    var after := Apply(codec, fleet, hops, step);
    if after != hops {
      var from := step.from;
      assert Received(codec, fleet, hops[from]);
      Echoed(codec, step.names, hops[from].status.text);
      var echo := codec.strict(hops[from].status.text).value;
      var env := after[|hops|].env;
      assert Stamped(fleet, echo);
      ChainStamped(fleet, echo, step.target, step.payload, step.ids);
      AppendKeepsInv(codec, fleet, hops, Hop(env, Some(from), step.transport, InFlight));
    }
  }

  lemma FirstKeepsInv(codec: Codec, fleet: Fleet, hops: seq<Hop>, step: Step)
    requires Deployed(fleet) && Inv(codec, fleet, hops) && step.First?
    ensures Inv(codec, fleet, Apply(codec, fleet, hops, step))
  {
    hide Decide, Label;
    var after := Apply(codec, fleet, hops, step);
    if after != hops {
      FirstStamped(fleet, step.agent, step.target, step.payload, step.ids);
      AppendKeepsInv(codec, fleet, hops, Hop(after[|hops|].env, None, step.transport, InFlight));
    }
  }

  lemma ApplyKeepsInv(codec: Codec, fleet: Fleet, hops: seq<Hop>, step: Step)
    requires Lawful(codec) && Deployed(fleet) && Inv(codec, fleet, hops)
    ensures Inv(codec, fleet, Apply(codec, fleet, hops, step))
  {
    match step
    case First(_, _, _, _, _) => FirstKeepsInv(codec, fleet, hops, step);
    case Chain(_, _, _, _, _, _) => ChainKeepsInv(codec, fleet, hops, step);
    case Deliver(_, _, _) => DeliverKeepsInv(codec, fleet, hops, step);
    case Lose(k) =>
      if k < |hops| && hops[k].status.InFlight? {
        ResolveKeepsInv(codec, fleet, hops, k, Rejected);
      }
  }

  /** The mesh invariant holds after every run. */
  lemma {:induction false} MeshInvariant(codec: Codec, fleet: Fleet, steps: seq<Step>)
    requires Lawful(codec) && Deployed(fleet)
    ensures Inv(codec, fleet, Run(codec, fleet, steps))
  {
    if steps != [] {
      var front := steps[..|steps| - 1];
      MeshInvariant(codec, fleet, front);
      ApplyKeepsInv(codec, fleet, Run(codec, fleet, front), steps[|steps| - 1]);
    }
  }

  // ---- What a step does ----------------------------------------------------------------------

  /** A first call: exactly when it is sent, and the whole envelope then. */
  lemma FirstExact(codec: Codec, fleet: Fleet, hops: seq<Hop>, step: Step)
    requires step.First? && step.agent in fleet && Member(fleet[step.agent]) && step.ids.messageId != ""
    ensures var cfg := fleet[step.agent];
            Apply(codec, fleet, hops, step) ==
              if Label(step.target) && (step.transport == Sync || cfg.asyncEdge)
                 && 1 <= cfg.maxDepth && step.target != cfg.self && 1 <= cfg.hopBudget
              then hops + [Hop(Envelope(step.ids.traceId, cfg.registryId, step.ids.conversationId, step.ids.messageId,
                                        cfg.self, step.target, cfg.role, 1, [cfg.self], cfg.hopBudget, step.payload),
                               None, step.transport, InFlight)]
              else hops
  {
    hide Label;
  }

  /** A call within a conversation: exactly when it is sent, and the whole envelope then. */
  lemma ChainExact(codec: Codec, fleet: Fleet, hops: seq<Hop>, step: Step)
    requires step.Chain? && step.from < |hops| && hops[step.from].status.Delivered? && step.ids.messageId != ""
    requires hops[step.from].status.text != "" && codec.strict(hops[step.from].status.text).Some?
    requires hops[step.from].env.receiver in fleet && Member(fleet[hops[step.from].env.receiver])
    ensures var cfg, echo := fleet[hops[step.from].env.receiver], codec.strict(hops[step.from].status.text).value;
            Apply(codec, fleet, hops, step) ==
              if Label(step.target) && (step.transport == Sync || cfg.asyncEdge)
                 && echo.depth + 1 <= cfg.maxDepth && step.target !in echo.path && step.target != cfg.self && echo.budget - 1 >= 1
              then hops + [Hop(Envelope(echo.traceId, echo.registryId, echo.conversationId, step.ids.messageId,
                                        cfg.self, step.target, cfg.role, echo.depth + 1, echo.path + [cfg.self],
                                        echo.budget - 1, step.payload),
                               Some(step.from), step.transport, InFlight)]
              else hops
  {
    hide Label;
    Echoed(codec, step.names, hops[step.from].status.text);
  }

  /**
   A delivery of a well-stamped hop: a callee outside every registry takes it, a member exactly when it
   is of its registry and allows its sender, and it receives the envelope with the payload that arrives.
   */
  lemma DeliverExact(codec: Codec, fleet: Fleet, hops: seq<Hop>, step: Step)
    requires Lawful(codec) && step.Deliver? && step.hop < |hops| && hops[step.hop].status.InFlight?
    requires Stamped(fleet, hops[step.hop].env) && hops[step.hop].env.receiver in fleet
    ensures var hop := hops[step.hop];
            var cfg, env := fleet[hop.env.receiver], hop.env;
            var sent := if hop.transport == Sync then env else env.(payload := step.arriving);
            var taken := !Member(cfg) || (cfg.registryId == env.registryId && env.role != ""
                                          && (cfg.allowedCallers == [] || env.sender in cfg.allowedCallers));
            Apply(codec, fleet, hops, step)
            == hops[step.hop := hop.(status := if taken then Delivered(codec.marshal(sent)) else Rejected)]
  {
    hide EnforceInbound;
    var hop := hops[step.hop];
    CarriedIsEnvelope(codec, fleet, hop, step.arriving);
    var text := Carried(codec, hop, step.arriving).value;
    var sent := hop.env.(payload := if hop.transport == Sync then hop.env.payload else step.arriving);
    HeaderNamesAgree(codec, fleet[hop.env.receiver], sent, Headers(step.names, text).0, Headers(step.names, text).1);
  }

  // ---- Whole chains --------------------------------------------------------------------------

  /** The chain of hops that led to hop i, oldest first. */
  ghost function Lineage(hops: seq<Hop>, i: nat): (chain: seq<nat>)
    requires i < |hops|
    requires forall k :: 0 <= k < |hops| ==> Continues(hops, k)
    ensures |chain| >= 1 && forall k :: 0 <= k < |chain| ==> chain[k] <= i
    decreases i
  {
    assert Continues(hops, i);
    match hops[i].parent
    case None => [i]
    case Some(p) => Lineage(hops, p) + [i]
  }

  /** The k-th hop of a chain carries the first k agents of the path and the origin's identity. */
  ghost predicate Along(hops: seq<Hop>, chain: seq<nat>, path: seq<string>, k: nat)
    requires k < |chain| <= |path| && forall j :: 0 <= j < |chain| ==> chain[j] < |hops|
  {
    && hops[chain[k]].env.depth == k + 1
    && hops[chain[k]].env.path == path[..k + 1]
    && Inherited(hops[chain[k]].env) == Inherited(hops[chain[0]].env)
  }

  lemma AlongLonger(hops: seq<Hop>, chain: seq<nat>, path: seq<string>, k: nat, i: nat, agent: string)
    requires k < |chain| <= |path| && forall j :: 0 <= j < |chain| ==> chain[j] < |hops|
    requires i < |hops| && Along(hops, chain, path, k)
    ensures Along(hops, chain + [i], path + [agent], k)
  {
    assert (path + [agent])[..k + 1] == path[..k + 1];
  }

  /** The chain behind hop i: as long as its depth, from a first hop to i, and right at every place. */
  ghost predicate Traces(hops: seq<Hop>, chain: seq<nat>, i: nat)
    requires i < |hops|
  {
    && 1 <= |chain| == hops[i].env.depth == |hops[i].env.path|
    && (forall j :: 0 <= j < |chain| ==> chain[j] < |hops|)
    && chain[|chain| - 1] == i
    && hops[chain[0]].parent == None
    && forall k :: 0 <= k < |chain| ==> Along(hops, chain, hops[i].env.path, k)
  }

  lemma TracesOn(hops: seq<Hop>, chain: seq<nat>, p: nat, i: nat)
    requires p < |hops| && i < |hops| && Traces(hops, chain, p)
    requires hops[i].env.path == hops[p].env.path + [hops[i].env.sender] && hops[i].env.depth == |hops[i].env.path|
    requires Inherited(hops[i].env) == Inherited(hops[p].env)
    ensures Traces(hops, chain + [i], i)
  {
    hide Inherited;
    var path, agent, n := hops[p].env.path, hops[i].env.sender, |chain|;
    assert Along(hops, chain, path, n - 1);
    forall k | 0 <= k < n ensures Along(hops, chain + [i], path + [agent], k) {
      AlongLonger(hops, chain, path, k, i, agent);
    }
    assert (path + [agent])[..n + 1] == path + [agent];
    assert Along(hops, chain + [i], path + [agent], n);
  }

  /**
   Along a whole chain: the k-th hop was sent by the k-th agent on the path, the chain is exactly as
   long as the depth, and every hop has the origin's registry, trace and conversation.
   */
  lemma {:induction false} LineageExact(codec: Codec, fleet: Fleet, hops: seq<Hop>, i: nat)
    requires Inv(codec, fleet, hops) && i < |hops|
    ensures Traces(hops, Lineage(hops, i), i)
    decreases i
  {
    hide Received, Distinct, Traces, Inherited;
    assert Stamped(fleet, hops[i].env) && Continues(hops, i);
    match hops[i].parent {
      case None => TracesFirst(hops, i);
      case Some(p) =>
        LineageExact(codec, fleet, hops, p);
        TracesOn(hops, Lineage(hops, p), p, i);
    }
  }

  lemma TracesFirst(hops: seq<Hop>, i: nat)
    requires i < |hops| && hops[i].parent == None && hops[i].env.depth == 1 == |hops[i].env.path|
    ensures Traces(hops, [i], i)
  {
    assert hops[i].env.path[..1] == hops[i].env.path;
  }

  /**
   Registry confinement: every agent on the path of a hop that a member launcher accepted, and the
   acceptor itself, is in one registry. No chain of accepted hops crosses registries.
   */
  lemma RegistryConfinement(codec: Codec, fleet: Fleet, steps: seq<Step>, i: nat)
    requires Lawful(codec) && Deployed(fleet)
    requires i < |Run(codec, fleet, steps)|
    ensures var hop := Run(codec, fleet, steps)[i];
            hop.status.Delivered? ==>
              hop.env.receiver in fleet &&
              (Member(fleet[hop.env.receiver]) ==>
                 forall a :: a == hop.env.receiver || a in hop.env.path ==>
                   a in fleet && fleet[a].registryId == hop.env.registryId)
  {
    MeshInvariant(codec, fleet, steps);
    var hop := Run(codec, fleet, steps)[i];
    assert Stamped(fleet, hop.env) && Received(codec, fleet, hop);
  }
}
