/**
 How far and how wide a conversation can spread: exactly which walks the guards let through, how
 long a chain can get, and how many hops a conversation of bounded fan-out can forward in total.
 */
module MeshBounds {
  import opened Prelude
  import opened Amp
  import opened Mesh

  // ---- Which walks pass the guards -----------------------------------------------------------

  /** A walk with at least one hop, whose senders are members; only those have the outbound surface. */
  ghost predicate Senders(fleet: Fleet, w: seq<string>) {
    |w| >= 2 && forall i :: 0 <= i < |w| - 1 ==> w[i] in fleet && Member(fleet[w[i]])
  }

  /** The last envelope of a walk w[0] -> w[1] -> ... if every hop passes its sender's guards. */
  ghost function Walk(fleet: Fleet, w: seq<string>, payload: string, ids: Fresh): Option<Envelope>
    requires Senders(fleet, w)
  {
    var n := |w|;
    var cfg := fleet[w[n - 2]];
    var before := if n == 2 then None else Walk(fleet, w[..n - 1], payload, ids);
    if n > 2 && before.None? then None
    else
      var env := Stamp(cfg, before, w[n - 1], payload, ids);
      if CheckGuards(env, cfg.maxDepth).Some? then None else Some(env)
  }

  /** The condition on a walk: distinct agents, each sender's depth limit, the origin's budget. */
  ghost predicate WalkAllowed(fleet: Fleet, w: seq<string>)
    requires Senders(fleet, w)
  {
    && Distinct(w)
    && (forall i :: 0 <= i < |w| - 1 ==> i + 1 <= fleet[w[i]].maxDepth)
    && |w| - 1 <= fleet[w[0]].hopBudget
  }

  /** One hop more: a new agent, within its sender's depth limit and the origin's budget. */
  lemma AllowedExtends(fleet: Fleet, front: seq<string>, last: string)
    requires Senders(fleet, front) && Senders(fleet, front + [last]) && front[|front| - 1] in fleet
    ensures WalkAllowed(fleet, front + [last]) <==>
              && WalkAllowed(fleet, front) && last !in front
              && |front| <= fleet[front[|front| - 1]].maxDepth && |front| <= fleet[front[0]].hopBudget
  {
    var w := front + [last];
    DistinctAppend(front, last);
    assert forall i :: 0 <= i < |front| ==> w[i] == front[i];
    if WalkAllowed(fleet, w) {
      assert w[|front| - 1] == front[|front| - 1];
    }
  }

  lemma AllowedFirst(fleet: Fleet, w: seq<string>)
    requires |w| == 2 && Senders(fleet, w)
    ensures WalkAllowed(fleet, w) <==> w[0] != w[1] && 1 <= fleet[w[0]].maxDepth && 1 <= fleet[w[0]].hopBudget
  {
  }

  /** What a walk's last envelope says, as far as the guards of the next hop depend on it. */
  ghost predicate Recorded(fleet: Fleet, w: seq<string>, env: Envelope)
    requires |w| >= 2 && w[0] in fleet
  {
    && env.path == w[..|w| - 1] && env.depth == |w| - 1 && env.budget == fleet[w[0]].hopBudget - (|w| - 2)
  }

  lemma StampRecords(fleet: Fleet, front: seq<string>, last: string, before: Envelope, payload: string, ids: Fresh)
    requires |front| >= 2 && front[0] in fleet && front[|front| - 1] in fleet
    requires fleet[front[|front| - 1]].self == front[|front| - 1]
    requires Recorded(fleet, front, before)
    ensures var cfg := fleet[front[|front| - 1]];
            var env := Stamp(cfg, Some(before), last, payload, ids);
            && Recorded(fleet, front + [last], env)
            && (CheckGuards(env, cfg.maxDepth).None? <==>
                  last !in front && |front| <= cfg.maxDepth && |front| <= fleet[front[0]].hopBudget)
  {
    assert front == front[..|front| - 1] + [front[|front| - 1]];
    assert (front + [last])[..|front|] == front;
  }

  lemma FirstHopExact(fleet: Fleet, w: seq<string>, payload: string, ids: Fresh)
    requires Deployed(fleet) && |w| == 2 && Senders(fleet, w)
    ensures Walk(fleet, w, payload, ids).Some? <==> WalkAllowed(fleet, w)
    ensures Walk(fleet, w, payload, ids).Some? ==> Recorded(fleet, w, Walk(fleet, w, payload, ids).value)
  {
    AllowedFirst(fleet, w);
    assert w[..1] == [w[0]];
  }

  lemma NextHopExact(fleet: Fleet, front: seq<string>, last: string, payload: string, ids: Fresh)
    requires Deployed(fleet) && Senders(fleet, front) && Senders(fleet, front + [last])
    requires Walk(fleet, front, payload, ids).Some? <==> WalkAllowed(fleet, front)
    requires Walk(fleet, front, payload, ids).Some? ==> Recorded(fleet, front, Walk(fleet, front, payload, ids).value)
    ensures var w := front + [last];
            && (Walk(fleet, w, payload, ids).Some? <==> WalkAllowed(fleet, w))
            && (Walk(fleet, w, payload, ids).Some? ==> Recorded(fleet, w, Walk(fleet, w, payload, ids).value))
  {
    var w := front + [last];
    assert w[..|w| - 1] == front && w[|front| - 1] == front[|front| - 1];
    AllowedExtends(fleet, front, last);
    var before := Walk(fleet, front, payload, ids);
    if before.Some? {
      StampRecords(fleet, front, last, before.value, payload, ids);
    }
  }

  /** Guard exactness: a walk passes every guard if and only if it is allowed. */
  lemma {:induction false} GuardsExact(fleet: Fleet, w: seq<string>, payload: string, ids: Fresh)
    requires Deployed(fleet) && Senders(fleet, w)
    ensures Walk(fleet, w, payload, ids).Some? <==> WalkAllowed(fleet, w)
    ensures Walk(fleet, w, payload, ids).Some? ==> Recorded(fleet, w, Walk(fleet, w, payload, ids).value)
  {
    if |w| == 2 {
      FirstHopExact(fleet, w, payload, ids);
    } else {
      var front, last := w[..|w| - 1], w[|w| - 1];
      assert w == front + [last];
      GuardsExact(fleet, front, payload, ids);
      NextHopExact(fleet, front, last, payload, ids);
    }
  }

  /**
   With one depth limit and one hop budget everywhere, a walk of k hops passes if and only if its
   agents are distinct and k is within both limits: a budget of N permits exactly N hops.
   */
  lemma UniformGuardsExact(fleet: Fleet, w: seq<string>, payload: string, ids: Fresh, depthLimit: int, budget: int)
    requires Deployed(fleet) && Senders(fleet, w)
    requires forall i :: 0 <= i < |w| - 1 ==> fleet[w[i]].maxDepth == depthLimit && fleet[w[i]].hopBudget == budget
    ensures Walk(fleet, w, payload, ids).Some? <==> Distinct(w) && |w| - 1 <= depthLimit && |w| - 1 <= budget
  {
    GuardsExact(fleet, w, payload, ids);
    assert fleet[w[|w| - 2]].maxDepth == depthLimit;
  }

  // ---- Which walks happen --------------------------------------------------------------------

  /** Some hop of the log ends the walk: it was sent along it, to its last agent. */
  ghost predicate Forwards(hops: seq<Hop>, w: seq<string>) {
    |w| >= 2 && exists i :: 0 <= i < |hops| && Ends(hops[i].env, w)
  }

  ghost predicate Ends(env: Envelope, w: seq<string>)
    requires |w| >= 2
  {
    env.path == w[..|w| - 1] && env.receiver == w[|w| - 1]
  }

  /** The i-th agent accepts a call from the one before it. */
  ghost predicate WelcomeAt(fleet: Fleet, w: seq<string>, i: nat)
    requires Senders(fleet, w) && 1 <= i < |w| - 1
  {
    && fleet[w[i]].registryId == fleet[w[0]].registryId
    && fleet[w[i - 1]].role != ""
    && (fleet[w[i]].allowedCallers == [] || w[i - 1] in fleet[w[i]].allowedCallers)
  }

  /** Every target is a short DNS label. */
  ghost predicate Targets(w: seq<string>) {
    forall i :: 1 <= i < |w| ==> Label(w[i])
  }

  /** Every agent between the ends is of the origin's registry and allows the agent before it. */
  ghost predicate Welcome(fleet: Fleet, w: seq<string>)
    requires Senders(fleet, w)
  {
    forall i: nat :: 1 <= i < |w| - 1 ==> WelcomeAt(fleet, w, i)
  }

  lemma SendersFront(fleet: Fleet, w: seq<string>)
    requires Senders(fleet, w) && |w| >= 3
    ensures Senders(fleet, w[..|w| - 1])
    ensures Welcome(fleet, w) <==> Welcome(fleet, w[..|w| - 1]) && WelcomeAt(fleet, w, |w| - 2)
  {
    var front := w[..|w| - 1];
    forall i: nat | 1 <= i < |front| - 1 ensures WelcomeAt(fleet, front, i) <==> WelcomeAt(fleet, w, i) {
      assert front[i] == w[i] && front[i - 1] == w[i - 1];
    }
  }

  /** A hop that ends a longer walk continues a delivered one that ends the walk before its last agent. */
  lemma ForwardedFrom(codec: Codec, fleet: Fleet, hops: seq<Hop>, i: nat, w: seq<string>) returns (p: nat)
    requires Inv(codec, fleet, hops) && i < |hops| && |w| >= 3 && Ends(hops[i].env, w)
    ensures p < i && hops[p].status.Delivered? && Ends(hops[p].env, w[..|w| - 1]) && Received(codec, fleet, hops[p])
    ensures Stamped(fleet, hops[p].env)
  {
    hide Received;
    assert Stamped(fleet, hops[i].env) && Continues(hops, i);
    var before, front := hops[hops[i].parent.value].env, w[..|w| - 1];
    p := hops[i].parent.value;
    assert Stamped(fleet, before) && Received(codec, fleet, hops[p]);
    assert front == before.path + [before.receiver];
    assert front[..|front| - 1] == before.path && front[|front| - 1] == before.receiver;
  }

  /** Whatever is forwarded along a walk was let through by every guard and welcomed by every agent on the way. */
  lemma {:induction false} ForwardedIsAllowed(codec: Codec, fleet: Fleet, hops: seq<Hop>, i: nat, w: seq<string>)
    requires Inv(codec, fleet, hops) && i < |hops| && Senders(fleet, w) && Ends(hops[i].env, w)
    ensures WalkAllowed(fleet, w) && Welcome(fleet, w) && Targets(w)
    decreases |w|
  {
    hide Received, Continues, Label;
    var env := hops[i].env;
    assert Stamped(fleet, env);
    assert w == env.path + [env.receiver];
    DistinctAppend(env.path, env.receiver);
    assert forall k :: 0 <= k < |env.path| ==> env.path[k] == w[k];
    if |w| >= 3 {
      var p := ForwardedFrom(codec, fleet, hops, i, w);
      SendersFront(fleet, w);
      ForwardedIsAllowed(codec, fleet, hops, p, w[..|w| - 1]);
      WelcomedAt(codec, fleet, hops[p], w);
    }
  }

  lemma WelcomedAt(codec: Codec, fleet: Fleet, hop: Hop, w: seq<string>)
    requires Senders(fleet, w) && |w| >= 3 && Ends(hop.env, w[..|w| - 1])
    requires Stamped(fleet, hop.env) && hop.status.Delivered? && Received(codec, fleet, hop)
    ensures WelcomeAt(fleet, w, |w| - 2)
  {
    var env, n := hop.env, |w|;
    assert env.receiver == w[n - 2] && env.path == w[..n - 2];
    assert env.sender == w[n - 3] && env.path[0] == w[0];
  }

  const IDS := Fresh("message", "trace", "conversation")

  /** The run that walks: each agent is delivered the call and makes the next. */
  function Route(w: seq<string>): seq<Step>
    requires |w| >= 2
  {
    var n := |w|;
    if n == 2 then [First(w[0], w[1], "", IDS, Sync)]
    else Route(w[..n - 1]) + [Deliver(n - 3, CurrentName, ""), Chain(n - 3, CurrentName, w[n - 1], "", IDS, Sync)]
  }

  lemma RunTwo(codec: Codec, fleet: Fleet, steps: seq<Step>, x: Step, y: Step)
    ensures Run(codec, fleet, steps + [x, y]) == Apply(codec, fleet, Apply(codec, fleet, Run(codec, fleet, steps), x), y)
  {
    hide Apply;
    assert (steps + [x, y])[..|steps| + 1] == steps + [x] && (steps + [x])[..|steps|] == steps;
  }

  /** The log the route leaves: its last hop carries the walk's envelope and is still in flight. */
  ghost predicate Routed(fleet: Fleet, w: seq<string>, hops: seq<Hop>)
    requires Senders(fleet, w)
  {
    && |hops| == |w| - 1
    && Walk(fleet, w, "", IDS).Some?
    && hops[|w| - 2].env == Walk(fleet, w, "", IDS).value
    && hops[|w| - 2].transport == Sync && hops[|w| - 2].status == InFlight
  }

  lemma RouteFirst(codec: Codec, fleet: Fleet, w: seq<string>)
    requires |w| == 2 && Senders(fleet, w) && Walk(fleet, w, "", IDS).Some? && Targets(w)
    ensures Routed(fleet, w, Run(codec, fleet, Route(w)))
  {
    assert Route(w)[..0] == [];
    assert Run(codec, fleet, Route(w)) == Apply(codec, fleet, [], First(w[0], w[1], "", IDS, Sync));
  }

  /** The callee lets the call in. */
  lemma RouteDelivers(codec: Codec, fleet: Fleet, w: seq<string>, hops: seq<Hop>)
    requires Lawful(codec) && Senders(fleet, w) && |w| >= 3 && Senders(fleet, w[..|w| - 1])
    requires Routed(fleet, w[..|w| - 1], hops) && WelcomeAt(fleet, w, |w| - 2)
    requires var env := hops[|w| - 3].env;
             env.registryId == fleet[w[0]].registryId && env.role == fleet[w[|w| - 3]].role && env.sender == w[|w| - 3]
             && env.receiver == w[|w| - 2]
    ensures var k := |w| - 3;
            Apply(codec, fleet, hops, Deliver(k, CurrentName, ""))
            == hops[k := hops[k].(status := Delivered(codec.marshal(hops[k].env)))]
  {
    var env := hops[|w| - 3].env;
    HeaderNamesAgree(codec, fleet[w[|w| - 2]], env, codec.marshal(env), "");
  }

  /** The agent it was delivered to makes the next call. */
  lemma RouteChains(codec: Codec, fleet: Fleet, w: seq<string>, hops: seq<Hop>, sent: seq<Hop>)
    requires Lawful(codec) && Senders(fleet, w) && |w| >= 3 && Senders(fleet, w[..|w| - 1])
    requires Routed(fleet, w[..|w| - 1], hops) && Walk(fleet, w, "", IDS).Some? && Label(w[|w| - 1])
    requires var k := |w| - 3; sent == hops[k := hops[k].(status := Delivered(codec.marshal(hops[k].env)))]
    requires hops[|w| - 3].env.receiver == w[|w| - 2]
    ensures Routed(fleet, w, Apply(codec, fleet, sent, Chain(|w| - 3, CurrentName, w[|w| - 1], "", IDS, Sync)))
  {
    hide CheckGuards;
    var env := hops[|w| - 3].env;
    assert codec.strict(codec.marshal(env)) == Some(env);
    assert w[..|w| - 1][|w| - 3] == w[|w| - 3];
  }

  /** What the walk's envelope says of its ends. */
  lemma {:induction false} WalkEnvelope(fleet: Fleet, w: seq<string>)
    requires Deployed(fleet) && Senders(fleet, w) && Walk(fleet, w, "", IDS).Some?
    ensures var env := Walk(fleet, w, "", IDS).value;
            && env.registryId == fleet[w[0]].registryId && env.role == fleet[w[|w| - 2]].role
            && env.sender == w[|w| - 2] && Ends(env, w)
  {
    hide CheckGuards, WalkAllowed;
    GuardsExact(fleet, w, "", IDS);
    if |w| >= 3 {
      var front := w[..|w| - 1];
      WalkEnvelope(fleet, front);
      assert front[0] == w[0];
    }
  }

  /** One agent further along the route. */
  lemma RouteOnward(codec: Codec, fleet: Fleet, w: seq<string>)
    requires Lawful(codec) && Deployed(fleet) && Senders(fleet, w) && |w| >= 3 && Senders(fleet, w[..|w| - 1])
    requires Walk(fleet, w, "", IDS).Some? && WelcomeAt(fleet, w, |w| - 2) && Label(w[|w| - 1])
    requires Routed(fleet, w[..|w| - 1], Run(codec, fleet, Route(w[..|w| - 1])))
    ensures Routed(fleet, w, Run(codec, fleet, Route(w)))
  {
    hide Apply, Run, WelcomeAt, Deployed, Lawful, CheckGuards, Walk, Label;
    var front, n := w[..|w| - 1], |w|;
    WalkEnvelope(fleet, front);
    var hops := Run(codec, fleet, Route(front));
    assert front[0] == w[0] && front[n - 2] == w[n - 2] && front[n - 3] == w[n - 3];
    RouteDelivers(codec, fleet, w, hops);
    RouteChains(codec, fleet, w, hops, Apply(codec, fleet, hops, Deliver(n - 3, CurrentName, "")));
    RunTwo(codec, fleet, Route(front), Deliver(n - 3, CurrentName, ""), Chain(n - 3, CurrentName, w[n - 1], "", IDS, Sync));
  }

  lemma {:induction false} RouteWalks(codec: Codec, fleet: Fleet, w: seq<string>)
    requires Lawful(codec) && Deployed(fleet) && Senders(fleet, w)
    requires Walk(fleet, w, "", IDS).Some? && Welcome(fleet, w) && Targets(w)
    ensures Routed(fleet, w, Run(codec, fleet, Route(w)))
  {
    hide Apply, Run, WelcomeAt, Deployed, Lawful, CheckGuards, Label, Routed, Route;
    if |w| == 2 {
      RouteFirst(codec, fleet, w);
    } else {
      SendersFront(fleet, w);
      assert Walk(fleet, w[..|w| - 1], "", IDS).Some?;
      RouteWalks(codec, fleet, w[..|w| - 1]);
      RouteOnward(codec, fleet, w);
    }
  }

  /**
   Which walks happen: some run forwards a call along a walk of members if and only if the walk passes
   every guard, its targets are labels, and every agent on the way is of the origin's registry and
   allows the one before it.
   */
  lemma WalksExact(codec: Codec, fleet: Fleet, w: seq<string>)
    requires Lawful(codec) && Deployed(fleet) && Senders(fleet, w)
    ensures (exists steps :: Forwards(Run(codec, fleet, steps), w)) <==>
              WalkAllowed(fleet, w) && Welcome(fleet, w) && Targets(w)
  {
    hide Run, WalkAllowed, Welcome, Inv, Lawful, Deployed, Ends, Walk;
    assert |w| >= 2;
    if steps :| Forwards(Run(codec, fleet, steps), w) {
      var hops := Run(codec, fleet, steps);
      var i :| 0 <= i < |hops| && Ends(hops[i].env, w);
      MeshInvariant(codec, fleet, steps);
      ForwardedIsAllowed(codec, fleet, hops, i, w);
    }
    if WalkAllowed(fleet, w) && Welcome(fleet, w) && Targets(w) {
      GuardsExact(fleet, w, "", IDS);
      RouteWalks(codec, fleet, w);
      WalkEnvelope(fleet, w);
      assert Ends(Run(codec, fleet, Route(w))[|w| - 2].env, w);
      assert Forwards(Run(codec, fleet, Route(w)), w);
    }
  }

  /**
   With mixed limits a chain can outgrow the depth limit of one of its forwarders, because each
   launcher checks only the hop it sends itself: some run of this mesh forwards such a chain.
   */
  lemma ChainOutgrowsAForwarder(codec: Codec)
    requires Lawful(codec)
    ensures var shallow := Config("r", "a", "worker", [], 1, 32, false);
            var deep := Config("r", "b", "worker", [], 8, 32, false);
            var fleet := map["a" := shallow, "b" := deep];
            && Deployed(fleet) && 2 > fleet["a"].maxDepth
            && exists steps :: Forwards(Run(codec, fleet, steps), ["a", "b", "c"])
  {
    hide Lawful, Forwards, Run;
    var fleet := map["a" := Config("r", "a", "worker", [], 1, 32, false),
                     "b" := Config("r", "b", "worker", [], 8, 32, false)];
    var w := ["a", "b", "c"];
    assert "a" != "b" && "b" != "c" && "a" != "c";
    assert fleet[w[0]].maxDepth == 1 && fleet[w[1]].maxDepth == 8;
    assert forall i :: 0 <= i < |w| - 1 ==> w[i] == w[0] || (i == 1 && w[i] == w[1]);
    assert WelcomeAt(fleet, w, 1);
    assert Label("b") && Label("c");
    WalksExact(codec, fleet, w);
  }

  // ---- How long a chain can get --------------------------------------------------------------

  /**
   Every forwarded hop, in every run: its depth is within the origin's hop budget and within the
   depth limit of its sender, and the path being duplicate-free, within the number of agents; one
   less when it was delivered, because then the receiver is an agent too.
   */
  lemma ChainBound(codec: Codec, fleet: Fleet, steps: seq<Step>, i: nat)
    requires Lawful(codec) && Deployed(fleet)
    requires i < |Run(codec, fleet, steps)|
    ensures var hop := Run(codec, fleet, steps)[i];
            && |hop.env.path| == hop.env.depth >= 1
            && hop.env.path[0] in fleet && hop.env.depth <= fleet[hop.env.path[0]].hopBudget
            && hop.env.sender in fleet && hop.env.depth <= fleet[hop.env.sender].maxDepth
            && hop.env.depth <= |fleet|
            && (hop.status.Delivered? ==> hop.env.depth <= |fleet| - 1)
  {
    MeshInvariant(codec, fleet, steps);
    var hop := Run(codec, fleet, steps)[i];
    assert Stamped(fleet, hop.env) && Received(codec, fleet, hop);
    DistinctWithin(hop.env.path, fleet.Keys);
    assert |fleet.Keys| == |fleet|;
    if hop.status.Delivered? {
      DistinctAppend(hop.env.path, hop.env.receiver);
      DistinctWithin(hop.env.path + [hop.env.receiver], fleet.Keys);
    }
  }

  // ---- How wide a conversation can get -------------------------------------------------------

  ghost predicate In(hops: seq<Hop>, conv: string, i: nat) {
    i < |hops| && hops[i].env.conversationId == conv
  }

  /** All hops of one conversation. */
  ghost function Conversation(hops: seq<Hop>, conv: string): set<nat> {
    set i: nat | i < |hops| && In(hops, conv, i)
  }

  ghost function Roots(hops: seq<Hop>, conv: string): set<nat> {
    set i: nat | i < |hops| && In(hops, conv, i) && hops[i].parent == None
  }

  ghost function Children(hops: seq<Hop>, p: nat): set<nat> {
    set i: nat | i < |hops| && hops[i].parent == Some(p)
  }

  ghost function ChildrenOf(hops: seq<Hop>, ps: set<nat>): set<nat> {
    set i: nat | i < |hops| && hops[i].parent.Some? && hops[i].parent.value in ps
  }

  ghost function Level(hops: seq<Hop>, conv: string, d: int): set<nat> {
    set i: nat | i < |hops| && In(hops, conv, i) && hops[i].env.depth == d
  }

  ghost function Upto(hops: seq<Hop>, conv: string, d: int): set<nat> {
    set i: nat | i < |hops| && In(hops, conv, i) && hops[i].env.depth <= d
  }

  /** In one conversation: at most f first calls, and at most f from each of its hops. */
  ghost predicate FanOut(hops: seq<Hop>, conv: string, f: nat) {
    |Roots(hops, conv)| <= f && forall p: nat :: In(hops, conv, p) ==> |Children(hops, p)| <= f
  }

  /** f + f^2 + ... + f^d */
  function Geometric(f: nat, d: nat): nat {
    if d == 0 then 0 else Geometric(f, d - 1) + Power(f, d)
  }

  lemma {:induction false} ChildrenCount(hops: seq<Hop>, conv: string, ps: set<nat>, f: nat)
    requires FanOut(hops, conv, f) && forall p :: p in ps ==> In(hops, conv, p)
    ensures |ChildrenOf(hops, ps)| <= f * |ps|
  {
    hide In;
    if ps == {} {
      assert ChildrenOf(hops, ps) == {};
    } else {
      var p :| p in ps;
      var rest := ps - {p};
      ChildrenCount(hops, conv, rest, f);
      assert ChildrenOf(hops, ps) == ChildrenOf(hops, rest) + Children(hops, p);
      assert |ChildrenOf(hops, ps)| <= |ChildrenOf(hops, rest)| + |Children(hops, p)|;
      assert |ps| == |rest| + 1;
      assert f * |ps| == f * |rest| + f;
    }
  }

  lemma SubsetCount<T>(a: set<T>, b: set<T>)
    requires a <= b
    ensures |a| <= |b|
  {
    assert b == a + (b - a);
  }

  /** A hop is one deeper than its parent and of the same conversation; the hops of depth one are the roots. */
  ghost predicate LayeredAt(hops: seq<Hop>, i: nat)
    requires i < |hops|
  {
    match hops[i].parent
    case None => hops[i].env.depth == 1
    case Some(p) =>
      && p < |hops| && hops[i].env.depth == hops[p].env.depth + 1 && hops[p].env.depth >= 1
      && hops[i].env.conversationId == hops[p].env.conversationId
  }

  ghost predicate Layered(hops: seq<Hop>) {
    forall i :: 0 <= i < |hops| ==> LayeredAt(hops, i)
  }

  lemma InvLayered(codec: Codec, fleet: Fleet, hops: seq<Hop>)
    requires Inv(codec, fleet, hops)
    ensures Layered(hops)
  {
    forall i | 0 <= i < |hops| ensures LayeredAt(hops, i) {
      assert Stamped(fleet, hops[i].env) && Continues(hops, i);
      match hops[i].parent {
        case None =>
        case Some(p) => assert Stamped(fleet, hops[p].env);
      }
    }
  }

  lemma TimesMonotone(f: nat, a: nat, b: nat)
    requires a <= b
    ensures f * a <= f * b
  {
  }

  /** The hops of one depth of a conversation number at most f to that depth. */
  lemma {:induction false} LevelCount(hops: seq<Hop>, conv: string, f: nat, d: nat)
    requires Layered(hops) && FanOut(hops, conv, f) && d >= 1
    ensures |Level(hops, conv, d)| <= Power(f, d)
  {
    if d == 1 {
      forall i | i in Level(hops, conv, 1) ensures i in Roots(hops, conv) {
        assert LayeredAt(hops, i);
      }
      SubsetCount(Level(hops, conv, 1), Roots(hops, conv));
      assert Power(f, 1) == f * Power(f, 0) == f;
    } else {
      LevelCount(hops, conv, f, d - 1);
      var above := Level(hops, conv, d - 1);
      ChildrenCount(hops, conv, above, f);
      forall i | i in Level(hops, conv, d) ensures i in ChildrenOf(hops, above) {
        assert LayeredAt(hops, i);
      }
      SubsetCount(Level(hops, conv, d), ChildrenOf(hops, above));
      TimesMonotone(f, |above|, Power(f, d - 1));
    }
  }

  lemma {:induction false} UptoCount(hops: seq<Hop>, conv: string, f: nat, d: nat)
    requires Layered(hops) && FanOut(hops, conv, f)
    ensures |Upto(hops, conv, d)| <= Geometric(f, d)
  {
    if d == 0 {
      forall i: nat | i < |hops| ensures hops[i].env.depth >= 1 {
        assert LayeredAt(hops, i);
      }
      assert Upto(hops, conv, 0) == {};
    } else {
      UptoCount(hops, conv, f, d - 1);
      LevelCount(hops, conv, f, d);
      assert Upto(hops, conv, d) == Upto(hops, conv, d - 1) + Level(hops, conv, d);
    }
  }

  ghost predicate Limited(fleet: Fleet, d: nat) {
    forall a :: a in fleet && Member(fleet[a]) ==> fleet[a].maxDepth <= d
  }

  lemma WithinLimit(codec: Codec, fleet: Fleet, hops: seq<Hop>, i: nat, d: nat)
    requires Inv(codec, fleet, hops) && i < |hops| && Limited(fleet, d)
    ensures hops[i].env.depth <= d
  {
    assert Stamped(fleet, hops[i].env);
    assert hops[i].env.path[|hops[i].env.path| - 1] in fleet;
  }

  /**
   Tree bound, for each conversation of every run, whatever else the run interleaves: when no
   member's depth limit exceeds d, a conversation whose origin and delivered hops make at most f calls
   each forwards at most f + f^2 + ... + f^d hops.
   */
  lemma TreeBound(codec: Codec, fleet: Fleet, steps: seq<Step>, conv: string, f: nat, d: nat)
    requires Lawful(codec) && Deployed(fleet) && Limited(fleet, d)
    requires FanOut(Run(codec, fleet, steps), conv, f)
    ensures |Conversation(Run(codec, fleet, steps), conv)| <= Geometric(f, d)
  {
    hide Run, Inv, FanOut, Limited;
    var hops := Run(codec, fleet, steps);
    MeshInvariant(codec, fleet, steps);
    InvLayered(codec, fleet, hops);
    UptoCount(hops, conv, f, d);
    forall i: nat | i < |hops| ensures hops[i].env.depth <= d {
      WithinLimit(codec, fleet, hops, i, d);
    }
    assert Upto(hops, conv, d) == Conversation(hops, conv);
  }

  lemma OneMore(n: nat, g: nat)
    ensures (n + 1) * g == n * g + g
  {
  }

  ghost function Conversations(hops: seq<Hop>, convs: set<string>): set<nat> {
    set i: nat | i < |hops| && hops[i].env.conversationId in convs
  }

  lemma NoConversations(hops: seq<Hop>)
    ensures Conversations(hops, {}) == {}
  {
  }

  lemma ConversationsStep(hops: seq<Hop>, convs: set<string>, conv: string)
    requires conv in convs
    ensures |Conversations(hops, convs)| <= |Conversations(hops, convs - {conv})| + |Conversation(hops, conv)|
    ensures |convs| == |convs - {conv}| + 1
  {
    assert Conversations(hops, convs) == Conversations(hops, convs - {conv}) + Conversation(hops, conv);
    assert convs == (convs - {conv}) + {conv};
  }

  /** Any number of interleaved conversations of that fan-out together forward at most so many times the bound. */
  lemma {:induction false} ForestBound(codec: Codec, fleet: Fleet, steps: seq<Step>, convs: set<string>, f: nat, d: nat)
    requires Lawful(codec) && Deployed(fleet) && Limited(fleet, d)
    requires forall conv :: conv in convs ==> FanOut(Run(codec, fleet, steps), conv, f)
    ensures |Conversations(Run(codec, fleet, steps), convs)| <= |convs| * Geometric(f, d)
  {
    hide Run, FanOut, Limited, Geometric, Conversations, Conversation, Inherited;
    var hops := Run(codec, fleet, steps);
    if convs == {} {
      NoConversations(hops);
    } else {
      var conv :| conv in convs;
      var rest := convs - {conv};
      ForestBound(codec, fleet, steps, rest, f, d);
      TreeBound(codec, fleet, steps, conv, f, d);
      ConversationsStep(hops, convs, conv);
      OneMore(|rest|, Geometric(f, d));
    }
  }

  // ---- Termination ---------------------------------------------------------------------------

  /** A step forwarded or resolved a hop of the conversation. */
  ghost predicate Touched(before: seq<Hop>, after: seq<Hop>, conv: string) {
    exists i: nat :: In(after, conv, i) && (i >= |before| || after[i] != before[i])
  }

  /** How many steps of a run changed anything in a conversation. */
  ghost function Effective(codec: Codec, fleet: Fleet, steps: seq<Step>, conv: string): nat {
    if steps == [] then 0
    else
      var front := steps[..|steps| - 1];
      Effective(codec, fleet, front, conv)
      + if Touched(Run(codec, fleet, front), Run(codec, fleet, steps), conv) then 1 else 0
  }

  /** One for each hop of the conversation forwarded, one more for each resolved. */
  ghost function Work(hops: seq<Hop>, conv: string): nat {
    if hops == [] then 0
    else
      var last := hops[|hops| - 1];
      Work(hops[..|hops| - 1], conv)
      + if last.env.conversationId != conv then 0 else if last.status.InFlight? then 1 else 2
  }

  lemma {:induction false} WorkOfResolved(hops: seq<Hop>, k: nat, hop: Hop, conv: string)
    requires k < |hops| && hops[k].status.InFlight? && !hop.status.InFlight? && hop.env == hops[k].env
    ensures Work(hops[k := hop], conv) == Work(hops, conv) + if hop.env.conversationId == conv then 1 else 0
  {
    var last := |hops| - 1;
    if k == last {
      assert hops[k := hop][..last] == hops[..last];
    } else {
      WorkOfResolved(hops[..last], k, hop, conv);
      assert hops[k := hop][..last] == hops[..last][k := hop];
    }
  }

  lemma {:induction false} WorkBound(hops: seq<Hop>, conv: string)
    ensures Work(hops, conv) <= 2 * |Conversation(hops, conv)|
  {
    if hops != [] {
      var n := |hops| - 1;
      WorkBound(hops[..n], conv);
      assert Conversation(hops, conv) == Conversation(hops[..n], conv) + if In(hops, conv, n) then {n} else {};
    }
  }

  lemma TouchedAt(before: seq<Hop>, after: seq<Hop>, conv: string, k: nat)
    requires k < |after| && (k >= |before| || after[k] != before[k])
    requires forall i :: 0 <= i < |after| && i != k ==> i < |before| && after[i] == before[i]
    ensures Touched(before, after, conv) <==> after[k].env.conversationId == conv
  {
    assert In(after, conv, k) <==> after[k].env.conversationId == conv;
  }

  lemma Untouched(hops: seq<Hop>, conv: string)
    ensures !Touched(hops, hops, conv)
  {
  }

  lemma WorkStep(codec: Codec, fleet: Fleet, hops: seq<Hop>, step: Step, conv: string)
    ensures var after := Apply(codec, fleet, hops, step);
            Work(after, conv) == Work(hops, conv) + if Touched(hops, after, conv) then 1 else 0
  {
    hide Touched, Decide, Admits;
    var after := Apply(codec, fleet, hops, step);
    if after == hops {
      Untouched(hops, conv);
    } else if step.Deliver? || step.Lose? {
      WorkOfResolved(hops, step.hop, after[step.hop], conv);
      TouchedAt(hops, after, conv, step.hop);
    } else {
      assert after[..|hops|] == hops;
      TouchedAt(hops, after, conv, |hops|);
    }
  }

  /** Every effective step adds exactly one unit of work, so a conversation makes no progress for free. */
  lemma {:induction false} EffectiveIsWork(codec: Codec, fleet: Fleet, steps: seq<Step>, conv: string)
    ensures Effective(codec, fleet, steps, conv) == Work(Run(codec, fleet, steps), conv)
  {
    hide Apply, Touched, Work;
    if steps != [] {
      var front, step := steps[..|steps| - 1], steps[|steps| - 1];
      EffectiveIsWork(codec, fleet, front, conv);
      WorkStep(codec, fleet, Run(codec, fleet, front), step, conv);
    } else {
      NoWork(conv);
    }
  }

  lemma NoWork(conv: string)
    ensures Work([], conv) == 0
  {
  }

  /** Conversations terminate: with bounded fan-out none has more effective steps than twice the tree bound. */
  lemma ExecutionBound(codec: Codec, fleet: Fleet, steps: seq<Step>, conv: string, f: nat, d: nat)
    requires Lawful(codec) && Deployed(fleet) && Limited(fleet, d)
    requires FanOut(Run(codec, fleet, steps), conv, f)
    ensures Effective(codec, fleet, steps, conv) <= 2 * Geometric(f, d)
  {
    hide Run, FanOut, Limited, Geometric, Effective, Work, Conversation;
    TreeBound(codec, fleet, steps, conv, f, d);
    EffectiveIsWork(codec, fleet, steps, conv);
    WorkBound(Run(codec, fleet, steps), conv);
  }
}
