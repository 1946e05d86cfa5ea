/** The discovery server as an object: its handlers, each proved to be a run of the state machine. */
module DiscoveryServer {
  import opened Discovery

  /** A normalised manifest: its content-addressed version and its tools. */
  datatype Manifest = Manifest(version: string, tools: seq<string>)

  /** The body of a control request after reading, size check and JSON decoding. */
  datatype ControlBody = Unreadable | TooLarge | NotJson | Full(manifest: Manifest)

  /** A channel holds the version texts of the install numbers its model queue holds. */
  ghost predicate Holds(channel: seq<string>, versions: seq<string>, installs: seq<nat>) {
    && |channel| == |installs|
    && forall i :: 0 <= i < |installs| ==> installs[i] < |versions| && channel[i] == versions[installs[i]]
  }

  ghost predicate Mirrors(s: State, versions: seq<string>, subscribers: set<nat>, channels: map<nat, seq<string>>) {
    && |s.sending| == |versions| == s.installed
    && subscribers == s.subscribers <= s.streams.Keys == channels.Keys
    && (forall k :: 0 <= k < |s.sending| ==> s.sending[k] <= s.streams.Keys)
    && forall c :: c in channels ==> Holds(channels[c], versions, s.streams[c].buffer)
  }

  /** A bounded queue after a non-blocking send. */
  function Enqueued(queue: seq<string>, version: string): (r: seq<string>)
    ensures |queue| < 8 ==> r == queue + [version]
    ensures |queue| >= 8 ==> r == queue
  {
    if |queue| < QUEUE then queue + [version] else queue
  }

  /** The channels after exactly the given ones were sent the version, each once. */
  ghost function Sent(before: map<nat, seq<string>>, to: set<nat>, version: string): map<nat, seq<string>> {
    map c | c in before :: if c in to then Enqueued(before[c], version) else before[c]
  }

  lemma SendOne(before: map<nat, seq<string>>, to: set<nat>, c: nat, version: string)
    requires c in before && c !in to
    ensures Sent(before, to, version)[c := Enqueued(Sent(before, to, version)[c], version)] == Sent(before, to + {c}, version)
  {
  }

  lemma RunStep(s: State, steps: seq<Step>, step: Step)
    ensures Run(s, steps + [step]) == Apply(Run(s, steps), step)
  {
    assert (steps + [step])[..|steps|] == steps;
  }

  lemma {:induction false} RunTwice(s: State, first: seq<Step>, rest: seq<Step>)
    ensures Run(s, first + rest) == Run(Run(s, first), rest)
  {
    if rest == [] {
      assert first + rest == first;
    } else {
      RunTwice(s, first, rest[..|rest| - 1]);
      assert (first + rest)[..|first + rest| - 1] == first + rest[..|rest| - 1];
    }
  }

  /** A send updates one queue and one channel alike. */
  lemma MirrorsSend(s: State, versions: seq<string>, subscribers: set<nat>, channels: map<nat, seq<string>>, k: nat, c: nat)
    requires Mirrors(s, versions, subscribers, channels) && k < |s.sending| && c in s.sending[k]
    ensures c in channels && c in s.streams && Apply(s, Send(k, c)).sending == s.sending[k := s.sending[k] - {c}]
    ensures Mirrors(Apply(s, Send(k, c)), versions, subscribers, channels[c := Enqueued(channels[c], versions[k])])
  {
    var t, after := Apply(s, Send(k, c)), channels[c := Enqueued(channels[c], versions[k])];
    assert Holds(channels[c], versions, s.streams[c].buffer);
    forall d | d in after ensures Holds(after[d], versions, t.streams[d].buffer) {
      assert d != c ==> Holds(channels[d], versions, s.streams[d].buffer);
    }
  }

  /** A read changes no queue. */
  lemma MirrorsRead(s: State, versions: seq<string>, subscribers: set<nat>, channels: map<nat, seq<string>>, c: nat)
    requires Mirrors(s, versions, subscribers, channels)
    ensures Mirrors(Apply(s, Read(c)), versions, subscribers, channels) && s.installed == |versions|
  {
    var t := Apply(s, Read(c));
    forall d | d in channels ensures Holds(channels[d], versions, t.streams[d].buffer) {
      assert Holds(channels[d], versions, s.streams[d].buffer);
    }
  }

  class Server {
    var manifest: Manifest
    var subscribers: set<nat>
    var channels: map<nat, seq<string>>
    var done: bool
    ghost var model: State
    ghost var versions: seq<string>

    ghost predicate Valid()
      reads this
    {
      && Mirrors(model, versions, subscribers, channels)
      && (versions != [] ==> manifest.version == versions[|versions| - 1])
      && done == model.done
      && model.closes == (if done then 1 else 0)
    }

    constructor (initial: Manifest)
      ensures Valid() && model == Init && manifest == initial
    {
      manifest, subscribers, channels, done := initial, {}, map[], false;
      model, versions := Init, [];
    }

    /** GET /tools, by the client of stream c: the manifest of the last install, which settles one read it owes. */
    method Tools(ghost c: nat) returns (m: Manifest)
      requires Valid()
      modifies this`model
      ensures Valid() && model == Apply(old(model), Read(c))
      ensures m == manifest && (versions != [] ==> m.version == versions[|versions| - 1])
      ensures c in old(model).streams && old(model).streams[c].owed > 0 ==>
                c in model.streams && model.streams[c].read == model.installed == |versions|
    {
      hide Mirrors;
      MirrorsRead(model, versions, subscribers, channels, c);
      m := manifest;
      model := Apply(model, Read(c));
    }

    /** GET /events, first lock section: a new channel is registered. */
    method Register(c: nat)
      requires Valid() && c !in channels
      modifies this
      ensures Valid() && model == Apply(old(model), Subscribe(c))
      ensures subscribers == old(subscribers) + {c} && channels == old(channels)[c := []]
      ensures manifest == old(manifest) && versions == old(versions) && done == old(done)
    {
      subscribers, channels := subscribers + {c}, channels[c := []];
      model := Apply(model, Subscribe(c));
    }

    /** GET /events, one turn of its loop: the oldest queued version goes to the client. */
    method Forward(c: nat) returns (version: string)
      requires Valid() && c in subscribers && channels[c] != []
      modifies this
      ensures Valid() && model == Apply(old(model), Dequeue(c))
      ensures version == old(channels[c])[0] && channels == old(channels)[c := old(channels[c])[1..]]
      ensures manifest == old(manifest) && versions == old(versions)
      ensures subscribers == old(subscribers) && done == old(done)
    {
      version := channels[c][0];
      channels := channels[c := channels[c][1..]];
      model := Apply(model, Dequeue(c));
    }

    /** GET /events, deferred cleanup: the channel is forgotten but never closed. */
    method Unregister(c: nat)
      requires Valid()
      modifies this
      ensures Valid() && model == Apply(old(model), Leave(c))
      ensures subscribers == old(subscribers) - {c} && channels == old(channels)
      ensures manifest == old(manifest) && versions == old(versions) && done == old(done)
    {
      subscribers := subscribers - {c};
      model := Apply(model, Leave(c));
    }

    /** Shutdown may be signalled any number of times; the channel is closed by the first only. */
    method SignalShutdown()
      requires Valid()
      modifies this
      ensures Valid() && model == Apply(old(model), Shutdown) && done && model.closes == 1
      ensures manifest == old(manifest) && versions == old(versions)
      ensures subscribers == old(subscribers) && channels == old(channels)
    {
      if !done {
        done := true;
      }
      model := Apply(model, Shutdown);
    }

    /** POST /control, lock section: swap the manifest and snapshot the subscribers. */
    method Swap(m: Manifest) returns (subs: set<nat>)
      requires Valid()
      modifies this
      ensures Valid() && model == Apply(old(model), Install) && versions == old(versions) + [m.version]
      ensures manifest == m && subs == subscribers == old(subscribers) && channels == old(channels)
    {
      manifest := m;
      subs := subscribers;
      model, versions := Apply(model, Install), versions + [m.version];
    }

    /** POST /control, one turn of the broadcast loop: a send that never blocks. */
    method TrySend(ghost k: nat, c: nat, version: string)
      requires Valid() && k < |model.sending| && c in model.sending[k] && versions[k] == version
      modifies this
      ensures Valid() && model == Apply(old(model), Send(k, c))
      ensures model.sending == old(model.sending)[k := old(model.sending)[k] - {c}]
      ensures c in old(channels) && channels == old(channels)[c := Enqueued(old(channels)[c], version)]
      ensures manifest == old(manifest) && versions == old(versions) && subscribers == old(subscribers)
    {
      hide Mirrors;
      MirrorsSend(model, versions, subscribers, channels, k, c);
      assert channels[c := channels[c]] == channels;
      if |channels[c]| < QUEUE {
        channels := channels[c := channels[c] + [version]];
      }
      model := Apply(model, Send(k, c));
    }

    /** One turn of the broadcast loop, seen from the channels as they were before the broadcast. */
    method Turn(ghost k: nat, c: nat, version: string, ghost start: map<nat, seq<string>>, ghost to: set<nat>,
                ghost from: State, ghost trace: seq<Step>)
      requires Valid() && k < |model.sending| && c in model.sending[k] && versions[k] == version
      requires start.Keys == channels.Keys && channels == Sent(start, to, version) && c !in to
      requires model == Run(from, trace)
      modifies this
      ensures Valid() && model == Run(from, trace + [Send(k, c)])
      ensures |model.sending| > k && model.sending[k] == old(model.sending)[k] - {c}
      ensures start.Keys == channels.Keys && channels == Sent(start, to + {c}, version)
      ensures manifest == old(manifest) && versions == old(versions) && subscribers == old(subscribers)
    {
      SendOne(start, to, c, version);
      RunStep(from, trace, Send(k, c));
      TrySend(k, c, version);
    }

    /** POST /control, the broadcast loop over a snapshot of the subscribers, in any order. */
    method Broadcast(ghost k: nat, subs: set<nat>, version: string) returns (ghost trace: seq<Step>)
      requires Valid() && k < |versions| && versions[k] == version && subs == model.sending[k]
      modifies this
      ensures Valid() && model == Run(old(model), trace)
      ensures manifest == old(manifest) && versions == old(versions) && subscribers == old(subscribers)
      ensures channels == Sent(old(channels), subs, version)
    {
      trace := [];
      var todo := subs;
      ghost var start, from, to := channels, model, {};
      assert channels == Sent(start, to, version);
      while todo != {}
        invariant Valid() && model == Run(from, trace)
        invariant versions == old(versions) && manifest == old(manifest) && subscribers == old(subscribers)
        invariant k < |model.sending| && model.sending[k] == todo
        invariant to !! todo && forall c :: c in subs <==> c in to || c in todo
        invariant start.Keys == channels.Keys && channels == Sent(start, to, version)
        decreases |todo|
      {
        var ch :| ch in todo;
        Turn(k, ch, version, start, to, from, trace);
        trace, to := trace + [Send(k, ch)], to + {ch};
        todo := todo - {ch};
      }
      assert to == subs;
    }

    /**
     POST /control. A bad request changes nothing. Otherwise the manifest is replaced and every
     subscriber with room gets the version; the whole handler is one install followed by its sends.
     */
    method HandleControl(body: ControlBody) returns (status: int, ghost trace: seq<Step>)
      requires Valid()
      modifies this
      ensures Valid() && model == Run(old(model), trace)
      ensures status == match body case Unreadable => 500 case TooLarge => 413 case NotJson => 400 case Full(_) => 204
      ensures !body.Full? ==> trace == [] && manifest == old(manifest) && channels == old(channels)
      ensures body.Full? ==>
                && manifest == body.manifest && subscribers == old(subscribers)
                && channels == Sent(old(channels), subscribers, body.manifest.version)
    {
      trace := [];
      match body {
        case Unreadable => status := 500;
        case TooLarge => status := 413;
        case NotJson => status := 400;
        case Full(m) =>
          ghost var from := model;
          var subs := Swap(m);
          ghost var sends := Broadcast(from.installed, subs, m.version);
          RunTwice(from, [Install], sends);
          trace := [Install] + sends;
          status := 204;
      }
    }
  }
}
