/** The consume handler as an object over the shared seen-set, proved to be a run of the machine. */
module AsyncHandler {
  import opened Prelude
  import Amp
  import CloudEvents
  import opened AsyncConsumer

  /** A store operation that succeeds, or whose reply is lost before or after it takes effect. */
  datatype Fault = Healthy | FailsBefore | FailsAfter

  /** The store shared by all replicas: one expiring key per message id. */
  class SeenSet {
    var seen: map<string, int>

    constructor ()
      ensures seen == map[]
    {
      seen := map[];
    }

    /** One atomic set-if-absent with a time to live; the error hides whether it took effect. */
    method MarkSeen(id: string, now: int, ttl: nat, fault: Fault) returns (r: Result<bool, ()>)
      modifies this
      ensures r.Ok? <==> fault == Healthy
      ensures r.Ok? ==> r.value == !Held(old(seen), id, now)
      ensures seen == if fault != FailsBefore && !Held(old(seen), id, now) then old(seen)[id := now + ttl] else old(seen)
    {
      if fault == FailsBefore {
        return Err(());
      }
      var first := !(id in seen && now < seen[id]);
      if first {
        seen := seen[id := now + ttl];
      }
      return if fault == FailsAfter then Err(()) else Ok(first);
    }
  }

  /** The steps one handler takes for delivery d when nobody interferes. */
  function Path(d: nat, fault: Fault, rehydrates: bool, result: Invoked): seq<Step> {
    if fault != Healthy then [MarkError(d, fault == FailsAfter)]
    else [Mark(d), Rehydrate(d, rehydrates), Invoke(d, result)]
  }

  lemma PathRuns(ttl: nat, s: State, d: nat, fault: Fault, rehydrates: bool, result: Invoked)
    requires d < |s.deliveries| && s.deliveries[d].phase.Arrived?
    ensures var id := s.deliveries[d].id;
            var held := Held(s.seen, id, s.now);
            var after := Run(ttl, s, Path(d, fault, rehydrates, result));
            && d < |after.deliveries|
            && after.seen == (if fault != FailsBefore && !held then s.seen[id := s.now + ttl] else s.seen)
            && after.deliveries[d].phase ==
                 if fault != Healthy then StoreFailed(s.now, fault == FailsAfter && !held)
                 else if held then Duplicate(s.now)
                 else if !rehydrates then RehydrateFailed(s.now)
                 else Finished(s.now, result)
  {
    var path := Path(d, fault, rehydrates, result);
    if fault != Healthy {
      assert path[..0] == [];
      assert Run(ttl, s, path) == Apply(ttl, Run(ttl, s, path[..0]), path[0]);
    } else {
      var s1 := Apply(ttl, s, Mark(d));
      var s2 := Apply(ttl, s1, Rehydrate(d, rehydrates));
      assert path[..2] == [Mark(d), Rehydrate(d, rehydrates)];
      assert path[..2][..1] == [Mark(d)] && path[..2][..1][..0] == [];
      assert Run(ttl, s, path[..2][..1]) == s1;
      assert Run(ttl, s, path[..2]) == s2;
    }
  }

  class Consumer {
    /** Absent when no store is configured: then every message counts as first seen. */
    const store: SeenSet?
    const ttl: nat

    constructor (store: SeenSet?, ttl: nat)
      ensures this.store == store && this.ttl == ttl
    {
      this.store, this.ttl := store, ttl;
    }

    /** The three outcomes of the dedupe check; with no store configured there is only one. */
    method FirstSeen(id: string, now: int, fault: Fault) returns (r: Result<bool, ()>)
      modifies store
      ensures store == null ==> r == Ok(true)
      ensures store != null ==>
                && (r.Ok? <==> fault == Healthy)
                && (r.Ok? ==> r.value == !Held(old(store.seen), id, now))
                && store.seen == if fault != FailsBefore && !Held(old(store.seen), id, now)
                                 then old(store.seen)[id := now + ttl] else old(store.seen)
    {
      if store == null {
        return Ok(true);
      }
      r := store.MarkSeen(id, now, ttl, fault);
    }

    /**
     Handles one request: decode, mark, rehydrate, invoke, reply. `rehydrate` is absent when no
     object store is configured, and `invoke` is the agent. The agent is invoked at most once, with
     the decoded envelope and the rehydrated payload, and only after a first sighting. With a store,
     seen-set and reply are those of the machine running this delivery without interference. In every
     configuration 204 means that the agent processed the message, or that its id was held.
     */
    method Consume(codec: Amp.Codec, event: Option<CloudEvents.Event>, now: int, fault: Fault,
                   rehydrate: Option<string -> Option<string>>, invoke: Amp.Envelope -> Invoked,
                   ghost s: State, ghost d: nat)
      returns (status: int, sent: Option<Amp.Envelope>)
      requires store != null ==> s.seen == store.seen && s.now == now
      requires event.Some? && CloudEvents.Decoded(codec, event.value).Ok? ==>
                 d < |s.deliveries| && s.deliveries[d] == Delivery(CloudEvents.Decoded(codec, event.value).value.messageId, Arrived)
      modifies store
      ensures event.None? || CloudEvents.Decoded(codec, event.value).Err? ==>
                status == 400 && sent == None && (store != null ==> store.seen == old(store.seen))
      ensures status == 204 ==>
                || (sent.Some? && invoke(sent.value).Answered? && invoke(sent.value).status < 500)
                || (store != null && fault == Healthy && event.Some? && CloudEvents.Decoded(codec, event.value).Ok?
                    && Held(old(store.seen), CloudEvents.Decoded(codec, event.value).value.messageId, now))
      ensures event.Some? && CloudEvents.Decoded(codec, event.value).Ok? ==>
                var env := CloudEvents.Decoded(codec, event.value).value;
                var payload := if rehydrate.None? then Some(env.payload) else rehydrate.value(env.payload);
                var held := store != null && Held(old(store.seen), env.messageId, now);
                && sent == (if (store != null && fault != Healthy) || held || payload.None? then None
                            else Some(env.(payload := payload.value)))
                && status == (if store != null && fault != Healthy then 503
                              else if held then 204
                              else if sent.None? then 502
                              else if invoke(sent.value).Answered? && invoke(sent.value).status < 500 then 204 else 502)
                && (store != null ==> store.seen == if fault == FailsBefore || held then old(store.seen)
                                                    else old(store.seen)[env.messageId := now + ttl])
                && (store != null ==>
                      var result := if payload.Some? then invoke(env.(payload := payload.value)) else Unreachable;
                      var after := Run(ttl, s, Path(d, fault, payload.Some?, result));
                      && store.seen == after.seen
                      && d < |after.deliveries| && Reply(after.deliveries[d].phase) == Some(status)
                      && (sent.Some? <==> RanAgent(after.deliveries[d].phase)))
    {
      sent := None;
      if event.None? {
        return 400, None;
      }
      var decoded := CloudEvents.CloudEventToEnvelope(codec, event.value);
      if decoded.Err? {
        return 400, None;
      }
      var env := decoded.value;
      ghost var payload := if rehydrate.None? then Some(env.payload) else rehydrate.value(env.payload);
      ghost var result := if payload.Some? then invoke(env.(payload := payload.value)) else Unreachable;
      PathRuns(ttl, s, d, fault, payload.Some?, result);
      var first := FirstSeen(env.messageId, now, fault);
      if first.Err? {
        return 503, None;
      }
      if !first.value {
        return 204, None;
      }
      if rehydrate.Some? {
        var original := rehydrate.value(env.payload);
        if original.None? {
          return 502, None;
        }
        env := env.(payload := original.value);
      }
      assert env == decoded.value.(payload := payload.value);
      sent := Some(env);
      var answer := invoke(env);
      if answer.Unreachable? {
        return 502, sent;
      }
      if answer.status >= 500 {
        return 502, sent;
      }
      return 204, sent;
    }
  }
}
