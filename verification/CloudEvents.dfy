/**
 The asynchronous carrier: the same envelope as a CloudEvent, with an oversize payload parked in an
 object store on the way. The questions are whether the callee sees the envelope the caller stamped,
 and whether its access control decides as it would have on a synchronous call.
 */
module CloudEvents {
  import opened Prelude
  import opened Amp

  /** A CloudEvent v1.0: the three required context attributes, one extension, and the data. */
  datatype Event = Event(id: string, kind: string, source: string, registryExt: string, data: string)

  /** CloudEvents v1.0 requires id, source and type to be non-empty. */
  predicate WellFormed(evt: Event) {
    evt.id != "" && evt.source != "" && evt.kind != ""
  }

  function EventOf(codec: Codec, env: Envelope): (evt: Event)
    ensures WellFormed(evt) <==> env.messageId != "" && env.sender != "" && env.receiver != ""
  {
    Event(env.messageId, env.receiver, env.sender, env.registryId, codec.marshal(env))
  }

  /** The encoder sets the routing attributes one by one and then the envelope itself as data. */
  method EnvelopeToCloudEvent(codec: Codec, env: Envelope) returns (evt: Event)
    ensures evt == EventOf(codec, env)
    ensures evt.id == env.messageId && evt.kind == env.receiver && evt.source == env.sender && evt.registryExt == env.registryId
    ensures Lawful(codec) ==> codec.lenient(evt.data) == Some(env)
  {
    evt := Event("", "", "", "", "");
    evt := evt.(id := env.messageId);
    evt := evt.(kind := env.receiver);
    evt := evt.(source := env.sender);
    evt := evt.(registryExt := env.registryId);
    evt := evt.(data := codec.marshal(env));
  }

  datatype DecodeError = NoData | NotAnEnvelope | NoMessageId

  function Decoded(codec: Codec, evt: Event): (r: Result<Envelope, DecodeError>)
    ensures r.Ok? ==> r.value.messageId != ""
  {
    if evt.data == "" then Err(NoData)
    else
      match codec.lenient(evt.data)
      case None => Err(NotAnEnvelope)
      case Some(env) =>
        var keyed := if env.messageId == "" then env.(messageId := evt.id) else env;
        if keyed.messageId == "" then Err(NoMessageId) else Ok(keyed)
  }

  /** The decoder trusts the data; only a missing message id falls back to the event id. */
  method CloudEventToEnvelope(codec: Codec, evt: Event) returns (r: Result<Envelope, DecodeError>)
    ensures r == Decoded(codec, evt)
    ensures r == Err(NoData) <==> evt.data == ""
    ensures r == Err(NotAnEnvelope) <==> evt.data != "" && codec.lenient(evt.data).None?
    ensures evt.data != "" && codec.lenient(evt.data).Some? ==>
              var env := codec.lenient(evt.data).value;
              if env.messageId != "" then r == Ok(env)
              else if evt.id != "" then r == Ok(env.(messageId := evt.id))
              else r == Err(NoMessageId)
  {
    if evt.data == "" {
      return Err(NoData);
    }
    var parsed := codec.lenient(evt.data);
    if parsed.None? {
      return Err(NotAnEnvelope);
    }
    var env := parsed.value;
    if env.messageId == "" {
      env := env.(messageId := evt.id);
    }
    if env.messageId == "" {
      return Err(NoMessageId);
    }
    return Ok(env);
  }

  /** Encoding then decoding gives the envelope back exactly when it has a message id to dedupe on. */
  lemma EventRoundTrip(codec: Codec, env: Envelope)
    requires Lawful(codec)
    ensures Decoded(codec, EventOf(codec, env)) == if env.messageId == "" then Err(NoMessageId) else Ok(env)
  {
    assert codec.lenient(codec.marshal(env)) == Some(env);
  }

  // ---- Oversize payloads ---------------------------------------------------------------------

  const OFFLOAD_THRESHOLD := 256 * 1024
  const BODY_CAP := 1024 * 1024
  const BUCKET := "ctxmesh-blobs/"

  /**
   The object store's vocabulary: the content hash, the text of a reference object for a key, and
   the reference string a payload carries if it is a JSON object with a top-level "$ref".
   */
  datatype Blobs = Blobs(hash: string -> string, refText: string -> string, refOf: string -> Option<string>)

  ghost predicate LawfulBlobs(b: Blobs) {
    && (forall p: string, q: string :: b.hash(p) == b.hash(q) ==> p == q)
    && (forall p: string :: b.hash(p) != "")
    && (forall k: string :: b.refOf(b.refText(k)) == Some(BUCKET + k))
  }

  /** What the store holds: payloads above the threshold, each under its own content hash. */
  ghost predicate ContentAddressed(b: Blobs, store: map<string, string>) {
    forall k :: k in store ==> |store[k]| > OFFLOAD_THRESHOLD && b.hash(store[k]) == k
  }

  /** The publisher parks an oversize payload and carries a reference; smaller ones ride inline. */
  function Offload(b: Blobs, store: map<string, string>, payload: string): (r: (string, map<string, string>))
    ensures ContentAddressed(b, store) ==> ContentAddressed(b, r.1)
    ensures |payload| <= 262144 ==> r == (payload, store)
    ensures |payload| > 262144 ==> b.hash(payload) in r.1 && r.1[b.hash(payload)] == payload
    ensures forall k :: k in store && k != b.hash(payload) ==> k in r.1 && r.1[k] == store[k]
  {
    if |payload| <= OFFLOAD_THRESHOLD then (payload, store)
    else (b.refText(b.hash(payload)), store[b.hash(payload) := payload])
  }

  datatype BlobError = ForeignReference | Dangling | TooLarge

  /** The consumer resolves anything that looks like a reference, whoever wrote it. */
  function Rehydrate(b: Blobs, store: map<string, string>, payload: string): Result<string, BlobError> {
    match b.refOf(payload)
    case None => Ok(payload)
    case Some(ref) =>
      if |ref| <= |BUCKET| || ref[..|BUCKET|] != BUCKET then Err(ForeignReference)
      else if ref[|BUCKET|..] !in store then Err(Dangling)
      else if |store[ref[|BUCKET|..]]| > BODY_CAP then Err(TooLarge)
      else Ok(store[ref[|BUCKET|..]])
  }

  /** Only a key of the own bucket is looked up; the payload that comes back is what is stored under it. */
  lemma RehydrateExact(b: Blobs, store: map<string, string>, payload: string, key: string)
    ensures b.refOf(payload).None? ==> Rehydrate(b, store, payload) == Ok(payload)
    ensures b.refOf(payload) == Some(BUCKET + key) && key != "" ==>
              Rehydrate(b, store, payload) ==
                if key !in store then Err(Dangling) else if |store[key]| > BODY_CAP then Err(TooLarge) else Ok(store[key])
    ensures Rehydrate(b, store, payload) == Err(ForeignReference) <==>
              b.refOf(payload).Some? && forall k :: k != "" ==> b.refOf(payload) != Some(BUCKET + k)
  {
    assert (BUCKET + key)[..|BUCKET|] == BUCKET && (BUCKET + key)[|BUCKET|..] == key;
    match b.refOf(payload) {
      case None =>
      case Some(ref) =>
        if |ref| > |BUCKET| && ref[..|BUCKET|] == BUCKET {
          assert ref == BUCKET + ref[|BUCKET|..];
        } else {
          forall k | k != "" ensures ref != BUCKET + k {
            assert (BUCKET + k)[..|BUCKET|] == BUCKET;
          }
        }
    }
  }

  /** An inline payload that has the shape of a reference. */
  predicate LooksParked(b: Blobs, payload: string) {
    |payload| <= OFFLOAD_THRESHOLD && b.refOf(payload).Some?
  }

  /**
   A payload that fits the call limit reaches the agent unchanged over the asynchronous path, whatever
   else is parked in between, exactly when it is not an inline payload shaped like a reference.
   */
  lemma PayloadSurvivesIff(b: Blobs, before: map<string, string>, later: map<string, string>, payload: string)
    requires LawfulBlobs(b) && ContentAddressed(b, later)
    requires Offload(b, before, payload).1.Keys <= later.Keys
    requires |payload| <= BODY_CAP
    ensures Rehydrate(b, later, Offload(b, before, payload).0) == Ok(payload) <==> !LooksParked(b, payload)
  {
    if |payload| > OFFLOAD_THRESHOLD {
      var key := b.hash(payload);
      assert key in later;
      assert b.hash(later[key]) == b.hash(payload);
      assert b.refOf(b.refText(key)) == Some(BUCKET + key);
      assert (BUCKET + key)[..|BUCKET|] == BUCKET && (BUCKET + key)[|BUCKET|..] == key;
    }
  }

  /** The envelope the callee's launcher hands to its own proxy for an event. */
  function Consumed(codec: Codec, b: Blobs, store: map<string, string>, evt: Event): Option<Envelope> {
    match Decoded(codec, evt)
    case Err(_) => None
    case Ok(env) =>
      match Rehydrate(b, store, env.payload)
      case Err(_) => None
      case Ok(payload) => Some(env.(payload := payload))
  }

  function Published(codec: Codec, b: Blobs, store: map<string, string>, env: Envelope): Event {
    EventOf(codec, env.(payload := Offload(b, store, env.payload).0))
  }

  /**
   Whole asynchronous hop: offload, encode, decode and rehydrate deliver the stamped envelope
   itself exactly when it has a message id and its payload is not shaped like a reference.
   */
  lemma AsyncHopExact(codec: Codec, b: Blobs, before: map<string, string>, later: map<string, string>, env: Envelope)
    requires Lawful(codec) && LawfulBlobs(b) && ContentAddressed(b, later)
    requires Offload(b, before, env.payload).1.Keys <= later.Keys
    requires |env.payload| <= BODY_CAP
    ensures Consumed(codec, b, later, Published(codec, b, before, env)) == Some(env)
            <==> env.messageId != "" && !LooksParked(b, env.payload)
  {
    var carried := env.(payload := Offload(b, before, env.payload).0);
    EventRoundTrip(codec, carried);
    PayloadSurvivesIff(b, before, later, env.payload);
    match Rehydrate(b, later, carried.payload) {
      case Ok(p) => assert env.(payload := p) == env <==> p == env.payload;
      case Err(_) =>
    }
  }

  /** Whenever the hop arrives intact, the callee's access control decides as on a synchronous call. */
  lemma SyncAsyncAgree(codec: Codec, b: Blobs, before: map<string, string>, later: map<string, string>,
                       env: Envelope, callee: Config)
    requires Lawful(codec) && LawfulBlobs(b) && ContentAddressed(b, later)
    requires Offload(b, before, env.payload).1.Keys <= later.Keys
    requires |env.payload| <= BODY_CAP && env.messageId != ""
    ensures var arrived := Consumed(codec, b, later, Published(codec, b, before, env));
            arrived.Some? ==>
              && arrived.value.(payload := "") == env.(payload := "")
              && EnforceInbound(codec, callee, codec.marshal(arrived.value), codec.marshal(arrived.value)).Admitted?
                 == EnforceInbound(codec, callee, codec.marshal(env), codec.marshal(env)).Admitted?
  {
    var carried := env.(payload := Offload(b, before, env.payload).0);
    EventRoundTrip(codec, carried);
    var arrived := Consumed(codec, b, later, Published(codec, b, before, env));
    if arrived.Some? {
      HeaderNamesAgree(codec, callee, env, codec.marshal(env), codec.marshal(env));
      HeaderNamesAgree(codec, callee, arrived.value, codec.marshal(arrived.value), codec.marshal(arrived.value));
    }
  }
}
