/**
 Asynchronous consumption with a shared seen-set. Any number of replicas handle deliveries of an
 at-least-once broker; each delivery marks its message id first, then rehydrates, then invokes the
 agent. The seen-set is the only shared state and its mark is atomic, but the reply to a mark can be
 lost before or after the mark took effect. Times are integers in any unit.
 */
module AsyncConsumer {
  import opened Prelude

  /** How invoking the agent came out: a transport error, or the agent's HTTP status. */
  datatype Invoked = Unreachable | Answered(status: int)

  predicate Processed(r: Invoked) {
    r.Answered? && r.status < 500
  }

  /**
   Where a delivery stands. `markedAt` is the time its own mark wrote the id; a store error may or may
   not have written; a crash may strike at any point before the reply.
   */
  datatype Phase =
    | Arrived
    | Marked(markedAt: int)
    | Invoking(markedAt: int)
    | Duplicate(at: int)
    | StoreFailed(at: int, wrote: bool)
    | RehydrateFailed(markedAt: int)
    | Finished(markedAt: int, result: Invoked)
    | Crashed(written: Option<int>)
    | CrashedInvoking(markedAt: int)

  datatype Delivery = Delivery(id: string, phase: Phase)

  /** The seen-set maps an id to the time its mark expires. */
  datatype State = State(now: int, seen: map<string, int>, deliveries: seq<Delivery>)

  datatype Step =
    | Tick(dt: nat)
    | Arrive(id: string)
    | Mark(d: nat)
    | MarkError(d: nat, takesEffect: bool)
    | Rehydrate(d: nat, ok: bool)
    | Invoke(d: nat, result: Invoked)
    | Crash(d: nat)

  const Init := State(0, map[], [])

  predicate Held(seen: map<string, int>, id: string, now: int) {
    id in seen && now < seen[id]
  }

  /** SETNX with a time to live: writes and reports true exactly when the id is not held. */
  function SetNX(seen: map<string, int>, id: string, now: int, ttl: nat): (bool, map<string, int>) {
    if Held(seen, id, now) then (false, seen) else (true, seen[id := now + ttl])
  }

  function At(s: State, d: nat, p: Phase): State
    requires d < |s.deliveries|
  {
    s.(deliveries := s.deliveries[d := s.deliveries[d].(phase := p)])
  }

  predicate Is(s: State, d: nat, check: Phase -> bool) {
    d < |s.deliveries| && check(s.deliveries[d].phase)
  }

  function Apply(ttl: nat, s: State, step: Step): State {
    match step
    case Tick(dt) => s.(now := s.now + dt)
    case Arrive(id) => s.(deliveries := s.deliveries + [Delivery(id, Arrived)])
    case Mark(d) =>
      if !Is(s, d, (p: Phase) => p.Arrived?) then s
      else
        var (first, seen) := SetNX(s.seen, s.deliveries[d].id, s.now, ttl);
        At(s, d, if first then Marked(s.now) else Duplicate(s.now)).(seen := seen)
    case MarkError(d, takesEffect) =>
      if !Is(s, d, (p: Phase) => p.Arrived?) then s
      else
        var (first, seen) := SetNX(s.seen, s.deliveries[d].id, s.now, ttl);
        var wrote := takesEffect && first;
        At(s, d, StoreFailed(s.now, wrote)).(seen := if wrote then seen else s.seen)
    case Rehydrate(d, ok) =>
      if !Is(s, d, (p: Phase) => p.Marked?) then s
      else
        var at := s.deliveries[d].phase.markedAt;
        At(s, d, if ok then Invoking(at) else RehydrateFailed(at))
    case Invoke(d, result) =>
      if !Is(s, d, (p: Phase) => p.Invoking?) then s
      else At(s, d, Finished(s.deliveries[d].phase.markedAt, result))
    case Crash(d) =>
      if !Is(s, d, (p: Phase) => p.Arrived? || p.Marked? || p.Invoking?) then s
      else At(s, d, AfterCrash(s.deliveries[d].phase))
  }

  /** A replica that dies keeps what its mark wrote, and an agent it was invoking has been invoked. */
  function AfterCrash(p: Phase): Phase {
    if p.Invoking? then CrashedInvoking(p.markedAt) else Crashed(WrittenAt(p))
  }

  function Run(ttl: nat, s: State, steps: seq<Step>): State {
    if steps == [] then s else Apply(ttl, Run(ttl, s, steps[..|steps| - 1]), steps[|steps| - 1])
  }

  /** When this delivery wrote the seen-set, if it did. */
  function WrittenAt(p: Phase): Option<int> {
    match p
    case Arrived => None
    case Marked(t) => Some(t)
    case Invoking(t) => Some(t)
    case Duplicate(_) => None
    case StoreFailed(t, wrote) => if wrote then Some(t) else None
    case RehydrateFailed(t) => Some(t)
    case Finished(t, _) => Some(t)
    case Crashed(w) => w
    case CrashedInvoking(t) => Some(t)
  }

  /** The HTTP status answered to the broker, once there is one. A 2xx acknowledges the event, a 5xx makes it retry. */
  function Reply(p: Phase): (r: Option<int>)
    ensures r.Some? ==> r.value == 204 || 500 <= r.value
    ensures r == Some(503) <==> p.StoreFailed?
    ensures r == Some(502) <==> p.RehydrateFailed? || (p.Finished? && (p.result.Unreachable? || p.result.status >= 500))
    ensures r == Some(204) <==> p.Duplicate? || (p.Finished? && p.result.Answered? && p.result.status < 500)
    ensures r == None <==> p.Arrived? || p.Marked? || p.Invoking? || p.Crashed? || p.CrashedInvoking?
  {
    match p
    case Duplicate(_) => Some(204)
    case StoreFailed(_, _) => Some(503)
    case RehydrateFailed(_) => Some(502)
    case Finished(_, r) => Some(if Processed(r) then 204 else 502)
    case _ => None
  }

  /** The agent has been, or is being, invoked for this delivery. */
  predicate RanAgent(p: Phase) {
    p.Invoking? || p.Finished? || p.CrashedInvoking?
  }

  // ---- The invariant -------------------------------------------------------------------------

  function Writer(s: State, d: nat): Option<int>
    requires d < |s.deliveries|
  {
    WrittenAt(s.deliveries[d].phase)
  }

  /** A write is remembered: the seen-set holds the id at least until the write's time to live is over. */
  ghost predicate Remembered(ttl: nat, s: State, d: nat)
    requires d < |s.deliveries|
  {
    Writer(s, d).Some? ==>
      && Writer(s, d).value <= s.now
      && s.deliveries[d].id in s.seen
      && Writer(s, d).value + ttl <= s.seen[s.deliveries[d].id]
  }

  /** Two writes of one id are at least the time to live apart. */
  ghost predicate Apart(ttl: nat, s: State, d: nat, e: nat)
    requires d < |s.deliveries| && e < |s.deliveries|
  {
    d != e && s.deliveries[d].id == s.deliveries[e].id && Writer(s, d).Some? && Writer(s, e).Some? ==>
      Writer(s, d).value + ttl <= Writer(s, e).value || Writer(s, e).value + ttl <= Writer(s, d).value
  }

  /** An entry of the seen-set was written by some delivery of that id. */
  ghost predicate Sourced(ttl: nat, s: State, id: string)
    requires id in s.seen
  {
    exists d :: 0 <= d < |s.deliveries| && s.deliveries[d].id == id && Writer(s, d) == Some(s.seen[id] - ttl)
  }

  /** A delivery found a duplicate because another had written its id within the time to live. */
  ghost predicate Explained(ttl: nat, s: State, d: nat)
    requires d < |s.deliveries|
  {
    s.deliveries[d].phase.Duplicate? ==>
      exists m :: 0 <= m < |s.deliveries| && Shadows(ttl, s, m, d)
  }

  /** Delivery m marked the id at most the time to live before delivery d came up as a duplicate. */
  ghost predicate Shadows(ttl: nat, s: State, m: nat, d: nat)
    requires m < |s.deliveries| && d < |s.deliveries|
  {
    && s.deliveries[m].id == s.deliveries[d].id
    && s.deliveries[d].phase.Duplicate?
    && Writer(s, m).Some?
    && Writer(s, m).value <= s.deliveries[d].phase.at < Writer(s, m).value + ttl
  }

  ghost predicate Inv(ttl: nat, s: State) {
    && (forall d :: 0 <= d < |s.deliveries| ==> Remembered(ttl, s, d))
    && (forall d, e :: 0 <= d < |s.deliveries| && 0 <= e < |s.deliveries| ==> Apart(ttl, s, d, e))
    && (forall id :: id in s.seen ==> Sourced(ttl, s, id))
    && (forall d :: 0 <= d < |s.deliveries| ==> Explained(ttl, s, d))
  }

  ghost predicate WritesInv(ttl: nat, s: State) {
    && (forall d :: 0 <= d < |s.deliveries| ==> Remembered(ttl, s, d))
    && (forall d, e :: 0 <= d < |s.deliveries| && 0 <= e < |s.deliveries| ==> Apart(ttl, s, d, e))
    && (forall id :: id in s.seen ==> Sourced(ttl, s, id))
  }

  /** A step of one delivery that leaves its write and the seen-set alone keeps all facts about writes. */
  lemma SameWritesKeepInv(ttl: nat, s: State, d: nat, p: Phase)
    requires WritesInv(ttl, s) && d < |s.deliveries| && WrittenAt(p) == Writer(s, d)
    ensures WritesInv(ttl, At(s, d, p))
  {
    var t := At(s, d, p);
    forall e | 0 <= e < |t.deliveries| ensures Remembered(ttl, t, e) {
      assert Remembered(ttl, s, e);
    }
    forall e, f | 0 <= e < |t.deliveries| && 0 <= f < |t.deliveries| ensures Apart(ttl, t, e, f) {
      assert Apart(ttl, s, e, f);
    }
    forall id | id in t.seen ensures Sourced(ttl, t, id) {
      assert Sourced(ttl, s, id);
      var w :| 0 <= w < |s.deliveries| && s.deliveries[w].id == id && Writer(s, w) == Some(s.seen[id] - ttl);
      assert Writer(t, w) == Writer(s, w);
    }
  }

  /** A step that is not about duplicates at all. */
  lemma QuietStepKeepsInv(ttl: nat, s: State, d: nat, p: Phase)
    requires Inv(ttl, s) && d < |s.deliveries|
    requires WrittenAt(p) == Writer(s, d) && !p.Duplicate?
    requires !s.deliveries[d].phase.Duplicate?
    ensures Inv(ttl, At(s, d, p))
  {
    var t := At(s, d, p);
    SameWritesKeepInv(ttl, s, d, p);
    forall e | 0 <= e < |t.deliveries| ensures Explained(ttl, t, e) {
      assert Explained(ttl, s, e);
      if t.deliveries[e].phase.Duplicate? {
        var m :| 0 <= m < |s.deliveries| && Shadows(ttl, s, m, e);
        assert Shadows(ttl, t, m, e);
      }
    }
  }

  /** A mark that writes: the id was not held, so every earlier write of it has expired. */
  lemma WriteKeepsInv(ttl: nat, s: State, d: nat, p: Phase)
    requires Inv(ttl, s) && d < |s.deliveries| && s.deliveries[d].phase.Arrived?
    requires !Held(s.seen, s.deliveries[d].id, s.now) && WrittenAt(p) == Some(s.now) && !p.Duplicate?
    ensures Inv(ttl, At(s, d, p).(seen := s.seen[s.deliveries[d].id := s.now + ttl]))
  {
    var id := s.deliveries[d].id;
    var t := At(s, d, p).(seen := s.seen[id := s.now + ttl]);
    forall e | 0 <= e < |t.deliveries| ensures Remembered(ttl, t, e) {
      assert Remembered(ttl, s, e);
    }
    forall e, f | 0 <= e < |t.deliveries| && 0 <= f < |t.deliveries| ensures Apart(ttl, t, e, f) {
      assert Apart(ttl, s, e, f) && Remembered(ttl, s, e) && Remembered(ttl, s, f);
    }
    forall i | i in t.seen ensures Sourced(ttl, t, i) {
      if i == id {
        assert t.deliveries[d].id == id && Writer(t, d) == Some(t.seen[id] - ttl);
      } else {
        assert Sourced(ttl, s, i);
        var w :| 0 <= w < |s.deliveries| && s.deliveries[w].id == i && Writer(s, w) == Some(s.seen[i] - ttl);
        assert Writer(t, w) == Writer(s, w);
      }
    }
    forall e | 0 <= e < |t.deliveries| ensures Explained(ttl, t, e) {
      assert Explained(ttl, s, e);
      if t.deliveries[e].phase.Duplicate? {
        var m :| 0 <= m < |s.deliveries| && Shadows(ttl, s, m, e);
        assert Shadows(ttl, t, m, e);
      }
    }
  }

  /** A mark that finds the id held: some delivery wrote it within the time to live. */
  lemma DuplicateKeepsInv(ttl: nat, s: State, d: nat)
    requires Inv(ttl, s) && d < |s.deliveries| && s.deliveries[d].phase.Arrived?
    requires Held(s.seen, s.deliveries[d].id, s.now)
    ensures Inv(ttl, At(s, d, Duplicate(s.now)))
  {
    var id := s.deliveries[d].id;
    var t := At(s, d, Duplicate(s.now));
    SameWritesKeepInv(ttl, s, d, Duplicate(s.now));
    forall e | 0 <= e < |t.deliveries| ensures Explained(ttl, t, e) {
      assert Explained(ttl, s, e);
      if e == d {
        assert Sourced(ttl, s, id);
        var w :| 0 <= w < |s.deliveries| && s.deliveries[w].id == id && Writer(s, w) == Some(s.seen[id] - ttl);
        assert Remembered(ttl, s, w);
        assert Shadows(ttl, t, w, d);
      } else if t.deliveries[e].phase.Duplicate? {
        var m :| 0 <= m < |s.deliveries| && Shadows(ttl, s, m, e);
        assert Shadows(ttl, t, m, e);
      }
    }
  }

  lemma GrowKeepsInv(ttl: nat, s: State, t: State)
    requires Inv(ttl, s)
    requires t.seen == s.seen && s.now <= t.now
    requires t.deliveries == s.deliveries || exists id :: t.deliveries == s.deliveries + [Delivery(id, Arrived)]
    ensures Inv(ttl, t)
  {
    forall e | 0 <= e < |t.deliveries| ensures Remembered(ttl, t, e) && Explained(ttl, t, e) {
      if e < |s.deliveries| {
        assert Remembered(ttl, s, e) && Explained(ttl, s, e);
        if t.deliveries[e].phase.Duplicate? {
          var m :| 0 <= m < |s.deliveries| && Shadows(ttl, s, m, e);
          assert Shadows(ttl, t, m, e);
        }
      }
    }
    forall e, f | 0 <= e < |t.deliveries| && 0 <= f < |t.deliveries| ensures Apart(ttl, t, e, f) {
      if e < |s.deliveries| && f < |s.deliveries| {
        assert Apart(ttl, s, e, f);
      }
    }
    forall i | i in t.seen ensures Sourced(ttl, t, i) {
      assert Sourced(ttl, s, i);
      var w :| 0 <= w < |s.deliveries| && s.deliveries[w].id == i && Writer(s, w) == Some(s.seen[i] - ttl);
      assert Writer(t, w) == Writer(s, w);
    }
  }

  lemma ApplyKeepsInv(ttl: nat, s: State, step: Step)
    requires Inv(ttl, s)
    ensures Inv(ttl, Apply(ttl, s, step))
  {
    var t := Apply(ttl, s, step);
    if t != s {
      match step
      case Tick(_) => GrowKeepsInv(ttl, s, t);
      case Arrive(id) =>
        assert t.deliveries == s.deliveries + [Delivery(id, Arrived)];
        GrowKeepsInv(ttl, s, t);
      case Mark(d) =>
        if Held(s.seen, s.deliveries[d].id, s.now) {
          DuplicateKeepsInv(ttl, s, d);
        } else {
          WriteKeepsInv(ttl, s, d, Marked(s.now));
        }
      case MarkError(d, takesEffect) =>
        if takesEffect && !Held(s.seen, s.deliveries[d].id, s.now) {
          WriteKeepsInv(ttl, s, d, StoreFailed(s.now, true));
        } else {
          QuietStepKeepsInv(ttl, s, d, StoreFailed(s.now, false));
        }
      case Rehydrate(d, ok) =>
        var at := s.deliveries[d].phase.markedAt;
        QuietStepKeepsInv(ttl, s, d, if ok then Invoking(at) else RehydrateFailed(at));
      case Invoke(d, result) => QuietStepKeepsInv(ttl, s, d, Finished(s.deliveries[d].phase.markedAt, result));
      case Crash(d) => QuietStepKeepsInv(ttl, s, d, AfterCrash(s.deliveries[d].phase));
    }
  }

  lemma {:induction false} RunKeepsInv(ttl: nat, steps: seq<Step>)
    ensures Inv(ttl, Run(ttl, Init, steps))
  {
    if steps != [] {
      RunKeepsInv(ttl, steps[..|steps| - 1]);
      ApplyKeepsInv(ttl, Run(ttl, Init, steps[..|steps| - 1]), steps[|steps| - 1]);
    }
  }

  // ---- At most once per time to live ---------------------------------------------------------

  /**
   Over every run, any two invocations of one message id come from marks at least the time to live
   apart, and an invoked delivery got its first-sighting answer from a mark that wrote.
   */
  lemma AtMostOncePerWindow(ttl: nat, steps: seq<Step>, d: nat, e: nat)
    requires d < |Run(ttl, Init, steps).deliveries| && e < |Run(ttl, Init, steps).deliveries| && d != e
    ensures var s := Run(ttl, Init, steps);
            && (RanAgent(s.deliveries[d].phase) ==> Writer(s, d).Some?)
            && (s.deliveries[d].id == s.deliveries[e].id
                && RanAgent(s.deliveries[d].phase) && RanAgent(s.deliveries[e].phase) ==>
                  Writer(s, d).value + ttl <= Writer(s, e).value || Writer(s, e).value + ttl <= Writer(s, d).value)
  {
    RunKeepsInv(ttl, steps);
    assert Apart(ttl, Run(ttl, Init, steps), d, e);
  }

  /**
   A reply is final. In particular, fail closed: once the store has failed a delivery, no
   continuation of the run ever invokes the agent for it.
   */
  lemma {:induction false} ReplyIsFinal(ttl: nat, s: State, more: seq<Step>, d: nat)
    requires d < |s.deliveries| && Reply(s.deliveries[d].phase).Some?
    ensures d < |Run(ttl, s, more).deliveries| && Run(ttl, s, more).deliveries[d] == s.deliveries[d]
    ensures s.deliveries[d].phase.StoreFailed? ==> !RanAgent(Run(ttl, s, more).deliveries[d].phase)
  {
    if more != [] {
      ReplyIsFinal(ttl, s, more[..|more| - 1], d);
    }
  }

  // ---- What an acknowledgement means ---------------------------------------------------------

  ghost predicate Acked(s: State, id: string) {
    exists d :: 0 <= d < |s.deliveries| && s.deliveries[d].id == id && Reply(s.deliveries[d].phase) == Some(204)
  }

  predicate Success(p: Phase) {
    p.Finished? && Processed(p.result)
  }

  ghost predicate Succeeded(s: State, id: string) {
    exists d :: 0 <= d < |s.deliveries| && s.deliveries[d].id == id && Success(s.deliveries[d].phase)
  }

  /**
   A delivery that wrote the seen-set and can never process the message: its store reply was lost
   after the write, its payload could not be fetched, the agent could not be reached or answered with
   a server error, or the replica died after the mark.
   */
  predicate Failed(p: Phase) {
    match p
    case StoreFailed(_, wrote) => wrote
    case RehydrateFailed(_) => true
    case Finished(_, result) => result.Unreachable? || result.status >= 500
    case Crashed(written) => written.Some?
    case CrashedInvoking(_) => true
    case _ => false
  }

  /** A delivery that wrote the seen-set and is still at work. */
  predicate Undecided(p: Phase) {
    p.Marked? || p.Invoking?
  }

  /**
   A 204 is answered only when this delivery's own invocation came back below 500, or another
   delivery had marked the same id within the time to live.
   */
  lemma AckOnlyIf(ttl: nat, steps: seq<Step>, d: nat)
    requires d < |Run(ttl, Init, steps).deliveries|
    requires Reply(Run(ttl, Init, steps).deliveries[d].phase) == Some(204)
    ensures var s := Run(ttl, Init, steps);
            || Success(s.deliveries[d].phase)
            || exists m :: 0 <= m < |s.deliveries| && m != d && Shadows(ttl, s, m, d)
  {
    RunKeepsInv(ttl, steps);
    var s := Run(ttl, Init, steps);
    assert Explained(ttl, s, d);
  }

  /**
   Lost events, exactly. An id is acknowledged without any successful invocation so far if and only
   if some delivery of it came up as a duplicate within the time to live of a mark, and every delivery
   that marked it has failed or is still at work.
   */
  lemma LostExactly(ttl: nat, steps: seq<Step>, id: string)
    ensures var s := Run(ttl, Init, steps);
            Acked(s, id) && !Succeeded(s, id) <==>
              && (exists m, d :: 0 <= m < |s.deliveries| && 0 <= d < |s.deliveries|
                              && s.deliveries[d].id == id && Shadows(ttl, s, m, d))
              && (forall m :: 0 <= m < |s.deliveries| && s.deliveries[m].id == id && Writer(s, m).Some? ==>
                    Failed(s.deliveries[m].phase) || Undecided(s.deliveries[m].phase))
  {
    hide Run, Inv;
    RunKeepsInv(ttl, steps);
    var s := Run(ttl, Init, steps);
    WritersSplit(s, id);
    if Acked(s, id) && !Succeeded(s, id) {
      var d :| 0 <= d < |s.deliveries| && s.deliveries[d].id == id && Reply(s.deliveries[d].phase) == Some(204);
      AckOnlyIf(ttl, steps, d);
      var m :| 0 <= m < |s.deliveries| && m != d && Shadows(ttl, s, m, d);
    }
    if m, d :| 0 <= m < |s.deliveries| && 0 <= d < |s.deliveries|
               && s.deliveries[d].id == id && Shadows(ttl, s, m, d) {
      assert Reply(s.deliveries[d].phase) == Some(204);
      assert Acked(s, id);
    }
  }

  /** A delivery that marked has succeeded, failed, or is still at work; only a delivery that marked succeeds. */
  lemma WritersSplit(s: State, id: string)
    ensures Succeeded(s, id) <==>
              exists m :: 0 <= m < |s.deliveries| && s.deliveries[m].id == id && Writer(s, m).Some?
                       && !Failed(s.deliveries[m].phase) && !Undecided(s.deliveries[m].phase)
  {
    forall m | 0 <= m < |s.deliveries|
      ensures Success(s.deliveries[m].phase) <==>
                Writer(s, m).Some? && !Failed(s.deliveries[m].phase) && !Undecided(s.deliveries[m].phase)
    {
    }
  }

  /** A delivery of "m" was invoked and answered with a server error; then "m" was redelivered at once. */
  function Failing(ttl: nat, first: Phase, rest: seq<Delivery>): State {
    State(0, map["m" := ttl], [Delivery("m", first)] + rest)
  }

  lemma FailingSteps(ttl: nat)
    requires ttl > 0
    ensures Apply(ttl, Apply(ttl, Init, Arrive("m")), Mark(0)) == Failing(ttl, Marked(0), [])
    ensures Apply(ttl, Failing(ttl, Marked(0), []), Rehydrate(0, true)) == Failing(ttl, Invoking(0), [])
    ensures Apply(ttl, Failing(ttl, Invoking(0), []), Invoke(0, Answered(500))) == Failing(ttl, Finished(0, Answered(500)), [])
  {
  }

  lemma RetrySteps(ttl: nat, p: Phase)
    requires ttl > 0
    ensures Apply(ttl, Apply(ttl, Failing(ttl, p, []), Arrive("m")), Mark(1)) == Failing(ttl, p, [Delivery("m", Duplicate(0))])
  {
  }

  /** The failure is real: a server error followed by a prompt redelivery is acknowledged and lost. */
  lemma RetryIsLost(ttl: nat)
    requires ttl > 0
    ensures var steps := [Arrive("m"), Mark(0), Rehydrate(0, true), Invoke(0, Answered(500)), Arrive("m"), Mark(1)];
            var s := Run(ttl, Init, steps);
            Acked(s, "m") && !Succeeded(s, "m") && |s.deliveries| == 2 && Failed(s.deliveries[0].phase)
  {
    hide Apply, Run;
    var steps := [Arrive("m"), Mark(0), Rehydrate(0, true), Invoke(0, Answered(500)), Arrive("m"), Mark(1)];
    var failed := Failing(ttl, Finished(0, Answered(500)), []);
    FailingSteps(ttl);
    RetrySteps(ttl, Finished(0, Answered(500)));
    NoSteps(ttl);
    assert steps[..0] == [] && steps[..6] == steps;
    RunOn(ttl, steps, 0, Init, Apply(ttl, Init, Arrive("m")));
    RunOn(ttl, steps, 1, Apply(ttl, Init, Arrive("m")), Failing(ttl, Marked(0), []));
    RunOn(ttl, steps, 2, Failing(ttl, Marked(0), []), Failing(ttl, Invoking(0), []));
    RunOn(ttl, steps, 3, Failing(ttl, Invoking(0), []), failed);
    RunOn(ttl, steps, 4, failed, Apply(ttl, failed, Arrive("m")));
    RunOn(ttl, steps, 5, Apply(ttl, failed, Arrive("m")), Failing(ttl, Finished(0, Answered(500)), [Delivery("m", Duplicate(0))]));
    var s := Run(ttl, Init, steps);
    assert s.deliveries[1].id == "m" && Reply(s.deliveries[1].phase) == Some(204);
  }

  lemma NoSteps(ttl: nat)
    ensures Run(ttl, Init, []) == Init
  {
  }

  lemma RunOn(ttl: nat, steps: seq<Step>, k: nat, s: State, t: State)
    requires k < |steps| && Run(ttl, Init, steps[..k]) == s && Apply(ttl, s, steps[k]) == t
    ensures Run(ttl, Init, steps[..k + 1]) == t
  {
    assert steps[..k + 1][..k] == steps[..k];
  }

  lemma {:induction false} RunAppend(ttl: nat, s: State, a: seq<Step>, b: seq<Step>)
    ensures Run(ttl, s, a + b) == Run(ttl, Run(ttl, s, a), b)
  {
    hide Apply;
    if b == [] {
      assert a + b == a;
    } else {
      RunAppend(ttl, s, a, b[..|b| - 1]);
      assert (a + b)[..|a + b| - 1] == a + b[..|b| - 1];
    }
  }

  /** A failed delivery stays failed, and a delivery that has not marked yet marks no earlier than now. */
  lemma {:induction false} LaterWrites(ttl: nat, s: State, more: seq<Step>, d: nat)
    ensures s.now <= Run(ttl, s, more).now && |s.deliveries| <= |Run(ttl, s, more).deliveries|
    ensures d < |s.deliveries| ==> Run(ttl, s, more).deliveries[d].id == s.deliveries[d].id
    ensures d < |s.deliveries| && Failed(s.deliveries[d].phase) ==> Run(ttl, s, more).deliveries[d] == s.deliveries[d]
    ensures d < |Run(ttl, s, more).deliveries| && Writer(Run(ttl, s, more), d).Some? ==>
              (d < |s.deliveries| && Writer(s, d) == Writer(Run(ttl, s, more), d)) || Writer(Run(ttl, s, more), d).value >= s.now
  {
    if more != [] {
      LaterWrites(ttl, s, more[..|more| - 1], d);
    }
  }

  /**
   Lost for good: once every mark of an acknowledged id has failed, whatever happens next, an
   invocation can only succeed behind a new mark at least the time to live after every failed one.
   */
  lemma LostUntilExpiry(ttl: nat, steps: seq<Step>, more: seq<Step>, id: string, m: nat, d: nat)
    requires m < |Run(ttl, Init, steps).deliveries| && d < |Run(ttl, Init, steps + more).deliveries|
    requires var s := Run(ttl, Init, steps);
             && s.deliveries[m].id == id && Writer(s, m).Some?
             && forall k :: 0 <= k < |s.deliveries| && s.deliveries[k].id == id && Writer(s, k).Some? ==> Failed(s.deliveries[k].phase)
    requires var t := Run(ttl, Init, steps + more); t.deliveries[d].id == id && Success(t.deliveries[d].phase)
    ensures Writer(Run(ttl, Init, steps + more), d).Some?
    ensures Writer(Run(ttl, Init, steps), m).value + ttl <= Writer(Run(ttl, Init, steps + more), d).value
  {
    hide Run;
    var s, t := Run(ttl, Init, steps), Run(ttl, Init, steps + more);
    RunAppend(ttl, Init, steps, more);
    RunKeepsInv(ttl, steps);
    RunKeepsInv(ttl, steps + more);
    LaterWrites(ttl, s, more, d);
    LaterWrites(ttl, s, more, m);
    assert Remembered(ttl, s, m);
    assert Apart(ttl, t, d, m) && Apart(ttl, t, m, d);
  }

  /** Some write of the id is younger than the time to live. */
  ghost predicate Blocked(ttl: nat, s: State, id: string) {
    exists m :: 0 <= m < |s.deliveries| && s.deliveries[m].id == id && Writer(s, m).Some? && s.now < Writer(s, m).value + ttl
  }

  /**
   When the retry of a failed message runs the agent again: exactly when no write of the id is
   younger than the time to live at the moment the retry marks. Otherwise the retry is acknowledged,
   even though its payload could have been fetched.
   */
  lemma RetryRunsIff(ttl: nat, steps: seq<Step>, d: nat)
    requires d < |Run(ttl, Init, steps).deliveries| && Run(ttl, Init, steps).deliveries[d].phase.Arrived?
    ensures var s := Run(ttl, Init, steps);
            var after := Apply(ttl, Apply(ttl, s, Mark(d)), Rehydrate(d, true)).deliveries[d].phase;
            && (RanAgent(after) <==> !Blocked(ttl, s, s.deliveries[d].id))
            && (Reply(after) == Some(204) <==> Blocked(ttl, s, s.deliveries[d].id))
  {
    hide Run;
    RunKeepsInv(ttl, steps);
    var s := Run(ttl, Init, steps);
    var id := s.deliveries[d].id;
    if Held(s.seen, id, s.now) {
      assert Sourced(ttl, s, id);
    } else {
      forall m | 0 <= m < |s.deliveries| && s.deliveries[m].id == id && Writer(s, m).Some?
        ensures Writer(s, m).value + ttl <= s.now
      {
        assert Remembered(ttl, s, m);
      }
    }
  }
}
