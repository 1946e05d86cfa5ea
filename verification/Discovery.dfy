/**
 The tool-discovery sidecar: a manifest replaced under a lock, and a broadcast that runs outside the
 lock into bounded, lossy subscriber queues. The state machine interleaves every handler at the
 granularity of its lock sections and channel operations; the class below is the server itself.
 */
module Discovery {

  const QUEUE := 8

  /**
   One event stream and its client. Installs are numbered from 0; `offered` are the installs made
   while the stream was registered. The client owes a read of the manifest after subscribing and
   after each event; `read` counts the installs its latest read reflected.
   */
  datatype Stream = Stream(
    buffer: seq<nat>, delivered: seq<nat>, dropped: seq<nat>, offered: seq<nat>, owed: nat, read: nat)

  /**
   `sending[k]` are the streams the broadcast of install k has still to try. `done` is the
   shutdown signal and `closes` counts how often its channel was closed.
   */
  datatype State = State(
    installed: nat, subscribers: set<nat>, streams: map<nat, Stream>, sending: seq<set<nat>>, done: bool, closes: nat)

  datatype Step =
    | Install
    | Send(install: nat, stream: nat)
    | Subscribe(stream: nat)
    | Dequeue(stream: nat)
    | Read(stream: nat)
    | Leave(stream: nat)
    | Shutdown

  const Init := State(0, {}, map[], [], false, 0)

  /** A non-blocking send: the event is queued if there is room and dropped otherwise. */
  function Offer(st: Stream, k: nat): Stream {
    if |st.buffer| < QUEUE then st.(buffer := st.buffer + [k]) else st.(dropped := st.dropped + [k])
  }

  function Apply(s: State, step: Step): State {
    match step
    case Install =>
      s.(installed := s.installed + 1,
         sending := s.sending + [s.subscribers],
         streams := map c | c in s.streams ::
                      if c in s.subscribers then s.streams[c].(offered := s.streams[c].offered + [s.installed])
                      else s.streams[c])
    case Send(k, c) =>
      if k >= |s.sending| || c !in s.sending[k] || c !in s.streams then s
      else s.(sending := s.sending[k := s.sending[k] - {c}], streams := s.streams[c := Offer(s.streams[c], k)])
    case Subscribe(c) =>
      if c in s.streams then s
      else s.(subscribers := s.subscribers + {c}, streams := s.streams[c := Stream([], [], [], [], 1, 0)])
    case Dequeue(c) =>
      if c !in s.subscribers || c !in s.streams || s.streams[c].buffer == [] then s
      else
        var st := s.streams[c];
        s.(streams := s.streams[c := st.(buffer := st.buffer[1..],
                                         delivered := st.delivered + [st.buffer[0]],
                                         owed := st.owed + 1)])
    case Read(c) =>
      if c !in s.streams || s.streams[c].owed == 0 then s
      else s.(streams := s.streams[c := s.streams[c].(owed := s.streams[c].owed - 1, read := s.installed)])
    case Leave(c) => s.(subscribers := s.subscribers - {c})
    case Shutdown => if s.done then s else s.(done := true, closes := s.closes + 1)
  }

  function Run(s: State, steps: seq<Step>): State {
    if steps == [] then s else Apply(Run(s, steps[..|steps| - 1]), steps[|steps| - 1])
  }

  /** The installs whose broadcast has not reached stream c yet. */
  ghost function Pending(sending: seq<set<nat>>, c: nat): set<nat> {
    set k: nat | k < |sending| && c in sending[k]
  }

  // ---- Conservation --------------------------------------------------------------------------

  /** Every install offered to a stream is in exactly one place, exactly once. */
  ghost predicate Conserved(s: State, c: nat)
    requires c in s.streams
  {
    var st := s.streams[c];
    multiset(st.delivered) + multiset(st.buffer) + multiset(st.dropped) + multiset(Pending(s.sending, c))
      == multiset(st.offered)
  }

  /** A subscriber that is behind has something coming that will make it look again. */
  ghost predicate Woken(s: State, c: nat)
    requires c in s.streams
  {
    var st := s.streams[c];
    st.read == s.installed || st.owed > 0 || st.buffer != [] || Pending(s.sending, c) != {}
  }

  ghost predicate Inv(s: State) {
    && |s.sending| == s.installed
    && s.closes == (if s.done then 1 else 0)
    && s.subscribers <= s.streams.Keys
    && (forall k :: 0 <= k < |s.sending| ==> s.sending[k] <= s.streams.Keys)
    && (forall c :: c in s.streams ==>
          |s.streams[c].buffer| <= QUEUE && s.streams[c].read <= s.installed && Conserved(s, c))
    && (forall c :: c in s.subscribers ==> Woken(s, c))
  }

  lemma PendingInstall(s: State, c: nat)
    requires |s.sending| == s.installed
    ensures Pending(s.sending + [s.subscribers], c)
         == Pending(s.sending, c) + if c in s.subscribers then {s.installed} else {}
  {
  }

  lemma PendingSend(sending: seq<set<nat>>, k: nat, c: nat, other: nat)
    requires k < |sending| && c in sending[k]
    ensures Pending(sending[k := sending[k] - {c}], c) == Pending(sending, c) - {k}
    ensures k in Pending(sending, c)
    ensures other != c ==> Pending(sending[k := sending[k] - {c}], other) == Pending(sending, other)
  {
  }

  lemma InstallAt(s: State, c: nat)
    requires |s.sending| == s.installed && c in s.streams && Conserved(s, c)
    ensures Conserved(Apply(s, Install), c) && (c in s.subscribers ==> Woken(Apply(s, Install), c))
  {
    PendingInstall(s, c);
    assert c in s.subscribers ==> s.installed in Pending(Apply(s, Install).sending, c);
  }

  lemma InstallKeepsInv(s: State)
    requires Inv(s)
    ensures Inv(Apply(s, Install))
  {
    hide Conserved, Woken;
    var t := Apply(s, Install);
    forall c | c in t.streams ensures Conserved(t, c) && (c in s.subscribers ==> Woken(t, c)) {
      InstallAt(s, c);
    }
  }

  /** A send moves one install of one stream from pending to queued or dropped. */
  lemma SendConserves(s: State, k: nat, c: nat)
    requires |s.sending| == s.installed && k < |s.sending| && c in s.sending[k] && c in s.streams && Conserved(s, c)
    ensures Conserved(Apply(s, Send(k, c)), c)
  {
    hide Pending;
    var st := s.streams[c];
    PendingSend(s.sending, k, c, c);
    OneMoves(multiset(st.delivered), multiset(st.buffer), multiset(st.dropped), Pending(s.sending, c), k);
    assert multiset(st.buffer + [k]) == multiset(st.buffer) + multiset{k};
    assert multiset(st.dropped + [k]) == multiset(st.dropped) + multiset{k};
  }

  lemma OneMoves(a: multiset<nat>, b: multiset<nat>, c: multiset<nat>, pending: set<nat>, k: nat)
    requires k in pending
    ensures a + (b + multiset{k}) + c + multiset(pending - {k}) == a + b + c + multiset(pending)
    ensures a + b + (c + multiset{k}) + multiset(pending - {k}) == a + b + c + multiset(pending)
  {
    assert multiset(pending) == multiset(pending - {k}) + multiset{k};
  }

  lemma SendAside(s: State, k: nat, c: nat, d: nat)
    requires |s.sending| == s.installed && k < |s.sending| && c in s.sending[k] && c in s.streams
    requires d in s.streams && d != c && Conserved(s, d)
    ensures Conserved(Apply(s, Send(k, c)), d) && (Woken(s, d) ==> Woken(Apply(s, Send(k, c)), d))
  {
    PendingSend(s.sending, k, c, d);
  }

  lemma SendWakes(s: State, k: nat, c: nat)
    requires k < |s.sending| && c in s.sending[k] && c in s.streams && |s.streams[c].buffer| <= QUEUE
    ensures Woken(Apply(s, Send(k, c)), c)
  {
  }

  lemma SendKeepsInv(s: State, k: nat, c: nat)
    requires Inv(s) && k < |s.sending| && c in s.sending[k]
    ensures Inv(Apply(s, Send(k, c)))
  {
    hide Conserved, Woken;
    var t := Apply(s, Send(k, c));
    SendConserves(s, k, c);
    SendWakes(s, k, c);
    forall d | d in t.streams ensures Conserved(t, d) && (d in t.subscribers ==> Woken(t, d)) {
      if d != c {
        SendAside(s, k, c, d);
      }
    }
  }

  lemma DequeueConserves(s: State, c: nat)
    requires c in s.subscribers && c in s.streams && s.streams[c].buffer != [] && Conserved(s, c)
    ensures Conserved(Apply(s, Dequeue(c)), c)
  {
    var b := s.streams[c].buffer;
    assert multiset(b) == multiset([b[0]] + b[1..]) by {
      assert b == [b[0]] + b[1..];
    }
  }

  lemma DequeueAside(s: State, c: nat, d: nat)
    requires c in s.subscribers && c in s.streams && s.streams[c].buffer != []
    requires d in s.streams && d != c && Conserved(s, d)
    ensures Conserved(Apply(s, Dequeue(c)), d) && (Woken(s, d) ==> Woken(Apply(s, Dequeue(c)), d))
  {
  }

  lemma DequeueWakes(s: State, c: nat)
    requires c in s.subscribers && c in s.streams && s.streams[c].buffer != []
    ensures Woken(Apply(s, Dequeue(c)), c)
  {
  }

  lemma DequeueKeepsInv(s: State, c: nat)
    requires Inv(s) && c in s.subscribers && s.streams[c].buffer != []
    ensures Inv(Apply(s, Dequeue(c)))
  {
    hide Conserved, Woken;
    var t := Apply(s, Dequeue(c));
    DequeueConserves(s, c);
    DequeueWakes(s, c);
    forall d | d in t.streams ensures Conserved(t, d) && (d in t.subscribers ==> Woken(t, d)) {
      if d != c {
        DequeueAside(s, c, d);
      }
    }
  }

  lemma SubscribeKeepsInv(s: State, c: nat)
    requires Inv(s) && c !in s.streams
    ensures Inv(Apply(s, Subscribe(c)))
  {
    var t := Apply(s, Subscribe(c));
    forall d | d in t.streams ensures Conserved(t, d) {
      if d == c {
        assert Pending(t.sending, c) == {};
      } else {
        assert Conserved(s, d);
      }
    }
    forall d | d in t.subscribers ensures Woken(t, d) {
      assert d != c ==> Woken(s, d);
    }
  }

  lemma ReadKeepsInv(s: State, c: nat)
    requires Inv(s) && c in s.streams && s.streams[c].owed > 0
    ensures Inv(Apply(s, Read(c)))
  {
    var t := Apply(s, Read(c));
    forall d | d in t.streams ensures Conserved(t, d) {
      assert Conserved(s, d);
    }
    forall d | d in t.subscribers ensures Woken(t, d) {
      assert Woken(s, d);
    }
  }

  /** Leaving and shutting down touch neither the streams nor the broadcasts. */
  lemma FrameKeepsInv(s: State, t: State)
    requires Inv(s)
    requires t.streams == s.streams && t.sending == s.sending && t.installed == s.installed
    requires t.subscribers <= s.subscribers && t.closes == (if t.done then 1 else 0)
    ensures Inv(t)
  {
    forall c | c in t.streams ensures Conserved(t, c) {
      assert Conserved(s, c);
    }
    forall c | c in t.subscribers ensures Woken(t, c) {
      assert Woken(s, c);
    }
  }

  lemma ApplyKeepsInv(s: State, step: Step)
    requires Inv(s)
    ensures Inv(Apply(s, step))
  {
    match step
    case Install => InstallKeepsInv(s);
    case Send(k, c) =>
      if k < |s.sending| && c in s.sending[k] {
        SendKeepsInv(s, k, c);
      }
    case Dequeue(c) =>
      if c in s.subscribers && s.streams[c].buffer != [] {
        DequeueKeepsInv(s, c);
      }
    case Subscribe(c) =>
      if c !in s.streams {
        SubscribeKeepsInv(s, c);
      }
    case Read(c) =>
      if c in s.streams && s.streams[c].owed > 0 {
        ReadKeepsInv(s, c);
      }
    case Leave(_) => FrameKeepsInv(s, Apply(s, step));
    case Shutdown => FrameKeepsInv(s, Apply(s, step));
  }

  lemma {:induction false} RunKeepsInv(s: State, steps: seq<Step>)
    requires Inv(s)
    ensures Inv(Run(s, steps))
  {
    if steps != [] {
      RunKeepsInv(s, steps[..|steps| - 1]);
      ApplyKeepsInv(Run(s, steps[..|steps| - 1]), steps[|steps| - 1]);
    }
  }

  /**
   Broadcast conservation, over every interleaving: what a stream was offered is what it was
   delivered, has queued, had dropped, or is still to be sent; its queue never exceeds eight; and
   the shutdown channel is closed at most once.
   */
  lemma BroadcastConservation(steps: seq<Step>, c: nat)
    ensures var s := Run(Init, steps);
            && s.closes <= 1
            && (c in s.streams ==> Conserved(s, c) && |s.streams[c].buffer| <= QUEUE)
  {
    RunKeepsInv(Init, steps);
  }

  // ---- No lost wakeup ------------------------------------------------------------------------

  /** Nothing is queued, in flight or owed for stream c. */
  ghost predicate Drained(s: State, c: nat)
    requires c in s.streams
  {
    s.streams[c].buffer == [] && s.streams[c].owed == 0 && Pending(s.sending, c) == {}
  }

  /**
   No lost wakeup: over every interleaving, a subscriber whose queue and broadcasts are drained has
   read the manifest of the very last install, however many events were dropped on the way.
   */
  lemma NoLostWakeup(steps: seq<Step>, c: nat)
    ensures var s := Run(Init, steps);
            c in s.subscribers ==> c in s.streams && (Drained(s, c) ==> s.streams[c].read == s.installed)
  {
    RunKeepsInv(Init, steps);
    var s := Run(Init, steps);
    if c in s.subscribers {
      assert Woken(s, c);
    }
  }

  /** What is left to do for stream c: three units per pending send, two per queued event, one per owed read. */
  ghost function Backlog(s: State, c: nat): nat
    requires c in s.streams
  {
    3 * |Pending(s.sending, c)| + 2 * |s.streams[c].buffer| + s.streams[c].owed
  }

  ghost predicate Serves(step: Step, c: nat) {
    step == Dequeue(c) || step == Read(c) || (step.Send? && step.stream == c)
  }

  /** Draining is never stuck and always makes progress: an undrained subscriber has a step that shrinks its backlog. */
  lemma DrainProgress(s: State, c: nat) returns (step: Step)
    requires Inv(s) && c in s.subscribers && !Drained(s, c)
    ensures Serves(step, c) && c in Apply(s, step).streams && Backlog(Apply(s, step), c) < Backlog(s, c)
  {
    if s.streams[c].owed > 0 {
      step := Read(c);
    } else if s.streams[c].buffer != [] {
      step := Dequeue(c);
    } else {
      var k :| k in Pending(s.sending, c);
      step := Send(k, c);
      PendingSend(s.sending, k, c, c);
    }
  }

  /** Between installs no step of anybody adds to a backlog, and every effective step for c takes from it. */
  lemma BacklogShrinks(s: State, step: Step, c: nat)
    requires Inv(s) && c in s.streams && step != Install
    ensures c in Apply(s, step).streams && Backlog(Apply(s, step), c) <= Backlog(s, c)
    ensures Serves(step, c) && Apply(s, step) != s ==> Backlog(Apply(s, step), c) < Backlog(s, c)
  {
    hide Conserved, Woken;
    match step
    case Send(k, d) =>
      if k < |s.sending| && d in s.sending[k] {
        PendingSend(s.sending, k, d, c);
        if d == c {
          assert |Pending(s.sending, c) - {k}| == |Pending(s.sending, c)| - 1;
        }
      }
    case Subscribe(_) =>
    case Dequeue(_) =>
    case Read(_) =>
    case Leave(_) =>
    case Shutdown =>
  }

  /** How many steps of a run served stream c and changed something. */
  ghost function ServedCount(s: State, steps: seq<Step>, c: nat): nat {
    if steps == [] then 0
    else
      var before := Run(s, steps[..|steps| - 1]);
      var last := steps[|steps| - 1];
      ServedCount(s, steps[..|steps| - 1], c) + if Serves(last, c) && Apply(before, last) != before then 1 else 0
  }

  /** After the last install a subscriber is brought up to date within its backlog, whatever else happens. */
  lemma {:induction false} CatchUpBound(s: State, steps: seq<Step>, c: nat)
    requires Inv(s) && c in s.streams
    requires forall i :: 0 <= i < |steps| ==> steps[i] != Install
    ensures c in Run(s, steps).streams
    ensures ServedCount(s, steps, c) + Backlog(Run(s, steps), c) <= Backlog(s, c)
  {
    if steps != [] {
      var front := steps[..|steps| - 1];
      assert steps[|steps| - 1] != Install;
      CatchUpBound(s, front, c);
      RunKeepsInv(s, front);
      BacklogShrinks(Run(s, front), steps[|steps| - 1], c);
    }
  }

  /**
   So a subscriber that stays is up to date with the last install after at most its backlog of
   effective steps of its own, however they interleave with anybody else's.
   */
  lemma CaughtUp(s: State, steps: seq<Step>, c: nat)
    requires Inv(s) && c in s.streams
    requires forall i :: 0 <= i < |steps| ==> steps[i] != Install
    requires ServedCount(s, steps, c) >= Backlog(s, c) && c in Run(s, steps).subscribers
    ensures c in Run(s, steps).streams && Run(s, steps).streams[c].read == Run(s, steps).installed
  {
    hide Run, ServedCount;
    CatchUpBound(s, steps, c);
    RunKeepsInv(s, steps);
    assert Woken(Run(s, steps), c);
  }
}
