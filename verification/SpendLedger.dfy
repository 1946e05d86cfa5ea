/**
 The per-agent monthly spend ledger: counters in a shared key-value store, incremented and then
 re-expired by any number of launchers, each operation of which may fail before or after it takes
 effect. Amounts are exact reals, times are seconds, and the calendar is a parameter.
 */
module SpendLedger {
  import opened Prelude
  import Text

  // ---- Keys ----------------------------------------------------------------------------------

  datatype Agent = Agent(namespace: string, name: string)

  /** The identity a booking is filed under: empty for an unnamed agent. */
  function Scope(a: Agent): string {
    if a.name == "" then "" else if a.namespace == "" then a.name else a.namespace + "/" + a.name
  }

  function SpendKey(a: Agent, month: string): string {
    "agent:" + Scope(a) + ":spend:" + month
  }

  /** Kubernetes names hold neither colons nor slashes. */
  predicate Plain(a: Agent) {
    a.name != "" && ':' !in a.namespace && ':' !in a.name && '/' !in a.namespace && '/' !in a.name
  }

  lemma SlashIff(a: Agent)
    requires Plain(a)
    ensures '/' in Scope(a) <==> a.namespace != ""
  {
    assert a.namespace != "" ==> Scope(a)[|a.namespace|] == '/';
  }

  lemma ScopeInjective(a: Agent, b: Agent)
    requires Plain(a) && Plain(b) && Scope(a) == Scope(b)
    ensures a == b
  {
    SlashIff(a);
    SlashIff(b);
    if a.namespace != "" {
      Text.CutOnce(a.namespace, a.name, b.namespace, b.name, '/');
    }
  }

  lemma KeyParts(a: Agent, m: string)
    ensures SpendKey(a, m)[6..] == Scope(a) + [':'] + ("spend:" + m) && ("spend:" + m)[6..] == m
  {
    hide Scope;
    var scope := Scope(a);
    assert ":spend:" == [':'] + "spend:";
    assert scope + ([':'] + "spend:") + m == scope + [':'] + ("spend:" + m);
    assert "agent:" + scope + ":spend:" + m == "agent:" + (scope + ":spend:" + m);
  }

  /** Different agents or months never share a counter. */
  lemma KeyInjective(a: Agent, m: string, b: Agent, n: string)
    requires Plain(a) && Plain(b) && SpendKey(a, m) == SpendKey(b, n)
    ensures a == b && m == n
  {
    hide SpendKey;
    KeyParts(a, m);
    KeyParts(b, n);
    Text.CutOnce(Scope(a), "spend:" + m, Scope(b), "spend:" + n, ':');
    ScopeInjective(a, b);
  }

  /** Names with slashes could clash. */
  lemma SlashesClash(month: string)
    ensures SpendKey(Agent("a", "b"), month) == SpendKey(Agent("", "a/b"), month)
  {
    assert "a" + "/" + "b" == "a/b";
  }

  // ---- The store -----------------------------------------------------------------------------

  const DAY := 24 * 60 * 60
  const TTL := 62 * DAY

  datatype Entry = Entry(amount: real, expires: Option<int>)

  type Entries = map<string, Entry>

  /** An operation that succeeds, or whose reply is lost before or after it takes effect. */
  datatype Fate = Fine | LostBefore | LostAfter

  predicate Live(entries: Entries, key: string, now: int) {
    key in entries && (entries[key].expires.None? || now < entries[key].expires.value)
  }

  function Balance(entries: Entries, key: string, now: int): real {
    if Live(entries, key, now) then entries[key].amount else 0.0
  }

  /** Adds to a counter and keeps its expiry; an absent or expired counter starts over without one. */
  function Incremented(entries: Entries, key: string, now: int, delta: real): Entries {
    entries[key := if Live(entries, key, now) then entries[key].(amount := entries[key].amount + delta) else Entry(delta, None)]
  }

  /** Sets the expiry of a counter that is there. */
  function Renewed(entries: Entries, key: string, now: int): Entries {
    if Live(entries, key, now) then entries[key := entries[key].(expires := Some(now + TTL))] else entries
  }

  // ---- Every run -----------------------------------------------------------------------------

  /** The name of the month a time falls in. */
  type Calendar = int -> string

  /** Two times in the same month are less than 31 days apart. */
  ghost predicate Monthly(cal: Calendar) {
    forall s, t :: cal(s) == cal(t) && s <= t ==> t - s < 31 * DAY
  }

  /** An increment that took effect. */
  datatype Booking = Booking(agent: Agent, month: string, delta: real, at: int)

  datatype State = State(entries: Entries, now: int, booked: seq<Booking>)

  /** `asOf` is when the launcher looked at the clock to choose the month. */
  datatype Step =
    | Tick(wait: nat)
    | Incr(agent: Agent, asOf: int, delta: real, fate: Fate)
    | Renew(agent: Agent, asOf: int, fate: Fate)

  /** Unnamed agents and calls that cost nothing are not booked. */
  predicate Bookable(agent: Agent, delta: real) {
    agent.name != "" && delta > 0.0
  }

  function Apply(cal: Calendar, s: State, step: Step): State {
    match step
    case Tick(wait) => s.(now := s.now + wait)
    case Incr(agent, asOf, delta, fate) =>
      if fate == LostBefore || asOf > s.now || !Bookable(agent, delta) then s
      else State(Incremented(s.entries, SpendKey(agent, cal(asOf)), s.now, delta), s.now,
                 s.booked + [Booking(agent, cal(asOf), delta, s.now)])
    case Renew(agent, asOf, fate) =>
      if fate == LostBefore || asOf > s.now then s
      else s.(entries := Renewed(s.entries, SpendKey(agent, cal(asOf)), s.now))
  }

  function Start(now: int): State {
    State(map[], now, [])
  }

  function Run(cal: Calendar, s: State, steps: seq<Step>): State {
    if steps == [] then s else Apply(cal, Run(cal, s, steps[..|steps| - 1]), steps[|steps| - 1])
  }

  lemma {:induction false} RunAppend(cal: Calendar, s: State, a: seq<Step>, b: seq<Step>)
    ensures Run(cal, s, a + b) == Run(cal, Run(cal, s, a), b)
  {
    hide Apply;
    if b == [] {
      assert a + b == a;
    } else {
      RunAppend(cal, s, a, b[..|b| - 1]);
      assert (a + b)[..|a + b| - 1] == a + b[..|b| - 1];
    }
  }

  function KeyOf(b: Booking): string {
    SpendKey(b.agent, b.month)
  }

  /** All that was booked to a key. */
  function Sum(booked: seq<Booking>, key: string): real {
    if booked == [] then 0.0
    else
      var last := booked[|booked| - 1];
      Sum(booked[..|booked| - 1], key) + if KeyOf(last) == key then last.delta else 0.0
  }

  /** When a key was first booked to. */
  function First(booked: seq<Booking>, key: string): Option<int> {
    if booked == [] then None
    else
      var front := First(booked[..|booked| - 1], key);
      if front.Some? then front
      else if KeyOf(booked[|booked| - 1]) == key then Some(booked[|booked| - 1].at) else None
  }

  /** A counter stands for all its bookings until 62 days after the first. */
  ghost predicate KeyInv(s: State, key: string) {
    match First(s.booked, key)
    case None => key !in s.entries && Sum(s.booked, key) == 0.0
    case Some(first) =>
      && first <= s.now
      && (s.now < first + TTL ==>
            && key in s.entries
            && s.entries[key].amount == Sum(s.booked, key)
            && (s.entries[key].expires.Some? ==> s.entries[key].expires.value >= first + TTL))
  }

  lemma BookedAppend(booked: seq<Booking>, b: Booking, key: string)
    ensures Sum(booked + [b], key) == Sum(booked, key) + if KeyOf(b) == key then b.delta else 0.0
    ensures First(booked + [b], key)
         == if First(booked, key).Some? then First(booked, key) else if KeyOf(b) == key then Some(b.at) else None
  {
    assert (booked + [b])[..|booked|] == booked;
  }

  lemma IncrKeeps(s: State, b: Booking, key: string)
    requires KeyInv(s, key) && b.at == s.now
    ensures KeyInv(State(Incremented(s.entries, KeyOf(b), s.now, b.delta), s.now, s.booked + [b]), key)
  {
    hide KeyOf, Sum, First;
    BookedAppend(s.booked, b, key);
  }

  /** In every run every counter keeps the invariant. */
  lemma {:induction false} RunKeeps(cal: Calendar, start: int, steps: seq<Step>, key: string)
    ensures KeyInv(Run(cal, Start(start), steps), key)
  {
    hide KeyOf, SpendKey, Sum, First;
    if steps == [] {
      NothingBooked(key);
    } else {
      var s, step := Run(cal, Start(start), steps[..|steps| - 1]), steps[|steps| - 1];
      RunKeeps(cal, start, steps[..|steps| - 1], key);
      if step.Incr? && step.asOf <= s.now {
        var b := Booking(step.agent, cal(step.asOf), step.delta, s.now);
        KeyOfIs(b);
        IncrKeeps(s, b, key);
      }
    }
  }

  lemma NothingBooked(key: string)
    ensures Sum([], key) == 0.0 && First([], key) == None
  {
  }

  lemma KeyOfIs(b: Booking)
    ensures KeyOf(b) == SpendKey(b.agent, b.month)
  {
  }

  /** Every booking was made no earlier than some time in its month. */
  ghost predicate Dated(cal: Calendar, b: Booking) {
    exists asOf :: asOf <= b.at && cal(asOf) == b.month
  }

  lemma {:induction false} RunDated(cal: Calendar, start: int, steps: seq<Step>)
    ensures forall b :: b in Run(cal, Start(start), steps).booked ==> Dated(cal, b)
  {
    hide SpendKey, Incremented, Renewed;
    if steps != [] {
      RunDated(cal, start, steps[..|steps| - 1]);
    }
  }

  lemma {:induction false} FirstIsBooked(booked: seq<Booking>, key: string) returns (b: Booking)
    requires First(booked, key).Some?
    ensures b in booked && KeyOf(b) == key && First(booked, key) == Some(b.at)
  {
    hide KeyOf;
    var front := booked[..|booked| - 1];
    if First(front, key).Some? {
      b := FirstIsBooked(front, key);
    } else {
      b := booked[|booked| - 1];
    }
  }

  // ---- What it is for ------------------------------------------------------------------------

  /** All that was booked for one agent in one month. */
  function Total(booked: seq<Booking>, agent: Agent, month: string): real {
    if booked == [] then 0.0
    else
      var last := booked[|booked| - 1];
      Total(booked[..|booked| - 1], agent, month) + if last.agent == agent && last.month == month then last.delta else 0.0
  }

  lemma {:induction false} SumIsTotal(booked: seq<Booking>, agent: Agent, month: string)
    requires Plain(agent) && forall b :: b in booked ==> Plain(b.agent)
    ensures Sum(booked, SpendKey(agent, month)) == Total(booked, agent, month)
  {
    hide SpendKey, Plain;
    if booked != [] {
      var last := booked[|booked| - 1];
      assert last in booked;
      SumIsTotal(booked[..|booked| - 1], agent, month);
      if SpendKey(last.agent, last.month) == SpendKey(agent, month) {
        KeyInjective(last.agent, last.month, agent, month);
      }
    }
  }

  lemma {:induction false} RunPlain(cal: Calendar, start: int, steps: seq<Step>)
    requires forall step :: step in steps && step.Incr? && Bookable(step.agent, step.delta) ==> Plain(step.agent)
    ensures forall b :: b in Run(cal, Start(start), steps).booked ==> Plain(b.agent)
  {
    hide SpendKey, Incremented, Renewed, Plain;
    if steps != [] {
      var front := steps[..|steps| - 1];
      assert forall step :: step in front ==> step in steps;
      assert steps[|steps| - 1] in steps;
      RunPlain(cal, start, front);
    }
  }

  /**
   Ledger conservation: in every run, with any interleaving of launchers and any lost replies, an
   agent's counter read during its own month is exactly the sum of the positive amounts booked for
   that agent in that month; no counter expires within its month.
   */
  lemma LedgerExact(cal: Calendar, start: int, steps: seq<Step>, agent: Agent)
    requires Monthly(cal) && Plain(agent)
    requires forall step :: step in steps && step.Incr? && Bookable(step.agent, step.delta) ==> Plain(step.agent)
    ensures var s := Run(cal, Start(start), steps);
            var key := SpendKey(agent, cal(s.now));
            && Balance(s.entries, key, s.now) == Total(s.booked, agent, cal(s.now))
            && (Live(s.entries, key, s.now) <==> First(s.booked, key).Some?)
  {
    hide SpendKey, KeyOf, Plain, Run, Sum, First, Total, Dated;
    var s := Run(cal, Start(start), steps);
    var key := SpendKey(agent, cal(s.now));
    RunKeeps(cal, start, steps, key);
    RunPlain(cal, start, steps);
    SumIsTotal(s.booked, agent, cal(s.now));
    if First(s.booked, key).Some? {
      var b := FirstIsBooked(s.booked, key);
      RunDated(cal, start, steps);
      SameMonth(b, agent, cal(s.now));
      WithinMonth(cal, b, s.now);
    }
  }

  lemma SameMonth(b: Booking, agent: Agent, month: string)
    requires Plain(b.agent) && Plain(agent) && KeyOf(b) == SpendKey(agent, month)
    ensures b.agent == agent && b.month == month
  {
    KeyInjective(b.agent, b.month, agent, month);
  }

  lemma WithinMonth(cal: Calendar, b: Booking, now: int)
    requires Monthly(cal) && Dated(cal, b) && b.at <= now && cal(now) == b.month
    ensures now < b.at + TTL
  {
    var asOf :| asOf <= b.at && cal(asOf) == b.month;
    assert cal(asOf) == cal(now);
  }

  // ---- The launcher --------------------------------------------------------------------------

  /** One call's accounting: the month is chosen first, and the renewal follows only an acknowledged increment. */
  function CallSteps(now: int, agent: Agent, delta: real, lag: nat, incr: Fate, gap: nat, renew: Fate): seq<Step> {
    if !Bookable(agent, delta) then []
    else [Tick(lag), Incr(agent, now, delta, incr)] + if incr == Fine then [Tick(gap), Renew(agent, now, renew)] else []
  }

  lemma RunTwo(cal: Calendar, s: State, x: Step, y: Step)
    ensures Run(cal, s, [x, y]) == Apply(cal, Apply(cal, s, x), y)
  {
    hide Apply;
    assert [x, y][..1] == [x] && [x][..0] == [];
    assert Run(cal, s, [x]) == Apply(cal, s, x);
  }

  /**
   One booking of an amount: the month is that of the time before, the increment comes after the lag,
   and the renewal after a further gap if the increment was acknowledged.
   */
  ghost predicate Books(cal: Calendar, before: State, after: State, agent: Agent, delta: real,
                        lag: nat, incr: Fate, gap: nat, renew: Fate) {
    var key, at := SpendKey(agent, cal(before.now)), before.now + lag;
    && after.now == at + (if incr == Fine then gap else 0)
    && (forall k :: k != key ==> (k in after.entries <==> k in before.entries))
    && (forall k :: k != key && k in before.entries ==> after.entries[k] == before.entries[k])
    && (incr == LostBefore ==> after.entries == before.entries && after.booked == before.booked)
    && (incr != LostBefore ==>
          && after.booked == before.booked + [Booking(agent, cal(before.now), delta, at)]
          && key in after.entries
          && after.entries[key].amount == Balance(before.entries, key, at) + delta
          && var kept := if Live(before.entries, key, at) then before.entries[key].expires else None;
             after.entries[key].expires ==
               if incr == Fine && renew != LostBefore && (kept.None? || after.now < kept.value) then Some(after.now + 62 * 24 * 60 * 60)
               else kept)
  }

  /** The state after a call's increment and, if it was acknowledged, its renewal. */
  function Called(cal: Calendar, s: State, agent: Agent, delta: real, lag: nat, incr: Fate, gap: nat, renew: Fate): State {
    var t := Apply(cal, Apply(cal, s, Tick(lag)), Incr(agent, s.now, delta, incr));
    if incr == Fine then Apply(cal, Apply(cal, t, Tick(gap)), Renew(agent, s.now, renew)) else t
  }

  lemma CallRuns(cal: Calendar, s: State, agent: Agent, delta: real, lag: nat, incr: Fate, gap: nat, renew: Fate)
    requires Bookable(agent, delta)
    ensures Run(cal, s, CallSteps(s.now, agent, delta, lag, incr, gap, renew)) == Called(cal, s, agent, delta, lag, incr, gap, renew)
  {
    hide Run, Apply;
    var x, y := Tick(lag), Incr(agent, s.now, delta, incr);
    var z, w := Tick(gap), Renew(agent, s.now, renew);
    RunTwo(cal, s, x, y);
    RunAppend(cal, s, [x, y], [z, w]);
    RunTwo(cal, Run(cal, s, [x, y]), z, w);
    assert [x, y] + [] == [x, y];
  }

  lemma IncrementedExact(entries: Entries, key: string, now: int, delta: real)
    ensures var e := Incremented(entries, key, now, delta);
            && key in e && e[key].amount == Balance(entries, key, now) + delta
            && e[key].expires == (if Live(entries, key, now) then entries[key].expires else None)
            && forall k :: k != key ==> (k in e <==> k in entries) && (k in e ==> e[k] == entries[k])
  {
  }

  lemma RenewedExact(entries: Entries, key: string, now: int)
    requires key in entries
    ensures var e := Renewed(entries, key, now);
            && key in e && e[key].amount == entries[key].amount
            && e[key].expires == (if entries[key].expires.None? || now < entries[key].expires.value then Some(now + TTL)
                                  else entries[key].expires)
            && forall k :: k != key ==> (k in e <==> k in entries) && (k in e ==> e[k] == entries[k])
  {
  }

  lemma CalledExact(cal: Calendar, s: State, agent: Agent, delta: real, lag: nat, incr: Fate, gap: nat, renew: Fate)
    requires Bookable(agent, delta)
    ensures var key, at := SpendKey(agent, cal(s.now)), s.now + lag;
            var once := Incremented(s.entries, key, at, delta);
            Called(cal, s, agent, delta, lag, incr, gap, renew) ==
              if incr == LostBefore then State(s.entries, at, s.booked)
              else State(if incr == Fine && renew != LostBefore then Renewed(once, key, at + gap) else once,
                         if incr == Fine then at + gap else at,
                         s.booked + [Booking(agent, cal(s.now), delta, at)])
  {
    hide SpendKey, Incremented, Renewed;
  }

  /** The steps of a call book its amount once, on the counter of the agent's month, and touch no other. */
  lemma CallBooks(cal: Calendar, s: State, agent: Agent, delta: real, lag: nat, incr: Fate, gap: nat, renew: Fate)
    requires Bookable(agent, delta)
    ensures Books(cal, s, Run(cal, s, CallSteps(s.now, agent, delta, lag, incr, gap, renew)), agent, delta, lag, incr, gap, renew)
  {
    hide SpendKey, Run, CallSteps, Called, Incremented, Renewed, Live, Balance;
    var key, at := SpendKey(agent, cal(s.now)), s.now + lag;
    CallRuns(cal, s, agent, delta, lag, incr, gap, renew);
    CalledExact(cal, s, agent, delta, lag, incr, gap, renew);
    IncrementedExact(s.entries, key, at, delta);
    RenewedExact(Incremented(s.entries, key, at, delta), key, at + gap);
  }

  class Store {
    var entries: Entries
    var now: int
    ghost var booked: seq<Booking>

    constructor (start: int)
      ensures Contents() == Start(start)
    {
      entries, now, booked := map[], start, [];
    }

    ghost function Contents(): State
      reads this
    {
      State(entries, now, booked)
    }

    method Sleep(wait: nat)
      modifies this`now
      ensures now == old(now) + wait
    {
      now := now + wait;
    }

    method IncrByFloat(key: string, delta: real, fate: Fate) returns (ok: bool)
      modifies this`entries
      ensures ok <==> fate == Fine
      ensures entries == if fate == LostBefore then old(entries) else Incremented(old(entries), key, now, delta)
    {
      if fate != LostBefore {
        entries := Incremented(entries, key, now, delta);
      }
      ok := fate == Fine;
    }

    method Expire(key: string, fate: Fate) returns (ok: bool)
      modifies this`entries
      ensures ok <==> fate == Fine
      ensures entries == if fate == LostBefore then old(entries) else Renewed(old(entries), key, now)
    {
      if fate != LostBefore {
        entries := Renewed(entries, key, now);
      }
      ok := fate == Fine;
    }

    method AddSpend(cal: Calendar, agent: Agent, delta: real, lag: nat, incr: Fate, gap: nat, renew: Fate) returns (ok: bool)
      requires Bookable(agent, delta)
      modifies this
      ensures Contents() == Run(cal, old(Contents()), CallSteps(old(now), agent, delta, lag, incr, gap, renew))
      ensures Books(cal, old(Contents()), Contents(), agent, delta, lag, incr, gap, renew)
      ensures ok <==> incr == Fine && renew == Fine
    {
      hide SpendKey, Run, Books;
      CallBooks(cal, Contents(), agent, delta, lag, incr, gap, renew);
      ghost var s := Contents();
      var asOf := now;
      var key := SpendKey(agent, cal(asOf));
      Sleep(lag);
      ok := IncrByFloat(key, delta, incr);
      booked := if incr == LostBefore then booked else booked + [Booking(agent, cal(asOf), delta, now)];
      RunTwo(cal, s, Tick(lag), Incr(agent, asOf, delta, incr));
      assert Contents() == Run(cal, s, [Tick(lag), Incr(agent, asOf, delta, incr)]);
      if ok {
        Sleep(gap);
        ok := Expire(key, renew);
        RunAppend(cal, s, [Tick(lag), Incr(agent, asOf, delta, incr)], [Tick(gap), Renew(agent, asOf, renew)]);
        RunTwo(cal, Run(cal, s, [Tick(lag), Incr(agent, asOf, delta, incr)]), Tick(gap), Renew(agent, asOf, renew));
      } else {
        assert [Tick(lag), Incr(agent, asOf, delta, incr)] + [] == [Tick(lag), Incr(agent, asOf, delta, incr)];
      }
    }

    /** Best effort: a call that costs nothing, or an unnamed agent, books nothing. */
    method PostCall(cal: Calendar, agent: Agent, actual: real, lag: nat, incr: Fate, gap: nat, renew: Fate)
      modifies this
      ensures Contents() == Run(cal, old(Contents()), CallSteps(old(now), agent, actual, lag, incr, gap, renew))
      ensures agent.name == "" || actual <= 0.0 ==> Contents() == old(Contents())
      ensures agent.name != "" && actual > 0.0 ==> Books(cal, old(Contents()), Contents(), agent, actual, lag, incr, gap, renew)
    {
      hide Books;
      if agent.name == "" || actual <= 0.0 {
        return;
      }
      var ok := AddSpend(cal, agent, actual, lag, incr, gap, renew);
    }
  }
}
