/**
 Keep-last-good reload in the egress sidecar. The tool policy and the route table are read at startup
 and re-read on every relevant file event; both run on the same watch loop and differ in what a
 missing file means and in which parsed values they accept. Parsers and file contents are parameters,
 and so is the order of events, which may be coalesced, spurious or lost in any way.
 */
module Reload {
  import opened Prelude
  import opened Text

  /** What one attempt to read the mounted file returns. */
  datatype Read = Content(text: string) | NotExist | Failed

  /** The value held for the proxy, and the text it was parsed from. */
  datatype Held<+T> = Held(current: T, raw: string)

  /** What a watcher knows of its file: the text a missing file stands for, the parser, what to take over. */
  datatype Source<!T> = Source(missing: Option<string>, parse: string -> Option<T>, accept: T -> bool)

  /** The tool policy: a missing or blank file means no policy, and every parsed policy is taken over. */
  function PolicySource<P>(decode: string -> Option<P>): Source<Option<P>> {
    Source(Some(""),
           (text: string) =>
             if Trim(text) == "" then Some(None)
             else match decode(text) { case None => None case Some(policy) => Some(Some(policy)) },
           (policy: Option<P>) => true)
  }

  /** The route table: a missing file means nothing, and an empty table is never taken over. */
  function RouteSource<R>(parse: string -> Option<map<string, R>>): Source<map<string, R>> {
    Source(None, parse, (table: map<string, R>) => table != map[])
  }

  function TextOf<T>(src: Source<T>, read: Read): Option<string> {
    match read case Content(text) => Some(text) case NotExist => src.missing case Failed => None
  }

  /** What a read should make the holder hold, or nothing if the read is to be ignored. */
  function Meaning<T>(src: Source<T>, read: Read): Option<Held<T>> {
    match TextOf(src, read)
    case None => None
    case Some(text) =>
      match src.parse(text)
      case None => None
      case Some(value) => if src.accept(value) then Some(Held(value, text)) else None
  }

  /** What a read of the policy file means: no file or a blank one is no policy, anything else what it decodes to. */
  lemma PolicyMeaning<P>(decode: string -> Option<P>, read: Read)
    ensures Meaning(PolicySource(decode), read) ==
              match read
              case NotExist => Some(Held(None, ""))
              case Failed => None
              case Content(text) =>
                if AllBlank(text) then Some(Held(None, text))
                else if decode(text).None? then None
                else Some(Held(decode(text), text))
  {
    assert Trim("") == "";
    if read.Content? {
      TrimmedBlank(read.text);
    }
  }

  /** What a read of the route file means: nothing without a file, without a table or with an empty one. */
  lemma RouteMeaning<R>(parse: string -> Option<map<string, R>>, read: Read)
    ensures Meaning(RouteSource(parse), read) ==
              if read.Content? && parse(read.text).Some? && parse(read.text).value != map[]
              then Some(Held(parse(read.text).value, read.text)) else None
  {
  }

  // ---- The simple specification --------------------------------------------------------------

  /** Always reparse, keep the last good value. */
  function Next<T>(src: Source<T>, h: Held<T>, read: Read): Held<T> {
    if Meaning(src, read).Some? then Meaning(src, read).value else h
  }

  function LastGood<T>(src: Source<T>, h: Held<T>, tries: seq<Read>): Held<T> {
    if tries == [] then h else Next(src, LastGood(src, h, tries[..|tries| - 1]), tries[|tries| - 1])
  }

  /** Try i has a meaning and no later try has one. */
  ghost predicate Decides<T>(src: Source<T>, tries: seq<Read>, i: nat) {
    i < |tries| && Meaning(src, tries[i]).Some? && forall j :: i < j < |tries| ==> Meaning(src, tries[j]).None?
  }

  /** The held value is the meaning of the last meaningful try, or the first value when there is none. */
  lemma {:induction false} LastGoodExact<T>(src: Source<T>, h: Held<T>, tries: seq<Read>) returns (i: nat)
    ensures if i < |tries| then Decides(src, tries, i) && LastGood(src, h, tries) == Meaning(src, tries[i]).value
            else LastGood(src, h, tries) == h && forall j :: 0 <= j < |tries| ==> Meaning(src, tries[j]).None?
  {
    hide Meaning;
    i := |tries|;
    if tries != [] {
      var last := |tries| - 1;
      if Meaning(src, tries[last]).Some? {
        i := last;
      } else {
        var k := LastGoodExact(src, h, tries[..last]);
        assert forall j :: 0 <= j < last ==> tries[..last][j] == tries[j];
        i := if k < last then k else |tries|;
      }
    }
  }

  /**
   Convergence: whatever came before and however events were coalesced, once every meaningful try
   sees the final content, a single such try reaches it and it stays.
   */
  lemma {:induction false} Converges<T>(src: Source<T>, h: Held<T>, before: seq<Read>, after: seq<Read>, final: Held<T>)
    requires forall j :: 0 <= j < |after| ==> Meaning(src, after[j]) == None || Meaning(src, after[j]) == Some(final)
    requires exists j :: 0 <= j < |after| && Meaning(src, after[j]) == Some(final)
    ensures LastGood(src, h, before + after) == final
  {
    hide Meaning;
    var tries := before + after;
    assert forall j :: 0 <= j < |after| ==> tries[|before| + j] == after[j];
    var i := LastGoodExact(src, h, tries);
    var k :| 0 <= k < |after| && Meaning(src, after[k]) == Some(final);
    assert Meaning(src, tries[|before| + k]).Some?;
    assert tries[i] == after[i - |before|];
  }

  /** The held value is always the parse of the held text. */
  ghost predicate Parsed<T>(src: Source<T>, h: Held<T>) {
    src.parse(h.raw) == Some(h.current)
  }

  lemma {:induction false} StaysParsed<T>(src: Source<T>, h: Held<T>, tries: seq<Read>)
    requires Parsed(src, h)
    ensures Parsed(src, LastGood(src, h, tries))
  {
    if tries != [] {
      StaysParsed(src, h, tries[..|tries| - 1]);
    }
  }

  /** Once an accepted value is held, every later value is accepted. */
  lemma {:induction false} StaysAccepted<T>(src: Source<T>, h: Held<T>, tries: seq<Read>)
    requires src.accept(h.current)
    ensures src.accept(LastGood(src, h, tries).current)
  {
    if tries != [] {
      StaysAccepted(src, h, tries[..|tries| - 1]);
    }
  }

  /** A non-empty route table never becomes empty; an empty one is replaced exactly by a non-empty one read. */
  lemma {:induction false} RoutesNeverBlanked<R>(parse: string -> Option<map<string, R>>, h: Held<map<string, R>>, tries: seq<Read>)
    ensures var src := RouteSource(parse);
            LastGood(src, h, tries).current == map[]
            <==> h.current == map[] && forall j :: 0 <= j < |tries| ==> Meaning(src, tries[j]).None?
  {
    var src := RouteSource(parse);
    var i := LastGoodExact(src, h, tries);
  }

  /** A read that clears the policy: no file, or a blank one. */
  predicate Clears(read: Read) {
    read.NotExist? || (read.Content? && Trim(read.text) == "")
  }

  lemma ClearsExact<P>(decode: string -> Option<P>, read: Read)
    requires Meaning(PolicySource(decode), read).Some?
    ensures Meaning(PolicySource(decode), read).value.current == None <==> Clears(read)
  {
    assert Trim("") == "";
  }

  /** The proxy is left without a policy exactly when the deciding read clears it, or none was ever held. */
  lemma {:induction false} PolicyClearedIff<P>(decode: string -> Option<P>, h: Held<Option<P>>, tries: seq<Read>)
    ensures var src := PolicySource(decode);
            LastGood(src, h, tries).current == None
            <==> (exists i: nat :: Decides(src, tries, i) && Clears(tries[i]))
                 || (h.current == None && forall j :: 0 <= j < |tries| ==> Meaning(src, tries[j]).None?)
  {
    var src := PolicySource(decode);
    var i := LastGoodExact(src, h, tries);
    if i < |tries| {
      ClearsExact(decode, tries[i]);
      assert forall k: nat :: Decides(src, tries, k) ==> k == i;
    }
  }

  // ---- The watched holder --------------------------------------------------------------------

  datatype Op = Create | Write | Remove | Rename | Chmod

  datatype Signal = Stop | Closed | Event(ops: set<Op>) | WatchError

  /** One turn of the watch loop, and what reading the file would return then. */
  datatype Turn = Turn(signal: Signal, read: Read)

  predicate Relevant(ops: set<Op>) {
    ops * {Create, Write, Rename, Remove} != {}
  }

  /** The reads the loop makes: one per relevant event until it is stopped. */
  function Tries(turns: seq<Turn>): seq<Read> {
    if turns == [] then []
    else match turns[0].signal
      case Stop => []
      case Closed => []
      case Event(ops) => (if Relevant(ops) then [turns[0].read] else []) + Tries(turns[1..])
      case WatchError => Tries(turns[1..])
  }

  /** The loop is still running after some turns. */
  predicate Running(turns: seq<Turn>) {
    forall i :: 0 <= i < |turns| ==> !turns[i].signal.Stop? && !turns[i].signal.Closed?
  }

  lemma {:induction false} TriesAppend(a: seq<Turn>, b: seq<Turn>)
    ensures Tries(a + b) == if Running(a) then Tries(a) + Tries(b) else Tries(a)
  {
    if a == [] {
      assert a + b == b;
    } else {
      TriesAppend(a[1..], b);
      assert (a + b)[0] == a[0] && (a + b)[1..] == a[1..] + b;
      assert Running(a) <==> !a[0].signal.Stop? && !a[0].signal.Closed? && Running(a[1..]) by {
        assert forall i :: 1 <= i < |a| ==> a[i] == a[1..][i - 1];
      }
    }
  }

  /**
   What one turn of a running loop does: a creation, a write, a renaming or a removal makes it read; a
   change of permissions alone or a watch error is as if it had not been; a stop ends it.
   */
  lemma TurnExact(a: seq<Turn>, turn: Turn, b: seq<Turn>)
    requires Running(a)
    ensures match turn.signal
            case Event(ops) =>
              Tries(a + [turn] + b)
              == Tries(a) + (if Create in ops || Write in ops || Rename in ops || Remove in ops then [turn.read] else []) + Tries(b)
            case WatchError => Tries(a + [turn] + b) == Tries(a + b)
            case _ => Tries(a + [turn] + b) == Tries(a)
  {
    TriesAppend(a, b);
    TriesAppend(a, [turn] + b);
    assert a + ([turn] + b) == a + [turn] + b && ([turn] + b)[1..] == b;
    if turn.signal.Event? {
      var ops := turn.signal.ops;
      assert Relevant(ops) <==> Create in ops || Write in ops || Rename in ops || Remove in ops by {
        var both := ops * {Create, Write, Rename, Remove};
        assert Create in both <==> Create in ops;
        assert Write in both <==> Write in ops;
        assert Rename in both <==> Rename in ops;
        assert Remove in both <==> Remove in ops;
        if both != {} {
          var op :| op in both;
        }
      }
    } else {
      assert Tries(a) + [] == Tries(a);
    }
  }

  /**
   A final change reaches the holder: one creation, write, renaming or removal that sees it, such as the
   symlink swap of a projected mount, is enough if what is read afterwards is the same or unreadable.
   */
  lemma WatchConverges<T>(src: Source<T>, h: Held<T>, a: seq<Turn>, turn: Turn, b: seq<Turn>, final: Held<T>)
    requires Running(a) && turn.signal.Event?
    requires Create in turn.signal.ops || Write in turn.signal.ops || Rename in turn.signal.ops || Remove in turn.signal.ops
    requires Meaning(src, turn.read) == Some(final)
    requires forall i :: 0 <= i < |b| ==> Meaning(src, b[i].read) == None || Meaning(src, b[i].read) == Some(final)
    ensures LastGood(src, h, Tries(a + [turn] + b)) == final
  {
    hide Meaning, LastGood, Relevant;
    TurnExact(a, turn, b);
    var after := [turn.read] + Tries(b);
    forall j | 0 <= j < |after| ensures Meaning(src, after[j]) == None || Meaning(src, after[j]) == Some(final) {
      if j > 0 {
        assert after[j] in Tries(b);
        var i := ReadAt(b, after[j]);
      }
    }
    assert after[0] == turn.read;
    Converges(src, h, Tries(a), after, final);
    assert Tries(a) + [turn.read] + Tries(b) == Tries(a) + after;
  }

  lemma {:induction false} ReadAt(turns: seq<Turn>, read: Read) returns (i: nat)
    requires read in Tries(turns)
    ensures i < |turns| && turns[i].read == read
  {
    if read in Tries(turns[1..]) {
      i := ReadAt(turns[1..], read);
      i := i + 1;
    } else {
      i := 0;
    }
  }

  lemma LastGoodAppend<T>(src: Source<T>, h: Held<T>, tries: seq<Read>, read: Read)
    ensures LastGood(src, h, tries + [read]) == Next(src, LastGood(src, h, tries), read)
  {
    assert (tries + [read])[..|tries|] == tries;
  }

  class Holder<T> {
    const src: Source<T>
    var current: T
    var raw: string

    constructor (src: Source<T>, zero: T)
      ensures this.src == src && Value() == Held(zero, "")
    {
      this.src, current, raw := src, zero, "";
    }

    function Value(): Held<T>
      reads this
    {
      Held(current, raw)
    }

    ghost predicate Valid()
      reads this
    {
      Parsed(src, Value())
    }

    method Store(value: T, text: string)
      modifies this
      ensures Value() == Held(value, text)
    {
      current, raw := value, text;
    }

    method RawEquals(text: string) returns (eq: bool)
      ensures eq <==> raw == text
    {
      eq := raw == text;
    }

    /** Startup refuses a file it cannot read or parse and otherwise takes over what it says, even an empty table. */
    method LoadInitial(read: Read) returns (ok: bool)
      modifies this
      ensures ok <==> TextOf(src, read).Some? && src.parse(TextOf(src, read).value).Some?
      ensures ok ==> Valid() && raw == TextOf(src, read).value
      ensures !ok ==> Value() == old(Value())
    {
      var text := TextOf(src, read);
      if text == None {
        return false;
      }
      var parsed := src.parse(text.value);
      if parsed.None? {
        return false;
      }
      Store(parsed.value, text.value);
      return true;
    }

    /** Skipping an unchanged text never changes what is held. */
    method Reload(read: Read)
      requires Valid()
      modifies this
      ensures Valid() && Value() == Next(src, old(Value()), read)
    {
      var text := TextOf(src, read);
      if text == None {
        return;
      }
      var same := RawEquals(text.value);
      if same {
        return;
      }
      var parsed := src.parse(text.value);
      if parsed.None? {
        return;
      }
      if !src.accept(parsed.value) {
        return;
      }
      Store(parsed.value, text.value);
    }

    /** The watch loop leaves the fold of the simple specification over the reads it makes. */
    method Watch(usable: bool, turns: seq<Turn>)
      requires Valid()
      modifies this
      ensures Valid() && Value() == LastGood(src, old(Value()), if usable then Tries(turns) else [])
    {
      if !usable {
        return;
      }
      ghost var start, done := Value(), [];
      var i := 0;
      while i < |turns|
        invariant i <= |turns| && Valid()
        invariant Value() == LastGood(src, start, done)
        invariant Tries(turns) == done + Tries(turns[i..])
      {
        assert turns[i..][0] == turns[i] && turns[i..][1..] == turns[i + 1..] && done + [] == done;
        match turns[i].signal {
          case Stop => return;
          case Closed => return;
          case Event(ops) =>
            if Relevant(ops) {
              Reload(turns[i].read);
              LastGoodAppend(src, start, done, turns[i].read);
              done := done + [turns[i].read];
            }
          case WatchError =>
        }
        i := i + 1;
      }
      assert turns[i..] == [] && done + [] == done;
    }
  }
}
