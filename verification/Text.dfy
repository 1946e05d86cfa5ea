/** Text: ASCII white space, trimming, and text as a list of lines. */
module Text {
  predicate Blank(c: char) {
    c == ' ' || c == '\t' || c == '\n' || c == '\r' || c == '\U{000b}' || c == '\U{000c}'
  }

  predicate AllBlank(s: string) {
    forall i :: 0 <= i < |s| ==> Blank(s[i])
  }

  function TrimLeft(s: string): string {
    if s == "" || !Blank(s[0]) then s else TrimLeft(s[1..])
  }

  function TrimRight(s: string): string {
    if s == "" || !Blank(s[|s| - 1]) then s else TrimRight(s[..|s| - 1])
  }

  function Trim(s: string): string {
    TrimRight(TrimLeft(s))
  }

  lemma {:induction false} TrimRightIs(x: string)
    ensures |TrimRight(x)| <= |x| && TrimRight(x) == x[..|TrimRight(x)|] && AllBlank(x[|TrimRight(x)|..])
    ensures TrimRight(x) != "" ==> !Blank(TrimRight(x)[|TrimRight(x)| - 1])
  {
    if x != "" && Blank(x[|x| - 1]) {
      TrimRightIs(x[..|x| - 1]);
      var n := |TrimRight(x)|;
      assert x[n..] == x[..|x| - 1][n..] + [x[|x| - 1]];
    }
  }

  lemma {:induction false} TrimRightBlanks(a: string, b: string)
    requires AllBlank(b)
    ensures TrimRight(a + b) == TrimRight(a)
  {
    if b == "" {
      assert a + b == a;
    } else {
      assert (a + b)[..|a + b| - 1] == a + b[..|b| - 1];
      TrimRightBlanks(a, b[..|b| - 1]);
    }
  }

  lemma {:induction false} TrimLeftSplit(s: string) returns (a: string)
    ensures AllBlank(a) && s == a + TrimLeft(s) && (TrimLeft(s) != "" ==> !Blank(TrimLeft(s)[0]))
  {
    if s == "" || !Blank(s[0]) {
      a := "";
    } else {
      var rest := TrimLeftSplit(s[1..]);
      a := [s[0]] + rest;
    }
  }

  lemma {:induction false} TrimLeftBlanks(a: string, s: string)
    requires AllBlank(a)
    ensures TrimLeft(a + s) == TrimLeft(s)
  {
    if a == "" {
      assert a + s == s;
    } else {
      TrimLeftBlanks(a[1..], s);
      assert (a + s)[0] == a[0] && (a + s)[1..] == a[1..] + s;
    }
  }

  /** No blank at either end. */
  predicate Tight(w: string) {
    w != "" ==> !Blank(w[0]) && !Blank(w[|w| - 1])
  }

  lemma TrimmedSplit(s: string) returns (a: string, b: string)
    ensures AllBlank(a) && AllBlank(b) && s == a + Trim(s) + b && Tight(Trim(s))
  {
    hide TrimLeft, TrimRight, AllBlank;
    a := TrimLeftSplit(s);
    var z := TrimLeft(s);
    TrimRightIs(z);
    b := z[|TrimRight(z)|..];
    assert z == TrimRight(z) + b;
  }

  lemma TrimmedAs(a: string, w: string, b: string)
    requires AllBlank(a) && AllBlank(b) && Tight(w)
    ensures Trim(a + w + b) == w
  {
    assert a + w + b == a + (w + b);
    TrimLeftBlanks(a, w + b);
    if w == "" {
      TrimLeftBlanks(b, "");
      assert w + b == b && b + "" == b;
    } else {
      assert (w + b)[0] == w[0];
      TrimRightBlanks(w, b);
    }
  }

  /** A text trims to what stands between blanks, without blanks of its own at the ends. */
  lemma TrimmedIs(s: string, w: string)
    ensures Trim(s) == w <==> Tight(w) && exists a, b :: AllBlank(a) && AllBlank(b) && s == a + w + b
  {
    hide Trim, AllBlank, Tight;
    if Trim(s) == w {
      var a, b := TrimmedSplit(s);
    }
    if Tight(w) && exists a, b :: AllBlank(a) && AllBlank(b) && s == a + w + b {
      var a, b :| AllBlank(a) && AllBlank(b) && s == a + w + b;
      TrimmedAs(a, w, b);
    }
  }

  lemma TrimmedBlank(s: string)
    ensures Trim(s) == "" <==> AllBlank(s)
  {
    if Trim(s) == "" {
      var a, b := TrimmedSplit(s);
    }
    if AllBlank(s) {
      TrimmedAs(s, "", "");
      assert s + "" + "" == s;
    }
  }

  predicate Starts<T(==)>(s: seq<T>, prefix: seq<T>) {
    |prefix| <= |s| && s[..|prefix|] == prefix
  }

  lemma StartsElsewhere<T>(s: seq<T>, prefix: seq<T>, k: nat)
    requires k < |s| && k < |prefix| && s[k] != prefix[k]
    ensures !Starts(s, prefix)
  {
    assert |prefix| <= |s| ==> s[..|prefix|][k] == s[k];
  }

  lemma StartsCons<T>(x: T, s: seq<T>, prefix: seq<T>)
    requires prefix != []
    ensures Starts([x] + s, prefix) <==> x == prefix[0] && Starts(s, prefix[1..])
  {
    var n := |prefix|;
    assert prefix == [prefix[0]] + prefix[1..];
    if n - 1 <= |s| {
      assert ([x] + s)[..n] == [x] + s[..n - 1];
    }
  }

  /** Blanks on the right do not matter for a prefix that does not end in one. */
  lemma {:induction false} TrimRightStarts(s: string, q: string)
    requires q != "" && !Blank(q[|q| - 1])
    ensures Starts(TrimRight(s), q) <==> Starts(s, q)
  {
    if s != "" && Blank(s[|s| - 1]) {
      var front := s[..|s| - 1];
      TrimRightStarts(front, q);
      if |q| <= |front| {
        assert s[..|q|] == front[..|q|];
      } else if |q| == |s| {
        assert s[..|q|] == s;
      }
    }
  }

  /** The leading run of non-blank characters. */
  function Run(s: string): string {
    if s == "" || Blank(s[0]) then "" else [s[0]] + Run(s[1..])
  }

  /** The first word of a line, empty for a blank line. */
  function FirstWord(s: string): string {
    Run(TrimLeft(s))
  }

  function Digit(n: nat): char
    requires n < 10
  {
    "0123456789"[n]
  }

  /** A number in decimal. */
  function Number(n: nat): string {
    if n < 10 then [Digit(n)] else Number(n / 10) + [Digit(n % 10)]
  }

  /** Where a separator first stands in a text, or its length. */
  function FirstAt(s: string, sep: char): nat {
    if s == "" || s[0] == sep then 0 else 1 + FirstAt(s[1..], sep)
  }

  lemma {:induction false} FirstAtCut(a: string, sep: char, b: string)
    requires sep !in a
    ensures FirstAt(a + [sep] + b, sep) == |a|
  {
    if a != "" {
      assert (a + [sep] + b)[1..] == a[1..] + [sep] + b;
      FirstAtCut(a[1..], sep, b);
    }
  }

  /** A text is cut at its first separator in one way only. */
  lemma CutOnce(a: string, b: string, c: string, d: string, sep: char)
    requires a + [sep] + b == c + [sep] + d && sep !in a && sep !in c
    ensures a == c && b == d
  {
    var s := a + [sep] + b;
    FirstAtCut(a, sep, b);
    FirstAtCut(c, sep, d);
    assert s[..|a|] == a && s[..|c|] == c && s[|a| + 1..] == b && s[|c| + 1..] == d;
  }

  // ---- Lines ---------------------------------------------------------------------------------

  /** Puts an element in front of the first group. */
  function Push<T>(x: T, groups: seq<seq<T>>): (r: seq<seq<T>>)
    requires |groups| >= 1
    ensures |r| == |groups|
  {
    [[x] + groups[0]] + groups[1..]
  }

  lemma PushAppend<T>(x: T, a: seq<seq<T>>, b: seq<seq<T>>)
    requires |a| >= 1
    ensures Push(x, a + b) == Push(x, a) + b
  {
    assert (a + b)[1..] == a[1..] + b;
  }

  /** Splitting at a separator: always at least one piece, and no piece holds the separator. */
  function Split<T(==)>(s: seq<T>, sep: T): (r: seq<seq<T>>)
    ensures |r| >= 1
  {
    if s == [] then [[]] else if s[0] == sep then [[]] + Split(s[1..], sep) else Push(s[0], Split(s[1..], sep))
  }

  /** Two lists of pieces, the last of the first going on with the first of the second. */
  function Glue<T>(a: seq<seq<T>>, b: seq<seq<T>>): (r: seq<seq<T>>)
    requires |a| >= 1 && |b| >= 1
    ensures |r| == |a| + |b| - 1
  {
    a[..|a| - 1] + [a[|a| - 1] + b[0]] + b[1..]
  }

  lemma GluePush<T>(x: T, a: seq<seq<T>>, b: seq<seq<T>>)
    requires |a| >= 1 && |b| >= 1
    ensures Glue(Push(x, a), b) == Push(x, Glue(a, b))
  {
    if |a| == 1 {
      assert [x] + (a[0] + b[0]) == [x] + a[0] + b[0];
    } else {
      assert Push(x, a)[..|a| - 1] == Push(x, a[..|a| - 1]);
      assert Glue(a, b)[1..] == a[1..|a| - 1] + [a[|a| - 1] + b[0]] + b[1..];
    }
  }

  lemma GlueCons<T>(p: seq<T>, a: seq<seq<T>>, b: seq<seq<T>>)
    requires |a| >= 1 && |b| >= 1
    ensures Glue([p] + a, b) == [p] + Glue(a, b)
  {
  }

  lemma GlueNothing<T>(b: seq<seq<T>>)
    requires |b| >= 1
    ensures Glue([[]], b) == b
  {
    assert [] + b[0] == b[0];
  }

  /** Splitting a text in two parts glues the pieces of the parts. */
  lemma {:induction false} SplitGlue<T>(s: seq<T>, t: seq<T>, sep: T)
    ensures Split(s + t, sep) == Glue(Split(s, sep), Split(t, sep))
  {
    hide Glue, Push;
    if s == [] {
      assert s + t == t;
      GlueNothing(Split(t, sep));
    } else {
      SplitGlue(s[1..], t, sep);
      assert (s + t)[0] == s[0] && (s + t)[1..] == s[1..] + t;
      GluePush(s[0], Split(s[1..], sep), Split(t, sep));
      GlueCons([], Split(s[1..], sep), Split(t, sep));
    }
  }

  /** The pieces hold what the text holds, except the separator. */
  lemma {:induction false} SplitHolds<T>(s: seq<T>, sep: T)
    ensures forall p, x :: p in Split(s, sep) && x in p ==> x in s && x != sep
  {
    if s != [] {
      SplitHolds(s[1..], sep);
      var rest := Split(s[1..], sep);
      assert forall x :: x in s[1..] ==> x in s;
      forall p, x | p in Split(s, sep) && x in p ensures x in s && x != sep {
        if s[0] == sep {
          assert p in rest;
        } else if p == [s[0]] + rest[0] {
          assert x == s[0] || x in rest[0];
        } else {
          assert p in rest;
        }
      }
    }
  }

  function Join<T>(pieces: seq<seq<T>>, sep: T): seq<T> {
    if pieces == [] then [] else if |pieces| == 1 then pieces[0] else pieces[0] + [sep] + Join(pieces[1..], sep)
  }

  lemma {:induction false} SplitAround<T>(a: seq<T>, sep: T, b: seq<T>)
    ensures Split(a + [sep] + b, sep) == Split(a, sep) + Split(b, sep)
  {
    var s := a + [sep] + b;
    if a == [] {
      assert s[0] == sep && s[1..] == b;
    } else {
      SplitAround(a[1..], sep, b);
      assert s[0] == a[0] && s[1..] == a[1..] + [sep] + b;
      PushAppend(a[0], Split(a[1..], sep), Split(b, sep));
    }
  }

  lemma {:induction false} SplitWhole<T>(s: seq<T>, sep: T)
    requires sep !in s
    ensures Split(s, sep) == [s]
  {
    if s != [] {
      SplitWhole(s[1..], sep);
      assert [s[0]] + s[1..] == s;
    }
  }

  /** A piece stands between separators or ends of the text, and holds none. */
  ghost predicate Between<T>(a: seq<T>, sep: T, p: seq<T>, b: seq<T>) {
    sep !in p && (a == [] || a[|a| - 1] == sep) && (b == [] || b[0] == sep)
  }

  lemma BetweenSplits<T>(a: seq<T>, sep: T, p: seq<T>, b: seq<T>)
    requires Between(a, sep, p, b)
    ensures p in Split(a + p + b, sep)
  {
    hide Split;
    SplitWhole(p, sep);
    if b != [] {
      SplitAround(p, sep, b[1..]);
      assert p + b == p + [sep] + b[1..];
    } else {
      assert p + b == p;
    }
    var end := Split(p + b, sep);
    assert end[0] == p;
    if a != [] {
      SplitAround(a[..|a| - 1], sep, p + b);
      assert a[..|a| - 1] + [sep] + (p + b) == a + p + b;
    } else {
      assert a + p + b == p + b;
    }
  }

  lemma {:induction false} SplitPieces<T>(s: seq<T>, sep: T, p: seq<T>) returns (a: seq<T>, b: seq<T>)
    requires p in Split(s, sep)
    ensures s == a + p + b && Between(a, sep, p, b)
  {
    hide Split;
    if sep !in s {
      SplitWhole(s, sep);
      a, b := [], [];
    } else {
      var i :| 0 <= i < |s| && s[i] == sep;
      var h, t := s[..i], s[i + 1..];
      assert s == h + [sep] + t;
      SplitAround(h, sep, t);
      if p in Split(h, sep) {
        a, b := SplitPieces(h, sep, p);
        b := b + [sep] + t;
        assert s == a + p + b;
      } else {
        a, b := SplitPieces(t, sep, p);
        a := h + [sep] + a;
        assert s == a + p + b;
      }
    }
  }

  /** Every element is the separator or in a piece. */
  lemma {:induction false} SplitCovers<T>(s: seq<T>, sep: T, x: T) returns (p: seq<T>)
    requires x in s && x != sep
    ensures p in Split(s, sep) && x in p
  {
    var rest := Split(s[1..], sep);
    if s[0] == sep {
      p := SplitCovers(s[1..], sep, x);
      assert p in rest && rest == Split(s, sep)[1..];
    } else if s[0] == x {
      p := [s[0]] + rest[0];
      assert p == Split(s, sep)[0] && p[0] == x;
    } else {
      p := SplitCovers(s[1..], sep, x);
      if p == rest[0] {
        p := [s[0]] + rest[0];
        assert p == Split(s, sep)[0];
      } else {
        assert p in rest[1..];
        assert Split(s, sep)[1..] == rest[1..];
      }
    }
  }

  lemma JoinCons<T>(p: seq<T>, tail: seq<seq<T>>, sep: T)
    requires tail != []
    ensures Join([p] + tail, sep) == p + [sep] + Join(tail, sep)
  {
    assert ([p] + tail)[1..] == tail;
  }

  lemma Regroup<T>(a: seq<T>, b: seq<T>, c: seq<T>, d: seq<T>)
    ensures a + b + c + d == a + (b + c + d)
  {
  }

  lemma JoinPush<T>(x: T, pieces: seq<seq<T>>, sep: T)
    requires |pieces| >= 1
    ensures Join(Push(x, pieces), sep) == [x] + Join(pieces, sep)
  {
    if |pieces| == 1 {
      assert Push(x, pieces) == [[x] + pieces[0]];
    } else {
      JoinLonger(x, pieces[0], pieces[1..], sep);
      assert pieces == [pieces[0]] + pieces[1..];
    }
  }

  lemma JoinLonger<T>(x: T, p: seq<T>, tail: seq<seq<T>>, sep: T)
    requires tail != []
    ensures Join([[x] + p] + tail, sep) == [x] + Join([p] + tail, sep)
  {
    JoinCons(p, tail, sep);
    JoinCons([x] + p, tail, sep);
    Regroup([x], p, [sep], Join(tail, sep));
  }

  /** Joining undoes splitting. */
  lemma {:induction false} JoinSplit<T>(s: seq<T>, sep: T)
    ensures Join(Split(s, sep), sep) == s
  {
    if s != [] {
      var rest := Split(s[1..], sep);
      JoinSplit(s[1..], sep);
      if s[0] == sep {
        assert ([[]] + rest)[1..] == rest;
        assert [] + [sep] + Join(rest, sep) == [sep] + s[1..] == s;
      } else {
        JoinPush(s[0], rest, sep);
        assert [s[0]] + s[1..] == s;
      }
    }
  }

  lemma {:induction false} JoinAppend<T>(a: seq<seq<T>>, b: seq<seq<T>>, sep: T)
    requires a != [] && b != []
    ensures Join(a + b, sep) == Join(a, sep) + [sep] + Join(b, sep)
  {
    if |a| == 1 {
      assert (a + b)[1..] == b;
    } else {
      JoinAppend(a[1..], b, sep);
      assert (a + b)[1..] == a[1..] + b;
      assert a[0] + [sep] + (Join(a[1..], sep) + [sep] + Join(b, sep))
          == a[0] + [sep] + Join(a[1..], sep) + [sep] + Join(b, sep);
    }
  }

  function Lines(s: string): (r: seq<string>)
    ensures |r| >= 1
  {
    Split(s, '\n')
  }

  lemma LinesJoin(a: string, b: string)
    ensures Lines(a + "\n" + b) == Lines(a) + Lines(b)
  {
    SplitAround(a, '\n', b);
  }

  ghost predicate Unfed(s: string) {
    forall i :: 0 <= i < |s| ==> s[i] != '\n'
  }

  /** A text without line feeds is one line. */
  lemma {:induction false} OneLine(s: string)
    requires Unfed(s)
    ensures Lines(s) == [s]
  {
    if s != "" {
      OneLine(s[1..]);
      assert [s[0]] + s[1..] == s;
    }
  }

  /** A list of lines whose last line goes on. */
  function Extend(lines: seq<string>, b: string): seq<string>
    requires |lines| >= 1
  {
    lines[..|lines| - 1] + [lines[|lines| - 1] + b]
  }

  lemma ConsExtend(line: string, lines: seq<string>, b: string)
    requires |lines| >= 1
    ensures Extend([line] + lines, b) == [line] + Extend(lines, b)
  {
  }

  lemma PushExtend(c: char, lines: seq<string>, b: string)
    requires |lines| >= 1
    ensures Extend(Push(c, lines), b) == Push(c, Extend(lines, b))
  {
    if |lines| == 1 {
      assert [c] + (lines[0] + b) == [c] + lines[0] + b;
    } else {
      ConsExtend([c] + lines[0], lines[1..], b);
      ConsExtend(lines[0], lines[1..], b);
      assert [lines[0]] + lines[1..] == lines;
    }
  }

  /** Appending text without line feeds extends the last line. */
  lemma {:induction false} LinesExtend(a: string, b: string)
    requires Unfed(b)
    ensures Lines(a + b) == Extend(Lines(a), b)
  {
    if a == "" {
      OneLine(b);
      assert a + b == b && "" + b == b;
    } else {
      LinesExtend(a[1..], b);
      assert (a + b)[1..] == a[1..] + b && (a + b)[0] == a[0];
      PushExtend(a[0], Lines(a[1..]), b);
      ConsExtend("", Lines(a[1..]), b);
    }
  }

  /** The first line of a text. */
  function Head(s: string): string {
    if s == "" || s[0] == '\n' then "" else [s[0]] + Head(s[1..])
  }

  lemma {:induction false} LinesHead(s: string)
    ensures Lines(s)[0] == Head(s)
  {
    if s != "" && s[0] != '\n' {
      LinesHead(s[1..]);
    }
  }

  lemma UnfedCons(c: char, s: string)
    ensures Unfed([c] + s) <==> c != '\n' && Unfed(s)
  {
    assert forall i :: 0 <= i < |s| ==> ([c] + s)[i + 1] == s[i];
    assert ([c] + s)[0] == c;
  }

  lemma {:induction false} HeadAppend(a: string, b: string)
    ensures Head(a + b) == if Unfed(a) then a + Head(b) else Head(a)
  {
    if a == "" {
      assert a + b == b && a + Head(b) == Head(b);
    } else {
      hide Unfed;
      var c, t := a[0], a[1..];
      assert a == [c] + t && (a + b)[0] == c && (a + b)[1..] == t + b;
      UnfedCons(c, t);
      HeadAppend(t, b);
      assert [c] + (t + Head(b)) == [c] + t + Head(b);
    }
  }

  /** Text without line feeds in front of a text goes in front of its first line. */
  lemma {:induction false} LinesPrefix(x: string, s: string)
    requires Unfed(x)
    ensures Lines(x + s) == [x + Head(s)] + Lines(s)[1..]
  {
    if x == "" {
      assert x + s == s && x + Head(s) == Head(s);
      LinesHead(s);
    } else {
      LinesPrefix(x[1..], s);
      assert (x + s)[0] == x[0] && (x + s)[1..] == x[1..] + s;
      assert [x[0]] + (x[1..] + Head(s)) == x + Head(s);
    }
  }
}
