/**
 The resources dial on text: replacing lines of tokens is replacing lines of text, as long as no
 action over several lines stands inside a block that could be dialled.
 */
module HelmLines {
  import opened Prelude
  import opened Text
  import opened HelmText
  import opened HelmDials
  import opened HelmSource
  import opened DriftCheck
  import DriftLines
  import DriftNoise

  // ---- Rows of a text spread over rows of tokens ---------------------------------------------

  /** Row k stands for the rows of the text from at[k] up to at[k + 1]; only the first of several can matter. */
  ghost predicate SpreadAt(rows: seq<Row>, flat: seq<Row>, at: seq<nat>, k: nat)
    requires k < |rows| && |at| == |rows| + 1
  {
    && at[k] < at[k + 1] <= |flat|
    && (Single(at, k) ==> flat[at[k]] == rows[k])
    && (!Single(at, k) ==>
          && !rows[k].blank && !rows[k].opens
          && !flat[at[k]].blank && flat[at[k]].indent == rows[k].indent && flat[at[k]].quantity == rows[k].quantity
          && forall j :: at[k] <= j < at[k + 1] ==> !flat[j].opens)
  }

  ghost predicate Single(at: seq<nat>, k: nat)
    requires k + 1 < |at|
  {
    at[k + 1] == at[k] + 1
  }

  ghost predicate Spread(rows: seq<Row>, flat: seq<Row>, at: seq<nat>) {
    && |at| == |rows| + 1 && at[|rows|] == |flat|
    && forall k: nat :: k < |rows| ==> SpreadAt(rows, flat, at, k)
  }

  ghost predicate Singles(at: seq<nat>, i: nat, j: nat)
    requires j < |at|
  {
    forall k: nat :: i <= k < j ==> Single(at, k)
  }

  lemma {:induction false} Linear(at: seq<nat>, i: nat, j: nat)
    requires i <= j < |at| && Singles(at, i, j)
    ensures at[j] == at[i] + (j - i)
    decreases j
  {
    if i < j {
      Linear(at, i, j - 1);
      assert Single(at, j - 1);
    }
  }

  lemma {:induction false} RunAgree(rows: seq<Row>, flat: seq<Row>, at: seq<nat>, j: nat, indent: nat)
    requires Spread(rows, flat, at) && j <= |rows| && Singles(at, j, RunEnd(rows, j, indent))
    ensures at[j] <= |flat| && RunEnd(flat, at[j], indent) == at[RunEnd(rows, j, indent)]
    decreases |rows| - j
  {
    if j < |rows| {
      assert SpreadAt(rows, flat, at, j);
      if Inside(rows[j], indent) {
        assert Single(at, j);
        RunAgree(rows, flat, at, j + 1, indent);
      }
    }
  }

  lemma {:induction false} TrimAgree(rows: seq<Row>, flat: seq<Row>, at: seq<nat>, start: nat, j: nat)
    requires Spread(rows, flat, at) && start <= j <= |rows| && Singles(at, start, j)
    ensures at[start] <= at[j] <= |flat| && TrimEnd(flat, at[start], at[j]) == at[TrimEnd(rows, start, j)]
    decreases j
  {
    Linear(at, start, j);
    if j < |rows| {
      assert SpreadAt(rows, flat, at, j);
    }
    if j > start {
      assert SpreadAt(rows, flat, at, j - 1) && Single(at, j - 1);
      if rows[j - 1].blank {
        TrimAgree(rows, flat, at, start, j - 1);
      }
    }
  }

  /** The rows that could become row k's block stand for one row of the text each. */
  ghost predicate WholeAt(rows: seq<Row>, at: seq<nat>, k: nat)
    requires k < |rows| && |at| == |rows| + 1
  {
    rows[k].opens && Quantities(rows, k) ==> Singles(at, k + 1, RunEnd(rows, k + 1, rows[k].indent))
  }

  lemma QuantitiesAgree(rows: seq<Row>, flat: seq<Row>, at: seq<nat>, k: nat)
    requires Spread(rows, flat, at) && k < |rows| && rows[k].opens
    ensures at[k] < |flat| && (Quantities(flat, at[k]) <==> Quantities(rows, k))
  {
    assert SpreadAt(rows, flat, at, k) && Single(at, k);
    if k + 1 < |rows| {
      assert SpreadAt(rows, flat, at, k + 1);
      if k + 2 < |rows| {
        assert SpreadAt(rows, flat, at, k + 2);
      }
    }
  }

  lemma ClaimsAgree(rows: seq<Row>, flat: seq<Row>, at: seq<nat>, i: nat, j: nat)
    requires Spread(rows, flat, at) && i <= j <= |rows| && Singles(at, i, j)
    ensures at[i] <= at[j] <= |flat| && (Claims(flat, at[i], at[j]) <==> Claims(rows, i, j))
  {
    Linear(at, i, j);
    if j < |rows| {
      assert SpreadAt(rows, flat, at, j);
    }
    forall k: nat | i <= k < j ensures at[k] == at[i] + (k - i) && flat[at[i] + (k - i)] == rows[k] {
      Linear(at, i, k);
      assert SpreadAt(rows, flat, at, k) && Single(at, k);
    }
    if m :| at[i] <= m < at[j] && flat[m].storage {
      assert rows[i + (m - at[i])].storage;
    }
    if k :| i <= k < j && rows[k].storage {
      assert flat[at[i] + (k - i)].storage;
    }
  }

  lemma BlockAgree(rows: seq<Row>, flat: seq<Row>, at: seq<nat>, k: nat)
    requires Spread(rows, flat, at) && k < |rows| && rows[k].opens
    requires Singles(at, k + 1, RunEnd(rows, k + 1, rows[k].indent))
    ensures at[k] < |flat| && BlockEnd(flat, at[k]) == at[BlockEnd(rows, k)]
    ensures Claims(flat, at[k] + 1, BlockEnd(flat, at[k])) <==> Claims(rows, k + 1, BlockEnd(rows, k))
  {
    assert SpreadAt(rows, flat, at, k) && Single(at, k);
    var run := RunEnd(rows, k + 1, rows[k].indent);
    RunAgree(rows, flat, at, k + 1, rows[k].indent);
    TrimAgree(rows, flat, at, k + 1, run);
    assert Singles(at, k + 1, BlockEnd(rows, k));
    ClaimsAgree(rows, flat, at, k + 1, BlockEnd(rows, k));
  }

  lemma DialableAgree(rows: seq<Row>, flat: seq<Row>, at: seq<nat>, k: nat)
    requires Spread(rows, flat, at) && k < |rows| && WholeAt(rows, at, k)
    ensures at[k] < |flat| && (Dialable(flat, at[k]) <==> Dialable(rows, k))
    ensures Dialable(rows, k) ==> BlockEnd(flat, at[k]) == at[BlockEnd(rows, k)]
  {
    assert SpreadAt(rows, flat, at, k);
    if rows[k].opens {
      QuantitiesAgree(rows, flat, at, k);
      if Quantities(rows, k) {
        BlockAgree(rows, flat, at, k);
      }
    }
  }

  lemma {:induction false} FirstSkips(flat: seq<Row>, i: nat, j: nat)
    requires i <= j <= |flat| && forall k :: i <= k < j ==> !flat[k].opens
    ensures FirstFrom(flat, i) == FirstFrom(flat, j)
    decreases j - i
  {
    if i < j {
      FirstSkips(flat, i + 1, j);
    }
  }

  /** The first dialable row is found at the same place. */
  lemma {:induction false} FirstAgree(rows: seq<Row>, flat: seq<Row>, at: seq<nat>, k: nat)
    requires Spread(rows, flat, at) && k <= |rows| && forall m: nat :: k <= m < |rows| ==> WholeAt(rows, at, m)
    ensures at[k] <= |flat| && FirstFrom(flat, at[k]) == at[FirstFrom(rows, k)]
    decreases |rows| - k
  {
    hide WholeAt, Dialable;
    if k < |rows| {
      DialableAgree(rows, flat, at, k);
      FirstAgree(rows, flat, at, k + 1);
      assert SpreadAt(rows, flat, at, k);
      FirstSkips(flat, at[k] + 1, at[k + 1]);
    }
  }

  // ---- Lines of a text and lines of tokens ---------------------------------------------------

  /** The text lines of one line of tokens; more than one if an action has several. */
  function TextLines(x: Doc): seq<string> {
    Lines(Source(x))
  }

  lemma {:induction false} LinesOfJoin(lines: seq<Doc>)
    requires lines != []
    ensures Lines(Source(Join(lines, FEED))) == FlatMap(TextLines, lines)
  {
    hide Source, Lines;
    var x, rest := lines[0], lines[1..];
    FlatMapOne(TextLines, x);
    assert lines == [x] + rest;
    FlatMapAppend(TextLines, [x], rest);
    if |lines| == 1 {
      assert FlatMap(TextLines, rest) == [];
      assert FlatMap(TextLines, [x]) + [] == FlatMap(TextLines, [x]);
    } else {
      LinesOfJoin(rest);
      JoinSource(x, rest);
      LinesJoin(Source(x), Source(Join(rest, FEED)));
    }
  }

  lemma JoinSource(x: Doc, rest: seq<Doc>)
    requires rest != []
    ensures Source(Join([x] + rest, FEED)) == Source(x) + "\n" + Source(Join(rest, FEED))
  {
    hide Source;
    JoinCons(x, rest, FEED);
    RenderAppend(Raw, x + [FEED], Join(rest, FEED));
    RenderAppend(Raw, x, [FEED]);
    SourceIs(x + [FEED] + Join(rest, FEED));
    SourceIs(x);
    SourceIs(Join(rest, FEED));
    SourceCons(FEED, []);
    SourceIs([FEED]);
    SourceLits("");
    assert Lits("") == [] && [FEED] + [] == [FEED] && "\n" + "" == "\n";
  }

  /** The line has a character that is neither blank nor part of the word that opens a block. */
  ghost predicate Odd(line: string) {
    exists c :: c in line && !Blank(c) && c !in "resources:"
  }

  /** Every line of the action is odd, and the first has a brace. */
  ghost predicate Stepped(a: string) {
    '{' in Lines(a)[0] && forall l :: l in Lines(a) ==> Odd(l)
  }

  ghost predicate Tidy(x: Doc) {
    forall t :: t in x ==> match t case Ch(c) => c != '\n' case Act(a) => Stepped(a)
  }

  ghost predicate OddAfter(lines: seq<string>) {
    (|lines| > 1 ==> '{' in lines[0]) && forall k :: 1 <= k < |lines| ==> Odd(lines[k])
  }

  lemma OddAppend(a: string, b: string)
    requires Odd(a) || Odd(b)
    ensures Odd(a + b)
  {
    if Odd(a) {
      var c :| c in a && !Blank(c) && c !in "resources:";
      assert c in a + b;
    } else {
      var c :| c in b && !Blank(c) && c !in "resources:";
      assert c in a + b;
    }
  }

  lemma GlueOdd(a: seq<string>, b: seq<string>)
    requires |a| >= 1 && |b| >= 1 && '{' in a[0] && (forall l :: l in a ==> Odd(l)) && OddAfter(b)
    ensures OddAfter(Glue(a, b))
  {
    hide Odd;
    var r, n := Glue(a, b), |a| - 1;
    OddAppend(a[n], b[0]);
    assert a[0] in a && r[0] == if n == 0 then a[0] + b[0] else a[0];
    forall k | 1 <= k < |r| ensures Odd(r[k]) {
      if k < n {
        assert r[k] == a[k] && a[k] in a;
      } else if k == n {
        assert r[k] == a[n] + b[0];
      } else {
        assert r[k] == b[k - n];
      }
    }
  }

  /** Of several text lines of one line of tokens, all but the first are odd, and the first has a brace. */
  lemma {:induction false} TidyLines(x: Doc)
    requires Tidy(x)
    ensures OddAfter(TextLines(x))
  {
    hide Source, Odd;
    if x == [] {
      SourceLits("");
      assert Lits("") == [];
    } else {
      var rest := x[1..];
      assert x == [x[0]] + rest && x[0] in x && forall t :: t in rest ==> t in x;
      TidyLines(rest);
      SourceCons(x[0], rest);
      match x[0] {
        case Ch(c) =>
          LinesPrefix([c], Source(rest));
          LinesHead(Source(rest));
        case Act(a) =>
          SplitGlue(a, Source(rest), '\n');
          GlueOdd(Lines(a), Lines(Source(rest)));
      }
    }
  }

  // ---- What is seen of a line ----------------------------------------------------------------

  lemma {:induction false} TrimRightKeeps(s: string, c: char)
    requires c in s && !Blank(c)
    ensures c in TrimRight(s)
  {
    if Blank(s[|s| - 1]) {
      assert s == s[..|s| - 1] + [s[|s| - 1]];
      TrimRightKeeps(s[..|s| - 1], c);
    }
  }

  lemma {:induction false} TrimLeftKeeps(s: string, c: char)
    requires c in s && !Blank(c)
    ensures c in TrimLeft(s) && Indent(s) < |s|
  {
    if Blank(s[0]) {
      assert s == [s[0]] + s[1..];
      TrimLeftKeeps(s[1..], c);
    }
  }

  /** An odd line is neither blank nor opens a block. */
  lemma OddRow(line: string)
    requires Odd(line)
    ensures !RowOf(line).blank && !RowOf(line).opens
  {
    var c :| c in line && !Blank(c) && c !in "resources:";
    TrimLeftKeeps(line, c);
    TrimRightKeeps(TrimLeft(line), c);
  }

  lemma HeadStarts(h: string, t: string, q: string)
    requires '{' in h && '{' !in q
    ensures Starts(h + t, q) <==> Starts(h, q)
  {
    if |q| <= |h| {
      assert (h + t)[..|q|] == h[..|q|];
    } else if |q| <= |h + t| {
      var j: nat :| j < |h| && h[j] == '{';
      StartsElsewhere(h + t, q, j);
    }
  }

  lemma {:induction false} IndentHead(h: string, t: string)
    requires Indent(h) < |h|
    ensures Indent(h + t) == Indent(h)
  {
    assert (h + t)[0] == h[0] && (h + t)[1..] == h[1..] + t;
    if Blank(h[0]) {
      IndentHead(h[1..], t);
    }
  }

  /** Its first line decides how a text of several lines is indented and whether it starts with a prefix. */
  lemma HeadRow(h: string, t: string, q: string)
    requires '{' in h && '{' !in q && q != "" && !Blank(q[|q| - 1])
    ensures Indent(h + t) == Indent(h) && (Starts(Trim(h + t), q) <==> Starts(Trim(h), q))
  {
    TrimLeftKeeps(h, '{');
    IndentHead(h, t);
    var p := Indent(h);
    DriftNoise.TrimLeftIs(h);
    DriftNoise.TrimLeftIs(h + t);
    assert (h + t)[p..] == h[p..] + t;
    var j: nat :| j < |h| && h[j] == '{';
    assert j >= p && h[p..][j - p] == '{';
    TrimRightStarts(TrimLeft(h), q);
    TrimRightStarts(TrimLeft(h + t), q);
    HeadStarts(h[p..], t, q);
  }

  lemma {:induction false} OccursSplit(p: string, s: string) returns (a: string, b: string)
    requires Occurs(p, s)
    ensures s == a + p + b
  {
    if Starts(s, p) {
      a, b := "", s[|p|..];
    } else {
      a, b := OccursSplit(p, s[1..]);
      a := [s[0]] + a;
    }
  }

  lemma {:induction false} OccursAt(a: string, p: string, b: string)
    ensures Occurs(p, a + p + b)
  {
    if a == "" {
      assert (a + p + b)[..|p|] == p;
    } else {
      OccursAt(a[1..], p, b);
      assert (a + p + b)[1..] == a[1..] + p + b;
    }
  }

  lemma OccursIs(p: string, s: string)
    ensures Occurs(p, s) <==> exists a, b :: s == a + p + b
  {
    hide Occurs;
    if Occurs(p, s) {
      var a, b := OccursSplit(p, s);
    }
    if a, b :| s == a + p + b {
      OccursAt(a, p, b);
    }
  }

  /** What the generator sees of a line, said on its characters. */
  lemma RowExact(line: string)
    ensures RowOf(line).blank <==> AllBlank(line)
    ensures RowOf(line).indent <= |line| && AllBlank(line[..RowOf(line).indent])
    ensures RowOf(line).indent < |line| ==> !Blank(line[RowOf(line).indent])
    ensures RowOf(line).opens <==> exists a, b :: AllBlank(a) && AllBlank(b) && line == a + "resources:" + b
    ensures RowOf(line).quantity <==> exists a, b :: AllBlank(a) && (line == a + "limits:" + b || line == a + "requests:" + b)
    ensures RowOf(line).storage <==> exists a, b :: line == a + "storage:" + b
  {
    hide Trim, Occurs;
    TrimmedIs(line, "resources:");
    OccursIs("storage:", line);
    StartsTrimmed(line, "limits:");
    StartsTrimmed(line, "requests:");
  }

  lemma StartsTrimmed(s: string, w: string)
    requires w != "" && !Blank(w[0]) && !Blank(w[|w| - 1])
    ensures Starts(Trim(s), w) <==> exists a, b :: AllBlank(a) && s == a + w + b
  {
    DriftNoise.TrimLeftIs(s);
    var z := s[Indent(s)..];
    TrimRightStarts(z, w);
    if Starts(z, w) {
      var a, b := s[..Indent(s)], z[|w|..];
      assert AllBlank(a) && s == a + w + b;
    }
    if a, b :| AllBlank(a) && s == a + w + b {
      assert s == a + (w + b) && (w + b)[0] == w[0];
      DriftLines.IndentIs(a, w + b);
      assert z == w + b && z[..|w|] == w;
    }
  }

  function RowsIn(x: Doc): seq<Row> {
    Map(RowOf, TextLines(x))
  }

  /** What a group of text rows must be to stand for one row of tokens. */
  ghost predicate Grouped(row: Row, group: seq<Row>) {
    && |group| >= 1
    && (|group| == 1 ==> group[0] == row)
    && (|group| > 1 ==>
          && !row.blank && !row.opens
          && !group[0].blank && group[0].indent == row.indent && group[0].quantity == row.quantity
          && forall j :: 0 <= j < |group| ==> !group[j].opens)
  }

  lemma BraceIsOdd(line: string)
    requires '{' in line
    ensures Odd(line)
  {
  }

  lemma RowGrouped(x: Doc)
    requires Tidy(x)
    ensures Grouped(RowOf(Source(x)), RowsIn(x))
  {
    hide Source, Tidy, Odd, RowOf;
    var s := Source(x);
    var ls := Lines(s);
    JoinSplit(s, '\n');
    TidyLines(x);
    if |ls| == 1 {
      assert RowsIn(x)[0] == RowOf(ls[0]);
    } else {
      var h, t := ls[0], "\n" + Join(ls[1..], '\n');
      JoinCons(h, ls[1..], '\n');
      assert ls == [h] + ls[1..];
      assert s == h + t by {
        assert h + "\n" + Join(ls[1..], '\n') == h + t;
      }
      BraceIsOdd(h);
      BraceIsOdd(s);
      OddRow(s);
      HeadsAlike(h, t);
      forall j | 0 <= j < |ls| ensures !RowOf(ls[j]).opens {
        OddRow(ls[j]);
      }
      OddRow(h);
    }
  }

  lemma HeadsAlike(h: string, t: string)
    requires '{' in h
    ensures RowOf(h + t).indent == RowOf(h).indent && RowOf(h + t).quantity == RowOf(h).quantity
  {
    HeadRow(h, t, "limits:");
    HeadRow(h, t, "requests:");
  }

  // ---- Places --------------------------------------------------------------------------------

  /** Where the k-th group starts. */
  function Place<T, U>(f: T -> seq<U>, s: seq<T>, k: nat): nat
    requires k <= |s|
  {
    |FlatMap(f, s[..k])|
  }

  lemma PlaceCut<T, U>(f: T -> seq<U>, s: seq<T>, k: nat)
    requires k <= |s|
    ensures Place(f, s, k) <= |FlatMap(f, s)|
    ensures FlatMap(f, s)[..Place(f, s, k)] == FlatMap(f, s[..k])
    ensures FlatMap(f, s)[Place(f, s, k)..] == FlatMap(f, s[k..])
  {
    FlatMapAppend(f, s[..k], s[k..]);
    assert s == s[..k] + s[k..];
  }

  lemma PlaceParts<T, U>(f: T -> seq<U>, s: seq<T>, k: nat)
    requires k < |s|
    ensures FlatMap(f, s) == FlatMap(f, s[..k]) + f(s[k]) + FlatMap(f, s[k + 1..])
    ensures Place(f, s, k + 1) == Place(f, s, k) + |f(s[k])|
  {
    assert s[..k + 1] == s[..k] + [s[k]] && s == s[..k + 1] + s[k + 1..];
    FlatMapAppend(f, s[..k], [s[k]]);
    FlatMapAppend(f, s[..k + 1], s[k + 1..]);
    FlatMapOne(f, s[k]);
  }

  lemma MiddleAt<U>(a: seq<U>, m: seq<U>, b: seq<U>)
    ensures forall j :: 0 <= j < |m| ==> (a + m + b)[|a| + j] == m[j]
  {
  }

  lemma PlaceNext<T, U>(f: T -> seq<U>, s: seq<T>, k: nat)
    requires k < |s|
    ensures Place(f, s, k + 1) == Place(f, s, k) + |f(s[k])| <= |FlatMap(f, s)|
    ensures forall j :: 0 <= j < |f(s[k])| ==> FlatMap(f, s)[Place(f, s, k) + j] == f(s[k])[j]
  {
    hide FlatMap;
    PlaceParts(f, s, k);
    MiddleAt(FlatMap(f, s[..k]), f(s[k]), FlatMap(f, s[k + 1..]));
  }

  ghost function Places(lines: seq<Doc>): (at: seq<nat>)
    ensures |at| == |lines| + 1
  {
    seq(|lines| + 1, k requires 0 <= k <= |lines| => Place(TextLines, lines, k))
  }

  lemma {:induction false} RowsOfLines(lines: seq<Doc>)
    ensures Map(RowOf, FlatMap(TextLines, lines)) == FlatMap(RowsIn, lines)
  {
    hide RowOf, TextLines;
    if lines != [] {
      RowsOfLines(lines[1..]);
      var a, b := TextLines(lines[0]), FlatMap(TextLines, lines[1..]);
      assert Map(RowOf, a + b) == Map(RowOf, a) + Map(RowOf, b);
    }
  }

  lemma {:induction false} SameLength(lines: seq<Doc>)
    ensures |FlatMap(TextLines, lines)| == |FlatMap(RowsIn, lines)|
  {
    hide RowOf, TextLines;
    if lines != [] {
      SameLength(lines[1..]);
    }
  }

  lemma LineSpread(lines: seq<Doc>, k: nat)
    requires k < |lines| && Tidy(lines[k])
    ensures SpreadAt(RowsOf(lines), FlatMap(RowsIn, lines), Places(lines), k)
  {
    hide Tidy, RowOf, TextLines, Source, Grouped, RowsIn;
    var rows, flat, at := RowsOf(lines), FlatMap(RowsIn, lines), Places(lines);
    SameLength(lines[..k]);
    SameLength(lines[..k + 1]);
    PlaceNext(RowsIn, lines, k);
    RowGrouped(lines[k]);
    assert at[k] == Place(RowsIn, lines, k) && at[k + 1] == Place(RowsIn, lines, k + 1);
    GroupSpread(rows, flat, at, k, RowsIn(lines[k]));
  }

  /** The rows of the text are the rows of the lines of tokens, spread. */
  lemma LinesSpread(lines: seq<Doc>)
    requires forall x :: x in lines ==> Tidy(x)
    ensures Spread(RowsOf(lines), Map(RowOf, FlatMap(TextLines, lines)), Places(lines))
  {
    hide Tidy, RowOf, TextLines, Source, SpreadAt, RowsIn;
    RowsOfLines(lines);
    SameLength(lines);
    assert lines[..|lines|] == lines;
    forall k: nat | k < |lines| ensures SpreadAt(RowsOf(lines), FlatMap(RowsIn, lines), Places(lines), k) {
      assert lines[k] in lines;
      LineSpread(lines, k);
    }
  }

  lemma GroupSpread(rows: seq<Row>, flat: seq<Row>, at: seq<nat>, k: nat, group: seq<Row>)
    requires k < |rows| && |at| == |rows| + 1 && Grouped(rows[k], group)
    requires at[k + 1] == at[k] + |group| <= |flat| && forall j :: 0 <= j < |group| ==> flat[at[k] + j] == group[j]
    ensures SpreadAt(rows, flat, at, k)
  {
    assert flat[at[k] + 0] == group[0];
    forall j | at[k] <= j < at[k + 1] ensures |group| > 1 ==> !flat[j].opens {
      assert flat[at[k] + (j - at[k])] == group[j - at[k]];
    }
  }

  // ---- The dial ------------------------------------------------------------------------------

  /** The resources dial on text, line by line. */
  function TextDialed(s: string, path: string): string {
    var lines := Lines(s);
    var rows := Map(RowOf, lines);
    var i := FirstFrom(rows, 0);
    if i == |rows| then s
    else Join(lines[..i + 1] + [Dial(rows[i].indent, path)] + lines[BlockEnd(rows, i)..], '\n')
  }

  /** No line that could belong to a dialled block has an action over several lines. */
  ghost predicate Whole(lines: seq<Doc>) {
    var rows := RowsOf(lines);
    forall k: nat :: k < |rows| ==> WholeAt(rows, Places(lines), k)
  }

  lemma DialAt(lines: seq<Doc>)
    requires (forall x :: x in lines ==> Tidy(x)) && Whole(lines)
    ensures var rows, flat, at := RowsOf(lines), Map(RowOf, FlatMap(TextLines, lines)), Places(lines);
            var i := FirstFrom(rows, 0);
            && FirstFrom(flat, 0) == at[i] <= |flat|
            && (i == |rows| <==> at[i] == |flat|)
            && (i < |rows| ==> at[i] < |flat| && at[i + 1] == at[i] + 1 && flat[at[i]].indent == rows[i].indent
                               && BlockEnd(flat, at[i]) == at[BlockEnd(rows, i)])
  {
    hide Tidy, RowOf, TextLines, Dialable;
    var rows, flat, at := RowsOf(lines), Map(RowOf, FlatMap(TextLines, lines)), Places(lines);
    LinesSpread(lines);
    assert lines[..0] == [] && at[0] == 0;
    FirstAgree(rows, flat, at, 0);
    var i := FirstFrom(rows, 0);
    if i < |rows| {
      assert WholeAt(rows, at, i) && SpreadAt(rows, flat, at, i);
      DialableAgree(rows, flat, at, i);
      DialableOpens(rows, i);
    }
  }

  lemma DialableOpens(rows: seq<Row>, i: nat)
    requires i < |rows| && Dialable(rows, i)
    ensures rows[i].opens
  {
  }

  lemma FlatMapThree<T, U>(f: T -> seq<U>, a: seq<T>, b: seq<T>, c: seq<T>)
    ensures FlatMap(f, a + b + c) == FlatMap(f, a) + FlatMap(f, b) + FlatMap(f, c)
  {
    FlatMapAppend(f, a + b, c);
    FlatMapAppend(f, a, b);
  }

  lemma WithDialAgree(lines: seq<Doc>, i: nat, j: nat, dial: string)
    requires i < j <= |lines| && Unfed(dial)
    ensures Place(TextLines, lines, i + 1) <= |FlatMap(TextLines, lines)|
    ensures Place(TextLines, lines, j) <= |FlatMap(TextLines, lines)|
    ensures var text := FlatMap(TextLines, lines);
            FlatMap(TextLines, WithDial(lines, i, j, dial))
            == text[..Place(TextLines, lines, i + 1)] + [dial] + text[Place(TextLines, lines, j)..]
  {
    hide Source;
    PlaceCut(TextLines, lines, i + 1);
    PlaceCut(TextLines, lines, j);
    FlatMapThree(TextLines, lines[..i + 1], [[Act(dial)]], lines[j..]);
    FlatMapOne(TextLines, [Act(dial)]);
    SourceOne(dial);
    OneLine(dial);
  }

  /** The text of the dialled lines. */
  lemma DialledText(lines: seq<Doc>, i: nat, j: nat, dial: string)
    requires i < j <= |lines| && Unfed(dial)
    ensures var text, m, n := FlatMap(TextLines, lines), Place(TextLines, lines, i + 1), Place(TextLines, lines, j);
            m <= |text| && n <= |text| &&
            Source(Join(WithDial(lines, i, j, dial), FEED)) == Join(text[..m] + [dial] + text[n..], '\n')
  {
    hide TextLines, Source, FlatMap, Place;
    var dialled := WithDial(lines, i, j, dial);
    WithDialAgree(lines, i, j, dial);
    LinesOfJoin(dialled);
    JoinSplit(Source(Join(dialled, FEED)), '\n');
  }

  /** Dialling the lines of tokens is dialling the lines of the text. */
  lemma DialedLinesAgree(lines: seq<Doc>, path: string)
    requires lines != [] && (forall x :: x in lines ==> Tidy(x)) && Whole(lines) && Unfed(path)
    ensures Source(Join(DialedLines(lines, path), FEED)) == TextDialed(Source(Join(lines, FEED)), path)
  {
    hide Tidy, RowOf, TextLines, Dialable, Source, Whole, BlockEnd, FirstFrom, Dial, FlatMap, Join, Place, WithDial, Lines;
    var rows := RowsOf(lines);
    LinesOfJoin(lines);
    DialAt(lines);
    var i := FirstFrom(rows, 0);
    if i < |rows| {
      var j, dial := BlockEnd(rows, i), Dial(rows[i].indent, path);
      DialUnfed(rows[i].indent, path);
      DialledText(lines, i, j, dial);
      assert Places(lines)[i + 1] == Place(TextLines, lines, i + 1) && Places(lines)[j] == Place(TextLines, lines, j);
    }
  }

  lemma NumberUnfed(n: nat)
    ensures Unfed(Number(n))
  {
    if n >= 10 {
      NumberUnfed(n / 10);
    }
  }

  lemma DialUnfed(indent: nat, path: string)
    requires Unfed(path)
    ensures Unfed(Dial(indent, path))
  {
    NumberUnfed(indent + 2);
    assert Unfed(Spaces(indent + 2)) && Unfed("{{- toYaml .Values.") && Unfed(".resources | nindent ") && Unfed(" }}");
  }

  /** The dial on tokens is the dial on text. */
  lemma DialAgree(d: Doc, path: string)
    requires (forall t :: t in d && t.Act? ==> Stepped(t.text)) && Whole(Split(d, FEED)) && Unfed(path)
    ensures Source(Dialed(d, path)) == TextDialed(Source(d), path)
  {
    hide Source, Stepped, Whole, TextDialed, DialedLines;
    var lines := Split(d, FEED);
    SplitHolds(d, FEED);
    forall x | x in lines ensures Tidy(x) {
      forall t | t in x ensures match t case Ch(c) => c != '\n' case Act(a) => Stepped(a) {
        assert t in d && t != FEED;
      }
    }
    JoinSplit(d, FEED);
    DialedLinesAgree(lines, path);
  }
}
