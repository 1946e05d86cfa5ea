/** The resources dial: one container's literal `resources:` block becomes a template. */
module HelmDials {
  import opened Text
  import opened HelmText
  import opened DriftCheck

  const FEED: Tok := Ch('\n')

  /** All the generator looks at in a line of its text. */
  datatype Row = Row(blank: bool, indent: nat, opens: bool, quantity: bool, storage: bool)

  function RowOf(line: string): Row {
    var text := Trim(line);
    Row(Indent(line) == |line|, Indent(line), text == "resources:",
        Starts(text, "limits:") || Starts(text, "requests:"), Occurs("storage:", line))
  }

  function RowsOf(lines: seq<Doc>): (rows: seq<Row>)
    ensures |rows| == |lines|
  {
    seq(|lines|, i requires 0 <= i < |lines| => RowOf(Source(lines[i])))
  }

  /** A row that belongs to a block opened at the given indentation. */
  predicate Inside(row: Row, indent: nat) {
    row.blank || row.indent > indent
  }

  /** The end of the maximal run of rows inside a block, from j on. */
  function RunEnd(rows: seq<Row>, j: nat, indent: nat): (e: nat)
    requires j <= |rows|
    ensures j <= e <= |rows|
    ensures forall k :: j <= k < e ==> Inside(rows[k], indent)
    ensures e < |rows| ==> !Inside(rows[e], indent)
    decreases |rows| - j
  {
    if j < |rows| && Inside(rows[j], indent) then RunEnd(rows, j + 1, indent) else j
  }

  /** The run without its trailing blank rows. */
  function TrimEnd(rows: seq<Row>, start: nat, j: nat): (e: nat)
    requires start <= j <= |rows|
    ensures start <= e <= j
    ensures forall k :: e <= k < j ==> rows[k].blank
    ensures e > start ==> !rows[e - 1].blank
  {
    if j > start && rows[j - 1].blank then TrimEnd(rows, start, j - 1) else j
  }

  function BlockEnd(rows: seq<Row>, i: nat): (j: nat)
    requires i < |rows|
    ensures i < j <= |rows|
  {
    TrimEnd(rows, i + 1, RunEnd(rows, i + 1, rows[i].indent))
  }

  /** The first non-blank of the next two rows starts a quantity map, so this is no RBAC rule. */
  predicate Quantities(rows: seq<Row>, i: nat)
    requires i < |rows|
  {
    if i + 1 < |rows| && !rows[i + 1].blank then rows[i + 1].quantity
    else i + 2 < |rows| && !rows[i + 2].blank && rows[i + 2].quantity
  }

  /** A volume claim's block mentions its storage size. */
  predicate Claims(rows: seq<Row>, i: nat, j: nat)
    requires i <= j <= |rows|
  {
    exists k :: i <= k < j && rows[k].storage
  }

  /** Row i opens a container's resources block. */
  predicate Dialable(rows: seq<Row>, i: nat)
    requires i < |rows|
  {
    rows[i].opens && Quantities(rows, i) && !Claims(rows, i + 1, BlockEnd(rows, i))
  }

  /** The first dialable row from i on, or the number of rows. */
  function FirstFrom(rows: seq<Row>, i: nat): (f: nat)
    requires i <= |rows|
    ensures i <= f <= |rows|
    ensures forall k :: i <= k < f ==> !Dialable(rows, k)
    ensures f < |rows| ==> Dialable(rows, f)
    decreases |rows| - i
  {
    if i == |rows| || Dialable(rows, i) then i else FirstFrom(rows, i + 1)
  }

  function Spaces(n: nat): string {
    seq(n, i => ' ')
  }

  /** The template row; its trim marker also swallows the spaces it is written behind. */
  function Dial(indent: nat, path: string): string {
    Spaces(indent + 2) + "{{- toYaml .Values." + path + ".resources | nindent " + Number(indent + 2) + " }}"
  }

  /** The lines with lines i+1 to j replaced by a template. */
  function WithDial(lines: seq<Doc>, i: nat, j: nat, dial: string): seq<Doc>
    requires i < j <= |lines|
  {
    lines[..i + 1] + [[Act(dial)]] + lines[j..]
  }

  /** The first dialable row decides; without one the lines stay as they are. */
  function DialedLines(lines: seq<Doc>, path: string): seq<Doc> {
    var rows := RowsOf(lines);
    var i := FirstFrom(rows, 0);
    if i == |rows| then lines else WithDial(lines, i, BlockEnd(rows, i), Dial(rows[i].indent, path))
  }

  function Dialed(d: Doc, path: string): Doc {
    Join(DialedLines(Split(d, FEED), path), FEED)
  }

  /** Walks to the end of the run and back over its trailing blanks. */
  method FindBlockEnd(rows: seq<Row>, i: nat) returns (j: nat)
    requires i < |rows|
    ensures j == BlockEnd(rows, i)
  {
    var indent := rows[i].indent;
    j := i + 1;
    while j < |rows| && Inside(rows[j], indent)
      invariant i + 1 <= j <= |rows|
      invariant RunEnd(rows, j, indent) == RunEnd(rows, i + 1, indent)
    {
      j := j + 1;
    }
    while j - 1 > i && rows[j - 1].blank
      invariant i + 1 <= j <= |rows|
      invariant TrimEnd(rows, i + 1, j) == BlockEnd(rows, i)
    {
      j := j - 1;
    }
  }

  /** Scans for the first container block, as the generator does. */
  method FindDial(rows: seq<Row>) returns (i: nat, j: nat)
    ensures i == FirstFrom(rows, 0)
    ensures i < |rows| ==> j == BlockEnd(rows, i)
  {
    i, j := 0, 0;
    while i < |rows|
      invariant i <= |rows| && FirstFrom(rows, 0) == FirstFrom(rows, i)
    {
      if rows[i].opens && Quantities(rows, i) {
        j := FindBlockEnd(rows, i);
        if !Claims(rows, i + 1, j) {
          return;
        }
      }
      i := i + 1;
    }
  }

  /** Replaces the first container block by its template. */
  method TemplateResources(doc: Doc, path: string) returns (out: Doc)
    ensures out == Dialed(doc, path)
  {
    var lines := Split(doc, FEED);
    var rows := RowsOf(lines);
    var i, j := FindDial(rows);
    if i == |rows| {
      JoinSplit(doc, FEED);
      return doc;
    }
    return Join(WithDial(lines, i, j, Dial(rows[i].indent, path)), FEED);
  }

  // ---- What the dial does --------------------------------------------------------------------

  /** Rows i+1 to j are the block of row i: the maximal blank-or-deeper run, minus trailing blanks. */
  ghost predicate IsBlock(rows: seq<Row>, i: nat, j: nat)
    requires i < j <= |rows|
  {
    && (forall k :: i < k < j ==> Inside(rows[k], rows[i].indent))
    && (j > i + 1 ==> !rows[j - 1].blank)
    && exists e: nat :: BlanksTo(rows, j, e) && (e < |rows| ==> !Inside(rows[e], rows[i].indent))
  }

  ghost predicate BlanksTo(rows: seq<Row>, j: nat, e: nat) {
    j <= e <= |rows| && forall k :: j <= k < e ==> rows[k].blank
  }

  /** The block of a row is unique, and BlockEnd finds it. */
  lemma BlockExact(rows: seq<Row>, i: nat, j: nat)
    requires i < j <= |rows|
    ensures IsBlock(rows, i, j) <==> j == BlockEnd(rows, i)
  {
    var run := RunEnd(rows, i + 1, rows[i].indent);
    if IsBlock(rows, i, j) {
      var e: nat :| BlanksTo(rows, j, e) && (e < |rows| ==> !Inside(rows[e], rows[i].indent));
      assert forall k :: i < k < e ==> Inside(rows[k], rows[i].indent);
      assert e == run;
    } else {
      assert j == BlockEnd(rows, i) ==> BlanksTo(rows, j, run);
    }
  }

  ghost predicate FirstDialable(rows: seq<Row>, i: nat) {
    i < |rows| && Dialable(rows, i) && forall k :: 0 <= k < i ==> !Dialable(rows, k)
  }

  /** A place of the two rows after row i whose row is the first that is not blank. */
  ghost predicate FirstFilled(rows: seq<Row>, i: nat, k: nat) {
    i < k <= i + 2 && k < |rows| && !rows[k].blank && forall m :: i < m < k ==> rows[m].blank
  }

  /**
   Which rows are dialled: those that open a block whose first row, at most one blank further on,
   is a quantity map, and which mentions no storage size.
   */
  lemma DialableExact(rows: seq<Row>, i: nat, j: nat)
    requires i < j <= |rows| && IsBlock(rows, i, j)
    ensures Dialable(rows, i) <==>
              && rows[i].opens
              && (exists k: nat :: FirstFilled(rows, i, k) && rows[k].quantity)
              && forall k :: i < k < j ==> !rows[k].storage
  {
    BlockExact(rows, i, j);
    if Quantities(rows, i) {
      if !rows[i + 1].blank {
        assert FirstFilled(rows, i, i + 1);
      } else {
        assert FirstFilled(rows, i, i + 2);
      }
    }
  }

  lemma DialPut(lines: seq<Doc>, i: nat, j: nat, deeper: nat, path: string)
    requires i < j <= |lines| && deeper >= 2
    ensures WithDial(lines, i, j, Dial(deeper - 2, path))
         == lines[..i + 1] + [[Act(Spaces(deeper) + "{{- toYaml .Values." + path + ".resources | nindent " + Number(deeper) + " }}")]]
            + lines[j..]
  {
    hide Spaces, Number;
  }

  /**
   Block rewrite exactness: exactly one contiguous range of lines changes, right after the first
   dialable row, and it is that row's block; its place takes the template, two blanks deeper. Without a
   dialable row nothing changes. RBAC lists and storage claims are not dialable.
   */
  lemma DialExact(d: Doc, path: string, i: nat, j: nat)
    ensures var lines := Split(d, FEED); var rows := RowsOf(lines);
            FirstDialable(rows, i) && i < j <= |rows| && IsBlock(rows, i, j) ==>
              var deeper := rows[i].indent + 2;
              var dial := Spaces(deeper) + "{{- toYaml .Values." + path + ".resources | nindent " + Number(deeper) + " }}";
              Dialed(d, path) == Join(lines[..i + 1] + [[Act(dial)]] + lines[j..], FEED)
    ensures var rows := RowsOf(Split(d, FEED));
            (forall k :: 0 <= k < |rows| ==> !Dialable(rows, k)) ==> Dialed(d, path) == d
  {
    hide Join, Split, RowsOf, IsBlock, Dialable, Spaces, Number, WithDial;
    var rows := RowsOf(Split(d, FEED));
    JoinSplit(d, FEED);
    if FirstDialable(rows, i) && i < j <= |rows| && IsBlock(rows, i, j) {
      assert i == FirstFrom(rows, 0);
      BlockExact(rows, i, j);
      DialPut(Split(d, FEED), i, j, rows[i].indent + 2, path);
    }
  }

  // ---- Rendering -----------------------------------------------------------------------------

  lemma RenderJoin(v: Values, a: seq<Doc>, b: seq<Doc>)
    requires a != [] && b != []
    ensures Render(v, Join(a + b, FEED)) == Render(v, Join(a, FEED)) + "\n" + Render(v, Join(b, FEED))
  {
    JoinAppend(a, b, FEED);
    RenderAppend(v, Join(a, FEED) + [FEED], Join(b, FEED));
    RenderAppend(v, Join(a, FEED), [FEED]);
    assert [FEED][1..] == [];
    assert Render(v, [FEED]) == "\n" + Render(v, []);
  }

  /** Replacing a middle range of lines by one that renders alike leaves the whole rendering alone. */
  lemma MiddleRenders(v: Values, a: seq<Doc>, m: seq<Doc>, n: seq<Doc>, b: seq<Doc>)
    requires a != [] && m != [] && n != []
    requires Render(v, Join(m, FEED)) == Render(v, Join(n, FEED))
    ensures Render(v, Join(a + m + b, FEED)) == Render(v, Join(a + n + b, FEED))
  {
    RenderJoin(v, a, m);
    RenderJoin(v, a, n);
    if b == [] {
      assert a + m + b == a + m && a + n + b == a + n;
    } else {
      RenderJoin(v, a + m, b);
      RenderJoin(v, a + n, b);
    }
  }

  lemma RenderDial(v: Values, dial: string)
    ensures Render(v, Join([[Act(dial)]], FEED)) == v(dial)
  {
    assert [Act(dial)][1..] == [];
    assert v(dial) + "" == v(dial);
  }

  lemma MiddleDialRenders(v: Values, a: seq<Doc>, m: seq<Doc>, b: seq<Doc>, dial: string)
    requires a != [] && m != [] && v(dial) == Render(v, Join(m, FEED))
    ensures Render(v, Join(a + [[Act(dial)]] + b, FEED)) == Render(v, Join(a + m + b, FEED))
  {
    RenderDial(v, dial);
    MiddleRenders(v, a, [[Act(dial)]], m, b);
  }

  /** The values make the dial of some lines, if they have one, evaluate to the block it replaced. */
  ghost predicate LinesPreserve(v: Values, lines: seq<Doc>, path: string) {
    var rows := RowsOf(lines);
    var i := FirstFrom(rows, 0);
    i < |rows| ==>
      var block := lines[i + 1..BlockEnd(rows, i)];
      block != [] && v(Dial(rows[i].indent, path)) == Render(v, Join(block, FEED))
  }

  ghost predicate DialPreserves(v: Values, d: Doc, path: string) {
    LinesPreserve(v, Split(d, FEED), path)
  }

  lemma Cut<T>(s: seq<T>, i: nat, j: nat)
    requires i <= j <= |s|
    ensures s == s[..i] + s[i..j] + s[j..]
  {
  }

  lemma WithDialRenders(v: Values, lines: seq<Doc>, i: nat, j: nat, dial: string)
    requires i < j <= |lines| && lines[i + 1..j] != []
    requires v(dial) == Render(v, Join(lines[i + 1..j], FEED))
    ensures Render(v, Join(WithDial(lines, i, j, dial), FEED)) == Render(v, Join(lines, FEED))
  {
    hide Render, Join;
    Cut(lines, i + 1, j);
    MiddleDialRenders(v, lines[..i + 1], lines[i + 1..j], lines[j..], dial);
  }

  lemma DialedLinesRender(v: Values, lines: seq<Doc>, path: string)
    requires LinesPreserve(v, lines, path)
    ensures Render(v, Join(DialedLines(lines, path), FEED)) == Render(v, Join(lines, FEED))
  {
    var rows := RowsOf(lines);
    var i := FirstFrom(rows, 0);
    if i < |rows| {
      WithDialRenders(v, lines, i, BlockEnd(rows, i), Dial(rows[i].indent, path));
    }
  }

  lemma DialRenders(v: Values, d: Doc, path: string)
    requires DialPreserves(v, d, path)
    ensures Render(v, Dialed(d, path)) == Render(v, d)
  {
    DialedLinesRender(v, Split(d, FEED), path);
    JoinSplit(d, FEED);
  }
}
