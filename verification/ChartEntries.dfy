/**
 The chart's own rules and the entries of the egress sidecar's image: no rule before the quoting one
 touches, makes or hides an entry, so what can be said of the document that reaches that rule can be
 said of the input text.
 */
module ChartEntries {
  import opened Text
  import opened HelmText
  import opened HelmChart
  import opened DriftEntries
  import opened Overlap

  // ---- Entries under replacement -------------------------------------------------------------

  function Mark(): Doc {
    Lits(ENTRY)
  }

  lemma {:induction false} EverySkips(v: Values, a: Doc, rest: Doc, q: string -> bool)
    requires Repels(a, Mark())
    ensures Every(v, a + rest, q) <==> Every(v, rest, q)
  {
    if a == [] {
      assert a + rest == rest;
    } else {
      RepelsStart(a, rest, Mark());
      RepelsTail(a, Mark());
      EverySkips(v, a[1..], rest, q);
      assert (a + rest)[1..] == a[1..] + rest;
    }
  }

  lemma EveryOnce(v: Values, rest: Doc, q: string -> bool)
    ensures Every(v, Mark() + rest, q) <==> q(Head(Render(v, rest))) && Every(v, rest, q)
  {
    hide Head, Render;
    MarkLength();
    assert (Mark() + rest)[|ENTRY|..] == rest && (Mark() + rest)[..|ENTRY|] == Mark();
  }

  lemma MarkLength()
    ensures |Mark()| == |ENTRY| > 0
  {
    hide EnvHead;
    LitsLength(ENTRY);
  }

  /** A pattern that cannot overlap an entry. */
  ghost predicate Aside(p: Doc) {
    p != [] && Repels(p, Mark()) && Repels(Mark(), p)
  }

  /** Replacing one pattern by another, neither of which can overlap an entry, leaves the entries alone. */
  lemma {:induction false} EveryReplace(v: Values, d: Doc, pat: Doc, sub: Doc, q: string -> bool)
    requires Aside(pat) && Aside(sub) && Render(v, pat) == Render(v, sub)
    ensures Every(v, Replace(d, pat, sub), q) <==> Every(v, d, q)
    decreases |d|
  {
    hide Head, Render, Mark, Repels;
    MarkLength();
    if d == [] {
    } else if Starts(d, Mark()) {
      var rest := d[|ENTRY|..];
      assert d == Mark() + rest;
      ReplacePast(Mark(), rest, pat, sub);
      ReplaceRenders(v, rest, pat, sub);
      EveryOnce(v, rest, q);
      EveryOnce(v, Replace(rest, pat, sub), q);
      EveryReplace(v, rest, pat, sub, q);
    } else if Starts(d, pat) {
      var rest := d[|pat|..];
      assert d == pat + rest;
      EveryReplace(v, rest, pat, sub, q);
      EverySkips(v, pat, rest, q);
      EverySkips(v, sub, Replace(rest, pat, sub), q);
    } else {
      EveryReplace(v, d[1..], pat, sub, q);
      EveryStep(v, d, pat, sub, q);
    }
  }

  lemma MarkIs()
    ensures Mark() == Lits(ENTRY)
  {
  }

  lemma EveryStep(v: Values, d: Doc, pat: Doc, sub: Doc, q: string -> bool)
    requires d != [] && pat != [] && sub != [] && !Starts(d, Mark()) && !Starts(d, pat) && Repels(Mark(), sub)
    ensures Every(v, d, q) <==> Every(v, d[1..], q)
    ensures Every(v, Replace(d, pat, sub), q) <==> Every(v, Replace(d[1..], pat, sub), q)
  {
    hide Head, Render, Repels;
    var next := Replace(d[1..], pat, sub);
    assert Replace(d, pat, sub) == [d[0]] + next && ([d[0]] + next)[1..] == next;
    assert Mark()[0..] == Mark();
    SuffixKept(d, Mark(), 0, pat, sub);
  }

  // ---- What the entry's front cannot begin in ------------------------------------------------

  const FRONT := "        -"
  const BLANK: Tok := Ch(' ')

  function Front(): (f: Doc)
    ensures |f| == 9 && f[8] == Ch('-') && forall k :: 0 <= k < 8 ==> f[k] == BLANK
  {
    Lits(FRONT)
  }

  /** A run of blanks of another length than the entry's indentation, or before something else than its dash. */
  lemma IndentRepels(n: nat, x: Tok)
    requires x != BLANK && (n < 8 || x != Ch('-'))
    ensures Repels(seq(n, i => BLANK) + [x], Front())
  {
    var a := seq(n, i => BLANK) + [x];
    forall j: nat | j < |a| ensures Clash(a, j, Front()) {
      var k := if n - j > 8 then 8 else n - j;
      assert a[j + k] != Front()[k];
    }
  }

  /** One blank before something that is none. */
  lemma BlankRepels(x: Doc)
    requires x != [] && BLANK !in x
    ensures Repels([BLANK] + x, Front())
  {
    IndentRepels(1, x[0]);
    assert seq(1, i => BLANK) + [x[0]] == [BLANK, x[0]];
    RepelsAbsent(x[1..], Front());
    RepelsAppend([BLANK, x[0]], x[1..], Front());
    assert [BLANK, x[0]] + x[1..] == [BLANK] + x;
  }

  lemma LitsAppend(a: string, b: string)
    ensures Lits(a + b) == Lits(a) + Lits(b)
  {
  }

  lemma LitsAbsent(s: string, c: char)
    requires c !in s
    ensures Ch(c) !in Lits(s)
  {
  }

  /** The lines of an environment entry after its front. */
  function Behind(name: string, tail: Doc): Doc {
    [BLANK] + Lits("name:") + ([BLANK] + Lits(name + "\n")) + Lits("          v") + Lits("alue:") + ([BLANK] + tail)
  }

  lemma HeadText(name: string)
    ensures EnvHead(name) == FRONT + (" " + "name:") + (" " + (name + "\n")) + "          v" + "alue:" + " "
  {
    assert "        - name: " == FRONT + (" " + "name:") + " ";
    assert "\n          value: " == "\n" + ("          v" + "alue:" + " ");
    HeadRegroup(FRONT + (" " + "name:"), " ", name, "\n", "          v", "alue:", " ");
  }

  lemma HeadRegroup(a: string, b: string, c: string, d: string, e: string, f: string, g: string)
    ensures a + b + c + (d + (e + f + g)) == a + (b + (c + d)) + e + f + g
  {
  }

  lemma EnvParts(name: string, tail: Doc)
    ensures Lits(EnvHead(name)) + tail == Front() + Behind(name, tail)
  {
    hide EnvHead;
    HeadText(name);
    var a, b, c, d, e, f := FRONT, " " + "name:", " " + (name + "\n"), "          v", "alue:", " ";
    LitsAppend(a + b + c + d + e, f);
    LitsAppend(a + b + c + d, e);
    LitsAppend(a + b + c, d);
    LitsAppend(a + b, c);
    LitsAppend(a, b);
    LitsAppend(" ", "name:");
    LitsAppend(" ", name + "\n");
    assert Lits(" ") == [BLANK];
    TokRegroup(Front(), Lits(b), Lits(c), Lits(d), Lits(e), [BLANK], tail);
  }

  lemma TokRegroup(a: Doc, b: Doc, c: Doc, d: Doc, e: Doc, f: Doc, g: Doc)
    ensures a + b + c + d + e + f + g == a + (b + c + d + e + (f + g))
  {
  }

  lemma BehindRepels(name: string, tail: Doc)
    requires ' ' !in name && tail != [] && BLANK !in tail
    ensures Repels(Behind(name, tail), Front())
  {
    var f := Front();
    LitsAbsent("name:", ' ');
    LitsAbsent("alue:", ' ');
    LitsAbsent(name + "\n", ' ');
    var p1, p2, p3, p4, p5 :=
      [BLANK] + Lits("name:"), [BLANK] + Lits(name + "\n"), Lits("          v"), Lits("alue:"), [BLANK] + tail;
    BlankRepels(Lits("name:"));
    BlankRepels(Lits(name + "\n"));
    IndentRepels(10, Ch('v'));
    assert p3 == seq(10, i => BLANK) + [Ch('v')];
    RepelsAbsent(p4, f);
    BlankRepels(tail);
    RepelsAppend(p1, p2, f);
    RepelsAppend(p1 + p2, p3, f);
    RepelsAppend(p1 + p2 + p3, p4, f);
    RepelsAppend(p1 + p2 + p3 + p4, p5, f);
  }

  /** In an environment entry its own front occurs at the front only. */
  lemma EnvRepels(name: string, tail: Doc)
    requires ' ' !in name && tail != [] && BLANK !in tail
    ensures Repels((Lits(EnvHead(name)) + tail)[1..], Front())
  {
    hide Repels, Behind, Lits, EnvHead;
    EnvParts(name, tail);
    BehindRepels(name, tail);
    var rest := Front()[1..];
    assert rest == seq(7, i => BLANK) + [Ch('-')];
    IndentRepels(7, Ch('-'));
    RepelsAppend(rest, Behind(name, tail), Front());
    assert (Front() + Behind(name, tail))[1..] == rest + Behind(name, tail);
  }

  // ---- The rules of the chart ----------------------------------------------------------------

  const EGRESS := "EGRESS_SIDECAR_IMAGE"

  lemma MarkParts()
    ensures Mark() == Lits(EnvHead(EGRESS)) + Lits(SIDECAR)
    ensures Mark() == Front() + Behind(EGRESS, Lits(SIDECAR))
  {
    hide EnvHead, Behind;
    LitsAppend(EnvHead(EGRESS), SIDECAR);
    EnvParts(EGRESS, Lits(SIDECAR));
  }

  lemma NameAt(name: string, tail: Doc, n: nat)
    requires n < |name|
    ensures |Lits(EnvHead(name)) + tail| > 16 + n && (Lits(EnvHead(name)) + tail)[16 + n] == Ch(name[n])
  {
    assert |"        - name: "| == 16;
    assert EnvHead(name)[16 + n] == name[n];
  }

  /** An entry of another variable cannot overlap the sidecar's. */
  lemma EnvAside(name: string, tail: Doc, n: nat)
    requires ' ' !in name && tail != [] && BLANK !in tail
    requires n < |name| && n < |EGRESS| && name[n] != EGRESS[n]
    ensures Aside(Lits(EnvHead(name)) + tail)
  {
    hide Repels, Behind, EnvHead, Lits, Mark;
    var p, e := Lits(EnvHead(name)) + tail, Mark();
    MarkParts();
    EnvParts(name, tail);
    SidecarTail();
    NameAt(name, tail, n);
    NameAt(EGRESS, Lits(SIDECAR), n);
    assert Clash(p, 0, e) && Clash(e, 0, p) by {
      assert p[0 + (16 + n)] != e[16 + n] && e[0 + (16 + n)] != p[16 + n];
    }
    EnvRepels(name, tail);
    EnvRepels(EGRESS, Lits(SIDECAR));
    RepelsLonger(p[1..], Front(), Behind(EGRESS, Lits(SIDECAR)));
    RepelsLonger(e[1..], Front(), Behind(name, tail));
    RepelsFrom(p, e);
    RepelsFrom(e, p);
  }

  lemma SidecarTail()
    ensures ' ' !in EGRESS && Lits(SIDECAR) != [] && BLANK !in Lits(SIDECAR)
  {
    LitsAbsent(SIDECAR, ' ');
  }

  /** A pattern the entry's front cannot begin in, and that cannot begin in the entry. */
  lemma WordAside(p: Doc)
    requires p != [] && Repels(p, Front()) && Repels(Mark(), p)
    ensures Aside(p)
  {
    hide Repels, Behind;
    MarkParts();
    RepelsLonger(p, Front(), Behind(EGRESS, Lits(SIDECAR)));
  }

  lemma ActAside(act: string)
    ensures Aside([Act(act)])
  {
    hide Repels, EnvHead;
    RepelsAbsent([Act(act)], Front());
    RepelsAbsent(Mark(), [Act(act)]);
    WordAside([Act(act)]);
  }

  lemma HeadHasNo(c: char)
    requires c !in "        - name: " && c !in EGRESS && c !in "\n          value: "
    ensures Ch(c) !in Lits(EnvHead(EGRESS))
  {
    LitsAbsent(EnvHead(EGRESS), c);
  }

  lemma MarkRepelsAs(c: char, p: Doc)
    requires c !in "        - name: " && c !in EGRESS && c !in "\n          value: "
    requires p != [] && p[0] == Ch(c) && Repels(Lits(SIDECAR), p)
    ensures Repels(Mark(), p)
  {
    hide EnvHead, Repels, Behind, Lits;
    MarkParts();
    HeadHasNo(c);
    RepelsAbsent(Lits(EnvHead(EGRESS)), p);
    RepelsAppend(Lits(EnvHead(EGRESS)), Lits(SIDECAR), p);
  }

  /** None of these begins in the entry. */
  lemma MarkRepels()
    ensures Repels(Mark(), Lits("im")) && Repels(Mark(), Lits("ct")) && Repels(Mark(), Lits("p"))
  {
    hide Repels, Mark;
    SidecarRepels();
    LitsAbsent(SIDECAR, 'p');
    RepelsAbsent(Lits(SIDECAR), Lits("p"));
    MarkRepelsAs('i', Lits("im"));
    MarkRepelsAs('c', Lits("ct"));
    MarkRepelsAs('p', Lits("p"));
  }

  lemma TwoRepel(a: char, b: char, c: char)
    requires a != b && b != c
    ensures Repels(Lits([a, b]), Lits([a, c]))
  {
    var p, q := Lits([a, b]), Lits([a, c]);
    assert Clash(p, 0, q) by {
      assert p[0 + 1] != q[1];
    }
    assert Clash(p, 1, q) by {
      assert p[1 + 0] != q[0];
    }
  }

  lemma SidecarRepels()
    ensures Repels(Lits(SIDECAR), Lits("im")) && Repels(Lits(SIDECAR), Lits("ct"))
  {
    hide Repels;
    var im, ct := Lits("im"), Lits("ct");
    assert SIDECAR == "dev.local/egress-s" + "id" + "ecar:demo";
    LitsAppend("dev.local/egress-s" + "id", "ecar:demo");
    LitsAppend("dev.local/egress-s", "id");
    LitsAbsent("dev.local/egress-s", 'i');
    LitsAbsent("ecar:demo", 'i');
    RepelsAbsent(Lits("dev.local/egress-s"), im);
    RepelsAbsent(Lits("ecar:demo"), im);
    TwoRepel('i', 'd', 'm');
    assert ['i', 'd'] == "id" && ['i', 'm'] == "im";
    RepelsAppend(Lits("dev.local/egress-s"), Lits("id"), im);
    RepelsAppend(Lits("dev.local/egress-s") + Lits("id"), Lits("ecar:demo"), im);
    CaRepels();
  }

  lemma CaRepels()
    ensures Repels(Lits(SIDECAR), Lits("ct"))
  {
    hide Repels;
    var ct := Lits("ct");
    assert SIDECAR == "dev.lo" + "ca" + "l/egress-side" + "ca" + "r:demo";
    LitsAppend("dev.lo" + "ca" + "l/egress-side" + "ca", "r:demo");
    LitsAppend("dev.lo" + "ca" + "l/egress-side", "ca");
    LitsAppend("dev.lo" + "ca", "l/egress-side");
    LitsAppend("dev.lo", "ca");
    LitsAbsent("dev.lo", 'c');
    LitsAbsent("l/egress-side", 'c');
    LitsAbsent("r:demo", 'c');
    RepelsAbsent(Lits("dev.lo"), ct);
    RepelsAbsent(Lits("l/egress-side"), ct);
    RepelsAbsent(Lits("r:demo"), ct);
    TwoRepel('c', 'a', 't');
    assert ['c', 'a'] == "ca" && ['c', 't'] == "ct";
    RepelsAppend(Lits("dev.lo"), Lits("ca"), ct);
    RepelsAppend(Lits("dev.lo") + Lits("ca"), Lits("l/egress-side"), ct);
    RepelsAppend(Lits("dev.lo") + Lits("ca") + Lits("l/egress-side"), Lits("ca"), ct);
    RepelsAppend(Lits("dev.lo") + Lits("ca") + Lits("l/egress-side") + Lits("ca"), Lits("r:demo"), ct);
  }

  /** The namespace key cannot begin in the entry: where its first letter stands, it goes on differently. */
  lemma KeyRepels()
    ensures Repels(Mark(), Lits(KEY))
  {
    hide Repels, Behind;
    var key, name := Lits(KEY), Lits("name:");
    MarkParts();
    assert name[0 + 4] != key[4];
    assert Clash(name, 0, key);
    LitsAbsent("ame:", 'n');
    assert name[1..] == Lits("ame:");
    RepelsAbsent(name[1..], key);
    RepelsFrom(name, key);
    BehindKey(name);
    RepelsAbsent(Front(), key);
    RepelsAppend(Front(), Behind(EGRESS, Lits(SIDECAR)), key);
  }

  lemma BehindKey(name: Doc)
    requires name == Lits("name:") && Repels(name, Lits(KEY))
    ensures Repels(Behind(EGRESS, Lits(SIDECAR)), Lits(KEY))
  {
    hide Repels;
    var key := Lits(KEY);
    LitsAbsent(EGRESS + "\n", 'n');
    LitsAbsent("          v", 'n');
    LitsAbsent("alue:", 'n');
    LitsAbsent(SIDECAR, 'n');
    RepelsAbsent([BLANK], key);
    RepelsAbsent([BLANK] + Lits(EGRESS + "\n"), key);
    RepelsAbsent(Lits("          v"), key);
    RepelsAbsent(Lits("alue:"), key);
    RepelsAbsent([BLANK] + Lits(SIDECAR), key);
    RepelsAppend([BLANK], name, key);
    RepelsAppend([BLANK] + name, [BLANK] + Lits(EGRESS + "\n"), key);
    RepelsAppend([BLANK] + name + ([BLANK] + Lits(EGRESS + "\n")), Lits("          v"), key);
    RepelsAppend([BLANK] + name + ([BLANK] + Lits(EGRESS + "\n")) + Lits("          v"), Lits("alue:"), key);
    RepelsAppend([BLANK] + name + ([BLANK] + Lits(EGRESS + "\n")) + Lits("          v") + Lits("alue:"), [BLANK] + Lits(SIDECAR), key);
  }

  /** No rule like this makes, hides or touches an entry. */
  ghost predicate Bypasses(r: Rule) {
    match r
    case Swap(pat, sub) => Aside(pat) && Aside(sub)
    case NamespaceKeys => true
    case Routed(_, hit, miss) => Bypasses(hit) && Bypasses(miss)
  }

  /** A variable name that is not the sidecar's. */
  predicate Foreign(name: string) {
    ' ' !in name && exists n: nat :: n < |name| && n < |EGRESS| && name[n] != EGRESS[n]
  }

  predicate Tidy(literal: string) {
    literal != "" && ' ' !in literal
  }

  lemma EnvBypasses(e: Entry)
    requires Foreign(e.name) && Tidy(e.literal)
    ensures Bypasses(EnvOf(e))
  {
    hide Aside, EnvHead;
    var n: nat :| n < |e.name| && n < |EGRESS| && e.name[n] != EGRESS[n];
    LitsAppend(EnvHead(e.name), e.literal);
    LitsAbsent(e.literal, ' ');
    EnvAside(e.name, Lits(e.literal), n);
    EnvAside(e.name, [Act("{{ " + e.expr + " }}")], n);
  }

  lemma ImageBypasses(name: string, path: string)
    requires ' ' !in name
    ensures Bypasses(Image(name, path))
  {
    hide Aside, Repels;
    var tail := name + ":latest";
    assert "image: " + name + ":latest" == "image: " + tail;
    ImageAside(Lits(tail));
    LitsAbsent(tail, ' ');
    LitsAppend("image: ", tail);
    ImageAside([Act(ImageAct(path))]);
  }

  lemma ImageAside(tail: Doc)
    ensures tail != [] && BLANK !in tail ==> Aside(Lits("image: ") + tail)
  {
    hide Repels;
    if tail != [] && BLANK !in tail {
      var p := Lits("image: ") + tail;
      assert p == Lits("image:") + ([BLANK] + tail);
      LitsAbsent("image:", ' ');
      RepelsAbsent(Lits("image:"), Front());
      BlankRepels(tail);
      RepelsAppend(Lits("image:"), [BLANK] + tail, Front());
      MarkRepels();
      assert p == Lits("im") + (Lits("age: ") + tail);
      RepelsLonger(Mark(), Lits("im"), Lits("age: ") + tail);
      WordAside(p);
    }
  }

  /** A pattern without blanks that begins like one that cannot begin in the entry. */
  lemma PlainAside(start: Doc, rest: Doc)
    requires start != [] && BLANK !in start + rest && Repels(Mark(), start)
    ensures Aside(start + rest)
  {
    hide Repels, Mark;
    RepelsAbsent(start + rest, Front());
    RepelsLonger(Mark(), start, rest);
    WordAside(start + rest);
  }
}
