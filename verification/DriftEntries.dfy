/**
 The entries of the egress sidecar's image in a document, what follows each of them on its line, and
 what the rule that quotes the image does to the lines the checker compares.
 */
module DriftEntries {
  import opened Text
  import opened HelmText
  import opened DriftCheck
  import opened HelmChart
  import opened DriftQuotes

  const NAME := "        - name: EGRESS_SIDECAR_IMAGE"
  const ENTRY := EnvHead("EGRESS_SIDECAR_IMAGE") + SIDECAR
  const TEMPLATE := "{{ " + Injected("oboEgress.sidecarImage") + " }}"

  /** What follows every entry on its line has the property. */
  ghost predicate Every(v: Values, d: Doc, q: string -> bool)
    decreases |d|
  {
    if d == [] then true
    else if Starts(d, Lits(ENTRY)) then q(Head(Render(v, d[|ENTRY|..]))) && Every(v, d[|ENTRY|..], q)
    else Every(v, d[1..], q)
  }

  // ---- The rule ------------------------------------------------------------------------------

  lemma HeadParts(x: string)
    ensures EnvHead("EGRESS_SIDECAR_IMAGE") + x == NAME + "\n" + (VALUE + x)
  {
    assert "\n          value: " == "\n" + VALUE;
    assert "        - name: " + "EGRESS_SIDECAR_IMAGE" == NAME;
    HeadGroups(NAME, VALUE, x);
  }

  lemma HeadGroups(a: string, b: string, x: string)
    ensures a + ("\n" + b) + x == a + "\n" + (b + x)
  {
  }

  lemma HeadRenders(v: Values, head: string, act: string)
    ensures Render(v, Lits(head) + [Act(act)]) == head + v(act)
  {
    RenderLits(v, head);
    RenderAppend(v, Lits(head), [Act(act)]);
    RenderOne(v, Act(act));
  }

  /** What the rule replaces and what it puts there. */
  lemma EntryRenders(v: Values)
    requires v(TEMPLATE) == QUOTED
    ensures EgressRule().Swap? && EgressRule().pat == Lits(ENTRY) != []
    ensures Render(v, EgressRule().pat) == NAME + "\n" + (VALUE + SIDECAR) == ENTRY
    ensures Render(v, EgressRule().sub) == NAME + "\n" + (VALUE + QUOTED)
  {
    hide Injected, EnvHead, Lits, Render;
    HeadParts(SIDECAR);
    HeadParts(QUOTED);
    RenderLits(v, ENTRY);
    HeadRenders(v, EnvHead("EGRESS_SIDECAR_IMAGE"), TEMPLATE);
    LitsLength(ENTRY);
  }

  lemma LitsLength(s: string)
    ensures |Lits(s)| == |s|
  {
  }

  /** A replacement whose first line is that of what it replaces keeps the first line of every rendering. */
  lemma {:induction false} HeadKept(v: Values, d: Doc, pat: Doc, sub: Doc)
    requires pat != [] && !Unfed(Render(v, pat)) && !Unfed(Render(v, sub)) && Head(Render(v, pat)) == Head(Render(v, sub))
    ensures Head(Render(v, d)) == Head(Render(v, Replace(d, pat, sub)))
    decreases |d|
  {
    hide Head, Unfed;
    if d == [] {
    } else if Starts(d, pat) {
      var rest := d[|pat|..];
      assert d == pat + rest;
      RenderAppend(v, pat, rest);
      RenderAppend(v, sub, Replace(rest, pat, sub));
      HeadAppend(Render(v, pat), Render(v, rest));
      HeadAppend(Render(v, sub), Render(v, Replace(rest, pat, sub)));
    } else {
      var rest := Replace(d[1..], pat, sub);
      HeadKept(v, d[1..], pat, sub);
      assert ([d[0]] + rest)[1..] == rest;
      HeadAppend(Shown(v, d[0]), Render(v, d[1..]));
      HeadAppend(Shown(v, d[0]), Render(v, rest));
    }
  }

  lemma LikesMiddle(a: seq<string>, x: string, y: string, b: seq<string>, c: seq<string>)
    requires Like(x, y) && Likes(b, c)
    ensures Likes(a + ([x] + b), a + ([y] + c))
    ensures SameNorms(a + ([x] + b), a + ([y] + c)) <==> NormLine(x) == NormLine(y) && SameNorms(b, c)
  {
    hide Inert, FirstWord, NormLine;
    var p, q := a + ([x] + b), a + ([y] + c);
    assert forall i :: 0 <= i < |b| ==> p[|a| + 1 + i] == b[i] && q[|a| + 1 + i] == c[i];
    assert p[|a|] == x && q[|a|] == y;
    forall i | 0 <= i < |p| ensures Like(p[i], q[i]) {
      if i > |a| {
        assert p[i] == b[i - |a| - 1] && q[i] == c[i - |a| - 1];
      }
    }
    if NormLine(x) == NormLine(y) && SameNorms(b, c) {
      forall i | 0 <= i < |p| ensures NormLine(p[i]) == NormLine(q[i]) {
        if i > |a| {
          assert p[i] == b[i - |a| - 1] && q[i] == c[i - |a| - 1];
        }
      }
    }
  }

  /** One entry: the value line changes, and is seen exactly when what follows on the line is not quiet. */
  lemma EntryLines(a: string, rest: string, other: string)
    requires Head(rest) == Head(other) && Likes(Lines(rest), Lines(other))
    ensures var bare, quoted := a + "\n" + (VALUE + SIDECAR + rest), a + "\n" + (VALUE + QUOTED + other);
            && Likes(Lines(bare), Lines(quoted))
            && (SameNorms(Lines(bare), Lines(quoted)) <==> Quiet(Head(rest)) && SameNorms(Lines(rest), Lines(other)))
  {
    hide Likes, Like, SameNorms, Lines, NormLine, Quiet, Head;
    var h := Head(rest);
    ValueLines(a, SIDECAR, rest);
    ValueLines(a, QUOTED, other);
    QuietExact(h);
    QuotedLike(h);
    LikesTail(Lines(rest), Lines(other));
    LinesHead(rest);
    LinesHead(other);
    LikesMiddle(Lines(a), VALUE + (SIDECAR + h), VALUE + (QUOTED + h), Lines(rest)[1..], Lines(other)[1..]);
  }

  lemma ValueLines(a: string, x: string, rest: string)
    requires Unfed(x)
    ensures Lines(a + "\n" + (VALUE + x + rest)) == Lines(a) + ([VALUE + (x + Head(rest))] + Lines(rest)[1..])
  {
    hide Lines, Head;
    LinesJoin(a, VALUE + x + rest);
    LinesPrefix(VALUE + x, rest);
    assert VALUE + x + Head(rest) == VALUE + (x + Head(rest));
  }

  lemma Group(a: string, b: string, c: string, d: string)
    ensures a + (b + "\n" + c + d) == (a + b) + "\n" + (c + d)
  {
    assert a + (b + "\n" + c + d) == a + b + "\n" + c + d;
    assert a + b + "\n" + (c + d) == a + b + "\n" + c + d;
  }

  lemma LikesRefl(a: seq<string>)
    ensures Likes(a, a) && SameNorms(a, a)
  {
  }

  lemma NameHeads(v: Values, pat: Doc, sub: Doc)
    requires Render(v, pat) == NAME + "\n" + (VALUE + SIDECAR) && Render(v, sub) == NAME + "\n" + (VALUE + QUOTED)
    ensures !Unfed(Render(v, pat)) && !Unfed(Render(v, sub)) && Head(Render(v, pat)) == Head(Render(v, sub))
  {
    hide Head;
    assert Render(v, pat)[|NAME|] == '\n' && Render(v, sub)[|NAME|] == '\n';
    assert !Unfed(NAME + "\n") by {
      assert (NAME + "\n")[|NAME|] == '\n';
    }
    HeadAppend(NAME + "\n", VALUE + SIDECAR);
    HeadAppend(NAME + "\n", VALUE + QUOTED);
  }

  /**
   The rule changes a rendered document in value lines only, and the checker sees none of them if and
   only if what follows every entry on its line is quiet. `pre` is the rendering of what came before.
   */
  lemma {:induction false} EgressLines(v: Values, d: Doc, pre: string, pat: Doc, sub: Doc)
    requires pat == Lits(ENTRY) != [] && Render(v, pat) == NAME + "\n" + (VALUE + SIDECAR)
    requires Render(v, sub) == NAME + "\n" + (VALUE + QUOTED)
    ensures var before, after := Lines(pre + Render(v, d)), Lines(pre + Render(v, Replace(d, pat, sub)));
            Likes(before, after) && (SameNorms(before, after) <==> Every(v, d, Quiet))
    decreases |d|
  {
    hide Likes, SameNorms, Lines, Head, Quiet;
    if d == [] {
      LikesRefl(Lines(pre + ""));
    } else if Starts(d, pat) {
      var rest := d[|pat|..];
      var next := Replace(rest, pat, sub);
      assert d == pat + rest;
      RenderAppend(v, pat, rest);
      RenderAppend(v, sub, next);
      NameHeads(v, pat, sub);
      HeadKept(v, rest, pat, sub);
      EgressLines(v, rest, "", pat, sub);
      assert "" + Render(v, rest) == Render(v, rest) && "" + Render(v, next) == Render(v, next);
      EntryLines(pre + NAME, Render(v, rest), Render(v, next));
      Group(pre, NAME, VALUE + SIDECAR, Render(v, rest));
      Group(pre, NAME, VALUE + QUOTED, Render(v, next));
    } else {
      var shown, next := Shown(v, d[0]), Replace(d[1..], pat, sub);
      assert ([d[0]] + next)[1..] == next;
      EgressLines(v, d[1..], pre + shown, pat, sub);
      assert pre + (shown + Render(v, d[1..])) == pre + shown + Render(v, d[1..]);
      assert pre + (shown + Render(v, next)) == pre + shown + Render(v, next);
    }
  }
}
