/** From a message to its display lines every rune stays part of the link or copy button it was part of. */
module MarkedLines {
  import Bytes
  import opened Cells
  import opened ChatSpans
  import opened ChatWrap
  import opened WrapLossless
  import opened DroppedTails
  import opened ChatRows
  import opened MessageRoundTrip

  // ----- what becomes of a message's runes -----

  /** A newline is not shown, a tab is shown as four blanks, which belong to what the tab belonged to. */
  function ShownRune(m: MarkedRune): seq<MarkedRune> {
    if m.r == '\n' then []
    else if m.r == '\t' then
      var blank := MarkedRune(' ', m.mark);
      [blank, blank, blank, blank]
    else [m]
  }

  function Shown(ms: seq<MarkedRune>): seq<MarkedRune> {
    if ms == [] then [] else ShownRune(ms[0]) + Shown(ms[1..])
  }

  lemma {:induction false} ShownConcat(a: seq<MarkedRune>, b: seq<MarkedRune>)
    ensures Shown(a + b) == Shown(a) + Shown(b)
  {
    if a == [] {
      assert a + b == b;
    } else {
      assert (a + b)[1..] == a[1..] + b;
      ShownConcat(a[1..], b);
      MarksRegrouped(ShownRune(a[0]), Shown(a[1..]), Shown(b));
    }
  }

  function WithoutNewlines(s: string): string {
    if s == "" then "" else (if s[0] == '\n' then "" else [s[0]]) + WithoutNewlines(s[1..])
  }

  lemma {:induction false} ConcatOfSplit(s: string)
    ensures Bytes.Concat(Split(s)) == WithoutNewlines(s)
  {
    if s == "" {
      Bytes.ConcatOfOne("");
    } else {
      var rest := Split(s[1..]);
      ConcatOfSplit(s[1..]);
      Bytes.ConcatHead(Split(s));
      if s[0] == '\n' {
        assert Split(s)[1..] == rest && "" + Bytes.Concat(rest) == Bytes.Concat(rest);
      } else {
        Bytes.ConcatHead(rest);
        assert Split(s)[1..] == rest[1..];
        Bytes.Regrouped([s[0]], rest[0], Bytes.Concat(rest[1..]));
      }
      hide Split;
    }
  }

  lemma NoNewlineInTab(s: string)
    ensures WithoutNewlines(CHAT_TAB + s) == "    " + WithoutNewlines(s)
  {
    var t := CHAT_TAB + s;
    assert t[1..][1..][1..][1..] == s;
    assert "   " + s == t[1..] && "  " + s == t[1..][1..] && " " + s == t[1..][1..][1..];
    assert WithoutNewlines(" " + s) == " " + WithoutNewlines(s);
    assert WithoutNewlines("  " + s) == "  " + WithoutNewlines(s);
    assert WithoutNewlines("   " + s) == "   " + WithoutNewlines(s);
  }

  lemma {:induction false} ShownText(s: string, mark: Span)
    ensures Shown(MarkAll(s, mark)) == MarkAll(WithoutNewlines(Untab(s)), mark)
  {
    if s != "" {
      ShownText(s[1..], mark);
      var ms := MarkAll(s, mark);
      assert ms[1..] == MarkAll(s[1..], mark) && ms[0] == MarkedRune(s[0], mark);
      if s[0] == '\t' {
        NoNewlineInTab(Untab(s[1..]));
        assert ShownRune(ms[0]) == MarkAll("    ", mark);
        MarkAllConcat("    ", WithoutNewlines(Untab(s[1..])), mark);
      } else {
        var one := [s[0]];
        assert (one + Untab(s[1..]))[1..] == Untab(s[1..]);
        var shown := if s[0] == '\n' then "" else one;
        assert ShownRune(ms[0]) == MarkAll(shown, mark);
        MarkAllConcat(shown, WithoutNewlines(Untab(s[1..])), mark);
      }
      hide MarkAll;
    }
  }

  // ----- paragraphs -----

  /** The marks of all the paragraphs, in order. */
  function AllMarks(paras: seq<seq<Span>>): seq<MarkedRune> {
    if paras == [] then [] else AllMarks(paras[..|paras| - 1]) + Marks(paras[|paras| - 1])
  }

  lemma AllMarksPush(paras: seq<seq<Span>>, para: seq<Span>)
    ensures AllMarks(paras + [para]) == AllMarks(paras) + Marks(para)
  {
    assert (paras + [para])[..|paras|] == paras;
  }

  function ParasMarks(ps: Paras): seq<MarkedRune> {
    AllMarks(ps.ended) + Marks(ps.cur)
  }

  lemma PartFedMarks(ps: Paras, span: Span, parts: seq<string>, i: nat)
    requires i < |parts|
    ensures ParasMarks(PartFed(ps, span, parts, i)) == ParasMarks(ps) + MarkAll(parts[i], Mark(span))
  {
    var part := span.(text := parts[i]);
    assert SpanMarks(part) == MarkAll(parts[i], Mark(span));
    var next := if i > 0 then Paras(ps.ended + [ps.cur], []) else ps;
    assert ParasMarks(next) == ParasMarks(ps) by {
      AllMarksPush(ps.ended, ps.cur);
      assert AllMarks(ps.ended) + Marks(ps.cur) + Marks([]) == AllMarks(ps.ended) + Marks(ps.cur);
    }
    MarksPush(next.cur, part);
    MarksRegrouped(AllMarks(next.ended), Marks(next.cur), SpanMarks(part));
    if parts[i] == "" {
      assert MarkAll("", Mark(span)) == [];
    }
    hide Marks;
    hide AllMarks;
    hide MarkAll;
    hide SpanMarks;
  }

  lemma {:induction false} PartsFedMarks(ps: Paras, span: Span, parts: seq<string>, n: nat)
    requires n <= |parts|
    ensures ParasMarks(PartsFed(ps, span, parts, n)) == ParasMarks(ps) + MarkAll(Bytes.Concat(parts[..n]), Mark(span))
  {
    if n == 0 {
      assert MarkAll("", Mark(span)) == [];
    } else {
      PartsFedMarks(ps, span, parts, n - 1);
      hide PartFed;
      PartFedMarks(PartsFed(ps, span, parts, n - 1), span, parts, n - 1);
      var before := Bytes.Concat(parts[..n - 1]);
      assert parts[..n][..n - 1] == parts[..n - 1];
      assert Bytes.Concat(parts[..n]) == before + parts[n - 1];
      MarkAllConcat(before, parts[n - 1], Mark(span));
      hide ParasMarks;
      hide MarkAll;
      MarksRegrouped(ParasMarks(ps), MarkAll(before, Mark(span)), MarkAll(parts[n - 1], Mark(span)));
    }
  }

  lemma {:induction false} SpansFedMarks(spans: seq<Span>)
    ensures ParasMarks(SpansFed(spans)) == Shown(Marks(spans))
  {
    if spans != [] {
      var init, last := spans[..|spans| - 1], spans[|spans| - 1];
      SpansFedMarks(init);
      var parts := Split(Untab(last.text));
      PartsFedMarks(SpansFed(init), last, parts, |parts|);
      assert parts[..|parts|] == parts;
      ConcatOfSplit(Untab(last.text));
      ShownText(last.text, Mark(last));
      ShownConcat(Marks(init), SpanMarks(last));
      hide ParasMarks;
      hide PartsFed;
      hide Split;
      hide Shown;
      hide MarkAll;
    }
  }

  /** The paragraphs hold every rune of the message but its newlines, in order, each in the link or copy button
      it was in, tabs as four blanks. */
  lemma ParagraphsKeepMarks(spans: seq<Span>)
    ensures AllMarks(Paragraphs(spans)) == Shown(Marks(spans))
  {
    SpansFedMarks(spans);
    var ps := SpansFed(spans);
    AllMarksPush(ps.ended, ps.cur);
    hide SpansFed;
    hide AllMarks;
    if Paragraphs(spans) == ps.ended && ps.cur == [] {
      assert Marks(ps.cur) == [];
    }
    hide Shown;
  }

  // ----- display lines -----

  /** What display lines hold, white space dropped at their breaks put back. */
  function LinesMarks(lines: seq<DisplayLine>): seq<MarkedRune> {
    if lines == [] then []
    else
      var last := lines[|lines| - 1];
      LinesMarks(lines[..|lines| - 1]) + MarkAll(last.glue, Plain("")) + Marks(last.spans)
  }

  lemma LinesMarksPush(lines: seq<DisplayLine>, line: DisplayLine)
    ensures LinesMarks(lines + [line]) == LinesMarks(lines) + MarkAll(line.glue, Plain("")) + Marks(line.spans)
  {
    hide MarkAll;
    hide Marks;
    assert (lines + [line])[..|lines|] == lines;
  }

  lemma {:induction false} LinesMarksConcat(a: seq<DisplayLine>, b: seq<DisplayLine>)
    ensures LinesMarks(a + b) == LinesMarks(a) + LinesMarks(b)
  {
    hide MarkAll;
    hide Marks;
    if b == [] {
      assert a + b == a;
    } else {
      var init, last := b[..|b| - 1], b[|b| - 1];
      assert (a + b)[..|a + b| - 1] == a + init;
      LinesMarksConcat(a, init);
      var g, m := MarkAll(last.glue, Plain("")), Marks(last.spans);
      MarksRegrouped(LinesMarks(a), LinesMarks(init), g);
      MarksRegrouped(LinesMarks(a), LinesMarks(init) + g, m);
    }
  }

  lemma LineMarks(wide: WideRunes, head: Head, para: seq<Span>, opening: bool, i: nat)
    requires var st := ParaWrap(wide, head, para); i < |Lines(st)| && i < |Glue(st)|
    ensures var st := ParaWrap(wide, head, para); var line := LineOf(wide, head, st, opening, i);
            line.glue == Glue(st)[i] && line.spans == Lines(st)[i]
  {
    GlueIsSpace(wide, Avail(wide, head), para);
    hide Filled;
    hide Lines;
    hide Glue;
  }

  lemma {:induction false} ParaLinesMarks(wide: WideRunes, head: Head, para: seq<Span>, opening: bool, n: nat)
    requires var st := ParaWrap(wide, head, para); n <= |Lines(st)| && n <= |Glue(st)|
    ensures var st := ParaWrap(wide, head, para);
            LinesMarks(ParaLines(wide, head, para, opening, n)) == Woven(Lines(st)[..n], Glue(st)[..n])
  {
    hide Filled;
    hide Lines;
    hide Glue;
    hide Woven;
    hide LinesMarks;
    hide ParaLines;
    hide LineOf;
    hide Marks;
    hide MarkAll;
    var st := ParaWrap(wide, head, para);
    if n == 0 {
      NoneWoven(wide, head, para, opening);
    } else {
      ParaLinesMarks(wide, head, para, opening, n - 1);
      ParaLinesPush(wide, head, para, opening, n);
      LineMarks(wide, head, para, opening, n - 1);
      LinesMarksPush(ParaLines(wide, head, para, opening, n - 1), LineOf(wide, head, st, opening, n - 1));
      OneMoreWoven(Lines(st), Glue(st), n);
    }
  }

  lemma NoneWoven(wide: WideRunes, head: Head, para: seq<Span>, opening: bool)
    ensures LinesMarks(ParaLines(wide, head, para, opening, 0)) == Woven([], []) == []
    ensures var st := ParaWrap(wide, head, para); Lines(st)[..0] == [] && Glue(st)[..0] == []
  {
  }

  lemma OneMoreWoven(lines: seq<seq<Span>>, glue: seq<string>, n: nat)
    requires 0 < n <= |lines| && n <= |glue|
    ensures Woven(lines[..n], glue[..n])
         == Woven(lines[..n - 1], glue[..n - 1]) + MarkAll(glue[n - 1], Plain("")) + Marks(lines[n - 1])
  {
    assert lines[..n] == lines[..n - 1] + [lines[n - 1]] && glue[..n] == glue[..n - 1] + [glue[n - 1]];
    WovenPush(lines[..n - 1], glue[..n - 1], lines[n - 1], glue[n - 1]);
    hide *;
  }

  /** The lines of a paragraph, and what its end lost, are the paragraph. */
  lemma ParagraphKeepsMarks(wide: WideRunes, head: Head, para: seq<Span>, opening: bool)
    ensures LinesMarks(WholePara(wide, head, para, opening)) + MarkAll(Tail(wide, head, para), Plain("")) == Marks(para)
  {
    hide *;
    var n := |Lines(ParaWrap(wide, head, para))|;
    AllOfIt(wide, head, para, opening);
    ParaLinesMarks(wide, head, para, opening, n);
    AllWoven(wide, head, para);
  }

  lemma AllWoven(wide: WideRunes, head: Head, para: seq<Span>)
    ensures var st := ParaWrap(wide, head, para);
            && |Lines(st)| == |Glue(st)|
            && Woven(Lines(st)[..|Lines(st)|], Glue(st)[..|Lines(st)|]) + MarkAll(Tail(wide, head, para), Plain("")) == Marks(para)
  {
    var st := ParaWrap(wide, head, para);
    WrapLosesNothing(wide, Avail(wide, head), para);
    hide Filled;
    hide Lines;
    hide Glue;
    hide Woven;
    hide Marks;
    hide MarkAll;
    hide DroppedTail;
    assert Lines(st)[..|Lines(st)|] == Lines(st) && Glue(st)[..|Lines(st)|] == Glue(st);
  }

  /** The lines of every paragraph, each followed by what its end lost. */
  function Restored(wide: WideRunes, head: Head, paras: seq<seq<Span>>): seq<MarkedRune> {
    var n := |paras|;
    if n == 0 then []
    else
      var last := LinesMarks(WholePara(wide, head, paras[n - 1], n == 1));
      Restored(wide, head, paras[..n - 1]) + (last + MarkAll(Tail(wide, head, paras[n - 1]), Plain("")))
  }

  lemma {:induction false} RestoredIs(wide: WideRunes, head: Head, paras: seq<seq<Span>>)
    ensures Restored(wide, head, paras) == AllMarks(paras)
  {
    hide WholePara;
    hide Tail;
    hide Marks;
    hide LinesMarks;
    var n := |paras|;
    if n > 0 {
      RestoredIs(wide, head, paras[..n - 1]);
      ParagraphKeepsMarks(wide, head, paras[n - 1], n == 1);
    }
  }

  lemma {:induction false} RestoredLength(wide: WideRunes, head: Head, paras: seq<seq<Span>>)
    ensures |Restored(wide, head, paras)|
         == |LinesMarks(AllLines(wide, head, paras))| + TotalLength(TailTexts(wide, head, paras))
    ensures TotalLength(TailTexts(wide, head, paras)) == 0 ==>
              Restored(wide, head, paras) == LinesMarks(AllLines(wide, head, paras))
  {
    hide WholePara;
    hide Tail;
    hide LinesMarks;
    var n := |paras|;
    if n == 0 {
      NoLines();
    } else {
      var init, last := paras[..n - 1], paras[n - 1];
      RestoredLength(wide, head, init);
      var tails := TailTexts(wide, head, paras);
      assert tails[..n - 1] == TailTexts(wide, head, init) && tails[n - 1] == Tail(wide, head, last);
      LinesMarksConcat(AllLines(wide, head, init), WholePara(wide, head, last, n == 1));
      if tails[n - 1] == "" {
        assert MarkAll("", Plain("")) == [];
        assert forall ms: seq<MarkedRune> :: ms + [] == ms;
      }
    }
  }

  lemma NoLines()
    ensures LinesMarks([]) == []
  {
  }

  /** The lines of a message, with what they dropped at breaks and at the ends of paragraphs put back, hold
      every rune of the message but its newlines, in order, each in the link or copy button it was in; and
      nothing has to be put back at the ends exactly when the white space there fits on the line. */
  lemma LinesKeepMarks(v: View)
    ensures var paras := Paragraphs(v.spans);
            && Restored(v.wide, v.head, paras) == Shown(Marks(v.spans))
            && (LinesMarks(v.Lines()) == Shown(Marks(v.spans)) <==> EndsFit(v))
  {
    hide *;
    var paras := Paragraphs(v.spans);
    ParagraphsKeepMarks(v.spans);
    RestoredIs(v.wide, v.head, paras);
    RestoredLength(v.wide, v.head, paras);
    ViewParts(v);
    NoTailsIff(v);
    NoLength(v.Tails());
  }
}
