/** What copying a whole message gives, in terms of its text. */
module MessageRoundTrip {
  import opened Cells
  import opened ChatSpans
  import opened ChatWrap
  import opened WrapLossless
  import opened DroppedTails
  import opened ChatRows
  import opened ParagraphTexts
  import opened CopyRoundTrip

  function ParaWrap(wide: WideRunes, head: Head, para: seq<Span>): Wrap {
    Filled(wide, Avail(wide, head), para)
  }

  /** A paragraph as its lines and the glue between them spell it. */
  function Kept(wide: WideRunes, head: Head, para: seq<Span>): string {
    Unmark(Woven(Lines(ParaWrap(wide, head, para)), Glue(ParaWrap(wide, head, para))))
  }

  /** What no line of the paragraph holds. */
  function Tail(wide: WideRunes, head: Head, para: seq<Span>): string {
    DroppedTail(ParaWrap(wide, head, para))
  }

  lemma UnmarkConcat(a: seq<MarkedRune>, b: seq<MarkedRune>)
    ensures Unmark(a + b) == Unmark(a) + Unmark(b)
  {
  }

  lemma UnmarkAll(text: string, mark: Span)
    ensures Unmark(MarkAll(text, mark)) == text
  {
  }

  lemma KeptAndTail(wide: WideRunes, head: Head, para: seq<Span>)
    ensures Kept(wide, head, para) + Tail(wide, head, para) == Text(para)
    ensures AllSpace(Tail(wide, head, para))
    ensures Kept(wide, head, para) == "" <==> Text(para) == ""
  {
    var st := ParaWrap(wide, head, para);
    WrapLosesNothing(wide, Avail(wide, head), para);
    MarksSpellText(para);
    KeptIsBlank(wide, head, para);
    hide Filled;
    hide Woven;
    hide Lines;
    hide Glue;
    hide Text;
    hide Marks;
    hide DroppedTail;
    hide MarkAll;
    hide Unmark;
    UnmarkConcat(Woven(Lines(st), Glue(st)), MarkAll(Tail(wide, head, para), Plain("")));
    UnmarkAll(Tail(wide, head, para), Plain(""));
  }

  lemma KeptIsBlank(wide: WideRunes, head: Head, para: seq<Span>)
    ensures Text(para) != "" ==> Kept(wide, head, para) != ""
  {
    var st := ParaWrap(wide, head, para);
    WrapLosesNothing(wide, Avail(wide, head), para);
    LinesFit(wide, Avail(wide, head), para);
    hide Filled;
    hide Lines;
    hide Glue;
    if Text(para) != "" {
      LastIsWoven(Lines(st), Glue(st));
    }
  }

  lemma LastIsWoven(lines: seq<seq<Span>>, glue: seq<string>)
    requires |lines| == |glue| > 0 && Text(lines[|lines| - 1]) != ""
    ensures Unmark(Woven(lines, glue)) != ""
  {
    var last := lines[|lines| - 1];
    MarksSpellText(last);
    assert |Marks(last)| == |Text(last)| > 0;
    hide Marks;
    hide Text;
  }

  // ----- one paragraph -----

  /** What a paragraph is written after. */
  function Lead(c: Copy): string {
    if c.first then "" else c.text + "\n"
  }

  lemma {:induction false} CopiedFirst(lines: seq<DisplayLine>)
    ensures Copied(lines).first ==> Copied(lines).text == ""
  {
    if lines != [] {
      CopiedFirst(lines[..|lines| - 1]);
    }
  }

  lemma CopiedPush(lines: seq<DisplayLine>, line: DisplayLine)
    ensures Copied(lines + [line]) == Appended(Copied(lines), Text(line.spans), line.isContinuation, line.glue)
  {
    assert (lines + [line])[..|lines|] == lines;
  }

  lemma UnmarkWovenPush(lines: seq<seq<Span>>, glue: seq<string>, n: nat)
    requires |lines| == |glue| && n < |lines|
    ensures Unmark(Woven(lines[..n + 1], glue[..n + 1])) == Unmark(Woven(lines[..n], glue[..n])) + glue[n] + Text(lines[n])
  {
    assert lines[..n + 1] == lines[..n] + [lines[n]] && glue[..n + 1] == glue[..n] + [glue[n]];
    WovenPush(lines[..n], glue[..n], lines[n], glue[n]);
    MarksSpellText(lines[n]);
    var a, b, c := Woven(lines[..n], glue[..n]), MarkAll(glue[n], Plain("")), Marks(lines[n]);
    assert Unmark(a + b + c) == Unmark(a) + Unmark(b) + Unmark(c);
    assert Unmark(b) == glue[n];
  }

  /** What the first n lines of a paragraph spell. */
  function Spelled(st: Wrap, n: nat): string
    requires n <= |Lines(st)| && n <= |Glue(st)|
  {
    Unmark(Woven(Lines(st)[..n], Glue(st)[..n]))
  }

  lemma LineSpelled(wide: WideRunes, head: Head, para: seq<Span>, n: nat)
    requires Text(para) != ""
    requires var st := ParaWrap(wide, head, para); n < |Lines(st)| && n < |Glue(st)|
    ensures var st := ParaWrap(wide, head, para);
            && Text(Lines(st)[n]) != "" && Glue(st)[0] == ""
            && Spelled(st, n + 1) == Spelled(st, n) + Glue(st)[n] + Text(Lines(st)[n])
  {
    var st := ParaWrap(wide, head, para);
    LinesFit(wide, Avail(wide, head), para);
    GlueIsSpace(wide, Avail(wide, head), para);
    WrapLosesNothing(wide, Avail(wide, head), para);
    hide Filled;
    hide Woven;
    hide Unmark;
    UnmarkWovenPush(Lines(st), Glue(st), n);
  }

  lemma LineCopied(wide: WideRunes, head: Head, before: seq<DisplayLine>, para: seq<Span>, opening: bool, n: nat)
    requires var st := ParaWrap(wide, head, para); n < |Lines(st)| && n < |Glue(st)|
    ensures var st, c := ParaWrap(wide, head, para), Copied(before + ParaLines(wide, head, para, opening, n));
            Copied(before + ParaLines(wide, head, para, opening, n + 1)) == Appended(c, Text(Lines(st)[n]), n > 0, Glue(st)[n])
  {
    var st := ParaWrap(wide, head, para);
    var earlier, line := ParaLines(wide, head, para, opening, n), LineOf(wide, head, st, opening, n);
    hide Filled;
    hide Lines;
    hide Glue;
    hide Copied;
    assert before + (earlier + [line]) == before + earlier + [line];
    CopiedPush(before + earlier, line);
  }

  lemma {:induction false} ParaCopied(wide: WideRunes, head: Head, before: seq<DisplayLine>, para: seq<Span>, opening: bool, n: nat)
    requires Text(para) != ""
    requires var st := ParaWrap(wide, head, para); 0 < n <= |Lines(st)| && n <= |Glue(st)|
    ensures Copied(before + ParaLines(wide, head, para, opening, n))
            == Copy(Lead(Copied(before)) + Spelled(ParaWrap(wide, head, para), n), false)
  {
    hide *;
    var st := ParaWrap(wide, head, para);
    LineSpelled(wide, head, para, n - 1);
    LineCopied(wide, head, before, para, opening, n - 1);
    if n == 1 {
      CopiedFirst(before);
      NoneSpelled(st);
      NoParaLines(wide, head, before, para, opening);
      AppendedFirst(Copied(before), Text(Lines(st)[0]));
    } else {
      ParaCopied(wide, head, before, para, opening, n - 1);
      AppendedMore(Lead(Copied(before)), Spelled(st, n - 1), Glue(st)[n - 1], Text(Lines(st)[n - 1]));
    }
  }

  lemma AppendedFirst(c: Copy, t: string)
    requires (c.first ==> c.text == "") && t != ""
    ensures Appended(c, t, false, "") == Copy(Lead(c) + ("" + "" + t), false)
  {
    assert "" + "" + t == t;
  }

  lemma AppendedMore(lead: string, s: string, g: string, t: string)
    requires t != ""
    ensures Appended(Copy(lead + s, false), t, true, g) == Copy(lead + (s + g + t), false)
  {
    assert lead + s + g + t == lead + (s + g + t);
  }

  lemma NoParaLines(wide: WideRunes, head: Head, before: seq<DisplayLine>, para: seq<Span>, opening: bool)
    ensures before + ParaLines(wide, head, para, opening, 0) == before
  {
  }

  lemma NoneSpelled(st: Wrap)
    ensures Spelled(st, 0) == ""
  {
  }

  /** A paragraph is copied whole, after a newline unless it is the first; a blank one not at all. */
  lemma WholeParaCopied(wide: WideRunes, head: Head, before: seq<DisplayLine>, para: seq<Span>, opening: bool)
    ensures Copied(before + WholePara(wide, head, para, opening)) ==
            if Text(para) == "" then Copied(before) else Copy(Lead(Copied(before)) + Kept(wide, head, para), false)
  {
    hide *;
    var st := ParaWrap(wide, head, para);
    AllOfIt(wide, head, para, opening);
    if Text(para) == "" {
      BlankParaCopied(wide, head, before, para, opening);
    } else {
      ParaCopied(wide, head, before, para, opening, |Lines(st)|);
    }
  }

  lemma AllOfIt(wide: WideRunes, head: Head, para: seq<Span>, opening: bool)
    ensures var st := ParaWrap(wide, head, para); var n := |Lines(st)|;
            && n == |Glue(st)| && n > 0 && Spelled(st, n) == Kept(wide, head, para)
            && WholePara(wide, head, para, opening) == ParaLines(wide, head, para, opening, n)
  {
    var st := ParaWrap(wide, head, para);
    var n := |Lines(st)|;
    WrapLosesNothing(wide, Avail(wide, head), para);
    assert Lines(st)[..n] == Lines(st) && Glue(st)[..n] == Glue(st);
    hide Filled;
    hide Lines;
    hide Glue;
    hide ParaLines;
    hide Woven;
  }

  lemma BlankParaCopied(wide: WideRunes, head: Head, before: seq<DisplayLine>, para: seq<Span>, opening: bool)
    requires Text(para) == ""
    ensures Copied(before + WholePara(wide, head, para, opening)) == Copied(before)
  {
    var st := ParaWrap(wide, head, para);
    LinesFit(wide, Avail(wide, head), para);
    WrapLosesNothing(wide, Avail(wide, head), para);
    hide Filled;
    var line := LineOf(wide, head, st, opening, 0);
    assert ParaLines(wide, head, para, opening, 0) + [line] == [line];
    assert WholePara(wide, head, para, opening) == [line];
    hide Copied;
    CopiedPush(before, line);
  }

  // ----- all of them -----

  function KeptTexts(wide: WideRunes, head: Head, paras: seq<seq<Span>>): (ts: seq<string>)
    ensures |ts| == |paras|
  {
    seq(|paras|, i requires 0 <= i < |paras| => Kept(wide, head, paras[i]))
  }

  function TailTexts(wide: WideRunes, head: Head, paras: seq<seq<Span>>): (ts: seq<string>)
    ensures |ts| == |paras|
  {
    seq(|paras|, i requires 0 <= i < |paras| => Tail(wide, head, paras[i]))
  }

  function NonBlank(parts: seq<string>): seq<string> {
    if parts == [] then []
    else NonBlank(parts[..|parts| - 1]) + if parts[|parts| - 1] == "" then [] else [parts[|parts| - 1]]
  }

  lemma JoinPush(parts: seq<string>, last: string)
    ensures Join(parts + [last]) == if parts == [] then last else Join(parts) + "\n" + last
  {
    assert (parts + [last])[..|parts|] == parts;
  }

  lemma NothingCopied()
    ensures Copied([]) == Copy(Join([]), true)
  {
  }

  lemma KeptOneMore(wide: WideRunes, head: Head, paras: seq<seq<Span>>)
    requires paras != []
    ensures var n := |paras| - 1;
            KeptTexts(wide, head, paras) == KeptTexts(wide, head, paras[..n]) + [Kept(wide, head, paras[n])]
  {
    hide Kept;
  }

  lemma NonBlankPush(parts: seq<string>, last: string)
    ensures NonBlank(parts + [last]) == if last == "" then NonBlank(parts) else NonBlank(parts) + [last]
  {
    assert (parts + [last])[..|parts|] == parts;
    assert NonBlank(parts) + [] == NonBlank(parts);
  }

  lemma LinesOneMore(wide: WideRunes, head: Head, paras: seq<seq<Span>>)
    requires paras != []
    ensures var n := |paras| - 1;
            AllLines(wide, head, paras) == AllLines(wide, head, paras[..n]) + WholePara(wide, head, paras[n], n == 0)
  {
    hide WholePara;
  }

  /** The copy of the paragraphs with these parts. */
  function CopyOf(parts: seq<string>): Copy {
    Copy(Join(parts), parts == [])
  }

  lemma CopyOneMore(parts: seq<string>, kept: string)
    requires kept != ""
    ensures CopyOf(parts + [kept]) == Copy(Lead(CopyOf(parts)) + kept, false)
  {
    JoinPush(parts, kept);
    assert "" + kept == kept;
    hide Join;
  }

  lemma PartsOneMore(wide: WideRunes, head: Head, paras: seq<seq<Span>>)
    requires paras != []
    ensures var n := |paras| - 1; var kept := Kept(wide, head, paras[n]);
            NonBlank(KeptTexts(wide, head, paras))
            == NonBlank(KeptTexts(wide, head, paras[..n])) + if kept == "" then [] else [kept]
  {
    var n := |paras| - 1;
    KeptOneMore(wide, head, paras);
    NonBlankPush(KeptTexts(wide, head, paras[..n]), Kept(wide, head, paras[n]));
    hide *;
    NothingMore(NonBlank(KeptTexts(wide, head, paras[..n])));
  }

  lemma NothingMore(parts: seq<string>)
    ensures parts + [] == parts
  {
  }

  /** One more paragraph, when those before it are copied so. */
  lemma ParagraphCopied(wide: WideRunes, head: Head, paras: seq<seq<Span>>, before: Copy)
    requires paras != [] && Copied(AllLines(wide, head, paras[..|paras| - 1])) == before
    ensures var kept := Kept(wide, head, paras[|paras| - 1]);
            Copied(AllLines(wide, head, paras)) == if kept == "" then before else Copy(Lead(before) + kept, false)
  {
    hide *;
    var n := |paras| - 1;
    LinesOneMore(wide, head, paras);
    WholeParaCopied(wide, head, AllLines(wide, head, paras[..n]), paras[n], n == 0);
    KeptAndTail(wide, head, paras[n]);
  }

  lemma {:induction false} AllCopied(wide: WideRunes, head: Head, paras: seq<seq<Span>>)
    ensures Copied(AllLines(wide, head, paras)) == CopyOf(NonBlank(KeptTexts(wide, head, paras)))
  {
    if paras == [] {
      NothingCopied();
    } else {
      hide *;
      var n := |paras| - 1;
      var parts, kept := NonBlank(KeptTexts(wide, head, paras[..n])), Kept(wide, head, paras[n]);
      AllCopied(wide, head, paras[..n]);
      PartsOneMore(wide, head, paras);
      ParagraphCopied(wide, head, paras, CopyOf(parts));
      if kept == "" {
        NothingMore(parts);
      } else {
        CopyOneMore(parts, kept);
      }
    }
  }

  // ----- blank paragraphs -----

  /** s without the newlines it ends in. */
  function TrimNewlines(s: string): string {
    if s == "" || s[|s| - 1] != '\n' then s else TrimNewlines(s[..|s| - 1])
  }

  /** Only at its end does the message have blank paragraphs. */
  predicate BlanksOnlyAtEnd(parts: seq<string>) {
    forall i, j | 0 <= i < j < |parts| && parts[i] == "" :: parts[j] == ""
  }

  function TotalLength(parts: seq<string>): nat {
    if parts == [] then 0 else TotalLength(parts[..|parts| - 1]) + |parts[|parts| - 1]|
  }

  lemma {:induction false} JoinLength(parts: seq<string>)
    ensures |Join(parts)| == TotalLength(parts) + if parts == [] then 0 else |parts| - 1
  {
    if |parts| > 1 {
      JoinLength(parts[..|parts| - 1]);
    } else if |parts| == 1 {
      assert parts[..0] == [];
    }
  }

  lemma TotalLengthPush(parts: seq<string>, last: string)
    ensures TotalLength(parts + [last]) == TotalLength(parts) + |last|
  {
    assert (parts + [last])[..|parts|] == parts;
  }

  lemma {:induction false} NonBlankCounts(parts: seq<string>)
    ensures TotalLength(NonBlank(parts)) == TotalLength(parts)
    ensures |NonBlank(parts)| <= |parts|
    ensures |NonBlank(parts)| == |parts| <==> forall i | 0 <= i < |parts| :: parts[i] != ""
    ensures |NonBlank(parts)| == |parts| ==> NonBlank(parts) == parts
  {
    if parts != [] {
      var init, last := parts[..|parts| - 1], parts[|parts| - 1];
      NonBlankCounts(init);
      assert init + [last] == parts;
      assert NonBlank(parts) == if last == "" then NonBlank(init) else NonBlank(init) + [last];
      TotalLengthPush(NonBlank(init), last);
      TotalLengthPush(init, last);
      hide NonBlank;
      hide TotalLength;
    }
  }

  /** Leaving blank paragraphs out is the same as trimming newlines at the end exactly when no
      blank one comes before one that is not. */
  lemma {:induction false} BlanksMatterInside(parts: seq<string>)
    requires forall i | 0 <= i < |parts| :: '\n' !in parts[i]
    ensures Join(NonBlank(parts)) == TrimNewlines(Join(parts)) <==> BlanksOnlyAtEnd(parts)
  {
    var n := |parts|;
    if n > 0 {
      hide *;
      var init, last := parts[..n - 1], parts[n - 1];
      assert parts == init + [last];
      if last == "" {
        BlanksMatterInside(init);
        BlankLast(init);
        BlanksAtEndPush(init, last);
      } else {
        LastRuneOfJoin(init, last);
        NonBlankIsShorter(parts);
        LastNotBlank(parts);
      }
    }
  }

  /** A blank paragraph at the end adds a newline that is trimmed. */
  lemma BlankLast(init: seq<string>)
    ensures NonBlank(init + [""]) == NonBlank(init) && TrimNewlines(Join(init + [""])) == TrimNewlines(Join(init))
  {
    var parts := init + [""];
    assert parts[..|init|] == init && NonBlank(init) + [] == NonBlank(init);
    JoinPush(init, "");
    hide Join;
    if init != [] {
      assert Join(parts) == Join(init) + "\n";
      assert Join(parts)[..|Join(parts)| - 1] == Join(init);
    } else {
      NothingJoined();
    }
  }

  lemma NothingJoined()
    ensures Join([]) == ""
  {
  }

  /** Leaving blank paragraphs out makes the text shorter. */
  lemma NonBlankIsShorter(parts: seq<string>)
    requires parts != [] && parts[|parts| - 1] != ""
    ensures Join(NonBlank(parts)) == Join(parts) <==> forall i | 0 <= i < |parts| :: parts[i] != ""
  {
    NonBlankCounts(parts);
    JoinLength(parts);
    JoinLength(NonBlank(parts));
    hide Join;
    hide TotalLength;
    assert |NonBlank(parts)| > 0;
  }

  lemma BlanksAtEndPush(init: seq<string>, last: string)
    requires last == ""
    ensures BlanksOnlyAtEnd(init + [last]) <==> BlanksOnlyAtEnd(init)
  {
    var parts := init + [last];
    if BlanksOnlyAtEnd(parts) {
      forall i, j | 0 <= i < j < |init| && init[i] == "" ensures init[j] == "" {
        assert parts[i] == init[i] && parts[j] == init[j];
      }
    }
  }

  lemma LastRuneOfJoin(init: seq<string>, last: string)
    requires last != "" && '\n' !in last
    ensures TrimNewlines(Join(init + [last])) == Join(init + [last])
  {
    JoinPush(init, last);
    var s := Join(init + [last]);
    assert s[|s| - 1] == last[|last| - 1];
  }

  lemma LastNotBlank(parts: seq<string>)
    requires parts != [] && parts[|parts| - 1] != ""
    ensures BlanksOnlyAtEnd(parts) <==> forall i | 0 <= i < |parts| :: parts[i] != ""
  {
    var last := |parts| - 1;
    if !forall i | 0 <= i < |parts| :: parts[i] != "" {
      var i :| 0 <= i < |parts| && parts[i] == "";
      assert i < last && parts[i] == "" && parts[last] != "";
    }
  }

  // ----- the lines stand where they should -----

  lemma {:induction false} ParaLinesStand(wide: WideRunes, head: Head, para: seq<Span>, opening: bool, n: nat, i: nat)
    requires var st := ParaWrap(wide, head, para); i < n <= |Lines(st)| && n <= |Glue(st)|
    ensures IsLineOf(wide, head, ParaLines(wide, head, para, opening, n)[i], opening && i == 0, Avail(wide, head))
  {
    hide *;
    ParaLinesPush(wide, head, para, opening, n);
    if i < n - 1 {
      ParaLinesStand(wide, head, para, opening, n - 1, i);
    } else {
      LineStands(wide, head, para, opening, i);
    }
  }

  lemma ParaLinesPush(wide: WideRunes, head: Head, para: seq<Span>, opening: bool, n: nat)
    requires var st := ParaWrap(wide, head, para); 0 < n <= |Lines(st)| && n <= |Glue(st)|
    ensures ParaLines(wide, head, para, opening, n)
         == ParaLines(wide, head, para, opening, n - 1) + [LineOf(wide, head, ParaWrap(wide, head, para), opening, n - 1)]
  {
    hide Filled;
    hide Lines;
    hide Glue;
    hide LineOf;
  }

  lemma LineStands(wide: WideRunes, head: Head, para: seq<Span>, opening: bool, i: nat)
    requires var st := ParaWrap(wide, head, para); i < |Lines(st)| && i < |Glue(st)|
    ensures IsLineOf(wide, head, LineOf(wide, head, ParaWrap(wide, head, para), opening, i), opening && i == 0,
                     Avail(wide, head))
  {
    LinesFit(wide, Avail(wide, head), para);
    assert LineWidth(wide, Lines(ParaWrap(wide, head, para))[i]) <= Avail(wide, head);
    hide Filled;
    hide Lines;
    hide Glue;
    hide Indent;
    hide StringWidth;
  }

  lemma {:induction false} AllLinesStand(wide: WideRunes, head: Head, paras: seq<seq<Span>>, i: nat)
    requires i < |AllLines(wide, head, paras)|
    ensures IsLineOf(wide, head, AllLines(wide, head, paras)[i], i == 0, Avail(wide, head))
  {
    hide IsLineOf;
    hide Filled;
    hide ParaLines;
    var n := |paras|;
    var before := AllLines(wide, head, paras[..n - 1]);
    if i < |before| {
      AllLinesStand(wide, head, paras[..n - 1], i);
    } else {
      var st := ParaWrap(wide, head, paras[n - 1]);
      WrapLosesNothing(wide, Avail(wide, head), paras[n - 1]);
      ParaLinesStand(wide, head, paras[n - 1], n == 1, |Lines(st)|, i - |before|);
      AllLinesGrow(wide, head, paras[..n - 1]);
    }
  }

  lemma {:induction false} AllLinesGrow(wide: WideRunes, head: Head, paras: seq<seq<Span>>)
    ensures paras != [] ==> AllLines(wide, head, paras) != []
  {
    if paras != [] {
      WrapLosesNothing(wide, Avail(wide, head), paras[|paras| - 1]);
    }
  }

  // ----- the round trip -----

  /** text is the kept parts, each followed by its tail, joined by newlines; a newline at its very
      end may be left over. */
  predicate Rebuilds(text: string, kept: seq<string>, tails: seq<string>)
    requires |kept| == |tails|
  {
    var joined := Join(seq(|kept|, i requires 0 <= i < |kept| => kept[i] + tails[i]));
    text == joined || text == joined + "\n"
  }

  lemma MessageRebuilt(wide: WideRunes, head: Head, spans: seq<Span>)
    ensures var paras := Paragraphs(spans);
            && Rebuilds(Untab(Text(spans)), KeptTexts(wide, head, paras), TailTexts(wide, head, paras))
            && (forall i | 0 <= i < |paras| :: AllSpace(TailTexts(wide, head, paras)[i]))
            && forall i | 0 <= i < |paras| :: '\n' !in KeptTexts(wide, head, paras)[i]
  {
    var paras := Paragraphs(spans);
    var kept, tails := KeptTexts(wide, head, paras), TailTexts(wide, head, paras);
    ParagraphsSpellText(spans);
    forall i | 0 <= i < |paras| ensures kept[i] + tails[i] == Texts(paras)[i] && AllSpace(tails[i]) && '\n' !in kept[i] {
      KeptAndTail(wide, head, paras[i]);
      assert Texts(paras)[i] in Texts(paras);
      assert forall c | c in kept[i] :: c in kept[i] + tails[i];
    }
    assert seq(|kept|, i requires 0 <= i < |kept| => kept[i] + tails[i]) == Texts(paras);
  }

  /** A message of spans on the screen: how it is headed, the note under it if it is cut short,
      and a chat panel of innerWidth columns from innerX on, the message starting on row y0. */
  datatype View = View(wide: WideRunes, head: Head, spans: seq<Span>, note: DisplayLine, innerX: int, innerWidth: int, y0: int) {
    function Lines(): seq<DisplayLine> {
      AllLines(wide, head, Paragraphs(spans))
    }

    function Rows(): seq<RenderedLine> {
      RowsOf(wide, ShownLines(Lines(), note), innerX + 1, innerX + innerWidth - 1, y0)
    }

    function Kept(): seq<string> {
      KeptTexts(wide, head, Paragraphs(spans))
    }

    function Tails(): seq<string> {
      TailTexts(wide, head, Paragraphs(spans))
    }

    /** The message is shown whole, with ten columns or more beside its sender. */
    predicate Whole() {
      && ' ' !in wide
      && head.maxW == innerWidth - 2 && head.maxW - BadgeLen(wide, head) >= 10
      && 0 < |Lines()| <= MAX_SHOWN
    }

    /** The selection runs from the first cell of the text to its last, or the other way. */
    predicate Dragged(sel: Selection, endX: int) {
      && Rows() != [] && EndsBy(Rows()[|Rows()| - 1], endX)
      && Covers(sel, TextX(wide, head, innerX + 1), y0, endX, y0 + |Rows()| - 1)
    }
  }

  /** The last column of chars, but no less than least. */
  function LastX(chars: seq<RenderedChar>, least: int): (x: int)
    ensures x >= least && forall i | 0 <= i < |chars| :: chars[i].x <= x
  {
    if chars == [] then least
    else
      var x := LastX(chars[..|chars| - 1], least);
      if chars[|chars| - 1].x > x then chars[|chars| - 1].x else x
  }

  /** Every message shown whole can be dragged over. */
  lemma CanBeDragged(v: View) returns (sel: Selection, endX: int)
    requires v.Whole()
    ensures v.Dragged(sel, endX)
  {
    hide AllLines;
    hide Paragraphs;
    hide RowOf;
    var rows, textX := v.Rows(), TextX(v.wide, v.head, v.innerX + 1);
    endX := LastX(rows[|rows| - 1].chars, textX);
    sel := Selection(textX, v.y0, endX, v.y0 + |rows| - 1);
  }

  predicate Around(v: View, above: seq<RenderedLine>, below: seq<RenderedLine>) {
    && (forall i | 0 <= i < |above| :: above[i].rowY < v.y0)
    && (forall i | 0 <= i < |below| :: below[i].rowY >= v.y0 + |v.Rows()|)
  }

  lemma MessageShown(v: View, above: seq<RenderedLine>, below: seq<RenderedLine>, sel: Selection, endX: int)
    requires v.Whole() && v.Dragged(sel, endX) && Around(v, above, below)
    ensures ShowsMessage(v.wide, v.head, v.Lines(), v.innerX + 1, v.innerX + v.innerWidth - 1, v.y0, above, below, sel, endX)
    ensures v.Rows() == RowsOf(v.wide, v.Lines(), v.innerX + 1, v.innerX + v.innerWidth - 1, v.y0)
  {
    var lines, x0, right := v.Lines(), v.innerX + 1, v.innerX + v.innerWidth - 1;
    hide Paragraphs;
    hide AllLines;
    hide IsLineOf;
    hide Covers;
    hide EndsBy;
    hide RowOf;
    forall i | 0 <= i < |lines| ensures IsLineOf(v.wide, v.head, lines[i], i == 0, right - TextX(v.wide, v.head, x0)) {
      AllLinesStand(v.wide, v.head, Paragraphs(v.spans), i);
    }
    var rows := RowsOf(v.wide, lines, x0, right, v.y0);
    assert rows[|rows| - 1] == RowOf(v.wide, lines[|lines| - 1], x0, right, v.y0 + (|lines| - 1));
    assert v.y0 + (|lines| - 1) == v.y0 + |lines| - 1;
  }

  /** copied is the paragraphs of text, blank ones left out, each as its lines and glue spell it;
      that is the whole text, less the tails of paragraphs and the newlines at its end, exactly
      when no blank paragraph stands before one that is not. */
  predicate CopiesText(copied: string, text: string, kept: seq<string>, tails: seq<string>) {
    && |kept| == |tails|
    && (forall i | 0 <= i < |tails| :: AllSpace(tails[i]))
    && copied == Join(NonBlank(kept))
    && Rebuilds(text, kept, tails)
    && (copied == TrimNewlines(Join(kept)) <==> BlanksOnlyAtEnd(kept))
  }

  lemma MessageExtractedIn(v: View, above: seq<RenderedLine>, below: seq<RenderedLine>, sel: Selection, endX: int)
    requires v.Whole() && v.Dragged(sel, endX) && Around(v, above, below)
    ensures Extracted(above + v.Rows() + below, sel) == Copied(v.Lines())
  {
    hide *;
    MessageShown(v, above, below, sel, endX);
    MessageExtracted(v.wide, v.head, v.Lines(), v.innerX + 1, v.innerX + v.innerWidth - 1, v.y0, above, below, sel, endX);
  }

  lemma MessageCopied(v: View, above: seq<RenderedLine>, below: seq<RenderedLine>, sel: Selection, endX: int)
    requires v.Whole() && v.Dragged(sel, endX) && Around(v, above, below)
    ensures Extracted(above + v.Rows() + below, sel).text == Join(NonBlank(v.Kept()))
  {
    hide *;
    MessageExtractedIn(v, above, below, sel, endX);
    ViewParts(v);
    AllCopied(v.wide, v.head, Paragraphs(v.spans));
    TextOfCopy(v.Kept());
  }

  lemma TextOfCopy(kept: seq<string>)
    ensures CopyOf(NonBlank(kept)).text == Join(NonBlank(kept))
  {
  }

  lemma ViewParts(v: View)
    ensures v.Lines() == AllLines(v.wide, v.head, Paragraphs(v.spans))
    ensures v.Kept() == KeptTexts(v.wide, v.head, Paragraphs(v.spans))
    ensures v.Tails() == TailTexts(v.wide, v.head, Paragraphs(v.spans))
  {
    hide AllLines;
    hide Paragraphs;
    hide KeptTexts;
    hide TailTexts;
  }

  /** Dragging over a message copies it, whatever else is on the screen. */
  lemma CopyGivesTheMessage(v: View, above: seq<RenderedLine>, below: seq<RenderedLine>, sel: Selection, endX: int)
    requires v.Whole() && v.Dragged(sel, endX) && Around(v, above, below)
    ensures CopiesText(Extracted(above + v.Rows() + below, sel).text, Untab(Text(v.spans)), v.Kept(), v.Tails())
  {
    hide *;
    MessageCopied(v, above, below, sel, endX);
    MessageRebuilt(v.wide, v.head, v.spans);
    ViewParts(v);
    BlanksMatterInside(v.Kept());
    TextCopied(Extracted(above + v.Rows() + below, sel).text, Untab(Text(v.spans)), v.Kept(), v.Tails());
  }

  lemma TextCopied(copied: string, text: string, kept: seq<string>, tails: seq<string>)
    requires |kept| == |tails| && Rebuilds(text, kept, tails) && forall i | 0 <= i < |tails| :: AllSpace(tails[i])
    requires copied == Join(NonBlank(kept))
    requires copied == TrimNewlines(Join(kept)) <==> BlanksOnlyAtEnd(kept)
    ensures CopiesText(copied, text, kept, tails)
  {
    hide Join;
    hide NonBlank;
    hide Rebuilds;
  }

  /** With nothing dropped at the end of a paragraph, the parts kept are the text. */
  lemma NothingDropped(text: string, kept: seq<string>, tails: seq<string>)
    requires |kept| == |tails| && Rebuilds(text, kept, tails)
    requires forall i | 0 <= i < |tails| :: tails[i] == ""
    ensures TrimNewlines(text) == TrimNewlines(Join(kept))
  {
    assert forall i | 0 <= i < |kept| :: kept[i] + tails[i] == kept[i];
    assert seq(|kept|, i requires 0 <= i < |kept| => kept[i] + tails[i]) == kept;
    if text != Join(kept) {
      assert text[..|text| - 1] == Join(kept);
    }
  }

  lemma NothingDroppedCopies(v: View, above: seq<RenderedLine>, below: seq<RenderedLine>, sel: Selection, endX: int)
    requires v.Whole() && v.Dragged(sel, endX) && Around(v, above, below)
    requires forall i | 0 <= i < |v.Tails()| :: v.Tails()[i] == ""
    ensures Extracted(above + v.Rows() + below, sel).text == TrimNewlines(Untab(Text(v.spans)))
            <==> BlanksOnlyAtEnd(Texts(Paragraphs(v.spans)))
  {
    hide *;
    CopyGivesTheMessage(v, above, below, sel, endX);
    CopiedWithNoTail(Extracted(above + v.Rows() + below, sel).text, Untab(Text(v.spans)), v.Kept(), v.Tails());
    ViewParts(v);
    KeptAreTexts(v.wide, v.head, Paragraphs(v.spans));
  }

  lemma CopiedWithNoTail(copied: string, text: string, kept: seq<string>, tails: seq<string>)
    requires CopiesText(copied, text, kept, tails) && forall i | 0 <= i < |tails| :: tails[i] == ""
    ensures copied == TrimNewlines(text) <==> BlanksOnlyAtEnd(kept)
  {
    hide Join;
    hide NonBlank;
    hide Rebuilds;
    hide TrimNewlines;
    hide BlanksOnlyAtEnd;
    NothingDropped(text, kept, tails);
  }

  lemma KeptAreTexts(wide: WideRunes, head: Head, paras: seq<seq<Span>>)
    requires forall i | 0 <= i < |paras| :: TailTexts(wide, head, paras)[i] == ""
    ensures KeptTexts(wide, head, paras) == Texts(paras)
  {
    var kept, tails := KeptTexts(wide, head, paras), TailTexts(wide, head, paras);
    forall i | 0 <= i < |paras| ensures kept[i] == Texts(paras)[i] {
      KeptAndTail(wide, head, paras[i]);
      assert tails[i] == "";
      assert kept[i] + tails[i] == kept[i];
    }
  }

  // ----- counting runes -----

  /** How many runes of s are no newlines. */
  function Ink(s: string): nat {
    if s == "" then 0 else Ink(s[..|s| - 1]) + if s[|s| - 1] == '\n' then 0 else 1
  }

  lemma {:induction false} InkConcat(a: string, b: string)
    ensures Ink(a + b) == Ink(a) + Ink(b)
  {
    if b == "" {
      assert a + b == a;
    } else {
      assert (a + b)[..|a + b| - 1] == a + b[..|b| - 1];
      InkConcat(a, b[..|b| - 1]);
    }
  }

  lemma {:induction false} InkOfLine(s: string)
    requires '\n' !in s
    ensures Ink(s) == |s|
  {
    if s != "" {
      InkOfLine(s[..|s| - 1]);
    }
  }

  lemma {:induction false} InkTrimmed(s: string)
    ensures Ink(TrimNewlines(s)) == Ink(s)
  {
    if s != "" && s[|s| - 1] == '\n' {
      InkTrimmed(s[..|s| - 1]);
    }
  }

  lemma InkOfNewline()
    ensures Ink("\n") == 0
  {
    assert "\n"[..0] == "";
  }

  lemma {:induction false} InkJoined(parts: seq<string>)
    requires forall i | 0 <= i < |parts| :: '\n' !in parts[i]
    ensures Ink(Join(parts)) == TotalLength(parts)
  {
    if parts != [] {
      var init, last := parts[..|parts| - 1], parts[|parts| - 1];
      assert parts == init + [last];
      InkJoined(init);
      JoinPush(init, last);
      TotalLengthPush(init, last);
      InkOfLine(last);
      hide Join;
      hide TotalLength;
      hide Ink;
      InkOfNewline();
      InkConcat(Join(init) + "\n", last);
      InkConcat(Join(init), "\n");
    }
  }

  lemma {:induction false} NonBlankHasNoNewline(parts: seq<string>)
    requires forall i | 0 <= i < |parts| :: '\n' !in parts[i]
    ensures forall i | 0 <= i < |NonBlank(parts)| :: '\n' !in NonBlank(parts)[i]
  {
    if parts != [] {
      NonBlankHasNoNewline(parts[..|parts| - 1]);
    }
  }

  function Zipped(kept: seq<string>, tails: seq<string>): (ts: seq<string>)
    requires |kept| == |tails|
    ensures |ts| == |kept|
  {
    seq(|kept|, i requires 0 <= i < |kept| => kept[i] + tails[i])
  }

  lemma {:induction false} ZippedLength(kept: seq<string>, tails: seq<string>)
    requires |kept| == |tails|
    ensures TotalLength(Zipped(kept, tails)) == TotalLength(kept) + TotalLength(tails)
  {
    if kept != [] {
      var n := |kept| - 1;
      ZippedLength(kept[..n], tails[..n]);
      assert Zipped(kept, tails)[..n] == Zipped(kept[..n], tails[..n]);
    }
  }

  lemma {:induction false} NoLength(parts: seq<string>)
    ensures TotalLength(parts) == 0 <==> forall i | 0 <= i < |parts| :: parts[i] == ""
  {
    if parts != [] {
      NoLength(parts[..|parts| - 1]);
    }
  }

  /** A copy with none of the tails is the text only if they are empty. */
  lemma EqualOnlyWithoutTails(copied: string, text: string, kept: seq<string>, tails: seq<string>)
    requires CopiesText(copied, text, kept, tails) && copied == TrimNewlines(text)
    requires forall i | 0 <= i < |kept| :: '\n' !in Zipped(kept, tails)[i]
    ensures forall i | 0 <= i < |tails| :: tails[i] == ""
  {
    InkOfText(text, kept, tails);
    InkTrimmed(text);
    InkOfKept(kept, tails);
    NoLength(tails);
  }

  lemma InkOfKept(kept: seq<string>, tails: seq<string>)
    requires |kept| == |tails| && forall i | 0 <= i < |kept| :: '\n' !in Zipped(kept, tails)[i]
    ensures Ink(Join(NonBlank(kept))) == TotalLength(kept)
  {
    forall i | 0 <= i < |kept| ensures '\n' !in kept[i] {
      assert Zipped(kept, tails)[i] == kept[i] + tails[i];
    }
    NonBlankHasNoNewline(kept);
    InkJoined(NonBlank(kept));
    NonBlankCounts(kept);
  }

  lemma InkOfText(text: string, kept: seq<string>, tails: seq<string>)
    requires |kept| == |tails| && Rebuilds(text, kept, tails)
    requires forall i | 0 <= i < |kept| :: '\n' !in Zipped(kept, tails)[i]
    ensures Ink(text) == TotalLength(kept) + TotalLength(tails)
  {
    InkJoined(Zipped(kept, tails));
    ZippedLength(kept, tails);
    InkConcat(Join(Zipped(kept, tails)), "\n");
    InkOfNewline();
  }

  // ----- when the copy is the text -----

  /** What a line of the message has room for. */
  function RoomOf(v: View): nat {
    LineWidthFor(Avail(v.wide, v.head))
  }

  /** The white space at the end of every paragraph fits on the line that its last word ends on. */
  predicate EndsFit(v: View) {
    forall i | 0 <= i < |Paragraphs(v.spans)| :: EndFits(v.wide, RoomOf(v), AllTokens(Paragraphs(v.spans)[i]))
  }

  lemma NoTailsIff(v: View)
    ensures EndsFit(v) <==> forall i | 0 <= i < |v.Tails()| :: v.Tails()[i] == ""
  {
    hide *;
    ViewParts(v);
    EndsFitIs(v);
    var paras := Paragraphs(v.spans);
    forall i | 0 <= i < |paras|
      ensures TailTexts(v.wide, v.head, paras)[i] == "" <==> EndFits(v.wide, RoomOf(v), AllTokens(paras[i]))
    {
      TailAt(v.wide, v.head, paras, i);
    }
  }

  lemma TailAt(wide: WideRunes, head: Head, paras: seq<seq<Span>>, i: nat)
    requires i < |paras|
    ensures TailTexts(wide, head, paras)[i] == "" <==> EndFits(wide, LineWidthFor(Avail(wide, head)), AllTokens(paras[i]))
  {
    hide Filled;
    hide EndFits;
    TailDroppedIff(wide, Avail(wide, head), paras[i]);
  }

  lemma EndsFitIs(v: View)
    ensures RoomOf(v) == LineWidthFor(Avail(v.wide, v.head))
    ensures EndsFit(v) <==> forall i | 0 <= i < |Paragraphs(v.spans)| :: EndFits(v.wide, RoomOf(v), AllTokens(Paragraphs(v.spans)[i]))
  {
    hide EndFits;
    hide Paragraphs;
    hide AllTokens;
  }

  lemma PartsHaveNoNewline(v: View)
    ensures |v.Kept()| == |v.Tails()| && forall i | 0 <= i < |v.Kept()| :: '\n' !in Zipped(v.Kept(), v.Tails())[i]
  {
    var paras := Paragraphs(v.spans);
    ParagraphsSpellText(v.spans);
    hide Paragraphs;
    hide Kept;
    hide Tail;
    forall i | 0 <= i < |paras| ensures '\n' !in Zipped(v.Kept(), v.Tails())[i] {
      KeptAndTail(v.wide, v.head, paras[i]);
      assert Texts(paras)[i] in Texts(paras);
    }
  }

  /** The copy is the text itself, tabs as spaces, without the newlines at its end, exactly when it has no
      blank paragraph inside and the white space its paragraphs end in fits on their last lines. */
  lemma CopyRoundTrips(v: View, above: seq<RenderedLine>, below: seq<RenderedLine>, sel: Selection, endX: int)
    requires v.Whole() && v.Dragged(sel, endX) && Around(v, above, below)
    ensures Extracted(above + v.Rows() + below, sel).text == TrimNewlines(Untab(Text(v.spans)))
            <==> BlanksOnlyAtEnd(Texts(Paragraphs(v.spans))) && EndsFit(v)
  {
    hide *;
    NoTailsIff(v);
    if EndsFit(v) {
      NothingDroppedCopies(v, above, below, sel, endX);
    } else if Extracted(above + v.Rows() + below, sel).text == TrimNewlines(Untab(Text(v.spans))) {
      CopyGivesTheMessage(v, above, below, sel, endX);
      PartsHaveNoNewline(v);
      EqualOnlyWithoutTails(Extracted(above + v.Rows() + below, sel).text, Untab(Text(v.spans)), v.Kept(), v.Tails());
    }
  }
}
