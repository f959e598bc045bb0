/** Wrapping loses nothing but white space at the end of the paragraph, and keeps to the width. */
module WrapLossless {
  import Bytes
  import opened Cells
  import opened ChatSpans
  import opened ChatWrap

  function LineWidth(wide: WideRunes, line: seq<Span>): nat {
    StringWidth(wide, Text(line))
  }

  /** The lines read one after the other, the white space dropped before each put back. */
  function Woven(lines: seq<seq<Span>>, glue: seq<string>): seq<MarkedRune> {
    var n := |lines|;
    if n == 0 || |glue| != n then []
    else Woven(lines[..n - 1], glue[..n - 1]) + MarkAll(glue[n - 1], Plain("")) + Marks(lines[n - 1])
  }

  function TokensMarks(tokens: seq<Token>): seq<MarkedRune> {
    if tokens == [] then [] else TokensMarks(tokens[..|tokens| - 1]) + TokenMarks(tokens[|tokens| - 1])
  }

  lemma {:induction false} TokensMarksConcat(a: seq<Token>, b: seq<Token>)
    ensures TokensMarks(a + b) == TokensMarks(a) + TokensMarks(b)
  {
    hide TokenMarks;
    var ab := a + b;
    if b == [] {
      assert ab == a;
    } else {
      var init, last := b[..|b| - 1], b[|b| - 1];
      assert ab[..|ab| - 1] == a + init && ab[|ab| - 1] == last;
      TokensMarksConcat(a, init);
      assert TokensMarks(a) + TokensMarks(init) + TokenMarks(last) == TokensMarks(a) + (TokensMarks(init) + TokenMarks(last));
    }
  }

  // ----- tokens -----

  lemma TokensMarksOfOne(t: Token)
    ensures TokensMarks([t]) == TokenMarks(t)
  {
    assert [t][..0] == [];
  }

  lemma {:induction false} PlainTokensMarks(texts: seq<string>)
    requires forall i | 0 <= i < |texts| :: texts[i] != "" && OneKind(texts[i])
    ensures TokensMarks(PlainTokens(texts)) == MarkAll(Bytes.Concat(texts), Plain(""))
    ensures forall t | t in PlainTokens(texts) :: ValidToken(t)
  {
    var ts := PlainTokens(texts);
    if texts != [] {
      PlainTokensMarks(texts[1..]);
      assert ts == [PlainToken(texts[0])] + PlainTokens(texts[1..]);
      TokensMarksConcat([PlainToken(texts[0])], PlainTokens(texts[1..]));
      TokensMarksOfOne(PlainToken(texts[0]));
      Bytes.ConcatHead(texts);
      MarkAllConcat(texts[0], Bytes.Concat(texts[1..]), Plain(""));
    }
  }

  lemma SpanTokensMarks(span: Span)
    ensures TokensMarks(SpanTokens(span)) == SpanMarks(span)
    ensures forall t | t in SpanTokens(span) :: ValidToken(t)
  {
    if Special(span) {
      TokensMarksOfOne(Word(span));
    } else {
      TokensTokenize(span.text);
      PlainTokensMarks(Tokens(span.text));
    }
  }

  /** Cutting spans into tokens keeps every rune and its mark. */
  lemma {:induction false} AllTokensMarks(spans: seq<Span>)
    ensures TokensMarks(AllTokens(spans)) == Marks(spans)
    ensures forall t | t in AllTokens(spans) :: ValidToken(t)
  {
    if spans != [] {
      var init, last := spans[..|spans| - 1], spans[|spans| - 1];
      AllTokensMarks(init);
      SpanTokensMarks(last);
      TokensMarksConcat(AllTokens(init), SpanTokens(last));
    }
  }

  // ----- the invariant of the wrap -----

  /** Everything the wrap has taken in. */
  function Content(st: Wrap): seq<MarkedRune> {
    Woven(st.lines, st.glue) + MarkAll(st.curGlue, Plain("")) + Marks(st.cur)
  }

  predicate GoodLine(wide: WideRunes, W: nat, line: seq<Span>) {
    0 < LineWidth(wide, line) <= W
  }

  predicate Good(wide: WideRunes, W: nat, st: Wrap) {
    && |st.lines| == |st.glue|
    && (forall i | 0 <= i < |st.lines| :: GoodLine(wide, W, st.lines[i]))
    && (forall i | 0 <= i < |st.glue| :: AllSpace(st.glue[i]))
    && (|st.glue| > 0 ==> st.glue[0] == "")
    && AllSpace(st.curGlue) && (st.lines == [] ==> st.curGlue == "")
    && st.curW == LineWidth(wide, st.cur) <= W
    && (st.cur == [] <==> st.curW == 0)
  }

  lemma WovenPush(lines: seq<seq<Span>>, glue: seq<string>, line: seq<Span>, g: string)
    requires |lines| == |glue|
    ensures Woven(lines + [line], glue + [g]) == Woven(lines, glue) + MarkAll(g, Plain("")) + Marks(line)
  {
    assert (lines + [line])[..|lines|] == lines && (glue + [g])[..|glue|] == glue;
  }

  lemma JoinedKeeps(line: seq<Span>, span: Span)
    ensures Marks(Joined(line, span)) == Marks(line) + SpanMarks(span)
    ensures Text(Joined(line, span)) == Text(line) + span.text
  {
    var n := |line|;
    var joined := Joined(line, span);
    if n > 0 && !Special(line[n - 1]) && !Special(span) {
      assert joined[..n - 1] == line[..n - 1];
      var a, b := line[n - 1].text, span.text;
      MarkAllConcat(a, b, Plain(""));
      var init := Marks(line[..n - 1]);
      assert init + (MarkAll(a, Plain("")) + MarkAll(b, Plain(""))) == init + MarkAll(a, Plain("")) + MarkAll(b, Plain(""));
      assert Text(line[..n - 1]) + (a + b) == Text(line[..n - 1]) + a + b;
    } else {
      assert joined[..n] == line;
    }
  }

  lemma FlushedKeeps(wide: WideRunes, W: nat, st: Wrap)
    requires Good(wide, W, st)
    ensures Good(wide, W, Flushed(st))
    ensures st.cur != [] ==> Content(Flushed(st)) == Content(st)
    ensures Flushed(st).cur == [] && Flushed(st).curW == 0 && Flushed(st).curGlue == ""
    ensures st.cur != [] ==> Flushed(st).lines != []
  {
    hide LineWidth;
    if st.cur != [] {
      FlushedContent(st);
    }
    hide Content;
    BlankWidth(wide);
    if st.cur != [] {
      assert GoodLine(wide, W, st.cur);
    }
  }

  lemma BlankWidth(wide: WideRunes)
    ensures LineWidth(wide, []) == 0
  {
  }

  lemma FlushedContent(st: Wrap)
    requires |st.lines| == |st.glue| && st.cur != []
    ensures Content(Flushed(st)) == Content(st)
  {
    WovenPush(st.lines, st.glue, st.cur, st.curGlue);
    assert MarkAll("", Plain("")) == [] && Marks([]) == [];
    hide Woven;
    hide Marks;
    hide MarkAll;
  }

  lemma AddedKeeps(wide: WideRunes, W: nat, st: Wrap, span: Span)
    requires Good(wide, W, st) && span.text != ""
    requires st.curW + StringWidth(wide, span.text) <= W
    ensures var next := Added(st, span, StringWidth(wide, span.text));
            Good(wide, W, next) && Content(next) == Content(st) + SpanMarks(span)
  {
    JoinedKeeps(st.cur, span);
    WidthConcat(wide, Text(st.cur), span.text);
    WidthBounds(wide, span.text);
    var before := Woven(st.lines, st.glue) + MarkAll(st.curGlue, Plain(""));
    assert before + (Marks(st.cur) + SpanMarks(span)) == before + Marks(st.cur) + SpanMarks(span);
  }

  lemma MarksRegrouped(a: seq<MarkedRune>, b: seq<MarkedRune>, c: seq<MarkedRune>)
    ensures a + (b + c) == a + b + c
  {
  }

  lemma {:induction false} PlacedRestKeeps(wide: WideRunes, W: nat, st: Wrap, span: Span, rs: string)
    requires Good(wide, W, st) && W >= 2
    requires st.curW + StringWidth(wide, rs) <= W || st.cur == []
    ensures var next := PlacedRest(wide, W, st, span, rs);
            Good(wide, W, next) && Content(next) == Content(st) + MarkAll(rs, Mark(span))
    decreases |rs|
  {
    hide Good;
    hide Content;
    if rs == "" {
      assert Content(st) + MarkAll("", Mark(span)) == Content(st);
    } else if st.curW + StringWidth(wide, rs) <= W {
      AddedKeeps(wide, W, st, span.(text := rs));
    } else {
      var n := CutCount(wide, rs, W - st.curW);
      var cut := CutStepKeeps(wide, W, st, span, rs, n);
      hide CutCount;
      hide Flushed;
      hide Added;
      hide StringWidth;
      PlacedRestKeeps(wide, W, cut, span, rs[n..]);
      MarksRegrouped(Content(st), MarkAll(rs[..n], Mark(span)), MarkAll(rs[n..], Mark(span)));
    }
  }

  lemma CutStepKeeps(wide: WideRunes, W: nat, st: Wrap, span: Span, rs: string, n: nat) returns (next: Wrap)
    requires Good(wide, W, st) && W >= 2 && st.cur == [] && rs != ""
    requires n == CutCount(wide, rs, W - st.curW)
    ensures next == Flushed(Added(st, span.(text := rs[..n]), StringWidth(wide, rs[..n])))
    ensures Good(wide, W, next) && next.cur == []
    ensures Content(next) == Content(st) + MarkAll(rs[..n], Mark(span))
    ensures MarkAll(rs, Mark(span)) == MarkAll(rs[..n], Mark(span)) + MarkAll(rs[n..], Mark(span))
  {
    var part := span.(text := rs[..n]);
    assert StringWidth(wide, part.text) <= W && st.curW == 0 by {
      FitCountIsLongest(wide, rs, W);
      assert FitCount(wide, rs, W) > 0;
    }
    hide Good;
    hide Content;
    AddedKeeps(wide, W, st, part);
    var added := Added(st, part, StringWidth(wide, part.text));
    FlushedKeeps(wide, W, added);
    next := Flushed(added);
    assert rs == rs[..n] + rs[n..];
    MarkAllConcat(rs[..n], rs[n..], Mark(span));
  }

  lemma PlacedKeeps(wide: WideRunes, W: nat, st: Wrap, span: Span)
    requires Good(wide, W, st) && W >= 2
    ensures var next := Placed(wide, W, st, span);
            Good(wide, W, next) && Content(next) == Content(st) + SpanMarks(span)
  {
    FlushedKeeps(wide, W, st);
    PlacedRestKeeps(wide, W, RoomFor(W, st, StringWidth(wide, span.text)), span, span.text);
  }

  /** Every token is taken in whole, whatever the wrap does with it. */
  lemma FedKeeps(wide: WideRunes, W: nat, st: Wrap, t: Token)
    requires Good(wide, W, st) && W >= 2 && ValidToken(t)
    ensures var next := Fed(wide, W, st, t);
            Good(wide, W, next) && Content(next) == Content(st) + TokenMarks(t)
  {
    match t
    case Word(span) => PlacedKeeps(wide, W, st, span);
    case Space(tok) => SpaceKeeps(wide, W, st, tok);
  }

  lemma SpaceKeeps(wide: WideRunes, W: nat, st: Wrap, tok: string)
    requires Good(wide, W, st) && W >= 2 && ValidToken(Space(tok))
    ensures var next := Fed(wide, W, st, Space(tok));
            Good(wide, W, next) && Content(next) == Content(st) + MarkAll(tok, Plain(""))
  {
    if st.curW == 0 && |st.lines| > 0 {
      GlueGrows(wide, W, st, tok);
    } else if st.curW + StringWidth(wide, tok) <= W {
      AddedKeeps(wide, W, st, Plain(tok));
    } else if st.curW == 0 {
      PlacedKeeps(wide, W, st, Plain(tok));
    } else {
      FlushedKeeps(wide, W, st);
      GlueGrows(wide, W, Flushed(st), tok);
      assert "" + tok == tok;
    }
    hide Good;
    hide Content;
    hide Placed;
    hide Added;
  }

  /** White space dropped before a line that is still empty. */
  lemma GlueGrows(wide: WideRunes, W: nat, st: Wrap, tok: string)
    requires Good(wide, W, st) && AllSpace(tok) && st.cur == [] && st.lines != []
    ensures var next := st.(curGlue := st.curGlue + tok);
            Good(wide, W, next) && Content(next) == Content(st) + MarkAll(tok, Plain(""))
  {
    MarkAllConcat(st.curGlue, tok, Plain(""));
    hide Woven;
    hide MarkAll;
    MarksRegrouped(Woven(st.lines, st.glue), MarkAll(st.curGlue, Plain("")), MarkAll(tok, Plain("")));
  }

  lemma {:induction false} FedAllKeeps(wide: WideRunes, W: nat, tokens: seq<Token>)
    requires W >= 2 && forall t | t in tokens :: ValidToken(t)
    ensures var st := FedAll(wide, W, START, tokens);
            Good(wide, W, st) && Content(st) == TokensMarks(tokens)
  {
    if tokens == [] {
      assert MarkAll("", Plain("")) == [];
    } else {
      var init, last := tokens[..|tokens| - 1], tokens[|tokens| - 1];
      assert last in tokens;
      FedAllKeeps(wide, W, init);
      FedKeeps(wide, W, FedAll(wide, W, START, init), last);
    }
  }

  // ----- the results -----

  /** The white space at the end of the paragraph that no line holds. */
  function DroppedTail(st: Wrap): string {
    if st.cur == [] then st.curGlue else ""
  }

  /** Putting the glue back between the lines, and the dropped tail after them, gives the spans
      again rune for rune, each with the link or copy it belongs to. */
  lemma WrapLosesNothing(wide: WideRunes, availWidth: int, spans: seq<Span>)
    ensures var st := Filled(wide, availWidth, spans);
            && |Lines(st)| == |Glue(st)| >= 1
            && Woven(Lines(st), Glue(st)) + MarkAll(DroppedTail(st), Plain("")) == Marks(spans)
            && AllSpace(DroppedTail(st))
  {
    var W := LineWidthFor(availWidth);
    var st := Filled(wide, availWidth, spans);
    AllTokensMarks(spans);
    FedAllKeeps(wide, W, AllTokens(spans));
    FlushedKeeps(wide, W, st);
    if st.cur == [] {
      assert Marks([]) == [];
      assert Content(st) == Woven(st.lines, st.glue) + MarkAll(st.curGlue, Plain(""));
      if st.lines == [] {
        BlankLineWoven();
      }
    } else {
      assert MarkAll("", Plain("")) == [];
    }
  }

  lemma SomethingWoven(wide: WideRunes, W: nat, lines: seq<seq<Span>>, glue: seq<string>)
    requires |lines| == |glue| && lines != [] && forall i | 0 <= i < |lines| :: GoodLine(wide, W, lines[i])
    ensures Woven(lines, glue) != []
    ensures forall i | 0 <= i < |lines| :: Text(lines[i]) != ""
  {
    var n := |lines|;
    assert GoodLine(wide, W, lines[n - 1]);
    MarksSpellText(lines[n - 1]);
    forall i | 0 <= i < n ensures Text(lines[i]) != "" {
      assert GoodLine(wide, W, lines[i]);
    }
  }

  /** Every line fits, and none is empty unless the whole paragraph is. */
  lemma LinesFit(wide: WideRunes, availWidth: int, spans: seq<Span>)
    ensures var st := Filled(wide, availWidth, spans);
            && (forall i | 0 <= i < |Lines(st)| :: LineWidth(wide, Lines(st)[i]) <= LineWidthFor(availWidth))
            && (Text(spans) != "" ==> forall i | 0 <= i < |Lines(st)| :: Text(Lines(st)[i]) != "")
            && (Text(spans) == "" ==> |Lines(st)| == 1 && Text(Lines(st)[0]) == "")
  {
    hide Content;
    hide Woven;
    var W := LineWidthFor(availWidth);
    var st := Filled(wide, availWidth, spans);
    AllTokensMarks(spans);
    FedAllKeeps(wide, W, AllTokens(spans));
    FlushedKeeps(wide, W, st);
    WrapLosesNothing(wide, availWidth, spans);
    MarksSpellText(spans);
    TextOfOne(Plain(""));
    if Flushed(st).lines == [] {
      assert st.lines == [] && st.curGlue == "";
      assert Woven(Lines(st), Glue(st)) == [] by { BlankLineWoven(); }
      assert Marks(spans) == [];
    } else {
      var lines := Lines(st);
      SomethingWoven(wide, W, lines, Glue(st));
      forall i | 0 <= i < |lines| ensures LineWidth(wide, lines[i]) <= W {
        assert GoodLine(wide, W, lines[i]);
      }
    }
  }

  lemma BlankLineWoven()
    ensures Woven([[Plain("")]], [""]) == []
  {
    WovenPush([], [], [Plain("")], "");
    MarksOfOne(Plain(""));
  }

  /** The first line drops nothing before it, and only white space is ever dropped. */
  lemma GlueIsSpace(wide: WideRunes, availWidth: int, spans: seq<Span>)
    ensures var glue := Glue(Filled(wide, availWidth, spans));
            && |glue| > 0 && glue[0] == ""
            && forall i | 0 <= i < |glue| :: AllSpace(glue[i])
  {
    var W := LineWidthFor(availWidth);
    AllTokensMarks(spans);
    FedAllKeeps(wide, W, AllTokens(spans));
    FlushedKeeps(wide, W, Filled(wide, availWidth, spans));
  }
}
