/** When every token fits on a line, the wrap takes the fewest lines any wrap could. */
module WrapOptimal {
  import opened Cells
  import opened ChatSpans
  import opened ChatWrap
  import opened WrapLossless

  function TokenWidth(wide: WideRunes, t: Token): nat {
    StringWidth(wide, TokenText(t))
  }

  function RowWidth(wide: WideRunes, row: seq<Token>): nat {
    if row == [] then 0 else RowWidth(wide, row[..|row| - 1]) + TokenWidth(wide, row[|row| - 1])
  }

  /** gaps[0], rows[0], gaps[1], rows[1] and so on, one after the other. */
  function Interleaved(rows: seq<seq<Token>>, gaps: seq<seq<Token>>): seq<Token>
    requires |rows| == |gaps|
  {
    var n := |rows|;
    if n == 0 then [] else Interleaved(rows[..n - 1], gaps[..n - 1]) + gaps[n - 1] + rows[n - 1]
  }

  predicate Spaces(tokens: seq<Token>) {
    forall i | 0 <= i < |tokens| :: tokens[i].Space?
  }

  /** One way to wrap tokens: breaks between tokens, and at a break white space may be dropped,
      before the next row (gaps) or at the end (tail). What the first row starts with, the
      indentation of the paragraph, is kept. */
  predicate IsWrap(wide: WideRunes, W: nat, tokens: seq<Token>, rows: seq<seq<Token>>, gaps: seq<seq<Token>>, tail: seq<Token>) {
    && |rows| == |gaps| > 0
    && gaps[0] == []
    && (forall i | 0 <= i < |gaps| :: Spaces(gaps[i]))
    && Spaces(tail)
    && (forall i | 0 <= i < |rows| :: RowWidth(wide, rows[i]) <= W)
    && Interleaved(rows, gaps) + tail == tokens
  }

  predicate AllFit(wide: WideRunes, W: nat, tokens: seq<Token>) {
    forall i | 0 <= i < |tokens| :: ValidToken(tokens[i]) && TokenWidth(wide, tokens[i]) <= W
  }

  // ----- staying ahead -----

  /** st has closed fewer lines than k, or k lines with no more than u cells on the open one. */
  predicate Ahead(st: Wrap, k: nat, u: nat) {
    |st.lines| < k || (|st.lines| == k && st.curW <= u)
  }

  /** White space at the start of a line that is not the first. */
  predicate Drops(st: Wrap, t: Token) {
    t.Space? && st.curW == 0 && |st.lines| > 0
  }

  /** Where a token that fits on a line leaves the wrap. */
  lemma FedCounts(wide: WideRunes, W: nat, st: Wrap, t: Token)
    requires Good(wide, W, st) && TokenWidth(wide, t) <= W
    ensures var w, next := TokenWidth(wide, t), Fed(wide, W, st, t);
            var opens := st.curW + w > W;
            && |next.lines| == |st.lines| + (if opens && !Drops(st, t) then 1 else 0)
            && next.curW == if Drops(st, t) || (opens && t.Space?) then 0 else if opens then w else st.curW + w
  {
    var span := if t.Word? then t.span else Plain(t.text);
    assert span.(text := span.text) == span;
    hide Good;
  }

  /** Another wrap puts t on its open line. */
  lemma AheadKeep(wide: WideRunes, W: nat, st: Wrap, t: Token, k: nat, u: nat)
    requires Good(wide, W, st) && Ahead(st, k, u) && u + TokenWidth(wide, t) <= W
    ensures Ahead(Fed(wide, W, st, t), k, u + TokenWidth(wide, t))
  {
    FedCounts(wide, W, st, t);
  }

  /** Another wrap drops t at the start of a line that is not its first. */
  lemma AheadDrop(wide: WideRunes, W: nat, st: Wrap, t: Token, k: nat)
    requires Good(wide, W, st) && TokenWidth(wide, t) <= W && t.Space?
    requires Ahead(st, k, 0) && k > 0
    ensures Ahead(Fed(wide, W, st, t), k, 0)
  {
    FedCounts(wide, W, st, t);
  }

  lemma {:induction false} AheadRow(wide: WideRunes, W: nat, st: Wrap, row: seq<Token>, k: nat)
    requires Good(wide, W, st) && W >= 2 && AllFit(wide, W, row)
    requires Ahead(st, k, 0) && RowWidth(wide, row) <= W
    ensures var next := FedAll(wide, W, st, row);
            Good(wide, W, next) && Ahead(next, k, RowWidth(wide, row))
  {
    if row != [] {
      var init, last := row[..|row| - 1], row[|row| - 1];
      AheadRow(wide, W, st, init, k);
      var mid := FedAll(wide, W, st, init);
      FedKeeps(wide, W, mid, last);
      AheadKeep(wide, W, mid, last, k, RowWidth(wide, init));
    }
  }

  lemma {:induction false} AheadGap(wide: WideRunes, W: nat, st: Wrap, gap: seq<Token>, k: nat)
    requires Good(wide, W, st) && W >= 2 && AllFit(wide, W, gap) && Spaces(gap)
    requires Ahead(st, k, 0) && (k > 0 || gap == [])
    ensures var next := FedAll(wide, W, st, gap);
            Good(wide, W, next) && Ahead(next, k, 0)
  {
    if gap != [] {
      var init, last := gap[..|gap| - 1], gap[|gap| - 1];
      AheadGap(wide, W, st, init, k);
      var mid := FedAll(wide, W, st, init);
      FedKeeps(wide, W, mid, last);
      AheadDrop(wide, W, mid, last, k);
    }
  }

  lemma {:induction false} AheadRows(wide: WideRunes, W: nat, rows: seq<seq<Token>>, gaps: seq<seq<Token>>)
    requires |rows| == |gaps| && W >= 2
    requires |gaps| > 0 ==> gaps[0] == []
    requires forall i | 0 <= i < |gaps| :: Spaces(gaps[i])
    requires forall i | 0 <= i < |rows| :: RowWidth(wide, rows[i]) <= W
    requires AllFit(wide, W, Interleaved(rows, gaps))
    ensures var st := FedAll(wide, W, START, Interleaved(rows, gaps));
            Good(wide, W, st) && Ahead(st, |rows|, 0)
  {
    var n := |rows|;
    if n == 0 {
      FedAllKeeps(wide, W, []);
    } else {
      var before := Interleaved(rows[..n - 1], gaps[..n - 1]);
      AllFitParts(wide, W, before, gaps[n - 1], rows[n - 1]);
      AheadRows(wide, W, rows[..n - 1], gaps[..n - 1]);
      AheadLastRow(wide, W, before, gaps[n - 1], rows[n - 1], n - 1);
    }
  }

  lemma AllFitParts(wide: WideRunes, W: nat, a: seq<Token>, b: seq<Token>, c: seq<Token>)
    requires AllFit(wide, W, a + b + c)
    ensures AllFit(wide, W, a) && AllFit(wide, W, b) && AllFit(wide, W, c)
  {
    var all := a + b + c;
    assert forall i | 0 <= i < |a| :: a[i] == all[i];
    assert forall i | 0 <= i < |b| :: b[i] == all[|a| + i];
    assert forall i | 0 <= i < |c| :: c[i] == all[|a| + |b| + i];
  }

  lemma AheadLastRow(wide: WideRunes, W: nat, before: seq<Token>, gap: seq<Token>, row: seq<Token>, k: nat)
    requires W >= 2 && AllFit(wide, W, gap) && AllFit(wide, W, row)
    requires Spaces(gap) && (k > 0 || gap == []) && RowWidth(wide, row) <= W
    requires Good(wide, W, FedAll(wide, W, START, before)) && Ahead(FedAll(wide, W, START, before), k, 0)
    ensures var st := FedAll(wide, W, START, before + gap + row);
            Good(wide, W, st) && Ahead(st, k + 1, 0)
  {
    var st := FedAll(wide, W, START, before);
    AheadGap(wide, W, st, gap, k);
    AheadRow(wide, W, FedAll(wide, W, st, gap), row, k);
    FedAllConcat(wide, W, START, before, gap);
    FedAllConcat(wide, W, START, before + gap, row);
  }

  /** No wrap of the same tokens, whatever it breaks at and drops, has fewer lines. */
  lemma FewestLines(wide: WideRunes, availWidth: int, spans: seq<Span>,
                    rows: seq<seq<Token>>, gaps: seq<seq<Token>>, tail: seq<Token>)
    requires AllFit(wide, LineWidthFor(availWidth), AllTokens(spans))
    requires IsWrap(wide, LineWidthFor(availWidth), AllTokens(spans), rows, gaps, tail)
    ensures |Lines(Filled(wide, availWidth, spans))| <= |rows|
  {
    var W := LineWidthFor(availWidth);
    var body := Interleaved(rows, gaps);
    assert body + tail + [] == AllTokens(spans);
    AllFitParts(wide, W, body, tail, []);
    AheadRows(wide, W, rows, gaps);
    AheadGap(wide, W, FedAll(wide, W, START, body), tail, |rows|);
    FedAllConcat(wide, W, START, body, tail);
  }

  // ----- the lines are such a wrap -----

  /** The tokens behind the lines: those on each closed row, those dropped before it, those on the
      open row, and those dropped before that. */
  datatype Trace = Trace(rows: seq<seq<Token>>, gaps: seq<seq<Token>>, cur: seq<Token>, gap: seq<Token>)

  predicate TracksLines(tr: Trace, st: Wrap) {
    && |tr.rows| == |tr.gaps| == |st.lines|
    && (forall i | 0 <= i < |tr.rows| :: TokensMarks(tr.rows[i]) == Marks(st.lines[i]))
    && (forall i | 0 <= i < |tr.gaps| :: Spaces(tr.gaps[i]))
    && (|tr.gaps| > 0 ==> tr.gaps[0] == [])
  }

  predicate Tracks(tr: Trace, st: Wrap, tokens: seq<Token>) {
    && TracksLines(tr, st)
    && TokensMarks(tr.cur) == Marks(st.cur)
    && (tr.cur == [] <==> st.cur == [])
    && Spaces(tr.gap) && (st.lines == [] ==> tr.gap == [])
    && Interleaved(tr.rows, tr.gaps) + tr.gap + tr.cur == tokens
  }

  function FlushedTrace(tr: Trace): Trace {
    Trace(tr.rows + [tr.cur], tr.gaps + [tr.gap], [], [])
  }

  lemma FlushTracks(tr: Trace, st: Wrap, tokens: seq<Token>)
    requires Tracks(tr, st, tokens) && st.cur != [] && |st.lines| == |st.glue|
    ensures Tracks(FlushedTrace(tr), Flushed(st), tokens)
  {
    var next := FlushedTrace(tr);
    assert next.rows[..|tr.rows|] == tr.rows && next.gaps[..|tr.gaps|] == tr.gaps;
    assert Interleaved(next.rows, next.gaps) == Interleaved(tr.rows, tr.gaps) + tr.gap + tr.cur;
    assert Interleaved(next.rows, next.gaps) + [] + [] == tokens;
  }

  lemma AddTracks(tr: Trace, st: Wrap, tokens: seq<Token>, t: Token, span: Span, w: nat)
    requires Tracks(tr, st, tokens) && SpanMarks(span) == TokenMarks(t)
    ensures Tracks(tr.(cur := tr.cur + [t]), Added(st, span, w), tokens + [t])
  {
    JoinedKeeps(st.cur, span);
    TokensMarksConcat(tr.cur, [t]);
    TokensMarksOfOne(t);
    var before := Interleaved(tr.rows, tr.gaps) + tr.gap;
    assert before + (tr.cur + [t]) == before + tr.cur + [t];
  }

  lemma GapTracks(tr: Trace, st: Wrap, tokens: seq<Token>, t: Token, glue: string)
    requires Tracks(tr, st, tokens) && t.Space? && st.cur == [] && st.lines != []
    ensures Tracks(tr.(gap := tr.gap + [t]), st.(curGlue := glue), tokens + [t])
  {
    var before := Interleaved(tr.rows, tr.gaps);
    assert before + (tr.gap + [t]) + [] == before + tr.gap + [] + [t];
  }

  lemma FedTracks(wide: WideRunes, W: nat, tr: Trace, st: Wrap, tokens: seq<Token>, t: Token) returns (next: Trace)
    requires Good(wide, W, st) && Tracks(tr, st, tokens)
    requires ValidToken(t) && 0 < TokenWidth(wide, t) <= W
    ensures Tracks(next, Fed(wide, W, st, t), tokens + [t])
  {
    var span := if t.Word? then t.span else Plain(t.text);
    var w := TokenWidth(wide, t);
    assert span.(text := span.text) == span && SpanMarks(span) == TokenMarks(t);
    assert (st.cur == [] <==> st.curW == 0) && st.curW <= W && |st.lines| == |st.glue|;
    hide TokenMarks;
    hide Good;
    if Drops(st, t) {
      GapTracks(tr, st, tokens, t, st.curGlue + t.text);
      next := tr.(gap := tr.gap + [t]);
      assert Fed(wide, W, st, t) == st.(curGlue := st.curGlue + t.text);
    } else if st.curW + w <= W {
      AddTracks(tr, st, tokens, t, span, w);
      next := tr.(cur := tr.cur + [t]);
      assert Fed(wide, W, st, t) == Added(st, span, w);
    } else {
      FlushTracks(tr, st, tokens);
      var flushed, closed := FlushedTrace(tr), Flushed(st);
      if t.Space? {
        GapTracks(flushed, closed, tokens, t, t.text);
        next := flushed.(gap := flushed.gap + [t]);
        assert Fed(wide, W, st, t) == closed.(curGlue := t.text);
      } else {
        AddTracks(flushed, closed, tokens, t, span, w);
        next := flushed.(cur := flushed.cur + [t]);
        assert Fed(wide, W, st, t) == Added(closed, span, w);
      }
    }
  }

  lemma {:induction false} FedAllTracks(wide: WideRunes, W: nat, tokens: seq<Token>) returns (tr: Trace)
    requires W >= 2 && AllFit(wide, W, tokens)
    requires forall i | 0 <= i < |tokens| :: TokenWidth(wide, tokens[i]) > 0
    ensures Good(wide, W, FedAll(wide, W, START, tokens))
    ensures Tracks(tr, FedAll(wide, W, START, tokens), tokens)
  {
    hide Tracks;
    hide TokensMarks;
    hide Content;
    hide Good;
    hide Fed;
    FedAllKeeps(wide, W, tokens);
    if tokens == [] {
      tr := StartTracks();
    } else {
      var init, last := tokens[..|tokens| - 1], tokens[|tokens| - 1];
      FedAllKeeps(wide, W, init);
      var before := FedAllTracks(wide, W, init);
      assert init + [last] == tokens;
      tr := FedTracks(wide, W, before, FedAll(wide, W, START, init), init, last);
    }
  }

  lemma StartTracks() returns (tr: Trace)
    ensures Tracks(tr, START, [])
  {
    tr := Trace([], [], [], []);
  }

  lemma {:induction false} RowWidthOfMarks(wide: WideRunes, row: seq<Token>)
    ensures RowWidth(wide, row) == StringWidth(wide, Unmark(TokensMarks(row)))
  {
    if row != [] {
      var init, last := row[..|row| - 1], row[|row| - 1];
      RowWidthOfMarks(wide, init);
      hide StringWidth;
      assert Unmark(TokenMarks(last)) == TokenText(last);
      assert Unmark(TokensMarks(row)) == Unmark(TokensMarks(init)) + TokenText(last);
      WidthConcat(wide, Unmark(TokensMarks(init)), TokenText(last));
    }
  }

  /** The wrap's own lines are a wrap of the tokens, so the least count is reached. */
  lemma LinesAreAWrap(wide: WideRunes, availWidth: int, spans: seq<Span>)
    returns (rows: seq<seq<Token>>, gaps: seq<seq<Token>>, tail: seq<Token>)
    requires AllFit(wide, LineWidthFor(availWidth), AllTokens(spans))
    requires forall i | 0 <= i < |AllTokens(spans)| :: TokenText(AllTokens(spans)[i]) != ""
    ensures IsWrap(wide, LineWidthFor(availWidth), AllTokens(spans), rows, gaps, tail)
    ensures |rows| == |Lines(Filled(wide, availWidth, spans))|
    ensures forall i | 0 <= i < |rows| :: TokensMarks(rows[i]) == Marks(Lines(Filled(wide, availWidth, spans))[i])
  {
    var W, tokens := LineWidthFor(availWidth), AllTokens(spans);
    var st := Filled(wide, availWidth, spans);
    forall i | 0 <= i < |tokens| ensures TokenWidth(wide, tokens[i]) > 0 {
      WidthBounds(wide, TokenText(tokens[i]));
    }
    var tr := FedAllTracks(wide, W, tokens);
    FlushedKeeps(wide, W, st);
    if st.cur != [] {
      FlushTracks(tr, st, tokens);
      tr := FlushedTrace(tr);
      st := Flushed(st);
    }
    assert Good(wide, W, st) && Tracks(tr, st, tokens) && st.cur == [];
    rows, gaps, tail := ClosedTrace(wide, W, tr, st, tokens);
    if st.lines == [] {
      MarksOfOne(Plain(""));
    }
  }

  lemma ClosedTrace(wide: WideRunes, W: nat, tr: Trace, st: Wrap, tokens: seq<Token>)
    returns (rows: seq<seq<Token>>, gaps: seq<seq<Token>>, tail: seq<Token>)
    requires Good(wide, W, st) && Tracks(tr, st, tokens) && st.cur == []
    ensures IsWrap(wide, W, tokens, rows, gaps, tail)
    ensures st.lines == [] ==> rows == [[]]
    ensures st.lines != [] ==> rows == tr.rows
  {
    rows, gaps, tail := tr.rows, tr.gaps, tr.gap;
    assert Interleaved(rows, gaps) + tail + [] == Interleaved(rows, gaps) + tail;
    if rows == [] {
      rows, gaps := [[]], [[]];
      assert rows[..0] == [] && gaps[..0] == [];
    } else {
      forall i | 0 <= i < |rows| ensures RowWidth(wide, rows[i]) <= W {
        RowWidthOfMarks(wide, rows[i]);
        MarksSpellText(st.lines[i]);
        assert GoodLine(wide, W, st.lines[i]);
      }
    }
  }
}
