/** A message of more than twelve lines: what is shown of it, and what dragging over that copies. */
module LongMessages {
  import opened Cells
  import opened ChatSpans
  import opened ChatWrap
  import opened ChatRows
  import opened ParagraphTexts
  import opened CopyRoundTrip
  import opened MessageRoundTrip

  /** A message of up to twelve lines is shown whole; of a longer one the first twelve lines are, and a note. */
  lemma ShownIs(all: seq<DisplayLine>, note: DisplayLine)
    ensures var shown := ShownLines(all, note);
            if |all| <= 12 then shown == all
            else |shown| == 13 && shown[12] == note && forall i | 0 <= i < 12 :: shown[i] == all[i]
  {
  }

  /** The message is cut short, with ten columns or more beside its sender. */
  predicate CutShort(v: View) {
    && ' ' !in v.wide
    && v.head.maxW == v.innerWidth - 2 && v.head.maxW - BadgeLen(v.wide, v.head) >= 10
    && |v.Lines()| > 12
  }

  /** The selection runs over the twelve lines and not over the note. */
  predicate DraggedTwelve(v: View, sel: Selection, endX: int) {
    && |v.Rows()| == 13 && EndsBy(v.Rows()[11], endX)
    && Covers(sel, TextX(v.wide, v.head, v.innerX + 1), v.y0, endX, v.y0 + 11)
  }

  lemma RowsSplit(wide: WideRunes, lines: seq<DisplayLine>, note: DisplayLine, x0: int, right: int, y0: int)
    ensures RowsOf(wide, lines + [note], x0, right, y0)
         == RowsOf(wide, lines, x0, right, y0) + [RowOf(wide, note, x0, right, y0 + |lines|)]
  {
    hide RowOf;
  }

  lemma RowIsAt(wide: WideRunes, line: DisplayLine, x0: int, right: int, y: int)
    ensures RowOf(wide, line, x0, right, y).rowY == y
  {
    hide PlaceRunes;
    hide SpanRunes;
    hide StringWidth;
  }

  lemma {:induction false} CopiedGrows(lines: seq<DisplayLine>, n: nat)
    requires n <= |lines|
    ensures Copied(lines[..n]).text <= Copied(lines).text
  {
    if n == |lines| {
      assert lines[..n] == lines;
    } else {
      var init := lines[..|lines| - 1];
      assert init[..n] == lines[..n];
      CopiedGrows(init, n);
      AppendedGrows(Copied(init), lines[|lines| - 1]);
      hide Appended;
    }
  }

  lemma AppendedGrows(c: Copy, line: DisplayLine)
    ensures c.text <= Appended(c, Text(line.spans), line.isContinuation, line.glue).text
  {
    hide Text;
  }

  lemma TwelveShown(v: View, above: seq<RenderedLine>, below: seq<RenderedLine>, sel: Selection, endX: int)
    requires CutShort(v) && DraggedTwelve(v, sel, endX)
    requires (forall i | 0 <= i < |above| :: above[i].rowY < v.y0) && forall i | 0 <= i < |below| :: below[i].rowY >= v.y0 + 12
    requires EndsBy(RowOf(v.wide, v.Lines()[11], v.innerX + 1, v.innerX + v.innerWidth - 1, v.y0 + 11), endX)
    ensures ShowsMessage(v.wide, v.head, v.Lines()[..12], v.innerX + 1, v.innerX + v.innerWidth - 1, v.y0, above, below, sel, endX)
  {
    hide AllLines;
    hide Paragraphs;
    hide IsLineOf;
    hide Covers;
    hide EndsBy;
    hide RowOf;
    TwelveStand(v);
    assert v.y0 + |v.Lines()[..12]| - 1 == v.y0 + 11;
  }

  lemma TwelveStand(v: View)
    requires CutShort(v)
    ensures var x0, right := v.innerX + 1, v.innerX + v.innerWidth - 1;
            forall i | 0 <= i < 12 ::
              IsLineOf(v.wide, v.head, v.Lines()[..12][i], i == 0, right - TextX(v.wide, v.head, x0))
  {
    hide AllLines;
    hide Paragraphs;
    hide IsLineOf;
    var x0, right := v.innerX + 1, v.innerX + v.innerWidth - 1;
    assert Avail(v.wide, v.head) == right - TextX(v.wide, v.head, x0);
    forall i | 0 <= i < 12
      ensures IsLineOf(v.wide, v.head, v.Lines()[..12][i], i == 0, right - TextX(v.wide, v.head, x0))
    {
      AllLinesStand(v.wide, v.head, Paragraphs(v.spans), i);
    }
  }

  lemma TwelveRows(v: View)
    requires |v.Lines()| > 12
    ensures var x0, right := v.innerX + 1, v.innerX + v.innerWidth - 1;
            var note := RowOf(v.wide, v.note, x0, right, v.y0 + 12);
            && v.Rows() == RowsOf(v.wide, v.Lines()[..12], x0, right, v.y0) + [note]
            && v.Rows()[11] == RowOf(v.wide, v.Lines()[11], x0, right, v.y0 + 11)
            && note.rowY == v.y0 + 12
  {
    hide AllLines;
    hide Paragraphs;
    var x0, right := v.innerX + 1, v.innerX + v.innerWidth - 1;
    assert ShownLines(v.Lines(), v.note) == v.Lines()[..12] + [v.note];
    RowsSplit(v.wide, v.Lines()[..12], v.note, x0, right, v.y0);
    RowIsAt(v.wide, v.note, x0, right, v.y0 + 12);
    hide RowOf;
  }

  lemma CopyOfAll(v: View)
    ensures Copied(v.Lines()).text == Join(NonBlank(v.Kept()))
  {
    hide *;
    ViewParts(v);
    AllCopied(v.wide, v.head, Paragraphs(v.spans));
    TextOfCopy(v.Kept());
  }

  /** Dragging over the twelve lines shown of a longer message copies them, as far as they go in what copying all of
      it would give; nothing of the note, nor of the rows above and below. */
  lemma LongMessageCopied(v: View, above: seq<RenderedLine>, below: seq<RenderedLine>, sel: Selection, endX: int)
    requires CutShort(v) && DraggedTwelve(v, sel, endX)
    requires (forall i | 0 <= i < |above| :: above[i].rowY < v.y0) && forall i | 0 <= i < |below| :: below[i].rowY >= v.y0 + 13
    ensures Extracted(above + v.Rows() + below, sel) == Copied(v.Lines()[..12])
    ensures Extracted(above + v.Rows() + below, sel).text <= Join(NonBlank(v.Kept()))
  {
    hide *;
    IsDragged(v, sel, endX);
    var x0, right := v.innerX + 1, v.innerX + v.innerWidth - 1;
    var rows, note := RowsOf(v.wide, v.Lines()[..12], x0, right, v.y0), RowOf(v.wide, v.note, x0, right, v.y0 + 12);
    TwelveRows(v);
    var under := NoteUnder(above, rows, note, below, v.y0);
    TwelveShown(v, above, under, sel, endX);
    MessageExtracted(v.wide, v.head, v.Lines()[..12], x0, right, v.y0, above, under, sel, endX);
    CopiedGrows(v.Lines(), 12);
    CopyOfAll(v);
  }

  lemma NoteUnder(above: seq<RenderedLine>, rows: seq<RenderedLine>, note: RenderedLine, below: seq<RenderedLine>, y0: int)
    returns (under: seq<RenderedLine>)
    requires note.rowY == y0 + 12 && forall i | 0 <= i < |below| :: below[i].rowY >= y0 + 13
    ensures above + (rows + [note]) + below == above + rows + under
    ensures forall i | 0 <= i < |under| :: under[i].rowY >= y0 + 12
  {
    under := [note] + below;
  }

  lemma IsDragged(v: View, sel: Selection, endX: int)
    requires CutShort(v) && DraggedTwelve(v, sel, endX)
    ensures EndsBy(v.Rows()[11], endX) && |v.Lines()| > 12
  {
    hide AllLines;
    hide RowOf;
    hide Paragraphs;
  }
}
