/** Selecting a whole message with the mouse gives its text back. */
module CopyRoundTrip {
  import opened Cells
  import opened ChatSpans
  import opened ChatWrap
  import opened WrapLossless
  import opened ChatRows
  import opened ParagraphTexts

  // ----- what a row hands over -----

  function Runes(chars: seq<RenderedChar>): (s: string)
    ensures |s| == |chars|
  {
    seq(|chars|, i requires 0 <= i < |chars| => chars[i].r)
  }

  lemma {:induction false} PlacedWithin(wide: WideRunes, s: string, x: int)
    ensures var chars := PlaceRunes(wide, s, x);
            && Runes(chars) == s
            && forall i | 0 <= i < |chars| :: x <= chars[i].x < x + StringWidth(wide, s)
  {
    if s != "" {
      var x1 := x + RuneWidth(wide, s[0]);
      PlacedWithin(wide, s[1..], x1);
      var chars, rest := PlaceRunes(wide, s, x), PlaceRunes(wide, s[1..], x1);
      forall i | 0 <= i < |chars| ensures chars[i].r == s[i] && x <= chars[i].x < x + StringWidth(wide, s) {
        if i > 0 {
          assert chars[i] == rest[i - 1];
          assert Runes(rest)[i - 1] == s[1..][i - 1];
        }
      }
    }
  }

  lemma {:induction false} PlacedConcat(wide: WideRunes, a: string, b: string, x: int)
    ensures PlaceRunes(wide, a + b, x) == PlaceRunes(wide, a, x) + PlaceRunes(wide, b, x + StringWidth(wide, a))
  {
    if a == "" {
      assert a + b == b;
    } else {
      assert (a + b)[1..] == a[1..] + b;
      var x1 := x + RuneWidth(wide, a[0]);
      PlacedConcat(wide, a[1..], b, x1);
      var first, more, last := [RenderedChar(x, a[0])], PlaceRunes(wide, a[1..], x1), PlaceRunes(wide, b, x + StringWidth(wide, a));
      assert first + (more + last) == first + more + last;
    }
  }

  lemma {:induction false} TextCons(first: Span, rest: seq<Span>)
    ensures Text([first] + rest) == first.text + Text(rest)
  {
    var all := [first] + rest;
    if rest == [] {
      TextOfOne(first);
      assert all == [first];
    } else {
      var init, last := rest[..|rest| - 1], rest[|rest| - 1];
      assert all[..|all| - 1] == [first] + init;
      TextCons(first, init);
      assert first.text + Text(init) + last.text == first.text + (Text(init) + last.text);
    }
  }

  /** A line that fits is drawn whole. */
  lemma {:induction false} DrawnWhole(wide: WideRunes, spans: seq<Span>, x: int, endX: int)
    requires x + StringWidth(wide, Text(spans)) <= endX
    ensures SpanRunes(wide, spans, x, endX) == PlaceRunes(wide, Text(spans), x)
  {
    if spans != [] {
      var s, rest := spans[0].text, spans[1..];
      assert spans == [spans[0]] + rest;
      TextCons(spans[0], rest);
      WidthConcat(wide, s, Text(rest));
      WidthBounds(wide, Text(spans));
      if x < endX {
        hide *;
        OneDrawn(wide, spans[0], rest, x, endX);
        DrawnWhole(wide, rest, x + StringWidth(wide, s), endX);
        PlacedConcat(wide, s, Text(rest), x);
      } else {
        assert Text(spans) == "";
      }
    }
  }

  lemma OneDrawn(wide: WideRunes, first: Span, rest: seq<Span>, x: int, endX: int)
    requires x + StringWidth(wide, first.text) <= endX && x < endX
    ensures SpanRunes(wide, [first] + rest, x, endX)
         == PlaceRunes(wide, first.text, x) + SpanRunes(wide, rest, x + StringWidth(wide, first.text), endX)
  {
    hide StringWidth;
    hide PlaceRunes;
    hide Clipped;
    ClippedWhole(wide, first.text, x, endX);
    assert ([first] + rest)[1..] == rest;
  }

  lemma ClippedWhole(wide: WideRunes, s: string, x: int, endX: int)
    requires x + StringWidth(wide, s) <= endX && x < endX
    ensures Clipped(wide, s, x, endX) == s
  {
    FitCountIsLongest(wide, s, endX - x);
    assert s[..|s|] == s;
    hide StringWidth;
    hide FitCount;
  }

  lemma {:induction false} PickedConcat(a: seq<RenderedChar>, b: seq<RenderedChar>, y: int, sel: Selection)
    ensures Picked(a + b, y, sel) == Picked(a, y, sel) + Picked(b, y, sel)
  {
    var ab := a + b;
    if b == [] {
      assert ab == a;
    } else {
      var init, last := b[..|b| - 1], b[|b| - 1];
      assert ab[..|ab| - 1] == a + init && ab[|ab| - 1] == last;
      PickedConcat(a, init, y, sel);
      var one := if Selects(sel, last.x, y) then [last.r] else "";
      assert Picked(a, y, sel) + (Picked(init, y, sel) + one) == Picked(a, y, sel) + Picked(init, y, sel) + one;
    }
  }

  lemma {:induction false} AllPicked(chars: seq<RenderedChar>, y: int, sel: Selection)
    requires forall i | 0 <= i < |chars| :: Selects(sel, chars[i].x, y)
    ensures Picked(chars, y, sel) == Runes(chars)
  {
    if chars != [] {
      AllPicked(chars[..|chars| - 1], y, sel);
      assert Runes(chars) == Runes(chars[..|chars| - 1]) + [chars[|chars| - 1].r];
    }
  }

  // ----- the rows of a message -----

  /** Where the text of the message begins. */
  function TextX(wide: WideRunes, head: Head, x0: int): int {
    x0 + BadgeLen(wide, head)
  }

  /** A drag from the first cell of the text, on row y0, to a cell of row y1 no earlier than endX,
      or the other way. */
  predicate Covers(sel: Selection, textX: int, y0: int, endX: int, y1: int) {
    && textX <= endX && y0 <= y1
    && (sel == Selection(textX, y0, endX, y1) || sel == Selection(endX, y1, textX, y0))
  }

  /** No character of row comes after column endX. */
  predicate EndsBy(row: RenderedLine, endX: int) {
    forall i | 0 <= i < |row.chars| :: row.chars[i].x <= endX
  }

  /** line stands where a line of this message stands: the opening one after its time and sender,
      the others indented as far; and its text fits before column right. */
  predicate IsLineOf(wide: WideRunes, head: Head, line: DisplayLine, opening: bool, room: int) {
    && line.timestamp == (if opening then head.timestamp else Indent(BadgeLen(wide, head)))
    && line.badge == (if opening then head.badge else "")
    && StringWidth(wide, Text(line.spans)) <= room
  }

  lemma {:induction false} IndentWidth(wide: WideRunes, n: nat)
    requires ' ' !in wide
    ensures StringWidth(wide, Indent(n)) == n && AllSpace(Indent(n))
  {
    if n > 0 {
      IndentWidth(wide, n - 1);
      assert Indent(n)[1..] == Indent(n - 1);
    }
  }

  /** The characters before the text of a row, and those of the text. */
  lemma RowParts(wide: WideRunes, head: Head, line: DisplayLine, opening: bool, x0: int, right: int, y: int)
    returns (before: seq<RenderedChar>)
    requires ' ' !in wide && IsLineOf(wide, head, line, opening, right - TextX(wide, head, x0))
    ensures RowOf(wide, line, x0, right, y).chars == before + PlaceRunes(wide, Text(line.spans), TextX(wide, head, x0))
    ensures forall i | 0 <= i < |before| :: before[i].x < TextX(wide, head, x0)
    ensures !opening ==> before == []
  {
    hide StringWidth;
    hide AllSpace;
    hide PlaceRunes;
    hide SpanRunes;
    hide Indent;
    NoWidth(wide);
    var textX := TextX(wide, head, x0);
    IndentWidth(wide, BadgeLen(wide, head));
    DrawnWhole(wide, line.spans, textX, right);
    var x1 := x0 + StringWidth(wide, line.timestamp);
    var stamp := if AllSpace(line.timestamp) then [] else PlaceRunes(wide, line.timestamp, x0);
    var badge := PlaceRunes(wide, line.badge, x1);
    PlacedWithin(wide, line.timestamp, x0);
    PlacedWithin(wide, line.badge, x1);
    before := stamp + badge;
    assert !opening ==> badge == [] && stamp == [];
    forall i | 0 <= i < |before| ensures before[i].x < textX {
      if i >= |stamp| {
        assert before[i] == badge[i - |stamp|];
      }
    }
  }

  /** A row of the message hands over its text, all of it and no more. */
  lemma RowPicked(wide: WideRunes, head: Head, line: DisplayLine, opening: bool, x0: int, right: int, y: int,
                  sel: Selection, y0: int, endX: int, y1: int)
    requires ' ' !in wide && IsLineOf(wide, head, line, opening, right - TextX(wide, head, x0))
    requires Covers(sel, TextX(wide, head, x0), y0, endX, y1) && y0 <= y <= y1
    requires opening <==> y == y0
    requires y == y1 ==> EndsBy(RowOf(wide, line, x0, right, y), endX)
    ensures var row := RowOf(wide, line, x0, right, y);
            && Picked(row.chars, y, sel) == Text(line.spans)
            && row.rowY == y && row.isContinuation == line.isContinuation && row.glue == line.glue
  {
    var textX := TextX(wide, head, x0);
    var before := RowParts(wide, head, line, opening, x0, right, y);
    var text := PlaceRunes(wide, Text(line.spans), textX);
    PlacedWithin(wide, Text(line.spans), textX);
    NothingPicked(before, y, sel);
    forall i | 0 <= i < |text| ensures Selects(sel, text[i].x, y) {
      assert RowOf(wide, line, x0, right, y).chars[|before| + i] == text[i];
    }
    AllPicked(text, y, sel);
    PickedConcat(before, text, y, sel);
  }

  /** The text of lines, as the rows of one copy. */
  function Copied(lines: seq<DisplayLine>): Copy {
    var n := |lines|;
    if n == 0 then Copy("", true)
    else Appended(Copied(lines[..n - 1]), Text(lines[n - 1].spans), lines[n - 1].isContinuation, lines[n - 1].glue)
  }

  /** The rows of a message with others above and below, and a selection that covers just them. */
  predicate ShowsMessage(wide: WideRunes, head: Head, lines: seq<DisplayLine>, x0: int, right: int, y0: int,
                         above: seq<RenderedLine>, below: seq<RenderedLine>, sel: Selection, endX: int) {
    && ' ' !in wide && lines != []
    && (forall i | 0 <= i < |lines| :: IsLineOf(wide, head, lines[i], i == 0, right - TextX(wide, head, x0)))
    && (forall i | 0 <= i < |above| :: above[i].rowY < y0)
    && (forall i | 0 <= i < |below| :: below[i].rowY >= y0 + |lines|)
    && Covers(sel, TextX(wide, head, x0), y0, endX, y0 + |lines| - 1)
    && EndsBy(RowOf(wide, lines[|lines| - 1], x0, right, y0 + |lines| - 1), endX)
  }

  lemma {:induction false} OutsideNotExtracted(rows: seq<RenderedLine>, more: seq<RenderedLine>, sel: Selection)
    requires forall i | 0 <= i < |more| :: Picked(more[i].chars, more[i].rowY, sel) == ""
    ensures Extracted(rows + more, sel) == Extracted(rows, sel)
  {
    var all := rows + more;
    if more == [] {
      assert all == rows;
    } else {
      assert all[..|all| - 1] == rows + more[..|more| - 1];
      OutsideNotExtracted(rows, more[..|more| - 1], sel);
    }
  }

  lemma LinePicked(wide: WideRunes, head: Head, lines: seq<DisplayLine>, x0: int, right: int, y0: int,
                   above: seq<RenderedLine>, sel: Selection, endX: int, i: nat)
    requires ShowsMessage(wide, head, lines, x0, right, y0, above, [], sel, endX) && i < |lines|
    ensures var row := RowOf(wide, lines[i], x0, right, y0 + i);
            && Picked(row.chars, row.rowY, sel) == Text(lines[i].spans)
            && row.isContinuation == lines[i].isContinuation && row.glue == lines[i].glue
  {
    hide IsLineOf;
    hide RowOf;
    hide EndsBy;
    hide Covers;
    assert Covers(sel, TextX(wide, head, x0), y0, endX, y0 + |lines| - 1);
    RowPicked(wide, head, lines[i], i == 0, x0, right, y0 + i, sel, y0, endX, y0 + |lines| - 1);
  }

  lemma AboveNotExtracted(wide: WideRunes, head: Head, lines: seq<DisplayLine>, x0: int, right: int, y0: int,
                          above: seq<RenderedLine>, sel: Selection, endX: int)
    requires ShowsMessage(wide, head, lines, x0, right, y0, above, [], sel, endX)
    ensures Extracted(above, sel) == Copy("", true)
  {
    forall i | 0 <= i < |above| ensures Picked(above[i].chars, above[i].rowY, sel) == "" {
      NothingPicked(above[i].chars, above[i].rowY, sel);
    }
    OutsideNotExtracted([], above, sel);
    assert [] + above == above;
  }

  lemma {:induction false} RowsExtracted(wide: WideRunes, head: Head, lines: seq<DisplayLine>, x0: int, right: int, y0: int,
                                         above: seq<RenderedLine>, sel: Selection, endX: int, n: nat)
    requires ShowsMessage(wide, head, lines, x0, right, y0, above, [], sel, endX) && n <= |lines|
    ensures Extracted(above + RowsOf(wide, lines, x0, right, y0)[..n], sel) == Copied(lines[..n])
  {
    hide ShowsMessage;
    hide RowOf;
    hide Picked;
    hide Text;
    var rows := RowsOf(wide, lines, x0, right, y0);
    var upTo := above + rows[..n];
    if n == 0 {
      AboveNotExtracted(wide, head, lines, x0, right, y0, above, sel, endX);
      assert upTo == above;
    } else {
      RowsExtracted(wide, head, lines, x0, right, y0, above, sel, endX, n - 1);
      LinePicked(wide, head, lines, x0, right, y0, above, sel, endX, n - 1);
      assert upTo[..|upTo| - 1] == above + rows[..n - 1];
      assert upTo[|upTo| - 1] == RowOf(wide, lines[n - 1], x0, right, y0 + (n - 1));
      assert lines[..n][..n - 1] == lines[..n - 1] && lines[..n][n - 1] == lines[n - 1];
    }
  }

  /** Whatever else is on the screen, the selection copies the lines it covers. */
  lemma MessageExtracted(wide: WideRunes, head: Head, lines: seq<DisplayLine>, x0: int, right: int, y0: int,
                         above: seq<RenderedLine>, below: seq<RenderedLine>, sel: Selection, endX: int)
    requires ShowsMessage(wide, head, lines, x0, right, y0, above, below, sel, endX)
    ensures Extracted(above + RowsOf(wide, lines, x0, right, y0) + below, sel) == Copied(lines)
  {
    var rows := RowsOf(wide, lines, x0, right, y0);
    forall i | 0 <= i < |below| ensures Picked(below[i].chars, below[i].rowY, sel) == "" {
      NothingPicked(below[i].chars, below[i].rowY, sel);
    }
    hide Covers;
    hide EndsBy;
    hide IsLineOf;
    hide Picked;
    assert ShowsMessage(wide, head, lines, x0, right, y0, above, [], sel, endX);
    RowsExtracted(wide, head, lines, x0, right, y0, above, sel, endX, |lines|);
    assert rows[..|lines|] == rows && lines[..|lines|] == lines;
    OutsideNotExtracted(above + rows, below, sel);
  }
}
