/** From a message to the rows of characters on the screen, and from a selection of cells back to text. */
module ChatRows {
  import opened Cells
  import opened ChatSpans
  import opened ChatWrap
  import opened WrapLossless

  /** How many lines of a message are shown; a longer one ends in a note. */
  const MAX_SHOWN := 12

  /** How a tab is shown. */
  const CHAT_TAB := "    "

  // ----- strings.ReplaceAll and strings.Split -----

  function Untab(s: string): string {
    if s == "" then "" else (if s[0] == '\t' then CHAT_TAB else [s[0]]) + Untab(s[1..])
  }

  function Split(s: string): (parts: seq<string>)
    ensures |parts| > 0
  {
    if s == "" then [""]
    else if s[0] == '\n' then [""] + Split(s[1..])
    else [[s[0]] + Split(s[1..])[0]] + Split(s[1..])[1..]
  }

  // ----- paragraphs -----

  /** The paragraphs ended so far, and the one being filled. */
  datatype Paras = Paras(ended: seq<seq<Span>>, cur: seq<Span>)

  function PartFed(ps: Paras, span: Span, parts: seq<string>, i: nat): Paras
    requires i < |parts|
  {
    var next := if i > 0 then Paras(ps.ended + [ps.cur], []) else ps;
    if parts[i] != "" || |parts| == 1 then next.(cur := next.cur + [span.(text := parts[i])]) else next
  }

  function PartsFed(ps: Paras, span: Span, parts: seq<string>, n: nat): Paras
    requires n <= |parts|
  {
    if n == 0 then ps else PartFed(PartsFed(ps, span, parts, n - 1), span, parts, n - 1)
  }

  function SpanFed(ps: Paras, span: Span): Paras {
    var parts := Split(Untab(span.text));
    PartsFed(ps, span, parts, |parts|)
  }

  function SpansFed(spans: seq<Span>): Paras {
    if spans == [] then Paras([], []) else SpanFed(SpansFed(spans[..|spans| - 1]), spans[|spans| - 1])
  }

  function Paragraphs(spans: seq<Span>): (paras: seq<seq<Span>>)
    ensures |paras| > 0
  {
    var ps := SpansFed(spans);
    if |ps.cur| > 0 || |ps.ended| == 0 then ps.ended + [ps.cur] else ps.ended
  }

  method CutParagraphs(spans: seq<Span>) returns (paragraphs: seq<seq<Span>>)
    ensures paragraphs == Paragraphs(spans)
  {
    paragraphs := [];
    var curPara: seq<Span> := [];
    for i := 0 to |spans|
      invariant Paras(paragraphs, curPara) == SpansFed(spans[..i])
    {
      var span := spans[i];
      var parts := Split(Untab(span.text));
      ghost var start := Paras(paragraphs, curPara);
      for pIdx := 0 to |parts|
        invariant Paras(paragraphs, curPara) == PartsFed(start, span, parts, pIdx)
      {
        var part := parts[pIdx];
        if pIdx > 0 {
          paragraphs := paragraphs + [curPara];
          curPara := [];
        }
        if part != "" || |parts| == 1 {
          curPara := curPara + [span.(text := part)];
        }
      }
      assert spans[..i + 1][..i] == spans[..i];
    }
    assert spans[..|spans|] == spans;
    if |curPara| > 0 || |paragraphs| == 0 {
      paragraphs := paragraphs + [curPara];
    }
  }

  // ----- display lines -----

  /** One line of the chat: what stands before the text, the text, and how it joins the line above. */
  datatype DisplayLine = DisplayLine(timestamp: string, badge: string, spans: seq<Span>, isContinuation: bool, glue: string)

  /** How a message is headed: its time, its sender, and the width given to it. */
  datatype Head = Head(timestamp: string, badge: string, maxW: int)

  function BadgeLen(wide: WideRunes, head: Head): nat {
    StringWidth(wide, head.timestamp) + StringWidth(wide, head.badge)
  }

  function Avail(wide: WideRunes, head: Head): int {
    if head.maxW - BadgeLen(wide, head) < 10 then 10 else head.maxW - BadgeLen(wide, head)
  }

  function Indent(n: nat): string {
    seq(n, _ => ' ')
  }

  /** Line i of a paragraph; the first line of the message carries the time and the sender. */
  function LineOf(wide: WideRunes, head: Head, st: Wrap, opening: bool, i: nat): DisplayLine
    requires i < |Lines(st)| && i < |Glue(st)|
  {
    if opening && i == 0 then DisplayLine(head.timestamp, head.badge, Lines(st)[0], false, "")
    else DisplayLine(Indent(BadgeLen(wide, head)), "", Lines(st)[i], i > 0, Glue(st)[i])
  }

  function ParaLines(wide: WideRunes, head: Head, para: seq<Span>, opening: bool, n: nat): (ls: seq<DisplayLine>)
    requires var st := Filled(wide, Avail(wide, head), para); n <= |Lines(st)| && n <= |Glue(st)|
    ensures |ls| == n
  {
    if n == 0 then []
    else ParaLines(wide, head, para, opening, n - 1) + [LineOf(wide, head, Filled(wide, Avail(wide, head), para), opening, n - 1)]
  }

  function WholePara(wide: WideRunes, head: Head, para: seq<Span>, opening: bool): seq<DisplayLine> {
    WrapLosesNothing(wide, Avail(wide, head), para);
    ParaLines(wide, head, para, opening, |Lines(Filled(wide, Avail(wide, head), para))|)
  }

  /** All the lines of a message, however many. */
  function AllLines(wide: WideRunes, head: Head, paras: seq<seq<Span>>): seq<DisplayLine> {
    var n := |paras|;
    if n == 0 then [] else AllLines(wide, head, paras[..n - 1]) + WholePara(wide, head, paras[n - 1], n == 1)
  }

  /** The lines shown: all of them, or the first few and a note. */
  function ShownLines(all: seq<DisplayLine>, note: DisplayLine): seq<DisplayLine> {
    if |all| > MAX_SHOWN then all[..MAX_SHOWN] + [note] else all
  }

  lemma {:induction false} AllLinesPrefix(wide: WideRunes, head: Head, paras: seq<seq<Span>>, n: nat)
    requires n <= |paras|
    ensures AllLines(wide, head, paras[..n]) <= AllLines(wide, head, paras)
  {
    if n < |paras| {
      var init := paras[..|paras| - 1];
      assert init[..n] == paras[..n];
      AllLinesPrefix(wide, head, init, n);
    } else {
      assert paras[..n] == paras;
    }
  }

  lemma {:induction false} ParaLinesPrefix(wide: WideRunes, head: Head, para: seq<Span>, opening: bool, n: nat, m: nat)
    requires var st := Filled(wide, Avail(wide, head), para); n <= m <= |Lines(st)| && m <= |Glue(st)|
    ensures ParaLines(wide, head, para, opening, n) <= ParaLines(wide, head, para, opening, m)
  {
    hide Filled;
    hide Lines;
    hide Glue;
    hide LineOf;
    if n < m {
      ParaLinesPrefix(wide, head, para, opening, n, m - 1);
    }
  }

  lemma PrefixAfter<T>(start: seq<T>, a: seq<T>, b: seq<T>)
    requires a <= b
    ensures start + a <= start + b
  {
  }

  lemma LinesPush(start: seq<DisplayLine>, lines: seq<DisplayLine>, line: DisplayLine)
    ensures start + lines + [line] == start + (lines + [line])
  {
  }

  lemma NoParagraphs(wide: WideRunes, head: Head)
    ensures AllLines(wide, head, []) == []
  {
  }

  lemma OneMoreParagraph(wide: WideRunes, head: Head, paras: seq<seq<Span>>, p: nat)
    requires p < |paras|
    ensures AllLines(wide, head, paras[..p + 1]) == AllLines(wide, head, paras[..p]) + WholePara(wide, head, paras[p], p == 0)
    ensures AllLines(wide, head, paras[..p + 1]) <= AllLines(wide, head, paras)
  {
    hide WholePara;
    assert paras[..p + 1][..p] == paras[..p];
    AllLinesPrefix(wide, head, paras, p + 1);
  }

  /** The lines of one chat message; note is the line shown under one cut short. It stops wrapping
      as soon as the rest cannot be shown, which changes nothing. */
  method MessageDisplayLines(wide: WideRunes, head: Head, spans: seq<Span>, note: DisplayLine)
    returns (lines: seq<DisplayLine>)
    ensures lines == ShownLines(AllLines(wide, head, Paragraphs(spans)), note)
  {
    hide Filled;
    hide WholePara;
    hide Paragraphs;
    hide Lines;
    hide Glue;
    hide Indent;
    hide AllLines;
    NoParagraphs(wide, head);
    var badgeLen := StringWidth(wide, head.timestamp) + StringWidth(wide, head.badge);
    var availFirst := head.maxW - badgeLen;
    if availFirst < 10 {
      availFirst := 10;
    }
    var indentSpaces := Indent(badgeLen);
    var paragraphs := CutParagraphs(spans);
    ghost var all := AllLines(wide, head, paragraphs);

    lines := [];
    var firstLineOverall := true;
    var p := 0;
    while p < |paragraphs| && |lines| <= MAX_SHOWN
      invariant p <= |paragraphs| && lines <= all
      invariant |lines| <= MAX_SHOWN ==> lines == AllLines(wide, head, paragraphs[..p])
      invariant |lines| <= MAX_SHOWN + 1
      invariant firstLineOverall == (p == 0)
      decreases |paragraphs| - p
    {
      var para := paragraphs[p];
      ghost var start := lines;
      OneMoreParagraph(wide, head, paragraphs, p);
      assert start + WholePara(wide, head, para, p == 0) <= all;
      var wrappedLines, glue := WrapSpansToLines(wide, para, availFirst);
      lines := WrappedParaLines(wide, head, para, wrappedLines, glue, indentSpaces, firstLineOverall, lines);
      firstLineOverall := false;
      p := p + 1;
    }
    assert paragraphs[..|paragraphs|] == paragraphs;
    if |lines| > MAX_SHOWN {
      lines := lines[..MAX_SHOWN] + [note];
    }
  }

  /** The inner loop of MessageDisplayLines: the lines of one paragraph, until there are too many. */
  method WrappedParaLines(wide: WideRunes, head: Head, para: seq<Span>, wrappedLines: seq<seq<Span>>, glue: seq<string>,
                          indentSpaces: string, opening: bool, start: seq<DisplayLine>)
    returns (lines: seq<DisplayLine>)
    requires |start| <= MAX_SHOWN
    requires wrappedLines == Lines(Filled(wide, Avail(wide, head), para))
    requires glue == Glue(Filled(wide, Avail(wide, head), para))
    requires indentSpaces == Indent(BadgeLen(wide, head))
    ensures var whole := start + WholePara(wide, head, para, opening);
            lines <= whole && if |whole| <= MAX_SHOWN then lines == whole else |lines| == MAX_SHOWN + 1
  {
    hide Filled;
    hide Lines;
    hide Glue;
    hide Indent;
    hide Avail;
    hide BadgeLen;
    WrapLosesNothing(wide, Avail(wide, head), para);
    lines := start;
    ghost var n := |wrappedLines|;
    ghost var whole := WholePara(wide, head, para, opening);
    for wrapIdx := 0 to |wrappedLines|
      invariant lines == start + ParaLines(wide, head, para, opening, wrapIdx)
      invariant |lines| <= MAX_SHOWN
    {
      if opening && wrapIdx == 0 {
        lines := lines + [DisplayLine(head.timestamp, head.badge, wrappedLines[wrapIdx], false, "")];
      } else {
        lines := lines + [DisplayLine(indentSpaces, "", wrappedLines[wrapIdx], wrapIdx > 0, glue[wrapIdx])];
      }
      LinesPush(start, ParaLines(wide, head, para, opening, wrapIdx),
                LineOf(wide, head, Filled(wide, Avail(wide, head), para), opening, wrapIdx));
      if |lines| > MAX_SHOWN {
        ParaLinesPrefix(wide, head, para, opening, wrapIdx + 1, n);
        PrefixAfter(start, ParaLines(wide, head, para, opening, wrapIdx + 1), whole);
        return;
      }
    }
  }

  // ----- characters on the screen -----

  /** A character at its column; and a row of them. */
  datatype RenderedChar = RenderedChar(x: int, r: char)
  datatype RenderedLine = RenderedLine(rowY: int, chars: seq<RenderedChar>, isContinuation: bool, glue: string)

  /** The runes of s from column x on. */
  function PlaceRunes(wide: WideRunes, s: string, x: int): seq<RenderedChar> {
    if s == "" then [] else [RenderedChar(x, s[0])] + PlaceRunes(wide, s[1..], x + RuneWidth(wide, s[0]))
  }

  method AppendChars(wide: WideRunes, chars: seq<RenderedChar>, str: string, fromCol: int)
    returns (res: seq<RenderedChar>, col: int)
    ensures res == chars + PlaceRunes(wide, str, fromCol)
    ensures col == fromCol + StringWidth(wide, str)
  {
    res, col := chars, fromCol;
    assert str[0..] == str;
    for i := 0 to |str|
      invariant chars + PlaceRunes(wide, str, fromCol) == res + PlaceRunes(wide, str[i..], col)
      invariant fromCol + StringWidth(wide, str) == col + StringWidth(wide, str[i..])
    {
      ghost var left := str[i..];
      assert left[0] == str[i] && left[1..] == str[i + 1..];
      ghost var rest := PlaceRunes(wide, left[1..], col + RuneWidth(wide, str[i]));
      assert res + ([RenderedChar(col, str[i])] + rest) == res + [RenderedChar(col, str[i])] + rest;
      res := res + [RenderedChar(col, str[i])];
      col := col + RuneWidth(wide, str[i]);
    }
    assert str[|str|..] == "";
  }

  /** What of text fits before column endX. */
  function Clipped(wide: WideRunes, text: string, x: int, endX: int): string {
    text[..FitCount(wide, text, endX - x)]
  }

  function SpanRunes(wide: WideRunes, spans: seq<Span>, x: int, endX: int): seq<RenderedChar> {
    if spans == [] || x >= endX then []
    else
      var s := Clipped(wide, spans[0].text, x, endX);
      PlaceRunes(wide, s, x) + SpanRunes(wide, spans[1..], x + StringWidth(wide, s), endX)
  }

  /** Draws spans from startX in at most maxW cells. */
  method RenderChatSpans(wide: WideRunes, startX: int, spans: seq<Span>, maxW: int) returns (chars: seq<RenderedChar>)
    ensures chars == SpanRunes(wide, spans, startX, startX + maxW)
  {
    hide FitCount;
    chars := [];
    if maxW <= 0 || |spans| == 0 {
      return;
    }
    var curX, endX := startX, startX + maxW;
    assert spans[0..] == spans;
    for i := 0 to |spans|
      invariant SpanRunes(wide, spans, startX, endX) == chars + SpanRunes(wide, spans[i..], curX, endX)
    {
      if curX >= endX {
        break;
      }
      ghost var left := spans[i..];
      assert left[0] == spans[i] && left[1..] == spans[i + 1..];
      var n := FitRunesWithin(wide, spans[i].text, endX - curX);
      var sRunes := spans[i].text[..n];
      ghost var placed, rest := PlaceRunes(wide, sRunes, curX), SpanRunes(wide, left[1..], curX + StringWidth(wide, sRunes), endX);
      assert SpanRunes(wide, left, curX, endX) == placed + rest;
      assert chars + (placed + rest) == chars + placed + rest;
      if |sRunes| > 0 {
        chars, curX := AppendChars(wide, chars, sRunes, curX);
      } else {
        assert chars + placed == chars;
      }
    }
    assert spans[|spans|..] == [];
  }

  /** The row a line is drawn as, from column x0 and before column right. The blank indentation of
      a later line takes its cells but has no characters to copy. */
  function RowOf(wide: WideRunes, line: DisplayLine, x0: int, right: int, rowY: int): RenderedLine {
    var stamp := if AllSpace(line.timestamp) then [] else PlaceRunes(wide, line.timestamp, x0);
    var x1 := x0 + StringWidth(wide, line.timestamp);
    var x2 := x1 + StringWidth(wide, line.badge);
    RenderedLine(rowY, stamp + PlaceRunes(wide, line.badge, x1) + SpanRunes(wide, line.spans, x2, right),
                 line.isContinuation, line.glue)
  }

  function RowsOf(wide: WideRunes, lines: seq<DisplayLine>, x0: int, right: int, startRow: int): (rows: seq<RenderedLine>)
    ensures |rows| == |lines|
  {
    seq(|lines|, i requires 0 <= i < |lines| => RowOf(wide, lines[i], x0, right, startRow + i))
  }

  method RenderLine(wide: WideRunes, line: DisplayLine, x0: int, right: int, rowY: int) returns (row: RenderedLine)
    ensures row == RowOf(wide, line, x0, right, rowY)
  {
    hide StringWidth;
    hide AllSpace;
    hide PlaceRunes;
    hide SpanRunes;
    ghost var x1 := x0 + StringWidth(wide, line.timestamp);
    ghost var x2 := x1 + StringWidth(wide, line.badge);
    NoRunes(wide, x1, line.spans, x2, right);
    var curX := x0;
    var lineChars: seq<RenderedChar> := [];
    if !AllSpace(line.timestamp) {
      lineChars, curX := AppendChars(wide, lineChars, line.timestamp, curX);
    } else {
      curX := curX + StringWidth(wide, line.timestamp);
    }
    ghost var stamp := if AllSpace(line.timestamp) then [] else PlaceRunes(wide, line.timestamp, x0);
    assert lineChars == stamp;
    if line.badge != "" {
      lineChars, curX := AppendChars(wide, lineChars, line.badge, curX);
    }
    assert curX == x2 && lineChars == stamp + PlaceRunes(wide, line.badge, x1);
    var remW := right - curX;
    if remW > 0 {
      var spanChars := RenderChatSpans(wide, curX, line.spans, remW);
      lineChars := lineChars + spanChars;
    }
    assert lineChars == stamp + PlaceRunes(wide, line.badge, x1) + SpanRunes(wide, line.spans, x2, right);
    row := RenderedLine(rowY, lineChars, line.isContinuation, line.glue);
  }

  lemma NoWidth(wide: WideRunes)
    ensures StringWidth(wide, "") == 0
  {
  }

  lemma NoRunes(wide: WideRunes, x1: int, spans: seq<Span>, x2: int, right: int)
    ensures StringWidth(wide, "") == 0 && PlaceRunes(wide, "", x1) == []
    ensures x2 >= right ==> SpanRunes(wide, spans, x2, right) == []
  {
  }

  /** The rows of the lines in view, down to the row of the input line. */
  method RenderRows(wide: WideRunes, visibleLines: seq<DisplayLine>, x0: int, right: int, startRow: int, inputY: int)
    returns (rows: seq<RenderedLine>)
    ensures rows <= RowsOf(wide, visibleLines, x0, right, startRow)
    ensures |rows| == if startRow + |visibleLines| <= inputY then |visibleLines|
                      else if startRow <= inputY then inputY - startRow else 0
  {
    rows := [];
    for i := 0 to |visibleLines|
      invariant i > 0 ==> startRow + i <= inputY
      invariant rows == RowsOf(wide, visibleLines, x0, right, startRow)[..i]
    {
      var rowY := startRow + i;
      if rowY >= inputY {
        break;
      }
      var row := RenderLine(wide, visibleLines[i], x0, right, rowY);
      rows := rows + [row];
    }
  }

  // ----- selecting and copying -----

  /** Where a drag began and where it is now. */
  datatype Selection = Selection(startX: int, startY: int, endX: int, endY: int)

  /** The cell (y, x) comes no later than (y', x') as text is read. */
  predicate Reads(y: int, x: int, y': int, x': int) {
    y < y' || (y == y' && x <= x')
  }

  /** Whichever way the drag went, the cells from one end to the other in reading order. */
  predicate Selects(sel: Selection, x: int, y: int) {
    || (Reads(sel.startY, sel.startX, y, x) && Reads(y, x, sel.endY, sel.endX))
    || (Reads(sel.endY, sel.endX, y, x) && Reads(y, x, sel.startY, sel.startX))
  }

  /** The selected characters of a row. */
  function Picked(chars: seq<RenderedChar>, y: int, sel: Selection): string {
    var n := |chars|;
    if n == 0 then ""
    else Picked(chars[..n - 1], y, sel) + if Selects(sel, chars[n - 1].x, y) then [chars[n - 1].r] else ""
  }

  /** The text copied so far, and whether there is none yet. */
  datatype Copy = Copy(text: string, first: bool)

  function Appended(c: Copy, picked: string, isContinuation: bool, glue: string): Copy {
    if picked == "" then c
    else if c.first then Copy(c.text + picked, false)
    else if isContinuation then Copy(c.text + glue + picked, false)
    else Copy(c.text + "\n" + picked, false)
  }

  function Extracted(rows: seq<RenderedLine>, sel: Selection): Copy {
    var n := |rows|;
    if n == 0 then Copy("", true)
    else
      var row := rows[n - 1];
      Appended(Extracted(rows[..n - 1], sel), Picked(row.chars, row.rowY, sel), row.isContinuation, row.glue)
  }

  /** The part of the room view that holds the rows drawn and the selection. */
  class RoomView {
    var renderedLines: seq<RenderedLine>
    var selectionStartX: int
    var selectionStartY: int
    var selectionEndX: int
    var selectionEndY: int
    var selectionActive: bool
    var selectionDragging: bool
    var selectedText: string

    constructor ()
      ensures renderedLines == [] && !selectionActive && !selectionDragging
    {
      renderedLines, selectedText := [], "";
      selectionActive, selectionDragging := false, false;
    }

    function Selected(): Selection
      reads this
    {
      Selection(selectionStartX, selectionStartY, selectionEndX, selectionEndY)
    }

    method IsCellSelected(x: int, y: int) returns (selected: bool)
      ensures selected <==> Selects(Selected(), x, y)
    {
      var sX, sY, eX, eY := selectionStartX, selectionStartY, selectionEndX, selectionEndY;
      if sY > eY || (sY == eY && sX > eX) {
        sX, eX := eX, sX;
        sY, eY := eY, sY;
      }
      if y < sY || y > eY {
        return false;
      }
      if sY == eY {
        return x >= sX && x <= eX;
      }
      if y == sY {
        return x >= sX;
      }
      if y == eY {
        return x <= eX;
      }
      return true;
    }

    /** The text of the selection: exactly the characters highlighted, rows of one paragraph put
        together again. */
    method ExtractSelectedText() returns (text: string)
      ensures text == Extracted(renderedLines, Selected()).text
    {
      if |renderedLines| == 0 {
        return "";
      }
      var sX, sY, eX, eY := selectionStartX, selectionStartY, selectionEndX, selectionEndY;
      if sY > eY || (sY == eY && sX > eX) {
        sX, eX := eX, sX;
        sY, eY := eY, sY;
      }
      text := "";
      var firstLine := true;
      for i := 0 to |renderedLines|
        invariant Copy(text, firstLine) == Extracted(renderedLines[..i], Selected())
      {
        var rl := renderedLines[i];
        assert renderedLines[..i + 1][..i] == renderedLines[..i];
        if rl.rowY < sY || rl.rowY > eY {
          NothingPicked(rl.chars, rl.rowY, Selected());
          continue;
        }
        var extracted := PickRow(rl, sX, sY, eX, eY, Selected());
        if extracted != "" {
          if firstLine {
            text := text + extracted;
            firstLine := false;
          } else if rl.isContinuation {
            text := text + rl.glue + extracted;
          } else {
            text := text + "\n" + extracted;
          }
        }
      }
      assert renderedLines[..|renderedLines|] == renderedLines;
    }

    method HandleMousePress(x: int, y: int)
      modifies this
      ensures renderedLines == old(renderedLines)
      ensures Selected() == Selection(x, y, x, y)
      ensures selectionDragging && !selectionActive && selectedText == ""
    {
      selectionDragging := true;
      selectionStartX, selectionStartY := x, y;
      selectionEndX, selectionEndY := x, y;
      selectionActive := false;
      selectedText := "";
    }

    method HandleMouseDrag(x: int, y: int)
      modifies this
      ensures renderedLines == old(renderedLines)
      ensures Selected() == if old(selectionDragging) then Selection(old(selectionStartX), old(selectionStartY), x, y)
                            else Selection(x, y, x, y)
      ensures selectionDragging
      ensures var moved := selectionStartX != x || selectionStartY != y;
              && selectionActive == (old(selectionActive) || moved)
              && selectedText == if moved then Extracted(renderedLines, Selected()).text else old(selectedText)
    {
      if !selectionDragging {
        selectionDragging := true;
        selectionStartX, selectionStartY := x, y;
      }
      selectionEndX, selectionEndY := x, y;
      if selectionStartX != selectionEndX || selectionStartY != selectionEndY {
        selectionActive := true;
        selectedText := ExtractSelectedText();
      }
    }

    /** Lets go of the mouse: what was dragged over, up to here, is the result. */
    method HandleMouseRelease(x: int, y: int) returns (text: string)
      modifies this
      ensures renderedLines == old(renderedLines) && !selectionDragging
      ensures var dragged := old(selectionActive) && (old(selectionStartX) != x || old(selectionStartY) != y);
              && selectionActive == dragged
              && (dragged ==> Selected() == Selection(old(selectionStartX), old(selectionStartY), x, y)
                              && text == Extracted(renderedLines, Selected()).text)
              && (!dragged ==> text == "")
    {
      selectionDragging := false;
      if selectionActive {
        selectionEndX, selectionEndY := x, y;
        if selectionStartX != selectionEndX || selectionStartY != selectionEndY {
          selectedText := ExtractSelectedText();
          return selectedText;
        }
        selectionActive := false;
        selectedText := "";
      }
      return "";
    }
  }

  lemma {:induction false} NothingPicked(chars: seq<RenderedChar>, y: int, sel: Selection)
    requires forall i | 0 <= i < |chars| :: !Selects(sel, chars[i].x, y)
    ensures Picked(chars, y, sel) == ""
  {
    if chars != [] {
      NothingPicked(chars[..|chars| - 1], y, sel);
    }
  }

  /** The inner loop of ExtractSelectedText, the ends of the selection in reading order. */
  method PickRow(rl: RenderedLine, sX: int, sY: int, eX: int, eY: int, ghost sel: Selection) returns (line: string)
    requires sY <= rl.rowY <= eY && Reads(sY, sX, eY, eX)
    requires sel == Selection(sX, sY, eX, eY) || sel == Selection(eX, eY, sX, sY)
    ensures line == Picked(rl.chars, rl.rowY, sel)
  {
    line := "";
    for i := 0 to |rl.chars|
      invariant line == Picked(rl.chars[..i], rl.rowY, sel)
    {
      var ix := rl.chars[i].x;
      var inSel;
      if sY == eY {
        inSel := ix >= sX && ix <= eX;
      } else if rl.rowY == sY {
        inSel := ix >= sX;
      } else if rl.rowY == eY {
        inSel := ix <= eX;
      } else {
        inSel := true;
      }
      if inSel {
        line := line + [rl.chars[i].r];
      }
      assert rl.chars[..i + 1][..i] == rl.chars[..i];
    }
    assert rl.chars[..|rl.chars|] == rl.chars;
  }
}
