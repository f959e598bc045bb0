/** Where the runes of a line are drawn, and which of a line that does not fit. */
module DrawnLines {
  import opened Cells
  import opened ChatSpans
  import opened ChatWrap
  import opened ChatRows
  import opened CopyRoundTrip

  /** Each rune is drawn after the cells of those before it. */
  lemma {:induction false} PlacedAt(wide: WideRunes, s: string, x: int, i: nat)
    requires i < |s|
    ensures var chars := PlaceRunes(wide, s, x); |chars| == |s| && chars[i] == RenderedChar(x + StringWidth(wide, s[..i]), s[i])
    decreases |s|
  {
    PlacedWithin(wide, s, x);
    if i > 0 {
      var x1 := x + RuneWidth(wide, s[0]);
      PlacedAt(wide, s[1..], x1, i - 1);
      assert s[..i][1..] == s[1..][..i - 1];
      assert PlaceRunes(wide, s, x) == [RenderedChar(x, s[0])] + PlaceRunes(wide, s[1..], x1);
    }
  }

  /** Of a span as much is drawn as fits, and no more would. */
  lemma SpanDrawn(wide: WideRunes, first: Span, rest: seq<Span>, x: int, endX: int) returns (n: nat)
    requires x < endX
    ensures n <= |first.text| && x + StringWidth(wide, first.text[..n]) <= endX
    ensures n < |first.text| ==> x + StringWidth(wide, first.text[..n + 1]) > endX
    ensures SpanRunes(wide, [first] + rest, x, endX)
         == PlaceRunes(wide, first.text[..n], x) + SpanRunes(wide, rest, x + StringWidth(wide, first.text[..n]), endX)
  {
    n := FitCount(wide, first.text, endX - x);
    FitCountIsLongest(wide, first.text, endX - x);
    assert ([first] + rest)[1..] == rest;
    hide FitCount;
    hide StringWidth;
    hide PlaceRunes;
  }

  lemma PlacedInside(wide: WideRunes, s: string, x: int, endX: int)
    requires x + StringWidth(wide, s) <= endX
    ensures forall c | c in PlaceRunes(wide, s, x) :: x <= c.x && c.x + RuneWidth(wide, c.r) <= endX
  {
    var chars := PlaceRunes(wide, s, x);
    PlacedWithin(wide, s, x);
    forall i | 0 <= i < |chars| ensures x <= chars[i].x && chars[i].x + RuneWidth(wide, chars[i].r) <= endX {
      PlacedAt(wide, s, x, i);
      OneMoreRune(wide, s, i);
    }
  }

  lemma OneMoreRune(wide: WideRunes, s: string, i: nat)
    requires i < |s|
    ensures StringWidth(wide, s[..i]) + RuneWidth(wide, s[i]) <= StringWidth(wide, s)
  {
    assert s == s[..i] + ([s[i]] + s[i + 1..]);
    WidthConcat(wide, s[..i], [s[i]] + s[i + 1..]);
    assert ([s[i]] + s[i + 1..])[1..] == s[i + 1..];
  }

  /** Nothing is drawn left of where a line starts or past where it has to end. */
  lemma {:induction false} DrawnInside(wide: WideRunes, spans: seq<Span>, x: int, endX: int)
    ensures forall c | c in SpanRunes(wide, spans, x, endX) :: x <= c.x && c.x + RuneWidth(wide, c.r) <= endX
  {
    if spans != [] && x < endX {
      assert spans == [spans[0]] + spans[1..];
      var n := SpanDrawn(wide, spans[0], spans[1..], x, endX);
      hide SpanRunes;
      var s := spans[0].text[..n];
      PlacedInside(wide, s, x, endX);
      DrawnInside(wide, spans[1..], x + StringWidth(wide, s), endX);
      hide PlaceRunes;
      hide StringWidth;
    }
  }

  /** However narrow the panel and long the sender's name, a message is given ten columns, and a wrap five. */
  lemma LeastRoom(wide: WideRunes, head: Head, availWidth: int)
    ensures Avail(wide, head) >= 10 && (Avail(wide, head) > 10 ==> Avail(wide, head) + BadgeLen(wide, head) == head.maxW)
    ensures LineWidthFor(availWidth) >= 5 && (LineWidthFor(availWidth) > 5 ==> LineWidthFor(availWidth) == availWidth)
  {
    hide StringWidth;
  }
}
