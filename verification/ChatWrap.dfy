/** Wrapping one paragraph of spans into lines of a given width. */
module ChatWrap {
  import opened Cells
  import opened ChatSpans

  /** No panel is treated as narrower than this. */
  const MIN_WIDTH := 5

  /** What a wrap does not break inside of, unless it is wider than a whole line: a word, a link, a
      copy button, or a run of white space. */
  datatype Token = Word(span: Span) | Space(text: string)

  function TokenText(t: Token): string {
    match t
    case Word(span) => span.text
    case Space(text) => text
  }

  function TokenMarks(t: Token): seq<MarkedRune> {
    match t
    case Word(span) => SpanMarks(span)
    case Space(text) => MarkAll(text, Plain(""))
  }

  predicate ValidToken(t: Token) {
    t.Space? ==> t.text != "" && AllSpace(t.text)
  }

  function PlainToken(text: string): Token
    requires text != ""
  {
    if IsSpace(text[0]) then Space(text) else Word(Plain(text))
  }

  function PlainTokens(texts: seq<string>): (ts: seq<Token>)
    requires forall i | 0 <= i < |texts| :: texts[i] != ""
    ensures |ts| == |texts|
  {
    seq(|texts|, i requires 0 <= i < |texts| => PlainToken(texts[i]))
  }

  function SpanTokens(span: Span): seq<Token> {
    if Special(span) then [Word(span)]
    else TokensTokenize(span.text); PlainTokens(Tokens(span.text))
  }

  function AllTokens(spans: seq<Span>): seq<Token> {
    if spans == [] then [] else AllTokens(spans[..|spans| - 1]) + SpanTokens(spans[|spans| - 1])
  }

  // ----- the wrap as a function -----

  /** The lines so far with the white space dropped before each, and the line being filled. */
  datatype Wrap = Wrap(lines: seq<seq<Span>>, glue: seq<string>, cur: seq<Span>, curW: nat, curGlue: string)

  const START := Wrap([], [], [], 0, "")

  function Flushed(st: Wrap): Wrap {
    if st.cur == [] then Wrap(st.lines, st.glue, [], 0, "")
    else Wrap(st.lines + [st.cur], st.glue + [st.curGlue], [], 0, "")
  }

  /** line with span after it, in one span with the last when neither is a link or a copy. */
  function Joined(line: seq<Span>, span: Span): seq<Span> {
    var n := |line|;
    if n > 0 && !Special(line[n - 1]) && !Special(span)
    then line[n - 1 := line[n - 1].(text := line[n - 1].text + span.text)]
    else line + [span]
  }

  function Added(st: Wrap, span: Span, w: nat): Wrap {
    st.(cur := Joined(st.cur, span), curW := st.curW + w)
  }

  /** How many of the runes rs a line with room for width cells takes when it has to be cut. */
  function CutCount(wide: WideRunes, rs: string, width: int): (n: nat)
    requires rs != ""
    ensures 1 <= n <= |rs|
  {
    var fit := FitCount(wide, rs, width);
    if fit == 0 then 1 else fit
  }

  function PlacedRest(wide: WideRunes, W: nat, st: Wrap, span: Span, rs: string): Wrap
    decreases |rs|
  {
    if rs == "" then st
    else if st.curW + StringWidth(wide, rs) <= W then Added(st, span.(text := rs), StringWidth(wide, rs))
    else
      var n := CutCount(wide, rs, W - st.curW);
      var part := span.(text := rs[..n]);
      PlacedRest(wide, W, Flushed(Added(st, part, StringWidth(wide, part.text))), span, rs[n..])
  }

  /** The line to place a token of width w on: a new one when it does not fit. */
  function RoomFor(W: nat, st: Wrap, w: nat): Wrap {
    if st.curW + w > W && st.curW > 0 then Flushed(st) else st
  }

  function Placed(wide: WideRunes, W: nat, st: Wrap, span: Span): Wrap {
    PlacedRest(wide, W, RoomFor(W, st, StringWidth(wide, span.text)), span, span.text)
  }

  function Fed(wide: WideRunes, W: nat, st: Wrap, t: Token): Wrap {
    match t
    case Word(span) => Placed(wide, W, st, span)
    case Space(tok) =>
      var w := StringWidth(wide, tok);
      if st.curW == 0 && |st.lines| > 0 then st.(curGlue := st.curGlue + tok)
      else if st.curW + w <= W then Added(st, Plain(tok), w)
      else if st.curW == 0 then Placed(wide, W, st, Plain(tok))
      else Flushed(st).(curGlue := tok)
  }

  function FedAll(wide: WideRunes, W: nat, st: Wrap, tokens: seq<Token>): Wrap {
    if tokens == [] then st
    else Fed(wide, W, FedAll(wide, W, st, tokens[..|tokens| - 1]), tokens[|tokens| - 1])
  }

  lemma {:induction false} FedAllConcat(wide: WideRunes, W: nat, st: Wrap, a: seq<Token>, b: seq<Token>)
    ensures FedAll(wide, W, st, a + b) == FedAll(wide, W, FedAll(wide, W, st, a), b)
  {
    if b == [] {
      assert a + b == a;
    } else {
      assert (a + b)[..|a + b| - 1] == a + b[..|b| - 1];
      FedAllConcat(wide, W, st, a, b[..|b| - 1]);
    }
  }

  function LineWidthFor(availWidth: int): nat {
    if availWidth < MIN_WIDTH then MIN_WIDTH else availWidth
  }

  /** Where the tokens of spans leave the wrap, the last line still open. */
  function Filled(wide: WideRunes, availWidth: int, spans: seq<Span>): Wrap {
    FedAll(wide, LineWidthFor(availWidth), START, AllTokens(spans))
  }

  function Lines(st: Wrap): seq<seq<Span>> {
    if Flushed(st).lines == [] then [[Plain("")]] else Flushed(st).lines
  }

  function Glue(st: Wrap): seq<string> {
    if Flushed(st).lines == [] then [""] else Flushed(st).glue
  }

  lemma RestAfterCut(wide: WideRunes, W: nat, st: Wrap, span: Span, rs: string, n: nat)
    requires st.curW + StringWidth(wide, rs) > W >= st.curW && rs != "" && n == CutCount(wide, rs, W - st.curW)
    ensures StringWidth(wide, rs) == StringWidth(wide, rs[..n]) + StringWidth(wide, rs[n..])
    ensures var part := span.(text := rs[..n]);
            PlacedRest(wide, W, st, span, rs)
            == PlacedRest(wide, W, Flushed(Added(st, part, StringWidth(wide, part.text))), span, rs[n..])
  {
    hide CutCount;
    hide Flushed;
    hide Added;
    assert rs == rs[..n] + rs[n..];
    WidthConcat(wide, rs[..n], rs[n..]);
  }

  lemma RestFits(wide: WideRunes, W: nat, st: Wrap, span: Span, rs: string)
    requires st.curW + StringWidth(wide, rs) <= W
    ensures PlacedRest(wide, W, st, span, rs)
         == if rs == "" then st else Added(st, span.(text := rs), StringWidth(wide, rs))
  {
  }

  // ----- the wrap as it runs -----

  class Wrapper {
    const wide: WideRunes
    const availWidth: nat
    var lines: seq<seq<Span>>
    var glue: seq<string>
    var cur: seq<Span>
    var curW: nat
    var curGlue: string

    constructor (wide: WideRunes, availWidth: nat)
      ensures State() == START
      ensures this.wide == wide && this.availWidth == availWidth
    {
      this.wide, this.availWidth := wide, availWidth;
      lines, glue, cur, curW, curGlue := [], [], [], 0, "";
    }

    ghost function State(): Wrap
      reads this
    {
      Wrap(lines, glue, cur, curW, curGlue)
    }

    method Flush()
      modifies this
      ensures State() == Flushed(old(State()))
    {
      if |cur| > 0 {
        lines := lines + [cur];
        glue := glue + [curGlue];
      }
      cur, curW, curGlue := [], 0, "";
    }

    method Add(span: Span, w: nat)
      modifies this
      ensures State() == Added(old(State()), span, w)
    {
      var n := |cur|;
      if n > 0 && !cur[n - 1].isLink && !cur[n - 1].isCopy && !span.isLink && !span.isCopy {
        cur := cur[n - 1 := cur[n - 1].(text := cur[n - 1].text + span.text)];
      } else {
        cur := cur + [span];
      }
      curW := curW + w;
    }

    /** Puts a token that has no break inside it, cutting it by width only when it is wider than a
        whole line. */
    method Place(span: Span)
      requires curW <= availWidth
      modifies this
      ensures State() == Placed(wide, availWidth, old(State()), span)
    {
      hide PlacedRest;
      hide Added;
      hide StringWidth;
      hide FitCount;
      var rs := span.text;
      var w := StringWidth(wide, span.text);
      if curW + w > availWidth && curW > 0 {
        Flush();
      }
      ghost var start := State();
      while curW + w > availWidth
        invariant curW <= availWidth && w == StringWidth(wide, rs)
        invariant PlacedRest(wide, availWidth, State(), span, rs) == PlacedRest(wide, availWidth, start, span, span.text)
        decreases |rs|
      {
        WidthBounds(wide, rs);
        var n := FitRunes(wide, rs, availWidth - curW);
        var part := span.(text := rs[..n]);
        var pw := StringWidth(wide, part.text);
        RestAfterCut(wide, availWidth, State(), span, rs, n);
        Add(part, pw);
        Flush();
        rs := rs[n..];
        w := w - pw;
      }
      RestFits(wide, availWidth, State(), span, rs);
      if |rs| > 0 {
        Add(span.(text := rs), w);
      }
    }

    /** One run of white space, or of anything else, of a plain span. */
    method FeedPlain(tok: string)
      requires tok != "" && curW <= availWidth
      modifies this
      ensures State() == Fed(wide, availWidth, old(State()), PlainToken(tok))
    {
      if !IsSpace(tok[0]) {
        Place(Plain(tok));
        return;
      }
      var w := StringWidth(wide, tok);
      if curW == 0 && |lines| > 0 {
        curGlue := curGlue + tok;
      } else if curW + w <= availWidth {
        Add(Plain(tok), w);
      } else if curW == 0 {
        Place(Plain(tok));
      } else {
        Flush();
        curGlue := tok;
      }
    }

    /** A span: a link or a copy as a whole, any other by its words and the white space between. */
    method FeedSpan(span: Span)
      requires curW <= availWidth && availWidth >= MIN_WIDTH
      modifies this
      ensures State() == FedAll(wide, availWidth, old(State()), SpanTokens(span)) && curW <= availWidth
    {
      hide Fed;
      hide Placed;
      hide FedAll;
      if span.isLink || span.isCopy {
        FedOne(wide, availWidth, State(), span);
        FedFits(wide, availWidth, State(), Word(span));
        Place(span);
      } else {
        var tokens := SplitWordsAndSpaces(span.text);
        TokensTokenize(span.text);
        ghost var all, start := SpanTokens(span), State();
        FedNone(wide, availWidth, start, all);
        for j := 0 to |tokens|
          invariant curW <= availWidth && State() == FedAll(wide, availWidth, start, all[..j])
        {
          FedOneMore(wide, availWidth, start, all, j);
          FedFits(wide, availWidth, State(), all[j]);
          FeedPlain(tokens[j]);
        }
        assert all[..|tokens|] == all;
      }
    }
  }

  lemma FedNone(wide: WideRunes, W: nat, st: Wrap, tokens: seq<Token>)
    ensures FedAll(wide, W, st, tokens[..0]) == st
  {
  }

  lemma {:induction false} PlacedRestFits(wide: WideRunes, W: nat, st: Wrap, span: Span, rs: string)
    requires st.curW <= W && W >= 2
    ensures PlacedRest(wide, W, st, span, rs).curW <= W
    decreases |rs|
  {
    if rs != "" && st.curW + StringWidth(wide, rs) > W {
      var n := CutCount(wide, rs, W - st.curW);
      var part := span.(text := rs[..n]);
      PlacedRestFits(wide, W, Flushed(Added(st, part, StringWidth(wide, part.text))), span, rs[n..]);
    }
  }

  /** The width counted stays within the line. */
  lemma FedFits(wide: WideRunes, W: nat, st: Wrap, t: Token)
    requires st.curW <= W && W >= 2
    ensures Fed(wide, W, st, t).curW <= W
  {
    var span := if t.Word? then t.span else Plain(t.text);
    PlacedRestFits(wide, W, RoomFor(W, st, StringWidth(wide, span.text)), span, span.text);
  }

  lemma FedOneMore(wide: WideRunes, W: nat, st: Wrap, tokens: seq<Token>, j: nat)
    requires j < |tokens|
    ensures FedAll(wide, W, st, tokens[..j + 1]) == Fed(wide, W, FedAll(wide, W, st, tokens[..j]), tokens[j])
  {
    assert tokens[..j + 1][..j] == tokens[..j];
    hide Fed;
  }

  lemma FedOne(wide: WideRunes, W: nat, st: Wrap, span: Span)
    ensures FedAll(wide, W, st, [Word(span)]) == Fed(wide, W, st, Word(span)) == Placed(wide, W, st, span)
  {
    assert [Word(span)][..0] == [];
    hide Placed;
  }

  lemma FedOneSpanMore(wide: WideRunes, W: nat, spans: seq<Span>, i: nat)
    requires i < |spans|
    ensures FedAll(wide, W, START, AllTokens(spans[..i + 1]))
         == FedAll(wide, W, FedAll(wide, W, START, AllTokens(spans[..i])), SpanTokens(spans[i]))
  {
    assert spans[..i + 1][..i] == spans[..i];
    FedAllConcat(wide, W, START, AllTokens(spans[..i]), SpanTokens(spans[i]));
    hide FedAll;
    hide SpanTokens;
  }

  method WrapSpansToLines(wide: WideRunes, spans: seq<Span>, availWidth: int)
    returns (lines: seq<seq<Span>>, glue: seq<string>)
    ensures lines == Lines(Filled(wide, availWidth, spans))
    ensures glue == Glue(Filled(wide, availWidth, spans))
  {
    var W := LineWidthFor(availWidth);
    var wr := new Wrapper(wide, W);
    hide SpanTokens;
    for i := 0 to |spans|
      invariant wr.wide == wide && wr.availWidth == W && wr.curW <= W
      invariant wr.State() == FedAll(wide, W, START, AllTokens(spans[..i]))
    {
      FedOneSpanMore(wide, W, spans, i);
      hide FedAll;
      wr.FeedSpan(spans[i]);
    }
    assert spans[..|spans|] == spans;
    wr.Flush();
    lines, glue := wr.lines, wr.glue;
    if |lines| == 0 {
      lines, glue := [[Plain("")]], [""];
    }
  }
}
