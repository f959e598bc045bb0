/** When white space at the end of a paragraph is dropped. */
module DroppedTails {
  import Bytes
  import opened Cells
  import opened ChatSpans
  import opened ChatWrap
  import opened WrapLossless
  import opened WrapOptimal

  predicate NoText(tokens: seq<Token>) {
    forall i | 0 <= i < |tokens| :: TokenText(tokens[i]) == ""
  }

  /** Where the white space after the last word starts. White space a paragraph begins with is its
      indentation, and comes before that. */
  function TrailStart(tokens: seq<Token>): (k: nat)
    ensures k <= |tokens|
  {
    if tokens == [] then 0
    else
      var init, last := tokens[..|tokens| - 1], tokens[|tokens| - 1];
      if TokenText(last) != "" && (last.Word? || NoText(init)) then |tokens| else TrailStart(init)
  }

  /** That white space fits on the line that the last word ends on. */
  predicate EndFits(wide: WideRunes, W: nat, tokens: seq<Token>) {
    var k := TrailStart(tokens);
    LastWidth(wide, FedAll(wide, W, START, tokens[..k])) + RowWidth(wide, tokens[k..]) <= W
  }

  /** The width of the last line. */
  function LastWidth(wide: WideRunes, st: Wrap): nat {
    LineWidth(wide, Lines(st)[|Lines(st)| - 1])
  }

  predicate AllValid(tokens: seq<Token>) {
    forall i | 0 <= i < |tokens| :: ValidToken(tokens[i])
  }

  // ----- up to the last word -----

  lemma {:induction false} PlacedRestOpens(wide: WideRunes, W: nat, st: Wrap, span: Span, rs: string)
    requires W >= 2 && st.curW <= W && rs != "" && (st.curW + StringWidth(wide, rs) <= W || st.curW == 0)
    ensures PlacedRest(wide, W, st, span, rs).cur != []
    decreases |rs|
  {
    if st.curW + StringWidth(wide, rs) > W {
      var n := CutCount(wide, rs, W);
      FitCountIsLongest(wide, rs, W);
      assert rs[..|rs|] == rs;
      var part := span.(text := rs[..n]);
      PlacedRestOpens(wide, W, Flushed(Added(st, part, StringWidth(wide, part.text))), span, rs[n..]);
    }
  }

  lemma PlacedOpens(wide: WideRunes, W: nat, st: Wrap, span: Span)
    requires W >= 2 && st.curW <= W && span.text != ""
    ensures Placed(wide, W, st, span).cur != []
  {
    PlacedRestOpens(wide, W, RoomFor(W, st, StringWidth(wide, span.text)), span, span.text);
  }

  lemma NothingFed(wide: WideRunes, W: nat, st: Wrap, t: Token)
    requires st.curW <= W && t.Word? && TokenText(t) == ""
    ensures Fed(wide, W, st, t) == st && TokenWidth(wide, t) == 0
  {
  }

  lemma {:induction false} NoneFed(wide: WideRunes, W: nat, tokens: seq<Token>)
    requires NoText(tokens) && AllValid(tokens)
    ensures FedAll(wide, W, START, tokens) == START
  {
    if tokens != [] {
      NoneFed(wide, W, tokens[..|tokens| - 1]);
      NothingFed(wide, W, START, tokens[|tokens| - 1]);
      hide Fed;
    }
  }

  lemma FedGood(wide: WideRunes, W: nat, tokens: seq<Token>)
    requires W >= 2 && AllValid(tokens)
    ensures Good(wide, W, FedAll(wide, W, START, tokens))
  {
    FedAllKeeps(wide, W, tokens);
  }

  /** After the last word, or the indentation, its line is open. */
  lemma LastOpens(wide: WideRunes, W: nat, init: seq<Token>, last: Token)
    requires W >= 2 && AllValid(init) && ValidToken(last) && TokenText(last) != "" && (last.Word? || NoText(init))
    ensures Fed(wide, W, FedAll(wide, W, START, init), last).cur != []
  {
    var st := FedAll(wide, W, START, init);
    FedGood(wide, W, init);
    match last
    case Word(span) => PlacedOpens(wide, W, st, span);
    case Space(tok) =>
      NoneFed(wide, W, init);
      PlacedOpens(wide, W, START, Plain(tok));
  }

  lemma {:induction false} TrailStartOpens(wide: WideRunes, W: nat, tokens: seq<Token>)
    requires W >= 2 && AllValid(tokens)
    ensures var k := TrailStart(tokens);
            if k == 0 then NoText(tokens) else FedAll(wide, W, START, tokens[..k]).cur != []
  {
    if tokens != [] {
      var init, last := tokens[..|tokens| - 1], tokens[|tokens| - 1];
      if TokenText(last) != "" && (last.Word? || NoText(init)) {
        assert tokens[..|tokens|] == tokens;
        LastOpens(wide, W, init, last);
      } else {
        TrailStartOpens(wide, W, init);
        assert tokens[..TrailStart(init)] == init[..TrailStart(init)];
      }
      hide Fed;
    }
  }

  // ----- after it -----

  lemma {:induction false} TrailIsSpace(tokens: seq<Token>, i: nat)
    requires TrailStart(tokens) <= i < |tokens|
    ensures tokens[i].Space? || TokenText(tokens[i]) == ""
    decreases |tokens|
  {
    if i < |tokens| - 1 {
      TrailIsSpace(tokens[..|tokens| - 1], i);
    }
  }

  /** A line after u cells of white space: still open with them on it, or closed and the white space
      dropped. */
  predicate After(st: Wrap, W: nat, width: nat) {
    if width <= W then st.cur != [] && st.curW == width else st.cur == [] && st.curGlue != "" && st.lines != []
  }

  lemma SpaceFed(wide: WideRunes, W: nat, st: Wrap, t: Token, width: nat)
    requires Good(wide, W, st) && After(st, W, width) && ValidToken(t) && (t.Space? || TokenText(t) == "")
    ensures After(Fed(wide, W, st, t), W, width + TokenWidth(wide, t))
  {
    if t.Word? {
      NothingFed(wide, W, st, t);
    } else {
      WidthBounds(wide, t.text);
    }
  }

  predicate NoWords(tokens: seq<Token>) {
    forall i | 0 <= i < |tokens| :: tokens[i].Space? || TokenText(tokens[i]) == ""
  }

  lemma FedPush(wide: WideRunes, W: nat, body: seq<Token>, init: seq<Token>, last: Token)
    ensures FedAll(wide, W, START, body + (init + [last])) == Fed(wide, W, FedAll(wide, W, START, body + init), last)
    ensures RowWidth(wide, init + [last]) == RowWidth(wide, init) + TokenWidth(wide, last)
  {
    hide Fed;
    hide TokenWidth;
    assert (body + (init + [last]))[..|body + init|] == body + init;
    assert (init + [last])[..|init|] == init;
  }

  lemma AllValidPush(init: seq<Token>, last: Token)
    requires AllValid(init + [last]) && NoWords(init + [last])
    ensures AllValid(init) && NoWords(init) && ValidToken(last) && (last.Space? || TokenText(last) == "")
  {
    var all := init + [last];
    assert all[|init|] == last;
    assert forall i | 0 <= i < |init| :: init[i] == all[i];
  }

  lemma AllValidConcat(a: seq<Token>, b: seq<Token>)
    requires AllValid(a) && AllValid(b)
    ensures AllValid(a + b)
  {
    hide ValidToken;
  }

  lemma NoTrail(wide: WideRunes, W: nat, body: seq<Token>)
    requires Good(wide, W, FedAll(wide, W, START, body)) && FedAll(wide, W, START, body).cur != []
    ensures After(FedAll(wide, W, START, body + []), W, FedAll(wide, W, START, body).curW + RowWidth(wide, []))
  {
    assert body + [] == body;
  }

  lemma InitAndLast(tokens: seq<Token>) returns (init: seq<Token>, last: Token)
    requires tokens != []
    ensures tokens == init + [last] && |init| < |tokens|
  {
    init, last := tokens[..|tokens| - 1], tokens[|tokens| - 1];
  }

  lemma {:induction false} TrailFed(wide: WideRunes, W: nat, body: seq<Token>, trail: seq<Token>)
    requires W >= 2 && AllValid(body) && AllValid(trail) && NoWords(trail)
    requires FedAll(wide, W, START, body).cur != []
    ensures After(FedAll(wide, W, START, body + trail), W, FedAll(wide, W, START, body).curW + RowWidth(wide, trail))
    decreases |trail|
  {
    hide *;
    if trail == [] {
      FedGood(wide, W, body);
      NoTrail(wide, W, body);
    } else {
      var init, last := InitAndLast(trail);
      AllValidPush(init, last);
      AllValidConcat(body, init);
      TrailFed(wide, W, body, init);
      FedGood(wide, W, body + init);
      SpaceFed(wide, W, FedAll(wide, W, START, body + init), last,
               FedAll(wide, W, START, body).curW + RowWidth(wide, init));
      FedPush(wide, W, body, init, last);
    }
  }

  lemma OpenLine(wide: WideRunes, W: nat, st: Wrap)
    requires Good(wide, W, st) && st.cur != []
    ensures LastWidth(wide, st) == st.curW
  {
  }

  lemma BlankLine(wide: WideRunes)
    ensures LastWidth(wide, START) == 0
  {
    TextOfOne(Plain(""));
  }

  lemma {:induction false} NoWidth(wide: WideRunes, tokens: seq<Token>)
    requires NoText(tokens)
    ensures RowWidth(wide, tokens) == 0
  {
    if tokens != [] {
      NoWidth(wide, tokens[..|tokens| - 1]);
    }
  }

  lemma NoEnd(wide: WideRunes, W: nat, tokens: seq<Token>)
    requires AllValid(tokens) && TrailStart(tokens) == 0 && NoText(tokens)
    ensures EndFits(wide, W, tokens) && DroppedTail(FedAll(wide, W, START, tokens)) == ""
  {
    NoneFed(wide, W, tokens);
    BlankLine(wide);
    NoWidth(wide, tokens);
    assert tokens[..0] == [] && tokens[0..] == tokens;
    hide LastWidth;
    hide RowWidth;
    hide Fed;
  }

  lemma TrailIsNoWords(tokens: seq<Token>)
    ensures NoWords(tokens[TrailStart(tokens)..])
  {
    var trail := tokens[TrailStart(tokens)..];
    forall i | 0 <= i < |trail| ensures trail[i].Space? || TokenText(trail[i]) == "" {
      TrailIsSpace(tokens, TrailStart(tokens) + i);
    }
  }

  lemma AfterDrops(st: Wrap, W: nat, width: nat)
    requires After(st, W, width)
    ensures DroppedTail(st) == "" <==> width <= W
  {
  }

  lemma PartsValid(tokens: seq<Token>, k: nat)
    requires AllValid(tokens) && k <= |tokens|
    ensures AllValid(tokens[..k]) && AllValid(tokens[k..])
    ensures tokens[..k] + tokens[k..] == tokens
  {
    hide ValidToken;
  }

  lemma SomeEnd(wide: WideRunes, W: nat, tokens: seq<Token>, k: nat)
    requires W >= 2 && AllValid(tokens) && k == TrailStart(tokens) && FedAll(wide, W, START, tokens[..k]).cur != []
    ensures DroppedTail(FedAll(wide, W, START, tokens)) == "" <==> EndFits(wide, W, tokens)
  {
    hide *;
    var body, trail := tokens[..k], tokens[k..];
    PartsValid(tokens, k);
    TrailIsNoWords(tokens);
    TrailFed(wide, W, body, trail);
    FedGood(wide, W, body);
    OpenLine(wide, W, FedAll(wide, W, START, body));
    AfterDrops(FedAll(wide, W, START, tokens), W, FedAll(wide, W, START, body).curW + RowWidth(wide, trail));
    EndFitsIs(wide, W, tokens);
  }

  lemma EndFitsIs(wide: WideRunes, W: nat, tokens: seq<Token>)
    ensures var k := TrailStart(tokens);
            EndFits(wide, W, tokens) <==>
            LastWidth(wide, FedAll(wide, W, START, tokens[..k])) + RowWidth(wide, tokens[k..]) <= W
  {
    hide LastWidth;
    hide RowWidth;
    hide FedAll;
    hide TrailStart;
  }

  /** White space at the end of a paragraph is dropped exactly when it does not fit on the line that the last
      word ends on. */
  lemma TailDroppedIff(wide: WideRunes, availWidth: int, spans: seq<Span>)
    ensures DroppedTail(Filled(wide, availWidth, spans)) == ""
       <==> EndFits(wide, LineWidthFor(availWidth), AllTokens(spans))
  {
    hide AllTokens;
    hide FedAll;
    hide TrailStart;
    hide DroppedTail;
    hide EndFits;
    hide NoText;
    var W, tokens := LineWidthFor(availWidth), AllTokens(spans);
    AllTokensMarks(spans);
    assert AllValid(tokens) by {
      assert forall i | 0 <= i < |tokens| :: tokens[i] in tokens;
    }
    TrailStartOpens(wide, W, tokens);
    if TrailStart(tokens) == 0 {
      NoEnd(wide, W, tokens);
    } else {
      SomeEnd(wide, W, tokens, TrailStart(tokens));
    }
  }

  /** So the white space after a word that fills the line is dropped, however little it is. */
  lemma FullLineDrops(wide: WideRunes, availWidth: int, word: string, blank: string)
    requires StringWidth(wide, word) == LineWidthFor(availWidth) && forall i | 0 <= i < |word| :: !IsSpace(word[i])
    requires blank != "" && AllSpace(blank)
    ensures DroppedTail(Filled(wide, availWidth, [Plain(word + blank)])) == blank
    ensures !EndFits(wide, LineWidthFor(availWidth), AllTokens([Plain(word + blank)]))
  {
    var w, b := Word(Plain(word)), Space(blank);
    WordAndBlank(word, blank);
    var W := LineWidthFor(availWidth);
    WidthBounds(wide, blank);
    FedTwo(wide, W, w, b);
    WordFills(wide, W, word);
    TailDroppedIff(wide, availWidth, [Plain(word + blank)]);
    hide EndFits;
    hide FedAll;
    hide AllTokens;
  }

  lemma WordAndBlank(word: string, blank: string)
    requires word != "" && blank != "" && AllSpace(blank) && forall i | 0 <= i < |word| :: !IsSpace(word[i])
    ensures AllTokens([Plain(word + blank)]) == [Word(Plain(word)), Space(blank)]
  {
    hide IsSpace;
    var ts := [word, blank];
    assert ts[1..] == [blank] && ts[1..][1..] == [];
    Bytes.ConcatHead(ts);
    Bytes.ConcatOfOne(blank);
    TokenizationIsUnique(ts, word + blank);
    var span := Plain(word + blank);
    assert SpanTokens(span) == [PlainToken(word), PlainToken(blank)];
    assert AllTokens([]) + SpanTokens(span) == SpanTokens(span);
  }

  lemma FedTwo(wide: WideRunes, W: nat, a: Token, b: Token)
    ensures FedAll(wide, W, START, [a, b]) == Fed(wide, W, Fed(wide, W, START, a), b)
  {
    hide Fed;
    var both := [a, b];
    assert both[..|both| - 1] == [a] && [a][..0] == [];
    assert FedAll(wide, W, START, [a]) == Fed(wide, W, START, a);
  }

  lemma WordFills(wide: WideRunes, W: nat, word: string)
    requires StringWidth(wide, word) == W && W > 0
    ensures var st := Fed(wide, W, START, Word(Plain(word))); st.curW == W && st.cur == [Plain(word)] && st.lines == []
  {
    assert Plain(word).(text := word) == Plain(word);
  }
}
