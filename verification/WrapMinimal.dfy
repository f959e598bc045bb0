/** The wrap takes the fewest lines any wrap could that cuts a token only when it is wider than a line, and then
    from the start of a line on. */
module WrapMinimal {
  import Bytes
  import opened Options
  import opened Cells
  import opened ChatSpans
  import opened ChatWrap
  import opened WrapLossless
  import opened WrapOptimal
  import opened WiderPanels
  import opened LongTokens

  /** What a wrap may do with a token: put it on the row that is open, or on a new one; drop it, if it is white
      space, and end the row; or cut it, each part on a row of its own, the last one left open. */
  datatype Choice = Stay | Break | Drop | Cut(parts: seq<string>)

  predicate Allowed(wide: WideRunes, W: nat, f: Fill, t: Token, c: Choice) {
    match c
    case Stay => f.used + TokenWidth(wide, t) <= W
    case Break => f.used > 0 && TokenWidth(wide, t) <= W
    case Drop => t.Space? && !AtStart(f)
    case Cut(parts) =>
      && TokenWidth(wide, t) > W
      && parts != [] && Bytes.Concat(parts) == TokenText(t)
      && forall i | 0 <= i < |parts| :: StringWidth(wide, parts[i]) <= W
  }

  /** The rows closed when f's row is. */
  function Ended(f: Fill): nat {
    if f.used > 0 then f.closed + 1 else f.closed
  }

  function Chosen(wide: WideRunes, f: Fill, t: Token, c: Choice): Fill
    requires c.Cut? ==> c.parts != []
  {
    match c
    case Stay => Fill(f.closed, f.used + TokenWidth(wide, t))
    case Break => Fill(f.closed + 1, TokenWidth(wide, t))
    case Drop => Fill(Ended(f), 0)
    case Cut(parts) => Fill(Ended(f) + |parts| - 1, StringWidth(wide, parts[|parts| - 1]))
  }

  /** The rows after all the tokens, if every choice is allowed. */
  function Chooses(wide: WideRunes, W: nat, tokens: seq<Token>, cs: seq<Choice>): (f: Option<Fill>) {
    if |tokens| != |cs| then None
    else if tokens == [] then Some(Fill(0, 0))
    else
      var n := |tokens| - 1;
      var before := Chooses(wide, W, tokens[..n], cs[..n]);
      if before.None? || !Allowed(wide, W, before.value, tokens[n], cs[n]) then None
      else Some(Chosen(wide, before.value, tokens[n], cs[n]))
  }

  // ----- no choice gets ahead -----

  lemma Overlap(gone: string, rs: string, part: string, rest: string)
    requires gone + rs == part + rest && |part| >= |gone|
    ensures |part| - |gone| <= |rs| && part == gone + rs[..|part| - |gone|]
  {
    var s := gone + rs;
    assert part == s[..|part|];
  }

  lemma LongerPrefix(wide: WideRunes, W: nat, gone: string, rs: string, part: string, rest: string)
    requires W >= 2 && gone + rs == part + rest && StringWidth(wide, part) <= W < StringWidth(wide, rs)
    ensures |part| <= |gone| + CutCount(wide, rs, W)
  {
    hide *;
    NoWidthless(wide, rs);
    CutLeavesNoRoom(wide, W, rs);
    var n := CutCount(wide, rs, W);
    if |part| > |gone| + n {
      TooLong(wide, W, gone, rs, part, rest, n);
    }
  }

  lemma TooLong(wide: WideRunes, W: nat, gone: string, rs: string, part: string, rest: string, n: nat)
    requires gone + rs == part + rest && |part| > |gone| + n && n < |rs|
    requires StringWidth(wide, rs[..n]) + RuneWidth(wide, rs[n]) > W
    ensures StringWidth(wide, part) > W
  {
    hide *;
    Overlap(gone, rs, part, rest);
    var over := rs[..|part| - |gone|];
    WidthConcat(wide, gone, over);
    WidthOfOne(wide, rs, n);
    WidthOfPrefix(wide, rs, n + 1, |part| - |gone|);
  }

  lemma NoWidthless(wide: WideRunes, rs: string)
    ensures StringWidth(wide, rs) > 0 ==> rs != ""
  {
  }

  lemma SuffixWidth(wide: WideRunes, gone: string, rs: string)
    ensures StringWidth(wide, rs) <= StringWidth(wide, gone + rs)
  {
    WidthConcat(wide, gone, rs);
  }

  lemma WithoutFirst(gone: string, rs: string, part: string, rest: string, n: nat) returns (more: string)
    requires gone + rs == part + rest && n <= |rs| && |part| <= |gone| + n
    ensures more + rs[n..] == rest
  {
    more := (gone + rs)[|part|..|gone| + n];
    assert rest == (part + rest)[|part|..];
  }

  /** However a token is cut, what is left of it, rs, takes no more lines. */
  lemma {:induction false} CutsBehind(wide: WideRunes, W: nat, a: nat, b: nat, gone: string, rs: string, parts: seq<string>)
    requires W >= 2 && a <= b && parts != [] && gone + rs == Bytes.Concat(parts)
    requires forall i | 0 <= i < |parts| :: StringWidth(wide, parts[i]) <= W
    ensures Behind(Chopped(wide, W, a, rs), Fill(b + |parts| - 1, StringWidth(wide, parts[|parts| - 1])))
    decreases |parts|
  {
    Bytes.ConcatHead(parts);
    if |parts| == 1 {
      Bytes.ConcatOfOne(parts[0]);
      SuffixWidth(wide, gone, rs);
      assert parts == [parts[0]];
    } else if StringWidth(wide, rs) > W {
      LongerPrefix(wide, W, gone, rs, parts[0], Bytes.Concat(parts[1..]));
      var more := WithoutFirst(gone, rs, parts[0], Bytes.Concat(parts[1..]), CutCount(wide, rs, W));
      hide CutCount;
      hide StringWidth;
      CutsBehind(wide, W, a + 1, b + 1, more, rs[CutCount(wide, rs, W)..], parts[1..]);
    }
  }

  lemma CutLeads(wide: WideRunes, W: nat, a: Fill, b: Fill, t: Token, parts: seq<string>)
    requires W >= 2 && Leads(a, b) && ValidToken(t) && Allowed(wide, W, b, t, Cut(parts))
    ensures Leads(FillAfter(wide, W, a, t), Chosen(wide, b, t, Cut(parts)))
  {
    var text := TokenText(t);
    assert "" + text == text;
    TwoParts(wide, W, text, parts);
    if a.used == 0 {
      ChoppedStarts(wide, W, a.closed, text);
      CutsBehind(wide, W, a.closed, Ended(b), "", text, parts);
    } else {
      ChoppedGrows(wide, W, a.closed + 1, text);
      CutsBehind(wide, W, a.closed + 1, Ended(b), "", text, parts);
    }
    hide Chopped;
    hide StringWidth;
  }

  lemma TwoParts(wide: WideRunes, W: nat, text: string, parts: seq<string>)
    requires parts != [] && Bytes.Concat(parts) == text && StringWidth(wide, text) > W
    requires forall i | 0 <= i < |parts| :: StringWidth(wide, parts[i]) <= W
    ensures |parts| >= 2 && text != ""
  {
    if |parts| == 1 {
      assert parts == [parts[0]];
      Bytes.ConcatOfOne(parts[0]);
    }
  }

  lemma WholeLeads(wide: WideRunes, W: nat, a: Fill, b: Fill, t: Token, c: Choice)
    requires W >= 2 && Leads(a, b) && ValidToken(t) && Allowed(wide, W, b, t, c) && !c.Cut?
    ensures Leads(FillAfter(wide, W, a, t), Chosen(wide, b, t, c))
  {
    WidthBounds(wide, TokenText(t));
    hide StringWidth;
    if !c.Drop? {
      assert Chopped(wide, W, a.closed + 1, TokenText(t)) == Fill(a.closed + 1, TokenWidth(wide, t));
    }
    hide Chopped;
  }

  /** No choices, up to any token, close fewer lines than the wrap does, or as many with less on the open one. */
  lemma {:induction false} NoChoiceIsAhead(wide: WideRunes, W: nat, tokens: seq<Token>, cs: seq<Choice>)
    requires W >= 2 && (forall t | t in tokens :: ValidToken(t)) && Chooses(wide, W, tokens, cs).Some?
    ensures Leads(FillOf(FedAll(wide, W, START, tokens)), Chooses(wide, W, tokens, cs).value)
  {
    if tokens != [] {
      var n := |tokens| - 1;
      var init, last := tokens[..n], tokens[n];
      assert last in tokens;
      NoChoiceIsAhead(wide, W, init, cs[..n]);
      FedAllKeeps(wide, W, init);
      FedFill(wide, W, FedAll(wide, W, START, init), last);
      var a, b := FillOf(FedAll(wide, W, START, init)), Chooses(wide, W, init, cs[..n]).value;
      hide Good;
      hide Fed;
      hide FillAfter;
      hide Leads;
      hide Allowed;
      hide Chosen;
      if cs[n].Cut? {
        CutLeads(wide, W, a, b, last, cs[n].parts);
      } else {
        WholeLeads(wide, W, a, b, last, cs[n]);
      }
    }
  }

  function RowCount(f: Fill): nat {
    if AtStart(f) then 1 else Ended(f)
  }

  /** Of all the wraps that cut tokens only if they are wider than a line, none has fewer lines. */
  lemma FewestOfAll(wide: WideRunes, availWidth: int, spans: seq<Span>, cs: seq<Choice>)
    requires Chooses(wide, LineWidthFor(availWidth), AllTokens(spans), cs).Some?
    ensures |Lines(Filled(wide, availWidth, spans))|
         <= RowCount(Chooses(wide, LineWidthFor(availWidth), AllTokens(spans), cs).value)
  {
    var tokens, W := AllTokens(spans), LineWidthFor(availWidth);
    AllTokensMarks(spans);
    FedAllKeeps(wide, W, tokens);
    hide Good;
    hide FedAll;
    hide AllTokens;
    hide Chooses;
    NoChoiceIsAhead(wide, W, tokens, cs);
    LineCount(wide, W, FedAll(wide, W, START, tokens));
  }

  // ----- the wrap chooses so -----

  lemma {:induction false} ChoppedIs(wide: WideRunes, W: nat, closed: nat, rs: string, parts: seq<string>)
    requires W >= 2 && rs != "" && IsFullCut(wide, W, parts, rs)
    ensures parts != [] && Chopped(wide, W, closed, rs) == Fill(closed + |parts| - 1, StringWidth(wide, parts[|parts| - 1]))
    decreases |parts|
  {
    FirstPart(wide, W, parts, rs);
    var first, more := parts[0], Bytes.Concat(parts[1..]);
    if |parts| == 1 {
      assert rs == first;
    } else {
      FullFirst(wide, W, first, more);
      assert rs[|first|..] == more;
      hide StringWidth;
      hide CutCount;
      ChoppedIs(wide, W, closed + 1, more, parts[1..]);
    }
  }

  lemma FullFirst(wide: WideRunes, W: nat, first: string, more: string)
    requires W >= 2 && more != "" && first != ""
    requires StringWidth(wide, first) <= W < StringWidth(wide, first) + RuneWidth(wide, more[0])
    ensures StringWidth(wide, first + more) > W && CutCount(wide, first + more, W) == |first|
  {
    var rs := first + more;
    assert rs[..|first|] == first && rs[|first|] == more[0] && rs[..|rs|] == rs;
    WidthOfOne(wide, rs, |first|);
    WidthOfPrefix(wide, rs, |first| + 1, |rs|);
    CutLeavesNoRoom(wide, W, rs);
    var n := CutCount(wide, rs, W);
    WidthOfOne(wide, rs, n);
    if n < |first| {
      WidthOfPrefix(wide, rs, n + 1, |first|);
    } else if n > |first| {
      WidthOfPrefix(wide, rs, |first| + 1, n);
    }
    hide CutCount;
  }

  lemma StepChosen(wide: WideRunes, W: nat, f: Fill, t: Token) returns (c: Choice)
    requires W >= 2 && ValidToken(t)
    ensures Allowed(wide, W, f, t, c) && Chosen(wide, f, t, c) == FillAfter(wide, W, f, t)
  {
    var w, text := TokenWidth(wide, t), TokenText(t);
    if t.Space? && f.used == 0 && f.closed > 0 {
      c := Drop;
    } else if f.used + w <= W {
      c := Stay;
    } else if f.used > 0 && t.Space? {
      c := Drop;
    } else if w <= W {
      c := Break;
    } else {
      hide FillAfter;
      c := LongCut(wide, W, f, t);
    }
  }

  lemma LongCut(wide: WideRunes, W: nat, f: Fill, t: Token) returns (c: Choice)
    requires W >= 2 && TokenWidth(wide, t) > W && (t.Space? ==> AtStart(f))
    ensures Allowed(wide, W, f, t, c) && Chosen(wide, f, t, c) == FillAfter(wide, W, f, t)
  {
    var text := TokenText(t);
    var parts := PlacedRestCuts(wide, W, START, Plain(""), text);
    ChoppedIs(wide, W, Ended(f), text, parts);
    hide Chopped;
    hide StringWidth;
    c := Cut(parts);
  }

  /** The wrap is one of them: it makes such choices too. */
  lemma {:induction false} WrapChooses(wide: WideRunes, W: nat, tokens: seq<Token>) returns (cs: seq<Choice>)
    requires W >= 2 && forall t | t in tokens :: ValidToken(t)
    ensures Chooses(wide, W, tokens, cs) == Some(FillOf(FedAll(wide, W, START, tokens)))
  {
    if tokens == [] {
      cs := [];
    } else {
      var n := |tokens| - 1;
      var init, last := tokens[..n], tokens[n];
      assert last in tokens;
      var before := WrapChooses(wide, W, init);
      FedAllKeeps(wide, W, init);
      FedFill(wide, W, FedAll(wide, W, START, init), last);
      hide Good;
      hide Fed;
      hide FillAfter;
      hide Allowed;
      hide Chosen;
      var c := StepChosen(wide, W, FillOf(FedAll(wide, W, START, init)), last);
      cs := before + [c];
      assert |before| == |init|;
      assert cs[..n] == before;
    }
  }

  lemma LinesAreChosen(wide: WideRunes, availWidth: int, spans: seq<Span>) returns (cs: seq<Choice>)
    ensures var f := Chooses(wide, LineWidthFor(availWidth), AllTokens(spans), cs);
            f.Some? && RowCount(f.value) == |Lines(Filled(wide, availWidth, spans))|
  {
    var tokens, W := AllTokens(spans), LineWidthFor(availWidth);
    AllTokensMarks(spans);
    FedAllKeeps(wide, W, tokens);
    hide Good;
    hide FedAll;
    hide AllTokens;
    hide Chooses;
    cs := WrapChooses(wide, W, tokens);
    LineCount(wide, W, FedAll(wide, W, START, tokens));
  }

  // ----- cutting from the middle of a line -----

  lemma {:induction false} NarrowWidth(s: string)
    ensures StringWidth({}, s) == |s|
  {
    if s != "" {
      NarrowWidth(s[1..]);
    }
  }

  lemma TwoPartsAreFull(W: nat, rs: string)
    requires W >= 2 && |rs| == 2 * W - 1
    ensures IsFullCut({}, W, [rs[..W], rs[W..]], rs)
  {
    var parts := [rs[..W], rs[W..]];
    Bytes.ConcatHead(parts);
    assert parts[1..] == [rs[W..]];
    Bytes.ConcatOfOne(rs[W..]);
    assert rs == rs[..W] + rs[W..];
    NarrowWidth(rs[..W]);
    NarrowWidth(rs[W..]);
    hide StringWidth;
  }

  /** A wrap that began a token wider than a line on a line already open could do with fewer lines: here the two
      tokens would fill two lines, and take three. */
  lemma OwnLineCosts(W: nat, a: string, rs: string)
    requires W >= 2 && |a| == 1 && |rs| == 2 * W - 1
    ensures StringWidth({}, a + rs) == 2 * W
    ensures RowCount(FillOf(FedAll({}, W, START, [Word(Plain(a)), Word(Plain(rs))]))) == 3
  {
    NarrowWidth(a + rs);
    NarrowWidth(a);
    NarrowWidth(rs);
    var first, second := Word(Plain(a)), Word(Plain(rs));
    FillOfTwo(W, first, second);
    TwoPartsAreFull(W, rs);
    NarrowWidth(rs[W..]);
    ChoppedIs({}, W, 1, rs, [rs[..W], rs[W..]]);
    hide StringWidth;
    hide Chopped;
    hide FedAll;
  }

  lemma FillOfTwo(W: nat, a: Token, b: Token)
    requires W >= 2 && ValidToken(a) && ValidToken(b)
    ensures FillOf(FedAll({}, W, START, [a, b])) == FillAfter({}, W, FillAfter({}, W, Fill(0, 0), a), b)
  {
    hide Fed;
    hide FillAfter;
    var both := [a, b];
    assert both[..1] == [a] && [a][..0] == [];
    FedAllKeeps({}, W, []);
    FedFill({}, W, START, a);
    FedAllKeeps({}, W, [a]);
    hide Good;
    assert FedAll({}, W, START, [a]) == Fed({}, W, START, a);
    FedFill({}, W, FedAll({}, W, START, [a]), b);
  }
}
