/** Wrapping for a wider panel takes no more lines, whatever has to be cut. */
module WiderPanels {
  import opened Cells
  import opened ChatSpans
  import opened ChatWrap
  import opened WrapLossless
  import opened WrapOptimal

  /** How many lines are closed, and how many cells of the open one are taken. */
  datatype Fill = Fill(closed: nat, used: nat)

  function FillOf(st: Wrap): Fill {
    Fill(|st.lines|, st.curW)
  }

  /** The runes rs cut over lines of W cells, the first of them empty. */
  function Chopped(wide: WideRunes, W: nat, closed: nat, rs: string): Fill
    decreases |rs|
  {
    if StringWidth(wide, rs) <= W then Fill(closed, StringWidth(wide, rs))
    else Chopped(wide, W, closed + 1, rs[CutCount(wide, rs, W)..])
  }

  function FillAfter(wide: WideRunes, W: nat, f: Fill, t: Token): Fill {
    var w := TokenWidth(wide, t);
    if t.Space? && f.used == 0 && f.closed > 0 then f
    else if f.used + w <= W then Fill(f.closed, f.used + w)
    else if f.used == 0 then Chopped(wide, W, f.closed, TokenText(t))
    else if t.Space? then Fill(f.closed + 1, 0)
    else Chopped(wide, W, f.closed + 1, TokenText(t))
  }

  // ----- what a wrap does to its lines depends on these alone -----

  lemma CutFill(wide: WideRunes, W: nat, st: Wrap, span: Span, rs: string, n: nat) returns (next: Wrap)
    requires Good(wide, W, st) && W >= 2 && st.cur == [] && rs != "" && n == CutCount(wide, rs, W)
    ensures next == Flushed(Added(st, span.(text := rs[..n]), StringWidth(wide, rs[..n])))
    ensures Good(wide, W, next) && next.cur == [] && FillOf(next) == Fill(|st.lines| + 1, 0)
  {
    next := CutStepKeeps(wide, W, st, span, rs, n);
    assert Added(st, span.(text := rs[..n]), StringWidth(wide, rs[..n])).cur != [];
    hide CutCount;
    hide Content;
    hide StringWidth;
  }

  lemma {:induction false} PlacedRestFill(wide: WideRunes, W: nat, st: Wrap, span: Span, rs: string)
    requires Good(wide, W, st) && W >= 2 && st.cur == []
    ensures FillOf(PlacedRest(wide, W, st, span, rs)) == Chopped(wide, W, |st.lines|, rs)
    decreases |rs|
  {
    assert st.curW == 0;
    if StringWidth(wide, rs) > W {
      var n := CutCount(wide, rs, W);
      var next := CutFill(wide, W, st, span, rs, n);
      hide Good;
      hide CutCount;
      hide StringWidth;
      PlacedRestFill(wide, W, next, span, rs[n..]);
    }
  }

  lemma PlacedFits(wide: WideRunes, W: nat, st: Wrap, span: Span)
    requires Good(wide, W, st) && st.curW + StringWidth(wide, span.text) <= W
    ensures FillOf(Placed(wide, W, st, span)) == Fill(|st.lines|, st.curW + StringWidth(wide, span.text))
  {
  }

  lemma PlacedFill(wide: WideRunes, W: nat, st: Wrap, span: Span)
    requires Good(wide, W, st) && W >= 2 && st.curW + StringWidth(wide, span.text) > W
    ensures FillOf(Placed(wide, W, st, span))
         == Chopped(wide, W, if st.curW > 0 then |st.lines| + 1 else |st.lines|, span.text)
  {
    FlushedKeeps(wide, W, st);
    var room := RoomFor(W, st, StringWidth(wide, span.text));
    assert Good(wide, W, room) && room.cur == [] && |room.lines| == if st.curW > 0 then |st.lines| + 1 else |st.lines|;
    hide Good;
    PlacedRestFill(wide, W, room, span, span.text);
  }

  lemma FedFill(wide: WideRunes, W: nat, st: Wrap, t: Token)
    requires Good(wide, W, st) && W >= 2 && ValidToken(t)
    ensures FillOf(Fed(wide, W, st, t)) == FillAfter(wide, W, FillOf(st), t)
  {
    var span := if t.Word? then t.span else Plain(t.text);
    if st.curW + TokenWidth(wide, t) <= W {
      PlacedFits(wide, W, st, span);
    } else {
      PlacedFill(wide, W, st, span);
      assert st.curW > 0 ==> FillOf(Flushed(st)) == Fill(|st.lines| + 1, 0);
    }
    hide Placed;
    hide Chopped;
  }

  // ----- a wider line stays ahead -----

  /** a has closed fewer lines than b, or as many with no more on the open one. */
  predicate Behind(a: Fill, b: Fill) {
    a.closed < b.closed || (a.closed == b.closed && a.used <= b.used)
  }

  lemma {:induction false} ChoppedGrows(wide: WideRunes, W: nat, closed: nat, rs: string)
    ensures Chopped(wide, W, closed, rs).closed >= closed
    ensures rs != "" && StringWidth(wide, rs) > W ==> Chopped(wide, W, closed, rs).closed > closed
    decreases |rs|
  {
    if StringWidth(wide, rs) > W && rs != "" {
      ChoppedGrows(wide, W, closed + 1, rs[CutCount(wide, rs, W)..]);
    }
  }

  /** What is left after a cut of the wider line is no longer. */
  lemma CutFurther(wide: WideRunes, W: nat, wider: nat, gone: string, rs: string)
    requires 2 <= W <= wider && rs != ""
    ensures CutCount(wide, gone + rs, W) <= |gone| + CutCount(wide, rs, wider)
  {
    var all := gone + rs;
    var n := CutCount(wide, all, W);
    FitCountIsLongest(wide, all, W);
    FitCountIsLongest(wide, rs, wider);
    if n > |gone| + 1 {
      var taken := rs[..n - |gone|];
      assert all[..n] == gone + taken;
      WidthConcat(wide, gone, taken);
    }
  }

  lemma Cutting(gone: string, rs: string, n: nat, m: nat) returns (more: string)
    requires n <= |gone| + m && m <= |rs| && n <= |gone + rs|
    ensures (gone + rs)[n..] == more + rs[m..]
  {
    more := (gone + rs)[n..|gone| + m];
  }

  lemma {:induction false} ChoppedBehind(wide: WideRunes, W: nat, wider: nat, a: nat, b: nat, gone: string, rs: string)
    requires 2 <= W <= wider && a <= b
    ensures Behind(Chopped(wide, wider, a, rs), Chopped(wide, W, b, gone + rs))
    decreases |gone + rs|
  {
    WidthConcat(wide, gone, rs);
    var all := gone + rs;
    if StringWidth(wide, all) > W {
      ChoppedGrows(wide, W, b, all);
      if StringWidth(wide, rs) > wider {
        var n, m := CutCount(wide, all, W), CutCount(wide, rs, wider);
        CutFurther(wide, W, wider, gone, rs);
        var more := Cutting(gone, rs, n, m);
        hide StringWidth;
        hide CutCount;
        ChoppedBehind(wide, W, wider, a + 1, b + 1, more, rs[m..]);
      }
    }
  }

  /** Nothing has been taken in yet. */
  predicate AtStart(f: Fill) {
    f == Fill(0, 0)
  }

  predicate Leads(wider: Fill, f: Fill) {
    Behind(wider, f) && (AtStart(wider) ==> AtStart(f))
  }

  lemma {:induction false} ChoppedStarts(wide: WideRunes, W: nat, closed: nat, rs: string)
    ensures AtStart(Chopped(wide, W, closed, rs)) ==> closed == 0 && rs == ""
  {
    WidthBounds(wide, rs);
    ChoppedGrows(wide, W, closed, rs);
  }

  lemma StepLeads(wide: WideRunes, W: nat, wider: nat, a: Fill, b: Fill, t: Token)
    requires 2 <= W <= wider && Leads(a, b) && ValidToken(t)
    ensures Leads(FillAfter(wide, wider, a, t), FillAfter(wide, W, b, t))
  {
    var text := TokenText(t);
    WidthBounds(wide, text);
    ChoppedStarts(wide, wider, a.closed, text);
    ChoppedGrows(wide, wider, a.closed + 1, text);
    forall closed: nat {:trigger Chopped(wide, W, closed, text)}
      ensures Chopped(wide, W, closed, text).closed >= closed
      ensures TokenWidth(wide, t) > W ==> Chopped(wide, W, closed, text).closed > closed
    {
      ChoppedGrows(wide, W, closed, text);
    }
    forall x: nat, y: nat {:trigger Chopped(wide, wider, x, text), Chopped(wide, W, y, text)} | x <= y
      ensures Behind(Chopped(wide, wider, x, text), Chopped(wide, W, y, text))
    {
      assert "" + text == text;
      ChoppedBehind(wide, W, wider, x, y, "", text);
    }
    hide Chopped;
  }

  lemma {:induction false} FedAllLeads(wide: WideRunes, W: nat, wider: nat, tokens: seq<Token>)
    requires 2 <= W <= wider && forall t | t in tokens :: ValidToken(t)
    ensures Leads(FillOf(FedAll(wide, wider, START, tokens)), FillOf(FedAll(wide, W, START, tokens)))
  {
    if tokens != [] {
      var init, last := tokens[..|tokens| - 1], tokens[|tokens| - 1];
      assert last in tokens;
      FedAllLeads(wide, W, wider, init);
      FedAllKeeps(wide, W, init);
      FedAllKeeps(wide, wider, init);
      hide Good;
      hide Fed;
      hide FillAfter;
      hide Leads;
      FedFill(wide, W, FedAll(wide, W, START, init), last);
      FedFill(wide, wider, FedAll(wide, wider, START, init), last);
      StepLeads(wide, W, wider, FillOf(FedAll(wide, wider, START, init)), FillOf(FedAll(wide, W, START, init)), last);
    }
  }

  lemma LineCount(wide: WideRunes, W: nat, st: Wrap)
    requires Good(wide, W, st)
    ensures var closed := |st.lines| + if st.curW > 0 then 1 else 0;
            |Lines(st)| == if closed == 0 then 1 else closed
  {
  }

  /** A wider panel never makes a paragraph taller. */
  lemma WiderIsNoTaller(wide: WideRunes, availWidth: int, wider: int, spans: seq<Span>)
    requires availWidth <= wider
    ensures |Lines(Filled(wide, wider, spans))| <= |Lines(Filled(wide, availWidth, spans))|
  {
    var tokens, W, V := AllTokens(spans), LineWidthFor(availWidth), LineWidthFor(wider);
    AllTokensMarks(spans);
    FedAllKeeps(wide, W, tokens);
    FedAllKeeps(wide, V, tokens);
    hide Good;
    hide FedAll;
    hide AllTokens;
    FedAllLeads(wide, W, V, tokens);
    LineCount(wide, W, FedAll(wide, W, START, tokens));
    LineCount(wide, V, FedAll(wide, V, START, tokens));
  }
}
