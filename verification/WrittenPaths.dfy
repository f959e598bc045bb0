/** Paths written bare, in single or in double quotes, with any blanks between them, are split where they were put
    together, on Windows and elsewhere. */
module WrittenPaths {
  import opened Bytes
  import opened DroppedPaths

  datatype Written = Bare(path: string) | Single(path: string) | Double(path: string)

  /** Elsewhere a bare path is escaped; on Windows it cannot be. */
  function TextOf(w: Written, windows: bool): string {
    match w
    case Bare(p) => if windows then p else Escape(p)
    case Single(p) => "'" + p + "'"
    case Double(p) => "\"" + p + "\""
  }

  /** The path can be written so: what would end it is not in it. */
  predicate Writable(w: Written, windows: bool) {
    match w
    case Bare(p) => p != "" && (windows ==> forall i | 0 <= i < |p| :: p[i] != ' ' && p[i] != '\t' && p[i] != '\'' && p[i] != '"')
    case Single(p) => '\'' !in p
    case Double(p) => '"' !in p && (windows || '\\' !in p)
  }

  // ----- one path -----

  /** Reading t in mode m leads to mode m', and adds it to the last piece. */
  predicate Adds(s: string, t: string, windows: bool, m': Mode) {
    ModeAfter(s + t, windows) == m' && Pieces(s + t, windows) == AddTo(Pieces(s, windows), t)
  }

  lemma AddsNothing(s: string, windows: bool)
    ensures Adds(s, "", windows, ModeAfter(s, windows))
  {
    assert s + "" == s;
    AddNothing(Pieces(s, windows));
  }

  lemma AddsOneMore(s: string, t: string, r: char, windows: bool, m: Mode)
    requires Adds(s, t, windows, m) && !(Blank(r) && m == PLAIN)
    ensures Adds(s, t + [r], windows, Next(m, r, windows))
  {
    OneRune(s + t, r, windows);
    AddTwice(Pieces(s, windows), t, [r]);
    Regrouped(s, t, [r]);
    hide Pieces;
    hide ModeAfter;
    hide AddTo;
    hide Next;
  }

  /** Within a quote that it does not hold, a path stays whole. */
  lemma {:induction false} InQuotes(s: string, quote: char, p: string, windows: bool)
    requires ModeAfter(s, windows) == PLAIN && Quote(quote)
    requires quote !in p && (quote == '\'' || windows || '\\' !in p)
    ensures Adds(s, [quote] + p, windows, Mode(quote, false))
  {
    if p == "" {
      AddsNothing(s, windows);
      AddsOneMore(s, "", quote, windows, PLAIN);
      assert "" + [quote] == [quote] + "";
    } else {
      var init, r := p[..|p| - 1], p[|p| - 1];
      InQuotes(s, quote, init, windows);
      assert [quote] + init + [r] == [quote] + p;
      hide Adds;
      AddsOneMore(s, [quote] + init, r, windows, Mode(quote, false));
    }
  }

  lemma Quoted(s: string, quote: char, p: string, windows: bool)
    requires ModeAfter(s, windows) == PLAIN && Quote(quote)
    requires quote !in p && (quote == '\'' || windows || '\\' !in p)
    ensures Adds(s, [quote] + p + [quote], windows, PLAIN)
  {
    InQuotes(s, quote, p, windows);
    AddsOneMore(s, [quote] + p, quote, windows, Mode(quote, false));
    hide Adds;
  }

  lemma {:induction false} Plainly(s: string, p: string)
    requires ModeAfter(s, true) == PLAIN && forall i | 0 <= i < |p| :: !Blank(p[i]) && !Quote(p[i])
    ensures Adds(s, p, true, PLAIN)
  {
    if p == "" {
      AddsNothing(s, true);
    } else {
      var init, r := p[..|p| - 1], p[|p| - 1];
      Plainly(s, init);
      assert init + [r] == p;
      AddsOneMore(s, init, r, true, PLAIN);
      hide Adds;
    }
  }

  lemma WrittenStaysWhole(s: string, w: Written, windows: bool)
    requires ModeAfter(s, windows) == PLAIN && Writable(w, windows)
    ensures TextOf(w, windows) != "" && Adds(s, TextOf(w, windows), windows, PLAIN)
  {
    match w
    case Bare(p) =>
      if windows {
        Plainly(s, p);
      } else {
        EscapesNothing(p);
        EscapedStaysWhole(s, p);
      }
    case Single(p) => Quoted(s, '\'', p, windows);
    case Double(p) => Quoted(s, '"', p, windows);
  }

  // ----- blanks -----

  predicate AllBlank(gap: string) {
    forall i | 0 <= i < |gap| :: gap[i] == ' ' || gap[i] == '\t'
  }

  lemma {:induction false} BlanksEnd(s: string, gap: string, windows: bool)
    requires ModeAfter(s, windows) == PLAIN && AllBlank(gap) && gap != ""
    ensures var ps := Pieces(s + gap, windows);
            && ModeAfter(s + gap, windows) == PLAIN
            && NonEmpty(ps) == NonEmpty(Pieces(s, windows)) && ps[|ps| - 1] == ""
  {
    var init, r := gap[..|gap| - 1], gap[|gap| - 1];
    assert s + init + [r] == s + gap;
    if init != "" {
      BlanksEnd(s, init, windows);
    } else {
      assert s + init == s;
    }
    OneRune(s + init, r, windows);
    OneMore(Pieces(s + init, windows), "");
    hide Pieces;
    hide ModeAfter;
    hide NonEmpty;
  }

  lemma AddedIsNew(ps: seq<string>, t: string)
    requires ps != [] && ps[|ps| - 1] == "" && t != ""
    ensures NonEmpty(AddTo(ps, t)) == NonEmpty(ps) + [t]
  {
    var init := ps[..|ps| - 1];
    OneMore(init, "");
    OneMore(init, t);
    AddedIs(ps, init, t);
    hide *;
  }

  lemma AddedIs(ps: seq<string>, init: seq<string>, t: string)
    requires ps != [] && ps[|ps| - 1] == "" && init == ps[..|ps| - 1]
    ensures ps == init + [""] && AddTo(ps, t) == init + [t]
    ensures NonEmpty(init) + [] == NonEmpty(init)
  {
    hide NonEmpty;
    assert "" + t == t;
  }

  // ----- a line of paths -----

  /** Each path after its blanks. */
  function Line(ws: seq<Written>, gaps: seq<string>, windows: bool): string
    requires |ws| == |gaps|
  {
    var n := |ws|;
    if n == 0 then "" else Line(ws[..n - 1], gaps[..n - 1], windows) + gaps[n - 1] + TextOf(ws[n - 1], windows)
  }

  function TextsOf(ws: seq<Written>, windows: bool): (ts: seq<string>)
    ensures |ts| == |ws|
  {
    seq(|ws|, i requires 0 <= i < |ws| => TextOf(ws[i], windows))
  }

  predicate Gaps(gaps: seq<string>) {
    forall i | 0 <= i < |gaps| :: AllBlank(gaps[i]) && (i > 0 ==> gaps[i] != "")
  }

  lemma TextsOneMore(ws: seq<Written>, windows: bool)
    requires ws != []
    ensures TextsOf(ws, windows) == TextsOf(ws[..|ws| - 1], windows) + [TextOf(ws[|ws| - 1], windows)]
  {
    hide TextOf;
  }

  lemma OnePath(s: string, gap: string, w: Written, windows: bool)
    requires ModeAfter(s, windows) == PLAIN && AllBlank(gap) && (gap == "" ==> s == "") && Writable(w, windows)
    ensures ModeAfter(s + gap + TextOf(w, windows), windows) == PLAIN
    ensures NonEmpty(Pieces(s + gap + TextOf(w, windows), windows)) == NonEmpty(Pieces(s, windows)) + [TextOf(w, windows)]
  {
    if gap == "" {
      NothingRead(windows);
      assert s + gap == "";
    } else {
      BlanksEnd(s, gap, windows);
    }
    hide TextOf;
    hide Pieces;
    hide NonEmpty;
    WrittenStaysWhole(s + gap, w, windows);
    AddedIsNew(Pieces(s + gap, windows), TextOf(w, windows));
    hide AddTo;
    hide ModeAfter;
  }

  lemma {:induction false} LineIsSplit(ws: seq<Written>, gaps: seq<string>, windows: bool)
    requires |ws| == |gaps| && Gaps(gaps) && forall i | 0 <= i < |ws| :: Writable(ws[i], windows)
    ensures ModeAfter(Line(ws, gaps, windows), windows) == PLAIN
    ensures NonEmpty(Pieces(Line(ws, gaps, windows), windows)) == TextsOf(ws, windows)
  {
    var n := |ws|;
    if n == 0 {
      NothingRead(windows);
      OneMore([], "");
    } else {
      hide Pieces;
      hide NonEmpty;
      hide ModeAfter;
      hide TextOf;
      hide Writable;
      hide AllBlank;
      LineIsSplit(ws[..n - 1], gaps[..n - 1], windows);
      TextsOneMore(ws, windows);
      OnePath(Line(ws[..n - 1], gaps[..n - 1], windows), gaps[n - 1], ws[n - 1], windows);
    }
  }

  /** A line of paths is split into exactly the paths as they were written, whatever quotes and blanks they hold and
      however many blanks are before, between and after them. */
  lemma WrittenPathsAreSplit(ws: seq<Written>, gaps: seq<string>, last: string, windows: bool)
    requires |ws| == |gaps| && Gaps(gaps) && AllBlank(last) && forall i | 0 <= i < |ws| :: Writable(ws[i], windows)
    ensures NonEmpty(Pieces(Line(ws, gaps, windows) + last, windows)) == TextsOf(ws, windows)
  {
    LineIsSplit(ws, gaps, windows);
    var s := Line(ws, gaps, windows);
    hide Line;
    hide TextsOf;
    if last == "" {
      assert s + last == s;
    } else {
      BlanksEnd(s, last, windows);
    }
  }
}
