/** A line of dropped file paths, split where it is neither quoted nor escaped, and unescaped. */
module DroppedPaths {
  import opened Bytes

  predicate Blank(r: char) {
    r == ' ' || r == '\t'
  }

  predicate Quote(r: char) {
    r == '\'' || r == '"'
  }

  // ----- where a line is split -----

  /** What a rune is read in: the quote it is in, 0 for none, and whether it is escaped. */
  datatype Mode = Mode(quote: char, escaped: bool)

  const NO_QUOTE: char := 0 as char
  const PLAIN := Mode(NO_QUOTE, false)

  /** The mode after r. On Windows the backslash does not escape; nor does it in single quotes. */
  function Next(m: Mode, r: char, windows: bool): Mode {
    if m.escaped then m.(escaped := false)
    else if r == '\\' && m.quote != '\'' && !windows then m.(escaped := true)
    else if m.quote != NO_QUOTE then if r == m.quote then m.(quote := NO_QUOTE) else m
    else if Quote(r) then m.(quote := r)
    else m
  }

  function ModeAfter(s: string, windows: bool): Mode {
    if s == "" then PLAIN else Next(ModeAfter(s[..|s| - 1], windows), s[|s| - 1], windows)
  }

  /** The pieces with t put at the end of the last one. */
  function AddTo(ps: seq<string>, t: string): (r: seq<string>)
    requires ps != []
    ensures r != []
  {
    ps[..|ps| - 1] + [ps[|ps| - 1] + t]
  }

  lemma AddTwice(ps: seq<string>, a: string, b: string)
    requires ps != []
    ensures AddTo(AddTo(ps, a), b) == AddTo(ps, a + b)
  {
    Regrouped(ps[|ps| - 1], a, b);
    assert AddTo(ps, a)[..|ps| - 1] == ps[..|ps| - 1];
  }

  lemma AddNothing(ps: seq<string>)
    requires ps != []
    ensures AddTo(ps, "") == ps
  {
    assert ps[|ps| - 1] + "" == ps[|ps| - 1];
  }

  /** The pieces of s between the blanks that are neither quoted nor escaped. */
  function Pieces(s: string, windows: bool): (p: seq<string>)
    ensures p != []
  {
    if s == "" then [""]
    else
      var init, r := s[..|s| - 1], s[|s| - 1];
      var before := Pieces(init, windows);
      if Blank(r) && ModeAfter(init, windows) == PLAIN then before + [""]
      else AddTo(before, [r])
  }

  function NonEmpty(ps: seq<string>): seq<string> {
    if ps == [] then [] else NonEmpty(ps[..|ps| - 1]) + if ps[|ps| - 1] == "" then [] else [ps[|ps| - 1]]
  }

  lemma OneMore(ps: seq<string>, p: string)
    ensures NonEmpty(ps + [p]) == NonEmpty(ps) + if p == "" then [] else [p]
  {
    assert (ps + [p])[..|ps|] == ps;
  }

  lemma {:induction false} NoneIsEmpty(ps: seq<string>)
    ensures forall p | p in NonEmpty(ps) :: p != ""
  {
    if ps != [] {
      NoneIsEmpty(ps[..|ps| - 1]);
    }
  }

  /** The runes of s that are not such blanks. */
  function Kept(s: string, windows: bool): string {
    if s == "" then ""
    else
      var init, r := s[..|s| - 1], s[|s| - 1];
      Kept(init, windows) + if Blank(r) && ModeAfter(init, windows) == PLAIN then "" else [r]
  }

  lemma {:induction false} PiecesHoldKept(s: string, windows: bool)
    ensures Concat(Pieces(s, windows)) == Kept(s, windows)
  {
    if s == "" {
      assert [""][..0] == [];
    } else {
      var init, r := s[..|s| - 1], s[|s| - 1];
      PiecesHoldKept(init, windows);
      var before := Pieces(init, windows);
      var n := |before| - 1;
      assert (before + [""])[..|before|] == before;
      assert (before[..n] + [before[n] + [r]])[..n] == before[..n];
      Regrouped(Concat(before[..n]), before[n], [r]);
    }
  }

  lemma {:induction false} NonEmptyHoldsAll(ps: seq<string>)
    ensures Concat(NonEmpty(ps)) == Concat(ps)
  {
    if ps != [] {
      var init, last := ps[..|ps| - 1], ps[|ps| - 1];
      NonEmptyHoldsAll(init);
      if last == "" {
        assert Concat(init) + last == Concat(init) && NonEmpty(init) + [] == NonEmpty(init);
      } else {
        var all := NonEmpty(init) + [last];
        assert all[..|all| - 1] == NonEmpty(init);
      }
    }
  }

  lemma OneRune(s: string, r: char, windows: bool)
    ensures ModeAfter(s + [r], windows) == Next(ModeAfter(s, windows), r, windows)
    ensures Pieces(s + [r], windows)
         == if Blank(r) && ModeAfter(s, windows) == PLAIN then Pieces(s, windows) + [""] else AddTo(Pieces(s, windows), [r])
  {
    assert (s + [r])[..|s|] == s;
  }

  /** The pieces ps are the parts done and the one being read. */
  predicate Reading(ps: seq<string>, parts: seq<string>, cur: string) {
    ps != [] && parts == NonEmpty(ps[..|ps| - 1]) && cur == ps[|ps| - 1]
  }

  lemma StartsReading()
    ensures Reading([""], [], "")
  {
    assert [""][..0] == [];
  }

  lemma ReadsOn(ps: seq<string>, parts: seq<string>, cur: string, r: char)
    requires Reading(ps, parts, cur)
    ensures Reading(AddTo(ps, [r]), parts, cur + [r])
  {
    assert AddTo(ps, [r])[..|ps| - 1] == ps[..|ps| - 1];
  }

  lemma ReadsNext(ps: seq<string>, parts: seq<string>, cur: string)
    requires Reading(ps, parts, cur)
    ensures NonEmpty(ps) == if cur == "" then parts else parts + [cur]
    ensures Reading(ps + [""], NonEmpty(ps), "")
  {
    assert (ps + [""])[..|ps|] == ps;
  }

  /** Splits s: the parts are the pieces that are not empty. */
  method SplitDroppedPaths(s: string, windows: bool) returns (parts: seq<string>)
    ensures parts == NonEmpty(Pieces(s, windows))
  {
    StartsReading();
    hide Pieces;
    hide Reading;
    hide NonEmpty;
    hide AddTo;
    assert Pieces("", windows) == [""] && ModeAfter("", windows) == PLAIN by { NothingRead(windows); }
    hide ModeAfter;
    parts := [];
    var cur := "";
    var quote := NO_QUOTE;
    var escaped := false;
    for i := 0 to |s|
      invariant ModeAfter(s[..i], windows) == Mode(quote, escaped)
      invariant Reading(Pieces(s[..i], windows), parts, cur)
    {
      var r := s[i];
      assert s[..i + 1] == s[..i] + [r];
      OneRune(s[..i], r, windows);
      ReadsOn(Pieces(s[..i], windows), parts, cur, r);
      ReadsNext(Pieces(s[..i], windows), parts, cur);
      if escaped {
        cur := cur + [r];
        escaped := false;
      } else if r == '\\' && quote != '\'' && !windows {
        cur := cur + [r];
        escaped := true;
      } else if quote != NO_QUOTE {
        cur := cur + [r];
        if r == quote {
          quote := NO_QUOTE;
        }
      } else if Quote(r) {
        cur := cur + [r];
        quote := r;
      } else if Blank(r) {
        if |cur| > 0 {
          parts := parts + [cur];
          cur := "";
        }
      } else {
        cur := cur + [r];
      }
    }
    assert s[..|s|] == s;
    ReadsNext(Pieces(s, windows), parts, cur);
    if |cur| > 0 {
      parts := parts + [cur];
    }
  }

  lemma NothingRead(windows: bool)
    ensures Pieces("", windows) == [""] && ModeAfter("", windows) == PLAIN
  {
  }

  /** No part is empty, and only blanks that are neither quoted nor escaped are gone. */
  lemma PartsKeepTheRest(s: string, windows: bool)
    ensures Concat(NonEmpty(Pieces(s, windows))) == Kept(s, windows)
    ensures forall p | p in NonEmpty(Pieces(s, windows)) :: p != ""
  {
    PiecesHoldKept(s, windows);
    NonEmptyHoldsAll(Pieces(s, windows));
    NoneIsEmpty(Pieces(s, windows));
  }

  // ----- escapes -----

  /** What is left of s without the backslashes that escape, and whether its last rune is one. */
  datatype Unescaped = Unescaped(text: string, escaped: bool)

  function UnescapedTo(s: string): Unescaped {
    if s == "" then Unescaped("", false)
    else
      var u, r := UnescapedTo(s[..|s| - 1]), s[|s| - 1];
      if r == '\\' && !u.escaped then u.(escaped := true) else Unescaped(u.text + [r], false)
  }

  method UnescapeShell(s: string) returns (b: string)
    ensures b == UnescapedTo(s).text
  {
    b := "";
    var escaped := false;
    for i := 0 to |s|
      invariant UnescapedTo(s[..i]) == Unescaped(b, escaped)
    {
      var r := s[i];
      assert s[..i + 1][..i] == s[..i];
      if r == '\\' && !escaped {
        escaped := true;
        continue;
      }
      b := b + [r];
      escaped := false;
    }
    assert s[..|s|] == s;
  }

  // ----- the round trip -----

  /** What a backslash is put before. */
  predicate Special(r: char) {
    Blank(r) || Quote(r) || r == '\\'
  }

  function EscapeRune(r: char): string {
    if Special(r) then ['\\', r] else [r]
  }

  function Escape(p: string): string {
    if p == "" then "" else Escape(p[..|p| - 1]) + EscapeRune(p[|p| - 1])
  }

  function EscapeAll(ps: seq<string>): (r: seq<string>)
    ensures |r| == |ps|
  {
    seq(|ps|, i requires 0 <= i < |ps| => Escape(ps[i]))
  }

  function UnescapeAll(ps: seq<string>): (r: seq<string>)
    ensures |r| == |ps|
  {
    seq(|ps|, i requires 0 <= i < |ps| => UnescapedTo(ps[i]).text)
  }

  /** Paths joined with single blanks. */
  function Joined(ps: seq<string>): string {
    if ps == [] then ""
    else if |ps| == 1 then ps[0]
    else Joined(ps[..|ps| - 1]) + " " + ps[|ps| - 1]
  }

  lemma UnescapedPush(s: string, r: char)
    ensures var u := UnescapedTo(s);
            UnescapedTo(s + [r]) == if r == '\\' && !u.escaped then u.(escaped := true) else Unescaped(u.text + [r], false)
  {
    assert (s + [r])[..|s|] == s;
  }

  lemma RuneComesBack(e: string, r: char)
    requires !UnescapedTo(e).escaped
    ensures UnescapedTo(e + EscapeRune(r)) == Unescaped(UnescapedTo(e).text + [r], false)
  {
    UnescapedPush(e, r);
    UnescapedPush(e, '\\');
    UnescapedPush(e + ['\\'], r);
    assert e + ['\\', r] == e + ['\\'] + [r];
    hide UnescapedTo;
  }

  lemma {:induction false} UnescapeEscape(p: string)
    ensures UnescapedTo(Escape(p)) == Unescaped(p, false)
  {
    if p != "" {
      var init, r := p[..|p| - 1], p[|p| - 1];
      UnescapeEscape(init);
      var e := Escape(init);
      assert init + [r] == p;
      hide *;
      RuneComesBack(e, r);
    }
  }

  /** A rune, escaped if it has to be, is added to the last piece. */
  lemma OneEscaped(s: string, r: char)
    requires ModeAfter(s, false) == PLAIN
    ensures var t := EscapeRune(r);
            ModeAfter(s + t, false) == PLAIN && Pieces(s + t, false) == AddTo(Pieces(s, false), t)
  {
    if Special(r) {
      OneRune(s, '\\', false);
      OneRune(s + "\\", r, false);
      AddTwice(Pieces(s, false), "\\", [r]);
      Regrouped(s, "\\", [r]);
      assert "\\" + [r] == EscapeRune(r);
    } else {
      OneRune(s, r, false);
    }
    hide Pieces;
    hide ModeAfter;
    hide AddTo;
  }

  /** Reading an escaped path after s, outside quotes and escapes, adds it to the last piece. */
  lemma {:induction false} EscapedStaysWhole(s: string, p: string)
    requires ModeAfter(s, false) == PLAIN
    ensures ModeAfter(s + Escape(p), false) == PLAIN
    ensures Pieces(s + Escape(p), false) == AddTo(Pieces(s, false), Escape(p))
  {
    if p == "" {
      assert s + "" == s;
      AddNothing(Pieces(s, false));
    } else {
      var init, r := p[..|p| - 1], p[|p| - 1];
      EscapedStaysWhole(s, init);
      var e, t := Escape(init), EscapeRune(r);
      assert Escape(p) == e + t;
      hide *;
      OneEscaped(s + e, r);
      AddTwice(Pieces(s, false), e, t);
      Regrouped(s, e, t);
    }
  }

  lemma JoinedOneMore(es: seq<string>)
    requires |es| > 1
    ensures Joined(es) == Joined(es[..|es| - 1]) + " " + es[|es| - 1]
  {
  }

  lemma AddToNew(ps: seq<string>, t: string)
    ensures AddTo(ps + [""], t) == ps + [t]
  {
    assert (ps + [""])[..|ps|] == ps && "" + t == t;
  }

  lemma EscapeAllOneMore(ps: seq<string>)
    requires ps != []
    ensures EscapeAll(ps) == EscapeAll(ps[..|ps| - 1]) + [Escape(ps[|ps| - 1])]
  {
    hide Escape;
  }

  /** Joined escaped paths fall into these pieces again. */
  lemma {:induction false} PiecesOfJoined(ps: seq<string>)
    requires ps != []
    ensures ModeAfter(Joined(EscapeAll(ps)), false) == PLAIN
    ensures Pieces(Joined(EscapeAll(ps)), false) == EscapeAll(ps)
  {
    var n := |ps| - 1;
    var last := Escape(ps[n]);
    if n == 0 {
      EscapedStaysWhole("", ps[0]);
      AddToNew([], last);
      assert "" + last == last && [] + [""] == [""] && [] + [last] == [last];
      assert EscapeAll(ps) == [last];
      hide Escape;
    } else {
      PiecesOfJoined(ps[..n]);
      EscapeAllOneMore(ps);
      hide *;
      var init := EscapeAll(ps[..n]);
      var es, j := init + [last], Joined(init);
      assert es[..n] == init;
      JoinedOneMore(es);
      JoinsPlainly(j);
      EscapedStaysWhole(j + " ", ps[n]);
      AddToNew(init, last);
    }
  }

  lemma JoinsPlainly(j: string)
    requires ModeAfter(j, false) == PLAIN
    ensures ModeAfter(j + " ", false) == PLAIN && Pieces(j + " ", false) == Pieces(j, false) + [""]
  {
    OneRune(j, ' ', false);
  }

  lemma UnescapeAllOneMore(es: seq<string>, e: string)
    ensures UnescapeAll(es + [e]) == UnescapeAll(es) + [UnescapedTo(e).text]
  {
    hide UnescapedTo;
  }

  lemma EscapesNothing(p: string)
    ensures Escape(p) == "" <==> p == ""
  {
  }

  lemma NonEmptyOneMore(ps: seq<string>)
    requires ps != []
    ensures NonEmpty(ps) == NonEmpty(ps[..|ps| - 1]) + if ps[|ps| - 1] == "" then [] else [ps[|ps| - 1]]
  {
  }

  lemma {:induction false} UnescapeNonEmpty(ps: seq<string>)
    ensures UnescapeAll(NonEmpty(EscapeAll(ps))) == NonEmpty(ps)
  {
    if ps != [] {
      var init, last := ps[..|ps| - 1], ps[|ps| - 1];
      EscapeAllOneMore(ps);
      hide *;
      UnescapeNonEmpty(init);
      var es, e := EscapeAll(init), Escape(last);
      OneMore(es, e);
      NonEmptyOneMore(ps);
      UnescapeEscape(last);
      EscapesNothing(last);
      UnescapeAllOneMore(NonEmpty(es), e);
    }
  }

  /** Escaped, joined, split and unescaped, paths come back, without the empty ones. */
  lemma PathsComeBack(ps: seq<string>)
    ensures UnescapeAll(NonEmpty(Pieces(Joined(EscapeAll(ps)), false))) == NonEmpty(ps)
  {
    if ps == [] {
      OneMore([], "");
    } else {
      PiecesOfJoined(ps);
      UnescapeNonEmpty(ps);
    }
  }

  lemma {:induction false} NonEmptyIsAllIff(ps: seq<string>)
    ensures |NonEmpty(ps)| <= |ps|
    ensures NonEmpty(ps) == ps <==> forall i | 0 <= i < |ps| :: ps[i] != ""
  {
    if ps != [] {
      var init, last := ps[..|ps| - 1], ps[|ps| - 1];
      NonEmptyIsAllIff(init);
      assert ps == init + [last];
      if NonEmpty(ps) == ps {
        assert last != "" && NonEmpty(init) == (NonEmpty(init) + [last])[..|init|];
      }
    }
  }

  /** They all come back exactly when none is empty. */
  lemma RoundTripIff(ps: seq<string>)
    ensures UnescapeAll(NonEmpty(Pieces(Joined(EscapeAll(ps)), false))) == ps <==> forall i | 0 <= i < |ps| :: ps[i] != ""
  {
    PathsComeBack(ps);
    NonEmptyIsAllIff(ps);
  }
}
