/** How a token wider than a line is cut: each line takes as much of it as it has room for. */
module LongTokens {
  import Bytes
  import opened Cells
  import opened ChatSpans
  import opened ChatWrap
  import opened WrapLossless

  /** parts are rs in order, each no wider than W and none empty, and no part but the last leaves room for the
      rune after it. */
  predicate IsFullCut(wide: WideRunes, W: nat, parts: seq<string>, rs: string) {
    && Bytes.Concat(parts) == rs
    && (forall i | 0 <= i < |parts| :: parts[i] != "" && StringWidth(wide, parts[i]) <= W)
    && (forall i | 0 <= i < |parts| - 1 :: StringWidth(wide, parts[i]) + RuneWidth(wide, parts[i + 1][0]) > W)
  }

  /** st, whose line is empty, with each part of span on a line of its own, the last one open. */
  function Stacked(wide: WideRunes, st: Wrap, span: Span, parts: seq<string>): Wrap
    requires parts != []
  {
    var n := |parts| - 1;
    Wrap(st.lines + seq(n, i requires 0 <= i < n => [span.(text := parts[i])]),
         st.glue + seq(n, i requires 0 <= i < n => if i == 0 then st.curGlue else ""),
         [span.(text := parts[n])], StringWidth(wide, parts[n]), if n == 0 then st.curGlue else "")
  }

  lemma FirstPart(wide: WideRunes, W: nat, parts: seq<string>, rs: string)
    requires IsFullCut(wide, W, parts, rs) && rs != ""
    ensures parts != [] && rs == parts[0] + Bytes.Concat(parts[1..])
    ensures IsFullCut(wide, W, parts[1..], Bytes.Concat(parts[1..]))
    ensures |parts| > 1 ==> Bytes.Concat(parts[1..]) != "" && Bytes.Concat(parts[1..])[0] == parts[1][0]
    ensures |parts| == 1 ==> Bytes.Concat(parts[1..]) == ""
  {
    hide StringWidth;
    hide RuneWidth;
    Bytes.ConcatHead(parts);
    var rest := parts[1..];
    forall i | 0 <= i < |rest| - 1 ensures StringWidth(wide, rest[i]) + RuneWidth(wide, rest[i + 1][0]) > W {
      assert rest[i] == parts[i + 1] && rest[i + 1] == parts[i + 2];
    }
    if rest != [] {
      Bytes.ConcatHead(rest);
    }
  }

  lemma WidthOfPrefix(wide: WideRunes, s: string, n: nat, m: nat)
    requires n <= m <= |s|
    ensures StringWidth(wide, s[..n]) <= StringWidth(wide, s[..m])
  {
    assert s[..m] == s[..n] + s[n..m];
    WidthConcat(wide, s[..n], s[n..m]);
  }

  lemma WidthOfOne(wide: WideRunes, s: string, n: nat)
    requires n < |s|
    ensures StringWidth(wide, s[..n + 1]) == StringWidth(wide, s[..n]) + RuneWidth(wide, s[n])
  {
    assert s[..n + 1] == s[..n] + [s[n]];
    WidthConcat(wide, s[..n], [s[n]]);
    assert [s[n]][1..] == "";
  }

  /** A full first part is not shorter than any other that fits. */
  lemma FirstIsLongest(wide: WideRunes, W: nat, a: string, more: string, b: string, rest: string)
    requires a + more == b + rest && StringWidth(wide, b) <= W
    requires more != "" ==> StringWidth(wide, a) + RuneWidth(wide, more[0]) > W
    ensures |b| <= |a|
  {
    var s := a + more;
    if |b| > |a| {
      assert s[..|a|] == a && s[..|b|] == b && s[|a|] == more[0];
      WidthOfOne(wide, s, |a|);
      WidthOfPrefix(wide, s, |a| + 1, |b|);
    }
  }

  /** There is only one full cut. */
  lemma {:induction false} FullCutIsUnique(wide: WideRunes, W: nat, a: seq<string>, b: seq<string>, rs: string)
    requires IsFullCut(wide, W, a, rs) && IsFullCut(wide, W, b, rs)
    ensures a == b
    decreases |a|
  {
    if rs == "" {
      NoParts(a);
      NoParts(b);
    } else {
      FirstPart(wide, W, a, rs);
      FirstPart(wide, W, b, rs);
      var x, y := Bytes.Concat(a[1..]), Bytes.Concat(b[1..]);
      FirstIsLongest(wide, W, a[0], x, b[0], y);
      FirstIsLongest(wide, W, b[0], y, a[0], x);
      assert a[0] == rs[..|a[0]|] == b[0];
      assert x == rs[|a[0]|..] == y;
      FullCutIsUnique(wide, W, a[1..], b[1..], x);
      assert a == [a[0]] + a[1..] && b == [b[0]] + b[1..];
    }
  }

  lemma NoParts(parts: seq<string>)
    requires Bytes.Concat(parts) == "" && forall i | 0 <= i < |parts| :: parts[i] != ""
    ensures parts == []
  {
    if parts != [] {
      Bytes.ConcatHead(parts);
    }
  }

  /** A token placed on an empty line is cut in full. */
  lemma {:induction false} PlacedRestCuts(wide: WideRunes, W: nat, st: Wrap, span: Span, rs: string) returns (parts: seq<string>)
    requires W >= 2 && st.cur == [] && st.curW == 0 && rs != ""
    ensures parts != [] && IsFullCut(wide, W, parts, rs) && PlacedRest(wide, W, st, span, rs) == Stacked(wide, st, span, parts)
    decreases |rs|
  {
    if StringWidth(wide, rs) <= W {
      parts := [rs];
      OnePart(wide, W, st, span, rs);
    } else {
      var n := CutCount(wide, rs, W);
      CutLeavesNoRoom(wide, W, rs);
      var part := span.(text := rs[..n]);
      var next := Flushed(Added(st, part, StringWidth(wide, part.text)));
      assert Joined(st.cur, part) == [part];
      assert next == Wrap(st.lines + [[part]], st.glue + [st.curGlue], [], 0, "");
      var more := PlacedRestCuts(wide, W, next, span, rs[n..]);
      parts := [rs[..n]] + more;
      hide PlacedRest;
      hide CutCount;
      OneMorePart(wide, W, rs, n, more);
      StackedMore(wide, st, span, rs[..n], more);
    }
  }

  lemma OnePart(wide: WideRunes, W: nat, st: Wrap, span: Span, rs: string)
    requires st.cur == [] && st.curW == 0 && rs != "" && StringWidth(wide, rs) <= W
    ensures IsFullCut(wide, W, [rs], rs) && PlacedRest(wide, W, st, span, rs) == Stacked(wide, st, span, [rs])
  {
    Bytes.ConcatOfOne(rs);
    hide StringWidth;
    assert Stacked(wide, st, span, [rs]).lines == st.lines && Stacked(wide, st, span, [rs]).glue == st.glue;
  }

  /** A cut takes as much as there is room for. */
  lemma CutLeavesNoRoom(wide: WideRunes, W: nat, rs: string)
    requires W >= 2 && rs != "" && StringWidth(wide, rs) > W
    ensures var n := CutCount(wide, rs, W);
            && n < |rs| && StringWidth(wide, rs[..n]) <= W && StringWidth(wide, rs[..n]) + RuneWidth(wide, rs[n]) > W
  {
    FitCountIsLongest(wide, rs, W);
    assert rs[..|rs|] == rs;
    var n := CutCount(wide, rs, W);
    assert FitCount(wide, rs, W) > 0;
    WidthOfOne(wide, rs, n);
    hide StringWidth;
  }

  lemma OneMorePart(wide: WideRunes, W: nat, rs: string, n: nat, more: seq<string>)
    requires 0 < n < |rs| && IsFullCut(wide, W, more, rs[n..]) && more != []
    requires StringWidth(wide, rs[..n]) <= W && StringWidth(wide, rs[..n]) + RuneWidth(wide, rs[n]) > W
    ensures IsFullCut(wide, W, [rs[..n]] + more, rs)
  {
    hide StringWidth;
    hide RuneWidth;
    var parts := [rs[..n]] + more;
    FirstPart(wide, W, more, rs[n..]);
    assert more[0][0] == rs[n..][0] == rs[n];
    Bytes.ConcatHead(parts);
    assert parts[1..] == more && rs == rs[..n] + rs[n..];
    forall i | 0 <= i < |parts| - 1 ensures StringWidth(wide, parts[i]) + RuneWidth(wide, parts[i + 1][0]) > W {
      if i > 0 {
        assert parts[i] == more[i - 1] && parts[i + 1] == more[i];
      }
    }
  }

  lemma StackedMore(wide: WideRunes, st: Wrap, span: Span, first: string, more: seq<string>)
    requires more != [] && st.cur == []
    ensures Stacked(wide, Wrap(st.lines + [[span.(text := first)]], st.glue + [st.curGlue], [], 0, ""), span, more)
         == Stacked(wide, st, span, [first] + more)
  {
    hide StringWidth;
    var next := Wrap(st.lines + [[span.(text := first)]], st.glue + [st.curGlue], [], 0, "");
    var a, b := Stacked(wide, next, span, more), Stacked(wide, st, span, [first] + more);
    assert |a.lines| == |b.lines| && forall i | 0 <= i < |a.lines| :: a.lines[i] == b.lines[i];
    assert |a.glue| == |b.glue| && forall i | 0 <= i < |a.glue| :: a.glue[i] == b.glue[i];
  }

  /** A token that does not fit on the line that is open starts on a new one, and each of its lines but the last
      has no room for the rune that follows. */
  lemma PlacedCuts(wide: WideRunes, W: nat, st: Wrap, span: Span, parts: seq<string>)
    requires W >= 2 && Good(wide, W, st) && st.curW + StringWidth(wide, span.text) > W
    requires IsFullCut(wide, W, parts, span.text)
    ensures parts != [] && Placed(wide, W, st, span) == Stacked(wide, if st.cur == [] then st else Flushed(st), span, parts)
  {
    var room := RoomFor(W, st, StringWidth(wide, span.text));
    assert room == (if st.cur == [] then st else Flushed(st)) && room.cur == [] && room.curW == 0;
    assert span.text != "";
    hide Good;
    hide RoomFor;
    hide StringWidth;
    var cut := PlacedRestCuts(wide, W, room, span, span.text);
    FullCutIsUnique(wide, W, parts, cut, span.text);
  }
}
