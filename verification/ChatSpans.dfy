/** Cutting a chat message into link, copy and plain spans, and a span into words and spaces. */
module ChatSpans {
  import Bytes
  import opened Cells
  import opened Options

  /** A stretch of a message drawn one way. */
  datatype Span = Span(text: string, isLink: bool, clickURL: string, isCopy: bool, copyText: string)

  function Plain(text: string): Span {
    Span(text, false, "", false, "")
  }

  /** A link or a copy button; anything else is plain text, whatever addresses it carries. */
  predicate Special(span: Span) {
    span.isLink || span.isCopy
  }

  /** What a rune of span does when clicked: the span without its text. */
  function Mark(span: Span): Span {
    if Special(span) then span.(text := "") else Plain("")
  }

  /** A rune with the mark of the span it came from. */
  datatype MarkedRune = MarkedRune(r: char, mark: Span)

  function MarkAll(text: string, mark: Span): (m: seq<MarkedRune>)
    ensures |m| == |text|
  {
    seq(|text|, i requires 0 <= i < |text| => MarkedRune(text[i], mark))
  }

  lemma MarkAllConcat(a: string, b: string, mark: Span)
    ensures MarkAll(a + b, mark) == MarkAll(a, mark) + MarkAll(b, mark)
  {
  }

  function SpanMarks(span: Span): seq<MarkedRune> {
    MarkAll(span.text, Mark(span))
  }

  /** The runes of a list of spans, in order, each with its mark. */
  function Marks(spans: seq<Span>): seq<MarkedRune> {
    if spans == [] then [] else Marks(spans[..|spans| - 1]) + SpanMarks(spans[|spans| - 1])
  }

  lemma {:induction false} MarksConcat(a: seq<Span>, b: seq<Span>)
    ensures Marks(a + b) == Marks(a) + Marks(b)
  {
    var ab := a + b;
    if b == [] {
      assert ab == a;
    } else {
      var init, last := b[..|b| - 1], b[|b| - 1];
      assert ab[..|ab| - 1] == a + init && ab[|ab| - 1] == last;
      MarksConcat(a, init);
      assert Marks(a) + Marks(init) + SpanMarks(last) == Marks(a) + (Marks(init) + SpanMarks(last));
    }
  }

  /** The text of a list of spans. */
  function Text(spans: seq<Span>): string {
    if spans == [] then "" else Text(spans[..|spans| - 1]) + spans[|spans| - 1].text
  }

  function Unmark(m: seq<MarkedRune>): (s: string)
    ensures |s| == |m|
  {
    seq(|m|, i requires 0 <= i < |m| => m[i].r)
  }

  lemma {:induction false} MarksSpellText(spans: seq<Span>)
    ensures Unmark(Marks(spans)) == Text(spans)
  {
    if spans != [] {
      MarksSpellText(spans[..|spans| - 1]);
    }
  }

  // ----- words and spaces -----

  /** The length of the run of white space, or of its absence, that s starts with. */
  function RunLength(s: string): (n: nat)
    requires s != ""
    ensures 1 <= n <= |s|
    ensures forall i | 0 <= i < n :: IsSpace(s[i]) == IsSpace(s[0])
    ensures n < |s| ==> IsSpace(s[n]) != IsSpace(s[0])
  {
    if |s| == 1 || IsSpace(s[1]) != IsSpace(s[0]) then 1 else 1 + RunLength(s[1..])
  }

  /** s cut wherever white space begins or ends. */
  function Tokens(s: string): seq<string> {
    if s == "" then [] else [s[..RunLength(s)]] + Tokens(s[RunLength(s)..])
  }

  predicate OneKind(t: string) {
    t != "" && forall i | 0 <= i < |t| :: IsSpace(t[i]) == IsSpace(t[0])
  }

  /** ts are the maximal runs of s: they rebuild it, each is of one kind, and kinds alternate. */
  predicate IsTokenization(ts: seq<string>, s: string) {
    && Bytes.Concat(ts) == s
    && (forall i | 0 <= i < |ts| :: OneKind(ts[i]))
    && (forall i | 0 <= i < |ts| - 1 :: IsSpace(ts[i][0]) != IsSpace(ts[i + 1][0]))
  }

  lemma {:induction false} TokensTokenize(s: string)
    ensures IsTokenization(Tokens(s), s)
  {
    if s != "" {
      var n := RunLength(s);
      var first, rest := s[..n], Tokens(s[n..]);
      TokensTokenize(s[n..]);
      assert s == first + s[n..];
      TokenizationCons(first, rest, s[n..]);
    }
  }

  lemma TokenizationCons(first: string, rest: seq<string>, s: string)
    requires OneKind(first) && IsTokenization(rest, s)
    requires s != "" ==> IsSpace(s[0]) != IsSpace(first[0])
    ensures IsTokenization([first] + rest, first + s)
  {
    var ts := [first] + rest;
    assert ts[1..] == rest;
    Bytes.ConcatHead(ts);
    if rest != [] {
      Bytes.ConcatHead(rest);
      assert s[0] == rest[0][0];
    }
    forall i | 0 <= i < |ts| - 1 ensures IsSpace(ts[i][0]) != IsSpace(ts[i + 1][0]) {
      if i > 0 {
        assert ts[i] == rest[i - 1] && ts[i + 1] == rest[i];
      }
    }
  }

  /** There is only one such cut. */
  lemma {:induction false} TokenizationIsUnique(ts: seq<string>, s: string)
    requires IsTokenization(ts, s)
    ensures ts == Tokens(s)
  {
    if ts != [] {
      var first, rest := ts[0], Bytes.Concat(ts[1..]);
      Bytes.ConcatHead(ts);
      if |ts| > 1 {
        Bytes.ConcatHead(ts[1..]);
        assert rest[0] == ts[1][0];
      } else {
        assert ts[1..] == [];
      }
      assert IsTokenization(ts[1..], rest) by {
        assert forall i | 0 <= i < |ts[1..]| :: ts[1..][i] == ts[i + 1];
      }
      TokensOfRun(first, rest);
      TokenizationIsUnique(ts[1..], rest);
    }
  }

  method SplitWordsAndSpaces(s: string) returns (tokens: seq<string>)
    ensures tokens == Tokens(s)
  {
    hide IsSpace;
    hide Tokens;
    tokens := [];
    var current := "";
    var inSpace := false;
    assert current + s[0..] == s;
    for i := 0 to |s|
      invariant Tokens(s) == tokens + Tokens(current + s[i..])
      invariant current == "" ==> i == 0 && !inSpace
      invariant current != "" ==> OneKind(current) && inSpace == IsSpace(current[0])
    {
      var r := s[i];
      ScanStep(tokens, current, r, s[i..], s[i + 1..]);
      if IsSpace(r) {
        if !inSpace && |current| > 0 {
          tokens := tokens + [current];
          current := "";
        }
        inSpace := true;
        current := current + [r];
      } else {
        if inSpace && |current| > 0 {
          tokens := tokens + [current];
          current := "";
        }
        inSpace := false;
        current := current + [r];
      }
    }
    ScanEnd(current, s[|s|..]);
    if |current| > 0 {
      tokens := tokens + [current];
    }
  }

  lemma ScanEnd(current: string, rest: string)
    requires rest == "" && (current != "" ==> OneKind(current))
    ensures Tokens(current + rest) == if current == "" then [] else [current]
  {
    if current != "" {
      TokensOfRun(current, rest);
    }
  }

  lemma ScanStep(tokens: seq<string>, current: string, r: char, left: string, rest: string)
    requires left == [r] + rest
    requires current != "" ==> OneKind(current)
    ensures var breaks := current != "" && IsSpace(r) != IsSpace(current[0]);
            && (breaks ==> tokens + Tokens(current + left) == tokens + [current] + Tokens("" + [r] + rest))
            && (!breaks ==> Tokens(current + left) == Tokens(current + [r] + rest))
            && (!breaks ==> OneKind(current + [r]))
            && OneKind("" + [r])
  {
    assert "" + [r] + rest == left;
    if current != "" && IsSpace(r) != IsSpace(current[0]) {
      TokensOfRun(current, left);
    } else {
      assert current + left == current + [r] + rest;
    }
  }

  /** A run followed by the other kind is the first token. */
  lemma TokensOfRun(run: string, rest: string)
    requires OneKind(run)
    requires rest != "" ==> IsSpace(rest[0]) != IsSpace(run[0])
    ensures Tokens(run + rest) == [run] + Tokens(rest)
  {
    var s := run + rest;
    assert forall i | 0 <= i < |run| :: s[i] == run[i];
    assert rest != "" ==> s[|run|] == rest[0];
    var n := RunLength(s);
    assert n == |run|;
    assert s[..n] == run && s[n..] == rest;
  }

  // ----- spans -----

  /** A match of one of the patterns, as an interval of the text. */
  datatype Match = Match(start: nat, end: nat, isLink: bool, clickURL: string, isCopy: bool, copyText: string)

  predicate Within(m: Match, text: string) {
    m.start <= m.end <= |text|
  }

  /** The order matches are sorted in: by start, the longer first. */
  predicate InOrder(a: Match, b: Match) {
    a.start < b.start || (a.start == b.start && b.end <= a.end)
  }

  predicate Sorted(ms: seq<Match>) {
    forall i, j | 0 <= i < j < |ms| :: InOrder(ms[i], ms[j])
  }

  /** kept are the matches of ms the message shows: in order and apart, and a match is left out
      only for one kept before it that reaches past its start. */
  predicate IsSelection(kept: seq<Match>, ms: seq<Match>) {
    && (forall k | k in kept :: k in ms)
    && Apart(kept)
    && (forall m | m in ms :: m in kept || exists k :: k in kept && InOrder(k, m) && m.start < k.end)
  }

  function MatchSpan(text: string, m: Match): Span
    requires Within(m, text)
  {
    Span(text[m.start..m.end], m.isLink, m.clickURL, m.isCopy, m.copyText)
  }

  /** text with the runes of every kept match marked, and the others plain. */
  function Painted(text: string, kept: seq<Match>): (p: seq<MarkedRune>)
    requires forall k | k in kept :: Within(k, text)
    ensures |p| == |text|
  {
    seq(|text|, i requires 0 <= i < |text| => MarkedRune(text[i], MarkAt(text, kept, i)))
  }

  function MarkAt(text: string, kept: seq<Match>, i: nat): Span
    requires forall k | k in kept :: Within(k, text)
  {
    if kept == [] then Plain("")
    else if kept[0].start <= i < kept[0].end then Mark(MatchSpan(text, kept[0]))
    else MarkAt(text, kept[1..], i)
  }

  predicate Apart(kept: seq<Match>) {
    forall i, j | 0 <= i < j < |kept| :: kept[i].end <= kept[j].start
  }

  lemma {:induction false} MarkInside(text: string, kept: seq<Match>, k: nat, i: nat)
    requires forall m | m in kept :: Within(m, text)
    requires Apart(kept) && k < |kept| && kept[k].start <= i < kept[k].end
    ensures MarkAt(text, kept, i) == Mark(MatchSpan(text, kept[k]))
  {
    if k > 0 {
      assert kept[0].end <= kept[k].start;
      MarkInside(text, kept[1..], k - 1, i);
    }
  }

  lemma {:induction false} MarkOutside(text: string, kept: seq<Match>, i: nat)
    requires forall m | m in kept :: Within(m, text)
    requires forall k | 0 <= k < |kept| :: !(kept[k].start <= i < kept[k].end)
    ensures MarkAt(text, kept, i) == Plain("")
  {
    if kept != [] {
      MarkOutside(text, kept[1..], i);
    }
  }

  /** The matches kept, given where the last one kept ended. */
  function Select(sorted: seq<Match>, lastEnd: nat): seq<Match> {
    if sorted == [] then []
    else if sorted[0].start >= lastEnd then [sorted[0]] + Select(sorted[1..], sorted[0].end)
    else Select(sorted[1..], lastEnd)
  }

  lemma {:induction false} SelectApart(sorted: seq<Match>, lastEnd: nat)
    requires forall m | m in sorted :: m.start <= m.end
    ensures var kept := Select(sorted, lastEnd);
            && Apart(kept)
            && forall k | k in kept :: k in sorted && lastEnd <= k.start
  {
    if sorted != [] {
      var next := if sorted[0].start >= lastEnd then sorted[0].end else lastEnd;
      SelectApart(sorted[1..], next);
      var rest := Select(sorted[1..], next);
      if sorted[0].start >= lastEnd {
        var kept := [sorted[0]] + rest;
        forall i, j | 0 <= i < j < |kept| ensures kept[i].end <= kept[j].start {
          assert kept[j] == rest[j - 1] && rest[j - 1] in rest;
          if i > 0 {
            assert kept[i] == rest[i - 1];
          }
        }
      }
    }
  }

  /** A match is dropped only for one kept before it: last, the one that ended at lastEnd, or one
      kept later on. */
  lemma {:induction false} SelectDropsOverlaps(sorted: seq<Match>, lastEnd: nat, m: Match)
    requires Sorted(sorted) && m in sorted
    ensures var kept := Select(sorted, lastEnd);
            m in kept || m.start < lastEnd || exists k :: k in kept && InOrder(k, m) && m.start < k.end
  {
    if sorted[0].start >= lastEnd {
      var rest := Select(sorted[1..], sorted[0].end);
      assert Select(sorted, lastEnd) == [sorted[0]] + rest;
      if m != sorted[0] {
        SelectDropsOverlaps(sorted[1..], sorted[0].end, m);
        assert forall k | k in rest :: k in Select(sorted, lastEnd);
        assert sorted[0] in Select(sorted, lastEnd);
      }
    } else if m != sorted[0] {
      SelectDropsOverlaps(sorted[1..], lastEnd, m);
    }
  }

  lemma SelectIsSelection(sorted: seq<Match>)
    requires Sorted(sorted) && forall m | m in sorted :: m.start <= m.end
    ensures IsSelection(Select(sorted, 0), sorted)
    ensures Apart(Select(sorted, 0)) && forall k | k in Select(sorted, 0) :: k in sorted
  {
    var kept := Select(sorted, 0);
    SelectApart(sorted, 0);
    forall m | m in sorted ensures m in kept || exists k :: k in kept && InOrder(k, m) && m.start < k.end {
      SelectDropsOverlaps(sorted, 0, m);
    }
  }

  /** Drops the matches that overlap one kept before them. */
  method FilterOverlaps(sorted: seq<Match>) returns (filtered: seq<Match>)
    requires Sorted(sorted) && forall m | m in sorted :: m.start <= m.end
    ensures IsSelection(filtered, sorted)
    ensures sorted == [] ==> filtered == []
  {
    hide IsSelection;
    filtered := [];
    var lastEnd := 0;
    assert sorted[0..] == sorted;
    for i := 0 to |sorted|
      invariant Select(sorted, 0) == filtered + Select(sorted[i..], lastEnd)
    {
      var m := sorted[i];
      ghost var left := sorted[i..];
      assert left[0] == m && left[1..] == sorted[i + 1..];
      if m.start >= lastEnd {
        assert filtered + ([m] + Select(left[1..], m.end)) == filtered + [m] + Select(left[1..], m.end);
        filtered := filtered + [m];
        lastEnd := m.end;
      }
    }
    assert sorted[|sorted|..] == [];
    assert filtered == Select(sorted, 0);
    SelectIsSelection(sorted);
  }

  /** Cuts text at the matches kept. */
  method CutAtMatches(text: string, filtered: seq<Match>) returns (spans: seq<Span>)
    requires Apart(filtered) && forall m | m in filtered :: Within(m, text)
    ensures Marks(spans) == Painted(text, filtered)
  {
    hide Painted;
    hide SpanMarks;
    spans := [];
    var lastIdx := 0;
    for i := 0 to |filtered|
      invariant lastIdx == if i == 0 then 0 else filtered[i - 1].end
      invariant lastIdx <= |text| && Marks(spans) == Painted(text, filtered)[..lastIdx]
    {
      var m := filtered[i];
      CutGap(spans, text, filtered, i, lastIdx);
      if m.start > lastIdx {
        spans := spans + [Plain(text[lastIdx..m.start])];
      }
      CutMatch(spans, text, filtered, i);
      spans := spans + [MatchSpan(text, m)];
      lastIdx := m.end;
    }
    CutGap(spans, text, filtered, |filtered|, lastIdx);
    assert text[lastIdx..|text|] == text[lastIdx..];
    if lastIdx < |text| {
      spans := spans + [Plain(text[lastIdx..])];
    }
  }

  /** Cuts text into spans: one copy button when the whole of it is a /copy message (whole is then
      the text it copies), and otherwise at the matches of the patterns. sorted is what sorting
      the matches found gave; ties may come in any order. */
  method ParseMessageSpans(text: string, whole: Option<string>, sorted: seq<Match>)
    returns (spans: seq<Span>, ghost kept: seq<Match>)
    requires Sorted(sorted) && forall m | m in sorted :: Within(m, text)
    ensures Text(spans) == text
    ensures whole.Some? ==> spans == [Span(text, false, "", true, whole.value)]
    ensures whole.None? ==>
              && IsSelection(kept, sorted)
              && Marks(spans) == Painted(text, kept)
  {
    if whole.Some? {
      spans, kept := [Span(text, false, "", true, whole.value)], [];
      TextOfOne(spans[0]);
      return;
    }
    if |sorted| == 0 {
      spans, kept := [Plain(text)], [];
      PaintedNowhere(text);
      TextOfOne(spans[0]);
      return;
    }
    var filtered := FilterOverlaps(sorted);
    kept := filtered;
    spans := CutAtMatches(text, filtered);
    PaintedSpells(text, kept);
    MarksSpellText(spans);
  }

  lemma PaintedSpells(text: string, kept: seq<Match>)
    requires forall k | k in kept :: Within(k, text)
    ensures Unmark(Painted(text, kept)) == text
  {
  }

  lemma CutGap(spans: seq<Span>, text: string, kept: seq<Match>, i: nat, from: nat)
    requires forall m | m in kept :: Within(m, text)
    requires Apart(kept) && i <= |kept|
    requires from == if i == 0 then 0 else kept[i - 1].end
    requires from <= |text| && Marks(spans) == Painted(text, kept)[..from]
    ensures var to := if i < |kept| then kept[i].start else |text|;
            && from <= to <= |text|
            && Marks(if to > from then spans + [Plain(text[from..to])] else spans) == Painted(text, kept)[..to]
  {
    var to := if i < |kept| then kept[i].start else |text|;
    PaintedGap(text, kept, i, from);
    hide Apart;
    hide Within;
    MarksPush(spans, Plain(text[from..to]));
    hide Marks;
    hide SpanMarks;
    PrefixGrows(Painted(text, kept), from, to);
    hide Painted;
  }

  lemma MarksPush(spans: seq<Span>, span: Span)
    ensures Marks(spans + [span]) == Marks(spans) + SpanMarks(span)
  {
    hide SpanMarks;
    assert (spans + [span])[..|spans|] == spans;
  }

  lemma PrefixGrows<T>(s: seq<T>, from: nat, to: nat)
    requires from <= to <= |s|
    ensures s[..to] == s[..from] + s[from..to]
  {
  }

  lemma CutMatch(spans: seq<Span>, text: string, kept: seq<Match>, i: nat)
    requires forall m | m in kept :: Within(m, text)
    requires Apart(kept) && i < |kept|
    requires kept[i].start <= |text| && Marks(spans) == Painted(text, kept)[..kept[i].start]
    ensures kept[i] in kept
    ensures Marks(spans + [MatchSpan(text, kept[i])]) == Painted(text, kept)[..kept[i].end]
  {
    PaintedMatch(text, kept, i);
    hide Apart;
    MarksPush(spans, MatchSpan(text, kept[i]));
    hide Marks;
    hide SpanMarks;
    PrefixGrows(Painted(text, kept), kept[i].start, kept[i].end);
    hide Painted;
  }

  lemma TextOfOne(span: Span)
    ensures Text([span]) == span.text
  {
    assert [span][..0] == [];
  }

  lemma MarksOfOne(span: Span)
    ensures Marks([span]) == SpanMarks(span)
  {
    assert [span][..0] == [];
  }

  /** Up to match i, from the end of the one before, the painted text is plain. */
  lemma PaintedGap(text: string, kept: seq<Match>, i: nat, from: nat)
    requires forall m | m in kept :: Within(m, text)
    requires Apart(kept) && i <= |kept|
    requires from == if i == 0 then 0 else kept[i - 1].end
    ensures var to := if i < |kept| then kept[i].start else |text|;
            && (i < |kept| ==> kept[i] in kept)
            && from <= to <= |text|
            && Painted(text, kept)[from..to] == SpanMarks(Plain(text[from..to]))
  {
    var to := if i < |kept| then kept[i].start else |text|;
    assert forall k | 0 <= k < |kept| :: kept[k] in kept;
    forall j | from <= j < to ensures MarkAt(text, kept, j) == Plain("") {
      forall k | 0 <= k < |kept| ensures !(kept[k].start <= j < kept[k].end) {
        if k < i - 1 {
          assert kept[k].end <= kept[i - 1].start;
        } else if k > i {
          assert kept[i].end <= kept[k].start;
        }
      }
      MarkOutside(text, kept, j);
    }
  }

  lemma PaintedNowhere(text: string)
    ensures Marks([Plain(text)]) == Painted(text, [])
  {
    MarksOfOne(Plain(text));
    PaintedGap(text, [], 0, 0);
    assert text[0..|text|] == text && Painted(text, [])[0..|text|] == Painted(text, []);
  }

  lemma PaintedMatch(text: string, kept: seq<Match>, i: nat)
    requires forall m | m in kept :: Within(m, text)
    requires Apart(kept) && i < |kept|
    ensures kept[i] in kept && Painted(text, kept)[kept[i].start..kept[i].end] == SpanMarks(MatchSpan(text, kept[i]))
  {
    forall j | kept[i].start <= j < kept[i].end
      ensures MarkAt(text, kept, j) == Mark(MatchSpan(text, kept[i]))
    {
      MarkInside(text, kept, i, j);
    }
  }
}
