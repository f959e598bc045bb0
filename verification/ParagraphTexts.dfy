/** The paragraphs of a message, joined by newlines, are its text with the tabs written out. */
module ParagraphTexts {
  import opened Cells
  import opened ChatSpans
  import opened ChatRows

  /** parts with a newline between each two. */
  function Join(parts: seq<string>): string {
    var n := |parts|;
    if n == 0 then "" else if n == 1 then parts[0] else Join(parts[..n - 1]) + "\n" + parts[n - 1]
  }

  function Texts(paras: seq<seq<Span>>): (ts: seq<string>)
    ensures |ts| == |paras|
  {
    seq(|paras|, i requires 0 <= i < |paras| => Text(paras[i]))
  }

  lemma {:induction false} UntabConcat(a: string, b: string)
    ensures Untab(a + b) == Untab(a) + Untab(b)
  {
    if a == "" {
      assert a + b == b;
    } else {
      assert (a + b)[1..] == a[1..] + b;
      UntabConcat(a[1..], b);
      var first := if a[0] == '\t' then CHAT_TAB else [a[0]];
      assert first + (Untab(a[1..]) + Untab(b)) == first + Untab(a[1..]) + Untab(b);
    }
  }

  /** The pieces of a text followed by those of another: the last of the one and the first of the
      other are one piece. */
  function Spliced(a: seq<string>, b: seq<string>): seq<string>
    requires a != [] && b != []
  {
    a[..|a| - 1] + [a[|a| - 1] + b[0]] + b[1..]
  }

  lemma SplicedCons(first: string, sa: seq<string>, sb: seq<string>)
    requires sa != [] && sb != []
    ensures [first] + Spliced(sa, sb) == Spliced([first] + sa, sb)
  {
  }

  lemma SplicedSnoc(sa: seq<string>, sb: seq<string>, last: string)
    requires sa != [] && sb != []
    ensures Spliced(sa, sb) + [last] == Spliced(sa, sb + [last])
  {
  }

  /** s with the rune c put before its first piece. */
  function Headed(c: char, s: seq<string>): seq<string>
    requires s != []
  {
    [[c] + s[0]] + s[1..]
  }

  lemma SplicedHead(c: char, sa: seq<string>, sb: seq<string>)
    requires sa != [] && sb != []
    ensures Headed(c, Spliced(sa, sb)) == Spliced(Headed(c, sa), sb)
  {
    if |sa| == 1 {
      assert [c] + (sa[0] + sb[0]) == [c] + sa[0] + sb[0];
    }
  }

  lemma {:induction false} SplitConcat(a: string, b: string)
    ensures Split(a + b) == Spliced(Split(a), Split(b))
  {
    if a == "" {
      assert a + b == b;
      assert "" + Split(b)[0] == Split(b)[0];
      assert Spliced([""], Split(b)) == Split(b);
    } else {
      assert (a + b)[1..] == a[1..] + b;
      SplitConcat(a[1..], b);
      var sa, sb := Split(a[1..]), Split(b);
      hide Spliced;
      if a[0] == '\n' {
        SplicedCons("", sa, sb);
      } else {
        SplicedHead(a[0], sa, sb);
      }
    }
  }

  lemma {:induction false} SplitHasNoNewline(s: string)
    ensures forall i | 0 <= i < |Split(s)| :: '\n' !in Split(s)[i]
  {
    if s != "" {
      SplitHasNoNewline(s[1..]);
    }
  }

  lemma {:induction false} JoinCons(first: string, rest: seq<string>)
    requires rest != []
    ensures Join([first] + rest) == first + "\n" + Join(rest)
  {
    var all, n := [first] + rest, |rest|;
    if n == 1 {
      assert all[..1] == [first];
    } else {
      assert all[..n] == [first] + rest[..n - 1];
      JoinCons(first, rest[..n - 1]);
      assert first + "\n" + (Join(rest[..n - 1]) + "\n" + rest[n - 1]) == first + "\n" + Join(rest[..n - 1]) + "\n" + rest[n - 1];
    }
  }

  /** Joining what was split gives the text back. */
  lemma {:induction false} JoinSplit(s: string)
    ensures Join(Split(s)) == s
  {
    if s != "" {
      JoinSplit(s[1..]);
      assert s == [s[0]] + s[1..];
      SplitStep(s);
      hide Split;
      hide Join;
      if s[0] == '\n' {
        JoinCons("", Split(s[1..]));
      } else {
        JoinHeaded(s[0], Split(s[1..]));
      }
    }
  }

  lemma SplitStep(s: string)
    requires s != ""
    ensures Split(s[1..]) != []
    ensures Split(s) == if s[0] == '\n' then [""] + Split(s[1..]) else Headed(s[0], Split(s[1..]))
  {
  }

  lemma JoinHeaded(c: char, parts: seq<string>)
    requires parts != []
    ensures Join(Headed(c, parts)) == [c] + Join(parts)
  {
    var first, rest := parts[0], parts[1..];
    assert parts == [first] + rest;
    if rest != [] {
      JoinCons(first, rest);
      JoinCons([c] + first, rest);
      Regrouped([c], first, Join(rest));
      hide Join;
    }
  }

  lemma Regrouped(a: string, b: string, c: string)
    ensures a + (b + "\n" + c) == a + b + "\n" + c
  {
  }

  // ----- the loop that cuts paragraphs -----

  function ParasTexts(ps: Paras): (ts: seq<string>)
    ensures ts != []
  {
    Texts(ps.ended) + [Text(ps.cur)]
  }

  lemma TextPush(spans: seq<Span>, span: Span)
    ensures Text(spans + [span]) == Text(spans) + span.text
  {
    assert (spans + [span])[..|spans|] == spans;
  }

  lemma PartFedTexts(ps: Paras, span: Span, parts: seq<string>, i: nat)
    requires i < |parts|
    ensures ParasTexts(PartFed(ps, span, parts, i)) ==
            if i > 0 then ParasTexts(ps) + [parts[i]] else Spliced(ParasTexts(ps), [parts[i]])
  {
    var part := span.(text := parts[i]);
    TextPush(ps.cur, part);
    TextOfOne(part);
    assert Text([]) == "" && Text(ps.cur) + "" == Text(ps.cur);
    hide Text;
    if i > 0 {
      assert Texts(ps.ended + [ps.cur]) == Texts(ps.ended) + [Text(ps.cur)];
    }
  }

  lemma {:induction false} PartsFedTexts(ps: Paras, span: Span, parts: seq<string>, n: nat)
    requires 0 < n <= |parts|
    ensures ParasTexts(PartsFed(ps, span, parts, n)) == Spliced(ParasTexts(ps), parts[..n])
  {
    hide PartFed;
    hide ParasTexts;
    hide Spliced;
    PartFedTexts(PartsFed(ps, span, parts, n - 1), span, parts, n - 1);
    if n == 1 {
      assert parts[..1] == [parts[0]];
    } else {
      PartsFedTexts(ps, span, parts, n - 1);
      assert parts[..n] == parts[..n - 1] + [parts[n - 1]];
      SplicedSnoc(ParasTexts(ps), parts[..n - 1], parts[n - 1]);
    }
  }

  lemma {:induction false} SpansFedTexts(spans: seq<Span>)
    ensures ParasTexts(SpansFed(spans)) == Split(Untab(Text(spans)))
  {
    if spans == [] {
      assert Texts([]) + [""] == [""];
    } else {
      var init, last := spans[..|spans| - 1], spans[|spans| - 1];
      SpansFedTexts(init);
      var parts := Split(Untab(last.text));
      PartsFedTexts(SpansFed(init), last, parts, |parts|);
      assert parts[..|parts|] == parts;
      UntabConcat(Text(init), last.text);
      SplitConcat(Untab(Text(init)), Untab(last.text));
    }
  }

  /** The newline that ends a message begins no paragraph. */
  lemma LastParagraph(spans: seq<Span>)
    ensures var ts, all := Texts(Paragraphs(spans)), ParasTexts(SpansFed(spans)); ts == all || (ts != [] && all == ts + [""])
  {
    var ps := SpansFed(spans);
    hide SpansFed;
    if Paragraphs(spans) == ps.ended {
      assert Text(ps.cur) == "";
    } else {
      assert Texts(ps.ended + [ps.cur]) == Texts(ps.ended) + [Text(ps.cur)];
    }
  }

  lemma JoinOfBlank(parts: seq<string>)
    requires parts != []
    ensures Join(parts + [""]) == Join(parts) + "\n"
  {
    assert (parts + [""])[..|parts|] == parts;
    assert Join(parts) + "\n" + "" == Join(parts) + "\n";
  }

  /** What the newline that ends a message leaves of it. */
  lemma ParagraphsSpellText(spans: seq<Span>)
    ensures var text, joined := Untab(Text(spans)), Join(Texts(Paragraphs(spans)));
            text == joined || text == joined + "\n"
    ensures forall t | t in Texts(Paragraphs(spans)) :: '\n' !in t
  {
    var ps := SpansFed(spans);
    var ts, all := Texts(Paragraphs(spans)), ParasTexts(ps);
    SpansFedTexts(spans);
    JoinSplit(Untab(Text(spans)));
    SplitHasNoNewline(Untab(Text(spans)));
    LastParagraph(spans);
    hide Paragraphs;
    hide SpansFed;
    hide ParasTexts;
    hide Texts;
    hide Split;
    JoinOfBlank(ts);
    hide Join;
    forall t | t in ts ensures '\n' !in t {
      var i :| 0 <= i < |ts| && ts[i] == t;
      assert t == all[i];
    }
  }
}
