/** Exactly which lines of stderr are logged, and what counts as a line, as blank and as the same line again. */
module StderrLedger {
  import opened Bytes
  import opened Options
  import opened StderrLines

  // ----- when a line is logged -----

  predicate SameLine(a: Taken, b: Taken) {
    Key(Trimmed(a.text)) == Key(Trimmed(b.text))
  }

  /** Line i was logged less than ten seconds before line j, which is the same but for digits, and the table has not
      been cleared between. */
  predicate Covers(lines: seq<Taken>, i: nat, j: nat)
    requires i < j < |lines|
  {
    IsLogged(lines, i) && NoReset(lines, i, j) && SameLine(lines[i], lines[j]) && lines[j].now - lines[i].now < 10_000_000_000
  }

  lemma EnteredBy(seen: Table, line: Taken, key: seq<byte>)
    requires Trimmed(line.text) != [] && key in AfterLine(seen, Trimmed(line.text), line.now)
    ensures var after := AfterLine(seen, Trimmed(line.text), line.now);
            || (EntryOf(seen, line) != [] && Key(Trimmed(line.text)) == key && after[key].loggedAt == line.now)
            || (key in seen && after[key].loggedAt == seen[key].loggedAt && !Resets(seen, line))
  {
    hide Key;
    hide Trimmed;
  }

  /** What the table says of a key comes from the last line logged with it. */
  lemma {:induction false} LastLogged(lines: seq<Taken>, j: nat, key: seq<byte>) returns (i: nat)
    requires j <= |lines| && key in TableAfter(lines[..j])
    ensures i < j && IsLogged(lines, i) && NoReset(lines, i, j) && Key(Trimmed(lines[i].text)) == key
    ensures lines[i].now == TableAfter(lines[..j])[key].loggedAt
  {
    hide TableAfter;
    hide Trimmed;
    hide Key;
    hide AfterLine;
    hide EntryOf;
    hide Resets;
    if j == 0 {
      Nothing(lines);
    } else {
      var k := j - 1;
      var seen := TableAfter(lines[..k]);
      TableStep(lines, k);
      if Trimmed(lines[k].text) != [] {
        EnteredBy(seen, lines[k], key);
      } else {
        BlankResetsNothing(seen, lines[k]);
      }
      if Trimmed(lines[k].text) != [] && EntryOf(seen, lines[k]) != [] && Key(Trimmed(lines[k].text)) == key
         && TableAfter(lines[..j])[key].loggedAt == lines[k].now {
        i := k;
      } else {
        i := LastLogged(lines, k, key);
      }
    }
  }

  lemma Nothing(lines: seq<Taken>)
    ensures TableAfter(lines[..0]) == map[]
  {
  }

  lemma BlankResetsNothing(seen: Table, line: Taken)
    requires Trimmed(line.text) == []
    ensures !Resets(seen, line)
  {
  }

  lemma NotLoggedIs(seen: Table, line: Taken)
    requires Trimmed(line.text) != []
    ensures var key := Key(Trimmed(line.text));
            EntryOf(seen, line) == [] <==> key in seen && line.now - seen[key].loggedAt < 10_000_000_000
  {
    hide Key;
    hide Trimmed;
  }

  /** A line that is not blank is left out of the log exactly when the same line, but for digits, was logged less than
      ten seconds before it and the table has not been cleared since. */
  lemma LeftOutIff(lines: seq<Taken>, j: nat)
    requires j < |lines| && Trimmed(lines[j].text) != []
    ensures !IsLogged(lines, j) <==> exists i | 0 <= i < j :: Covers(lines, i, j)
  {
    var seen, key := TableAfter(lines[..j]), Key(Trimmed(lines[j].text));
    NotLoggedIs(seen, lines[j]);
    hide TableAfter;
    hide Trimmed;
    hide Key;
    hide EntryOf;
    hide Resets;
    if !IsLogged(lines, j) {
      var i := LastLogged(lines, j, key);
      assert Covers(lines, i, j);
    }
    if i :| 0 <= i < j && Covers(lines, i, j) {
      if IsLogged(lines, j) {
        LoggedApart(lines, i, j);
      }
    }
  }

  /** Every blank line is left out. */
  lemma BlankIsLeftOut(lines: seq<Taken>, j: nat)
    requires j < |lines| && Trimmed(lines[j].text) == []
    ensures !IsLogged(lines, j)
  {
    hide TableAfter;
    hide Trimmed;
  }

  // ----- when the table is cleared -----

  /** The keys of the lines that are not blank. */
  function KeysOf(lines: seq<Taken>): set<seq<byte>> {
    set i | 0 <= i < |lines| && Trimmed(lines[i].text) != [] :: Key(Trimmed(lines[i].text))
  }

  /** The table was empty before line i, for want of lines or because it was cleared there. */
  predicate StartsAfresh(lines: seq<Taken>, i: nat)
    requires i <= |lines|
  {
    i == 0 || (i < |lines| && Resets(TableAfter(lines[..i]), lines[i]))
  }

  lemma KeysOneMore(lines: seq<Taken>, i: nat, j: nat)
    requires i <= j < |lines|
    ensures KeysOf(lines[i..j + 1])
         == KeysOf(lines[i..j]) + if Trimmed(lines[j].text) == [] then {} else {Key(Trimmed(lines[j].text))}
  {
    hide Key;
    hide Trimmed;
    var a, b := lines[i..j], lines[i..j + 1];
    assert b[|a|] == lines[j] && b[..|a|] == a;
    forall key | key in KeysOf(b) ensures key in KeysOf(a) || (Trimmed(lines[j].text) != [] && key == Key(Trimmed(lines[j].text))) {
      var k :| 0 <= k < |b| && Trimmed(b[k].text) != [] && Key(Trimmed(b[k].text)) == key;
      if k < |a| {
        assert a[k] == b[k];
      }
    }
    forall key | key in KeysOf(a) ensures key in KeysOf(b) {
      var k :| 0 <= k < |a| && Trimmed(a[k].text) != [] && Key(Trimmed(a[k].text)) == key;
      assert b[k] == a[k];
    }
  }

  lemma EntersItsKey(seen: Table, line: Taken)
    requires Trimmed(line.text) != []
    ensures AfterLine(seen, Trimmed(line.text), line.now).Keys
         == (if Resets(seen, line) then {} else seen.Keys) + {Key(Trimmed(line.text))}
  {
    hide Key;
    hide Trimmed;
  }

  /** The table holds the lines since it was last empty. */
  lemma {:induction false} TableIsKeys(lines: seq<Taken>, i: nat, j: nat)
    requires i < j <= |lines| && StartsAfresh(lines, i) && NoReset(lines, i, j)
    ensures TableAfter(lines[..j]).Keys == KeysOf(lines[i..j])
    decreases j
  {
    hide *;
    var k := j - 1;
    NoKeys(lines, i);
    KeysOneMore(lines, i, k);
    if i < k {
      FewerResets(lines, i, k);
      TableIsKeys(lines, i, k);
    } else {
      AfreshIs(lines, i);
    }
    OneMoreKey(lines, k);
  }

  lemma FewerResets(lines: seq<Taken>, i: nat, k: nat)
    requires i < k < |lines| && NoReset(lines, i, k + 1)
    ensures NoReset(lines, i, k) && !Resets(TableAfter(lines[..k]), lines[k])
  {
    hide Resets;
    hide TableAfter;
  }

  lemma AfreshIs(lines: seq<Taken>, i: nat)
    requires i < |lines| && StartsAfresh(lines, i)
    ensures Resets(TableAfter(lines[..i]), lines[i]) || TableAfter(lines[..i]).Keys == {}
  {
    Nothing(lines);
    hide Resets;
    hide TableAfter;
  }

  lemma OneMoreKey(lines: seq<Taken>, k: nat)
    requires k < |lines|
    ensures var seen, text := TableAfter(lines[..k]), Trimmed(lines[k].text);
            TableAfter(lines[..k + 1]).Keys
            == (if Resets(seen, lines[k]) then {} else seen.Keys) + if text == [] then {} else {Key(text)}
  {
    TableStep(lines, k);
    hide Key;
    hide Trimmed;
    hide AfterLine;
    hide TableAfter;
    if Trimmed(lines[k].text) != [] {
      EntersItsKey(TableAfter(lines[..k]), lines[k]);
    } else {
      BlankResetsNothing(TableAfter(lines[..k]), lines[k]);
    }
  }

  lemma NoKeys(lines: seq<Taken>, i: nat)
    requires i <= |lines|
    ensures KeysOf(lines[i..i]) == {}
  {
  }

  /** The table is cleared exactly before a line that is new when 256 different ones have come since it was last
      empty. */
  lemma ClearedIff(lines: seq<Taken>, i: nat, j: nat)
    requires i < j < |lines| && StartsAfresh(lines, i) && NoReset(lines, i, j)
    ensures Resets(TableAfter(lines[..j]), lines[j]) <==>
            && Trimmed(lines[j].text) != [] && Key(Trimmed(lines[j].text)) !in KeysOf(lines[i..j])
            && |KeysOf(lines[i..j])| == 256
  {
    TableIsKeys(lines, i, j);
    TableStaysSmall(lines[..j]);
    SameSize(TableAfter(lines[..j]));
    hide Key;
    hide Trimmed;
    hide TableAfter;
    hide KeysOf;
  }

  lemma SameSize(seen: Table)
    ensures |seen.Keys| == |seen|
  {
  }

  // ----- what the same line is -----

  predicate IsDigit(b: byte) {
    '0' as int <= b as int <= '9' as int
  }

  /** p lists the positions of s that are no digits, in order. */
  predicate NonDigitsAt(s: seq<byte>, p: seq<nat>) {
    && (forall i | 0 <= i < |p| :: p[i] < |s|)
    && (forall i, j | 0 <= i < j < |p| :: p[i] < p[j])
    && (forall k | 0 <= k < |s| :: k in p <==> !IsDigit(s[k]))
  }

  function Moved(rest: seq<nat>): (p: seq<nat>)
    ensures |p| == |rest|
  {
    seq(|rest|, i requires 0 <= i < |rest| => rest[i] + 1)
  }

  lemma MovedHas(rest: seq<nat>, k: nat)
    ensures k in Moved(rest) <==> k > 0 && k - 1 in rest
  {
    if k in Moved(rest) {
      var i :| 0 <= i < |rest| && Moved(rest)[i] == k;
      assert rest[i] == k - 1;
    }
    if k > 0 && k - 1 in rest {
      var i :| 0 <= i < |rest| && rest[i] == k - 1;
      assert Moved(rest)[i] == k;
    }
  }

  /** The positions of a string in one that has a rune more before it. */
  function Positions(first: byte, rest: seq<nat>): (p: seq<nat>) {
    (if IsDigit(first) then [] else [0]) + Moved(rest)
  }

  lemma PositionsHave(first: byte, rest: seq<nat>, k: nat)
    ensures k in Positions(first, rest) <==> if k == 0 then !IsDigit(first) else k - 1 in rest
  {
    MovedHas(rest, k);
    hide Moved;
    hide IsDigit;
  }

  lemma PositionsInOrder(first: byte, n: nat, rest: seq<nat>)
    requires forall i | 0 <= i < |rest| :: rest[i] < n
    requires forall i, j | 0 <= i < j < |rest| :: rest[i] < rest[j]
    ensures var p := Positions(first, rest);
            && (forall i | 0 <= i < |p| :: p[i] < n + 1)
            && forall i, j | 0 <= i < j < |p| :: p[i] < p[j]
  {
    hide IsDigit;
  }

  lemma PositionsOfMore(first: byte, more: seq<byte>, rest: seq<nat>)
    requires NonDigitsAt(more, rest)
    ensures NonDigitsAt([first] + more, Positions(first, rest))
  {
    hide IsDigit;
    hide Positions;
    var s, p := [first] + more, Positions(first, rest);
    PositionsInOrder(first, |more|, rest);
    forall k | 0 <= k < |s| ensures k in p <==> !IsDigit(s[k]) {
      PositionsHave(first, rest, k);
      if k > 0 {
        assert s[k] == more[k - 1];
      }
    }
  }

  function Picked(s: seq<byte>, p: seq<nat>): (k: seq<byte>)
    requires forall i | 0 <= i < |p| :: p[i] < |s|
    ensures |k| == |p|
  {
    seq(|p|, i requires 0 <= i < |p| => s[p[i]])
  }

  lemma PickedMoved(first: byte, more: seq<byte>, rest: seq<nat>)
    requires forall i | 0 <= i < |rest| :: rest[i] < |more|
    ensures (forall i | 0 <= i < |rest| :: Moved(rest)[i] < |more| + 1)
    ensures Picked([first] + more, Moved(rest)) == Picked(more, rest)
  {
  }

  lemma PickedFirst(s: seq<byte>, p: seq<nat>)
    requires s != [] && forall i | 0 <= i < |p| :: p[i] < |s|
    ensures (forall i | 0 <= i < |p| + 1 :: ([0] + p)[i] < |s|) && Picked(s, [0] + p) == [s[0]] + Picked(s, p)
  {
  }

  lemma PickedOfMore(first: byte, more: seq<byte>, rest: seq<nat>)
    requires forall i | 0 <= i < |rest| :: rest[i] < |more|
    ensures var p := Positions(first, rest);
            && (forall i | 0 <= i < |p| :: p[i] < |more| + 1)
            && Picked([first] + more, p) == (if IsDigit(first) then [] else [first]) + Picked(more, rest)
  {
    hide IsDigit;
    hide Moved;
    hide Picked;
    PickedMoved(first, more, rest);
    if IsDigit(first) {
      assert Positions(first, rest) == Moved(rest);
    } else {
      PickedFirst([first] + more, Moved(rest));
    }
  }

  lemma KeyStep(s: seq<byte>)
    requires s != []
    ensures Key(s) == (if IsDigit(s[0]) then [] else [s[0]]) + Key(s[1..])
  {
  }

  /** The key of a line is what stands at those positions, so two keys are equal exactly when the lines without their
      digits are. */
  lemma {:induction false} KeyIs(s: seq<byte>) returns (p: seq<nat>)
    ensures NonDigitsAt(s, p) && Key(s) == Picked(s, p)
  {
    if s == [] {
      p := [];
    } else {
      hide Key;
      hide IsDigit;
      hide Positions;
      var rest := KeyIs(s[1..]);
      assert s == [s[0]] + s[1..];
      p := Positions(s[0], rest);
      PositionsOfMore(s[0], s[1..], rest);
      PickedOfMore(s[0], s[1..], rest);
      KeyStep(s);
      hide Picked;
    }
  }

  /** There is only one such list of positions. */
  lemma {:induction false} PositionsAreUnique(s: seq<byte>, p: seq<nat>, q: seq<nat>, n: nat)
    requires NonDigitsAt(s, p) && NonDigitsAt(s, q) && n <= |p|
    ensures n <= |q| && p[..n] == q[..n]
  {
    hide IsDigit;
    if n > 0 {
      PositionsAreUnique(s, p, q, n - 1);
      assert forall i | 0 <= i < n - 1 :: p[i] == p[..n - 1][i] == q[..n - 1][i] == q[i];
      assert p[n - 1] in q;
      var j :| 0 <= j < |q| && q[j] == p[n - 1];
      assert j >= n - 1;
      assert q[n - 1] in p;
      var i :| 0 <= i < |p| && p[i] == q[n - 1];
      assert i >= n - 1;
    }
  }

  // ----- what blank is -----

  /** Tab, newline, vertical tab, form feed, carriage return and blank. */
  predicate IsWhite(b: byte) {
    b == 9 || b == 10 || b == 11 || b == 12 || b == 13 || b == 32
  }

  lemma {:induction false} LeftTrim(s: seq<byte>) returns (a: seq<byte>)
    ensures s == a + TrimLeft(s) && forall i | 0 <= i < |a| :: IsWhite(a[i])
    ensures TrimLeft(s) != [] ==> !IsWhite(TrimLeft(s)[0])
  {
    if s != [] && Blank(s[0]) {
      var rest := LeftTrim(s[1..]);
      a := [s[0]] + rest;
    } else {
      a := [];
    }
  }

  lemma {:induction false} RightTrim(s: seq<byte>) returns (b: seq<byte>)
    ensures s == TrimRight(s) + b && forall i | 0 <= i < |b| :: IsWhite(b[i])
    ensures TrimRight(s) != [] ==> !IsWhite(TrimRight(s)[|TrimRight(s)| - 1])
  {
    if s != [] && Blank(s[|s| - 1]) {
      var rest := RightTrim(s[..|s| - 1]);
      b := rest + [s[|s| - 1]];
    } else {
      b := [];
    }
  }

  /** A line is trimmed of white space at both ends and of nothing else. */
  lemma TrimmedIs(s: seq<byte>) returns (a: seq<byte>, b: seq<byte>)
    ensures s == a + Trimmed(s) + b
    ensures (forall i | 0 <= i < |a| :: IsWhite(a[i])) && forall i | 0 <= i < |b| :: IsWhite(b[i])
    ensures var t := Trimmed(s); t != [] ==> !IsWhite(t[0]) && !IsWhite(t[|t| - 1])
  {
    a := LeftTrim(s);
    b := RightTrim(TrimLeft(s));
    var t := Trimmed(s);
    hide TrimRight;
    hide TrimLeft;
    hide IsWhite;
    assert a + (t + b) == a + t + b;
    assert t != [] ==> t[0] == TrimLeft(s)[0];
  }

  // ----- what is kept and what is written -----

  lemma {:induction false} KeptConcat(a: seq<Taken>, b: seq<Taken>)
    ensures KeptAfter(a + b) == KeptAfter(a) + KeptAfter(b)
  {
    if b == [] {
      assert a + b == a;
    } else {
      var init, last := b[..|b| - 1], b[|b| - 1];
      assert (a + b)[..|a + b| - 1] == a + init;
      KeptConcat(a, init);
      hide Trimmed;
      Regrouped(KeptAfter(a), KeptAfter(init), if Trimmed(last.text) == [] then [] else [last.text]);
    }
  }

  lemma NothingLeftIff(s: seq<byte>)
    ensures Trimmed(s) == [] <==> forall i | 0 <= i < |s| :: IsWhite(s[i])
  {
    var a, b := TrimmedIs(s);
    var t := Trimmed(s);
    hide Trimmed;
    hide IsWhite;
    if t != [] {
      assert s[|a|] == t[0];
    } else {
      assert a + t + b == a + b;
      assert forall i | 0 <= i < |s| :: if i < |a| then s[i] == a[i] else s[i] == b[i - |a|];
    }
  }

  /** The buffer keeps each line as it came, unless it is all white space. */
  lemma KeptOfOne(line: Taken)
    ensures KeptAfter([line]) == if forall i | 0 <= i < |line.text| :: IsWhite(line.text[i]) then [] else [line.text]
  {
    NothingLeftIff(line.text);
    assert [line][..0] == [];
    hide Trimmed;
    hide IsWhite;
  }

  /** What is written to the log for a line is the line, trimmed. */
  lemma WrittenIs(lines: seq<Taken>, j: nat)
    requires j < |lines| && IsLogged(lines, j)
    ensures var entry := EntryOf(TableAfter(lines[..j]), lines[j]); |entry| == 1 && entry[0].line == Trimmed(lines[j].text)
  {
    hide Trimmed;
    hide Key;
    hide TableAfter;
  }

  // ----- what a line is -----

  predicate NoEnd(s: seq<byte>) {
    forall i | 0 <= i < |s| :: s[i] != 10 && s[i] != 13
  }

  /** A line without its end, and a carriage return or a newline. */
  predicate IsLine(p: Piece) {
    NoEnd(p.text) && p.end.Some? && (p.end.value == 10 || p.end.value == 13)
  }

  lemma {:induction false} LinesAreLines(s: seq<byte>)
    ensures (forall i | 0 <= i < |Lines(s)| :: IsLine(Lines(s)[i])) && NoEnd(Rest(s))
    decreases |s|
  {
    var i := EndIndex(s);
    if i >= 0 {
      OneLine(s);
      FirstIsLine(s, i);
      hide Lines;
      hide Rest;
      hide EndIndex;
      hide IsLine;
      hide NoEnd;
      LinesAreLines(s[i + 1..]);
    } else {
      NoLine(s);
      assert NoEnd(s);
    }
  }

  lemma FirstIsLine(s: seq<byte>, i: nat)
    requires i == EndIndex(s)
    ensures IsLine(Piece(s[..i], Some(s[i])))
  {
  }

  lemma PiecesHead(ps: seq<Piece>)
    requires ps != []
    ensures PiecesBytes(ps) == PieceBytes(ps[0]) + PiecesBytes(ps[1..])
  {
    assert ps == [ps[0]] + ps[1..];
    PiecesConcat([ps[0]], ps[1..]);
    PieceOf(ps[0]);
  }

  lemma FirstEnd(s: seq<byte>, text: seq<byte>, end: byte, more: seq<byte>)
    requires s == text + [end] + more && NoEnd(text) && (end == 10 || end == 13)
    ensures EndIndex(s) == |text|
  {
    assert s[|text|] == end;
    assert forall i | 0 <= i < |text| :: s[i] == text[i];
  }

  lemma NoFirstEnd(s: seq<byte>)
    requires NoEnd(s)
    ensures EndIndex(s) < 0
  {
  }

  /** Whatever is cut into such lines and a rest without an end is cut so. */
  lemma {:induction false} LinesAreUnique(s: seq<byte>, ps: seq<Piece>, rest: seq<byte>)
    requires PiecesBytes(ps) + rest == s && NoEnd(rest) && forall i | 0 <= i < |ps| :: IsLine(ps[i])
    ensures ps == Lines(s) && rest == Rest(s)
    decreases |ps|
  {
    if ps == [] {
      assert s == rest;
      NoFirstEnd(s);
      NoLine(s);
    } else {
      hide *;
      var text, end, more := HeadOf(s, ps, rest);
      FirstEnd(s, text, end, more);
      OneLine(s);
      CutAfter(s, text, end, more);
      LinesAreUnique(more, ps[1..], rest);
    }
  }

  lemma HeadOf(s: seq<byte>, ps: seq<Piece>, rest: seq<byte>) returns (text: seq<byte>, end: byte, more: seq<byte>)
    requires ps != [] && PiecesBytes(ps) + rest == s && IsLine(ps[0])
    ensures more == PiecesBytes(ps[1..]) + rest && s == text + [end] + more
    ensures NoEnd(text) && (end == 10 || end == 13) && ps == [Piece(text, Some(end))] + ps[1..]
  {
    PiecesHead(ps);
    text, end, more := ps[0].text, ps[0].end.value, PiecesBytes(ps[1..]) + rest;
    hide PiecesBytes;
  }

  lemma CutAfter(s: seq<byte>, text: seq<byte>, end: byte, more: seq<byte>)
    requires s == text + [end] + more
    ensures s[..|text|] == text && s[|text|] == end && s[|text| + 1..] == more
  {
  }
}
