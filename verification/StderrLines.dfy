/** The writer that cuts a process's stderr into lines, and logs a line that keeps coming only now
    and then. */
module StderrLines {
  import opened Bytes
  import opened Options

  /** A line is logged, without waiting for its end, once more than this is pending. */
  const MAX_PENDING: nat := 64 * 1024

  /** In nanoseconds, like the times passed in. */
  const REPEAT_LOG_INTERVAL: int := 10_000_000_000

  /** So many different lines are remembered at once. */
  const MAX_SEEN := 256

  // ----- lines -----

  predicate IsEnd(b: byte) {
    b == 13 || b == 10
  }

  /** A line handed on, and the separator that ended it, if one did. */
  datatype Piece = Piece(text: seq<byte>, end: Option<byte>)

  function PieceBytes(p: Piece): seq<byte> {
    p.text + if p.end.Some? then [p.end.value] else []
  }

  function PiecesBytes(ps: seq<Piece>): seq<byte> {
    if ps == [] then [] else PiecesBytes(ps[..|ps| - 1]) + PieceBytes(ps[|ps| - 1])
  }

  /** bytes.IndexAny of "\r\n": the first separator, or -1. */
  function EndIndex(s: seq<byte>): (i: int)
    ensures -1 <= i < |s|
    ensures i >= 0 ==> IsEnd(s[i])
    ensures forall k | 0 <= k < (if i < 0 then |s| else i) :: !IsEnd(s[k])
  {
    if s == [] then -1
    else if IsEnd(s[0]) then 0
    else if EndIndex(s[1..]) < 0 then -1 else 1 + EndIndex(s[1..])
  }

  /** The lines of s that end in a separator, and what is left. */
  function Lines(s: seq<byte>): seq<Piece>
    decreases |s|
  {
    var i := EndIndex(s);
    if i < 0 then [] else [Piece(s[..i], Some(s[i]))] + Lines(s[i + 1..])
  }

  function Rest(s: seq<byte>): seq<byte>
    decreases |s|
  {
    var i := EndIndex(s);
    if i < 0 then s else Rest(s[i + 1..])
  }

  lemma OneLine(s: seq<byte>)
    requires EndIndex(s) >= 0
    ensures var i := EndIndex(s);
            Lines(s) == [Piece(s[..i], Some(s[i]))] + Lines(s[i + 1..]) && Rest(s) == Rest(s[i + 1..])
  {
  }

  lemma NoLine(s: seq<byte>)
    requires EndIndex(s) < 0
    ensures Lines(s) == [] && Rest(s) == s
  {
  }

  /** What one Write hands on, and leaves pending. */
  function Handed(pending: seq<byte>, p: seq<byte>): seq<Piece> {
    var s := pending + p;
    if |Rest(s)| > MAX_PENDING then Lines(s) + [Piece(Rest(s), None)] else Lines(s)
  }

  function Left(pending: seq<byte>, p: seq<byte>): seq<byte> {
    var s := pending + p;
    if |Rest(s)| > MAX_PENDING then [] else Rest(s)
  }

  // ----- the repeats of a line -----

  /** When a line was last logged, and how often it came since. */
  datatype Repeated = Repeated(loggedAt: int, skipped: nat)

  /** What goes to the log: a line, and how many like it were left out. */
  datatype Entry = Entry(line: seq<byte>, likeIt: nat)

  predicate Blank(b: byte) {
    9 <= b <= 13 || b == 32
  }

  function TrimLeft(s: seq<byte>): seq<byte> {
    if s != [] && Blank(s[0]) then TrimLeft(s[1..]) else s
  }

  function TrimRight(s: seq<byte>): seq<byte> {
    if s != [] && Blank(s[|s| - 1]) then TrimRight(s[..|s| - 1]) else s
  }

  function Trimmed(s: seq<byte>): seq<byte> {
    TrimRight(TrimLeft(s))
  }

  /** The line with its digits left out. */
  function Key(s: seq<byte>): seq<byte> {
    if s == [] then [] else (if 48 <= s[0] <= 57 then [] else [s[0]]) + Key(s[1..])
  }

  type Table = map<seq<byte>, Repeated>

  /** The table once a line with this key is there, and what is logged. */
  function AfterLine(seen: Table, trimmed: seq<byte>, now: int): Table {
    var key := Key(trimmed);
    if key in seen then
      var r := seen[key];
      if now - r.loggedAt < REPEAT_LOG_INTERVAL then seen[key := r.(skipped := r.skipped + 1)]
      else seen[key := Repeated(now, 0)]
    else (if |seen| >= MAX_SEEN then map[] else seen)[key := Repeated(now, 0)]
  }

  function Logged(seen: Table, trimmed: seq<byte>, now: int): Option<Entry> {
    var key := Key(trimmed);
    if key in seen then
      var r := seen[key];
      if now - r.loggedAt < REPEAT_LOG_INTERVAL then None else Some(Entry(trimmed, r.skipped))
    else Some(Entry(trimmed, 0))
  }

  /** A line handed on, and the time it was taken at. */
  datatype Taken = Taken(text: seq<byte>, now: int)

  function TableAfter(lines: seq<Taken>): Table {
    if lines == [] then map[]
    else
      var seen, last := TableAfter(lines[..|lines| - 1]), lines[|lines| - 1];
      if Trimmed(last.text) == [] then seen else AfterLine(seen, Trimmed(last.text), last.now)
  }

  function EntryOf(seen: Table, line: Taken): seq<Entry> {
    if Trimmed(line.text) == [] then []
    else match Logged(seen, Trimmed(line.text), line.now) case Some(e) => [e] case None => []
  }

  function LogAfter(lines: seq<Taken>): seq<Entry> {
    if lines == [] then [] else LogAfter(lines[..|lines| - 1]) + EntryOf(TableAfter(lines[..|lines| - 1]), lines[|lines| - 1])
  }

  /** What the buffer keeps: every line that is not blank. */
  function KeptAfter(lines: seq<Taken>): seq<seq<byte>> {
    if lines == [] then []
    else KeptAfter(lines[..|lines| - 1]) + if Trimmed(lines[|lines| - 1].text) == [] then [] else [lines[|lines| - 1].text]
  }

  /** What taking one more line does to the table, the log and the buffer. */
  lemma OneMore(lines: seq<Taken>, line: Taken)
    ensures TableAfter(lines + [line])
         == if Trimmed(line.text) == [] then TableAfter(lines)
            else AfterLine(TableAfter(lines), Trimmed(line.text), line.now)
    ensures LogAfter(lines + [line]) == LogAfter(lines) + EntryOf(TableAfter(lines), line)
    ensures KeptAfter(lines + [line]) == KeptAfter(lines) + if Trimmed(line.text) == [] then [] else [line.text]
  {
    var all := lines + [line];
    assert all[..|all| - 1] == lines;
    hide Trimmed;
    hide AfterLine;
    hide EntryOf;
  }

  ghost predicate SameTexts(taken: seq<Taken>, handed: seq<Piece>) {
    |taken| == |handed| && forall i | 0 <= i < |taken| :: taken[i].text == handed[i].text
  }

  lemma OneMoreText(taken: seq<Taken>, handed: seq<Piece>, line: Taken, piece: Piece)
    requires SameTexts(taken, handed) && line.text == piece.text
    ensures SameTexts(taken + [line], handed + [piece])
  {
  }

  // ----- the writer -----

  /** kept is what the buffer was given to keep, and log what went to the log; handed is every line
      cut, and taken the same lines with the times they were logged at. */
  class Writer {
    var pending: seq<byte>
    var seen: Table
    var kept: seq<seq<byte>>
    var log: seq<Entry>
    ghost var handed: seq<Piece>
    ghost var taken: seq<Taken>

    ghost predicate Valid()
      reads this
    {
      && Accounted() && |pending| <= MAX_PENDING
    }

    /** The table, the log and the buffer are what the lines handed on make them. */
    ghost predicate Accounted()
      reads `handed, `taken, `seen, `log, `kept
    {
      && SameTexts(taken, handed)
      && seen == TableAfter(taken) && log == LogAfter(taken) && kept == KeptAfter(taken)
    }

    constructor ()
      ensures Valid() && pending == [] && handed == []
    {
      pending, seen, kept, log, handed, taken := [], map[], [], [], [], [];
    }

    /** Cuts p, after what was pending, into lines. */
    method Write(p: seq<byte>) returns (n: nat)
      requires Valid()
      modifies this
      ensures Valid() && n == |p|
      ensures handed == old(handed) + Handed(old(pending), p)
      ensures pending == Left(old(pending), p)
    {
      hide Accounted;
      hide Lines;
      hide Rest;
      hide EndIndex;
      pending := pending + p;
      ghost var s, before := pending, handed;
      var i := EndIndex(pending);
      while i >= 0
        invariant i == EndIndex(pending) && |pending| <= |s|
        invariant Accounted()
        invariant before + Lines(s) == handed + Lines(pending) && Rest(s) == Rest(pending)
        decreases |pending|
      {
        OneLine(pending);
        ghost var piece, more := Piece(pending[..i], Some(pending[i])), Lines(pending[i + 1..]);
        assert handed + ([piece] + more) == handed + [piece] + more;
        ghost var _ := Line(pending[..i], Some(pending[i]));
        pending := pending[i + 1..];
        i := EndIndex(pending);
      }
      NoLine(pending);
      if |pending| > MAX_PENDING {
        assert before + (Lines(s) + [Piece(pending, None)]) == before + Lines(s) + [Piece(pending, None)];
        ghost var _ := Line(pending, None);
        pending := [];
      }
      n := |p|;
    }

    /** Keeps a line unless it is blank, and logs it unless it came too often. */
    method Line(text: seq<byte>, ghost end: Option<byte>) returns (ghost at: int)
      requires Accounted()
      modifies `seen, `kept, `log, `handed, `taken
      ensures Accounted()
      ensures handed == old(handed) + [Piece(text, end)]
      ensures taken == old(taken) + [Taken(text, at)]
    {
      var now: int := *; // the clock
      at := now;
      OneMore(taken, Taken(text, now));
      OneMoreText(taken, handed, Taken(text, now), Piece(text, end));
      hide SameTexts;
      hide TableAfter;
      hide LogAfter;
      hide KeptAfter;
      hide AfterLine;
      hide Logged;
      hide Trimmed;
      handed := handed + [Piece(text, end)];
      taken := taken + [Taken(text, now)];
      var trimmed := Trimmed(text);
      if trimmed != [] {
        kept := kept + [text];
        Log(trimmed, now);
      }
    }

    /** Logs a line, or counts it with those left out. */
    method Log(trimmed: seq<byte>, now: int)
      modifies `seen, `log
      ensures seen == AfterLine(old(seen), trimmed, now)
      ensures log == old(log) + match Logged(old(seen), trimmed, now) case Some(e) => [e] case None => []
    {
      hide Key;
      var key := Key(trimmed);
      if key in seen {
        var r := seen[key];
        if now - r.loggedAt < REPEAT_LOG_INTERVAL {
          seen := seen[key := r.(skipped := r.skipped + 1)];
          return;
        }
        log := log + [Entry(trimmed, r.skipped)];
        seen := seen[key := Repeated(now, 0)];
        return;
      }
      if |seen| >= MAX_SEEN {
        seen := map[];
      }
      seen := seen[key := Repeated(now, 0)];
      log := log + [Entry(trimmed, 0)];
    }
  }

  // ----- nothing is lost -----

  lemma {:induction false} PiecesConcat(a: seq<Piece>, b: seq<Piece>)
    ensures PiecesBytes(a + b) == PiecesBytes(a) + PiecesBytes(b)
  {
    hide PieceBytes;
    var ab := a + b;
    if b == [] {
      assert ab == a;
    } else {
      var init, last := b[..|b| - 1], b[|b| - 1];
      assert ab[..|ab| - 1] == a + init && ab[|ab| - 1] == last;
      PiecesConcat(a, init);
      assert PiecesBytes(a) + PiecesBytes(init) + PieceBytes(last) == PiecesBytes(a) + (PiecesBytes(init) + PieceBytes(last));
    }
  }

  lemma PieceOf(p: Piece)
    ensures PiecesBytes([p]) == PieceBytes(p)
  {
    assert [p][..0] == [];
  }

  lemma CutAt(s: seq<byte>, i: nat)
    requires i < |s|
    ensures s == s[..i] + [s[i]] + s[i + 1..]
  {
  }

  lemma {:induction false} RestHasNoEnd(s: seq<byte>)
    ensures forall i | 0 <= i < |Rest(s)| :: !IsEnd(Rest(s)[i])
    decreases |s|
  {
    if EndIndex(s) >= 0 {
      RestHasNoEnd(s[EndIndex(s) + 1..]);
    }
  }

  lemma {:induction false} LinesAndRest(s: seq<byte>)
    ensures PiecesBytes(Lines(s)) + Rest(s) == s
    decreases |s|
  {
    var i := EndIndex(s);
    if i < 0 {
      NoLine(s);
      Regrouped(s, [], []);
    } else {
      var piece, more := Piece(s[..i], Some(s[i])), s[i + 1..];
      LinesAndRest(more);
      PiecesConcat([piece], Lines(more));
      PieceOf(piece);
      OneLine(s);
      CutAt(s, i);
      hide *;
      Regrouped(PieceBytes(piece), PiecesBytes(Lines(more)), Rest(more));
    }
  }

  /** Pieces and what is pending after one Write. */
  lemma HandedAndLeft(pending: seq<byte>, p: seq<byte>)
    ensures PiecesBytes(Handed(pending, p)) + Left(pending, p) == pending + p
    ensures |Left(pending, p)| <= MAX_PENDING
  {
    var s := pending + p;
    LinesAndRest(s);
    if |Rest(s)| > MAX_PENDING {
      PiecesConcat(Lines(s), [Piece(Rest(s), None)]);
      PieceOf(Piece(Rest(s), None));
      assert Rest(s) + [] == Rest(s);
    }
  }

  lemma Regroup(a: seq<byte>, b: seq<byte>, c: seq<byte>, d: seq<byte>, e: seq<byte>)
    requires b + c == d + e
    ensures a + b + c == a + d + e
  {
    assert a + b + c == a + (b + c);
  }

  /** What a sequence of Writes leaves pending, and hands on. */
  function LeftAfter(chunks: seq<seq<byte>>): seq<byte> {
    if chunks == [] then [] else Left(LeftAfter(chunks[..|chunks| - 1]), chunks[|chunks| - 1])
  }

  function HandedAfter(chunks: seq<seq<byte>>): seq<Piece> {
    if chunks == [] then []
    else HandedAfter(chunks[..|chunks| - 1]) + Handed(LeftAfter(chunks[..|chunks| - 1]), chunks[|chunks| - 1])
  }

  /** The lines handed on with their separators, and what is pending, are the bytes written. */
  lemma {:induction false} NothingLost(chunks: seq<seq<byte>>)
    ensures PiecesBytes(HandedAfter(chunks)) + LeftAfter(chunks) == Concat(chunks)
  {
    if chunks != [] {
      var init, last := chunks[..|chunks| - 1], chunks[|chunks| - 1];
      NothingLost(init);
      HandedAndLeft(LeftAfter(init), last);
      PiecesConcat(HandedAfter(init), Handed(LeftAfter(init), last));
      hide PiecesBytes;
      hide Handed;
      hide Left;
      Regroup(PiecesBytes(HandedAfter(init)), PiecesBytes(Handed(LeftAfter(init), last)), Left(LeftAfter(init), last),
              LeftAfter(init), last);
    }
  }

  // ----- chunks do not matter -----

  /** Every line that a separator ends is at most what may be pending, and what is left at most a byte
      more. */
  ghost predicate NoneTooLong(s: seq<byte>) {
    (forall p | p in Lines(s) :: |p.text| <= MAX_PENDING) && |Rest(s)| <= MAX_PENDING + 1
  }

  lemma EndOfMore(s: seq<byte>, t: seq<byte>)
    requires EndIndex(s) >= 0
    ensures EndIndex(s + t) == EndIndex(s)
    ensures (s + t)[..EndIndex(s)] == s[..EndIndex(s)] && (s + t)[EndIndex(s) + 1..] == s[EndIndex(s) + 1..] + t
  {
    var st, i := s + t, EndIndex(s);
    assert st[i] == s[i] && forall k | 0 <= k < i :: st[k] == s[k];
  }

  lemma {:induction false} LinesOfMore(s: seq<byte>, t: seq<byte>)
    ensures Lines(s + t) == Lines(s) + Lines(Rest(s) + t)
    ensures Rest(s + t) == Rest(Rest(s) + t)
    decreases |s|
  {
    hide *;
    var i := EndIndex(s);
    if i < 0 {
      NoLine(s);
      Regrouped(Lines(Rest(s) + t), [], []);
    } else {
      var more := s[i + 1..];
      OneLine(s);
      EndOfMore(s, t);
      OneLine(s + t);
      LinesOfMore(more, t);
      Regrouped([Piece(s[..i], Some(s[i]))], Lines(more), Lines(Rest(more) + t));
    }
  }

  /** What is left of a prefix starts a line of the whole, or is the start of what is left of it. */
  lemma RestOfPrefix(s: seq<byte>, t: seq<byte>)
    requires NoneTooLong(s + t)
    ensures NoneTooLong(s) && (|Rest(s)| > MAX_PENDING ==> t == [])
  {
    hide Rest;
    hide Lines;
    LinesOfMore(s, t);
    RestHasNoEnd(s);
    var st, rest := s + t, Rest(s);
    var more := rest + t;
    forall p | p in Lines(s) ensures |p.text| <= MAX_PENDING {
      assert p in Lines(st);
    }
    EndAfter(rest, t);
    var i := EndIndex(more);
    if i >= 0 {
      OneLine(more);
      var first := Piece(more[..i], Some(more[i]));
      assert first in [first] + Lines(more[i + 1..]);
      assert first in Lines(st);
    } else {
      NoLine(more);
    }
  }

  lemma EndAfter(rest: seq<byte>, t: seq<byte>)
    requires forall i | 0 <= i < |rest| :: !IsEnd(rest[i])
    ensures EndIndex(rest + t) < 0 || EndIndex(rest + t) >= |rest|
  {
    assert forall k | 0 <= k < |rest| :: (rest + t)[k] == rest[k];
  }

  lemma HandedOnce(s: seq<byte>)
    ensures Handed([], s) == if |Rest(s)| > MAX_PENDING then Lines(s) + [Piece(Rest(s), None)] else Lines(s)
    ensures Left([], s) == if |Rest(s)| > MAX_PENDING then [] else Rest(s)
  {
    assert [] + s == s;
  }

  lemma NothingMore()
    ensures Handed([], []) == [] && Left([], []) == []
  {
    var none: seq<byte> := [];
    assert none + none == none && EndIndex(none) == -1;
    NoLine(none);
  }

  /** Handing on s and then t is handing on both at once. */
  lemma HandedTogether(s: seq<byte>, t: seq<byte>)
    requires NoneTooLong(s + t)
    ensures Handed([], s) + Handed(Left([], s), t) == Handed([], s + t) && Left(Left([], s), t) == Left([], s + t)
  {
    RestOfPrefix(s, t);
    HandedOnce(s);
    if |Rest(s)| > MAX_PENDING {
      NothingMore();
      Regrouped(Handed([], s), [], []);
      assert s + [] == s && Handed([], s) + [] == Handed([], s);
      hide Handed;
      hide Left;
    } else {
      HandedOnce(s + t);
      LinesOfMore(s, t);
      hide Lines;
      hide Rest;
      hide NoneTooLong;
      var rest := Rest(s + t);
      Regrouped(Lines(s), Lines(Rest(s) + t), [Piece(rest, None)]);
    }
  }

  /** With no line too long, the lines are those that one write of all the bytes hands on, however the
      writes cut them. */
  lemma {:induction false} ChunksDoNotMatter(chunks: seq<seq<byte>>)
    requires NoneTooLong(Concat(chunks))
    ensures HandedAfter(chunks) == Handed([], Concat(chunks)) && LeftAfter(chunks) == Left([], Concat(chunks))
  {
    if chunks == [] {
      NothingMore();
    } else {
      var init, last := chunks[..|chunks| - 1], chunks[|chunks| - 1];
      RestOfPrefix(Concat(init), last);
      ChunksDoNotMatter(init);
      HandedTogether(Concat(init), last);
      hide Handed;
      hide Left;
      hide NoneTooLong;
    }
  }

  // ----- a line too long -----

  lemma TwoWrites(a: seq<byte>, b: seq<byte>)
    ensures Concat([a, b]) == a + b && HandedAfter([a, b]) == Handed([], a) + Handed(Left([], a), b)
  {
    OneWrite(a);
    assert [a, b][..1] == [a];
    hide Handed;
    hide Left;
  }

  lemma OneWrite(a: seq<byte>)
    ensures Concat([a]) == a && HandedAfter([a]) == Handed([], a) && LeftAfter([a]) == Left([], a)
  {
    assert [a][..0] == [];
    Regrouped(a, [], []);
    Regrouped(Handed([], a), [], []);
    hide Handed;
    hide Left;
  }

  lemma NotEnded(s: seq<byte>)
    requires forall k | 0 <= k < |s| :: !IsEnd(s[k])
    ensures Lines(s) == [] && Rest(s) == s
  {
    NoLine(s);
  }

  lemma LastOfRest(s: seq<byte>)
    requires Rest(s) != []
    ensures s != [] && !IsEnd(s[|s| - 1])
  {
    RestIsSuffix(s);
    RestHasNoEnd(s);
    hide Rest;
    var rest := Rest(s);
    assert s[|s| - |rest|..][|rest| - 1] == rest[|rest| - 1];
  }

  lemma {:induction false} RestIsSuffix(s: seq<byte>)
    ensures |Rest(s)| <= |s| && s[|s| - |Rest(s)|..] == Rest(s)
    decreases |s|
  {
    hide *;
    var i := EndIndex(s);
    if i >= 0 {
      OneLine(s);
      var more := s[i + 1..];
      RestIsSuffix(more);
      assert s[|s| - |Rest(s)|..] == more[|more| - |Rest(s)|..];
    } else {
      NoLine(s);
    }
  }

  lemma OneByteMore(a: seq<byte>, b: byte)
    requires !IsEnd(b)
    ensures Lines(a + [b]) == Lines(a) && Rest(a + [b]) == Rest(a) + [b]
  {
    RestHasNoEnd(a);
    LinesOfMore(a, [b]);
    hide Lines;
    hide Rest;
    NotEnded(Rest(a) + [b]);
    Regrouped(Lines(a), [], []);
    assert Lines(a) + [] == Lines(a);
  }

  lemma LastDiffers(ls: seq<Piece>, x: Piece, y: Piece)
    requires x != y
    ensures ls + [x] + [] != ls + [y]
  {
    assert (ls + [x] + [])[|ls|] == x && (ls + [y])[|ls|] == y;
  }

  lemma FirstDiffers(x: Piece, xs: seq<Piece>, y: Piece, ys: seq<Piece>)
    requires x != y
    ensures [x] + xs != [y] + ys
  {
    assert ([x] + xs)[0] == x && ([y] + ys)[0] == y;
  }

  /** A tail two bytes too long is handed on in part when a write ends a byte before its end. */
  lemma LongTailDepends(s: seq<byte>) returns (a: seq<byte>, b: seq<byte>)
    requires |Rest(s)| > MAX_PENDING + 1
    ensures s == a + b && Handed([], a) + Handed(Left([], a), b) != Handed([], s)
  {
    LastOfRest(s);
    var n := |s| - 1;
    a, b := s[..n], [s[n]];
    assert s == a + b;
    NotEnded(b);
    hide *;
    OneByteMore(a, s[n]);
    HandedOnce(s);
    HandedOnce(a);
    HandedOnce(b);
    LastDiffers(Lines(s), Piece(Rest(a), None), Piece(Rest(a) + b, None));
  }

  lemma HeadLine(s: seq<byte>)
    requires EndIndex(s) >= 0
    ensures var i := EndIndex(s);
            && Handed([], s) == [Piece(s[..i], Some(s[i]))] + Handed([], s[i + 1..])
            && Left([], s) == Left([], s[i + 1..])
  {
    var i := EndIndex(s);
    OneLine(s);
    HandedOnce(s);
    HandedOnce(s[i + 1..]);
    hide *;
    Regrouped([Piece(s[..i], Some(s[i]))], Lines(s[i + 1..]), [Piece(Rest(s), None)]);
  }

  lemma SameHead(s: seq<byte>, i: nat, t: seq<byte>)
    requires i == EndIndex(s)
    ensures var st := s[..i + 1] + t;
            EndIndex(st) == i && st[..i] == s[..i] && st[i] == s[i] && st[i + 1..] == t
  {
    var st := s[..i + 1] + t;
    assert forall k | 0 <= k <= i :: st[k] == s[k];
  }

  lemma HandedAlone(a: seq<byte>)
    requires |a| > MAX_PENDING && forall k | 0 <= k < |a| :: !IsEnd(a[k])
    ensures Handed([], a) == [Piece(a, None)]
  {
    NotEnded(a);
    HandedOnce(a);
    hide *;
    Regrouped([Piece(a, None)], [], []);
  }

  lemma LongHeadDepends(s: seq<byte>, i: nat)
    requires i == EndIndex(s) && i > MAX_PENDING
    ensures Handed([], s[..i]) + Handed(Left([], s[..i]), s[i..]) != Handed([], s)
  {
    hide *;
    HandedAlone(s[..i]);
    HeadLine(s);
    FirstDiffers(Piece(s[..i], None), Handed(Left([], s[..i]), s[i..]), Piece(s[..i], Some(s[i])), Handed([], s[i + 1..]));
  }

  ghost predicate HasLongLine(s: seq<byte>) {
    exists p | p in Lines(s) :: |p.text| > MAX_PENDING
  }

  lemma LongLineBelow(s: seq<byte>)
    requires HasLongLine(s) && EndIndex(s) <= MAX_PENDING
    ensures EndIndex(s) >= 0 && HasLongLine(s[EndIndex(s) + 1..])
  {
    var p :| p in Lines(s) && |p.text| > MAX_PENDING;
    if EndIndex(s) < 0 {
      NoLine(s);
    } else {
      OneLine(s);
      hide Lines;
      assert p in Lines(s[EndIndex(s) + 1..]);
    }
  }

  /** A line too long is handed on early when a write ends just before its separator. */
  lemma {:induction false} LongLineDepends(s: seq<byte>) returns (a: seq<byte>, b: seq<byte>)
    requires HasLongLine(s)
    ensures s == a + b && Handed([], a) + Handed(Left([], a), b) != Handed([], s)
    decreases |s|
  {
    hide *;
    var i := EndIndex(s);
    if i > MAX_PENDING {
      LongHeadDepends(s, i);
      HeadAndMore(s, i);
      a, b := s[..i], s[i..];
    } else {
      LongLineBelow(s);
      a, b := LongLineDepends(s[i + 1..]);
      DependsAfterHead(s, i, a, b);
      a := s[..i + 1] + a;
    }
  }

  lemma DependsAfterHead(s: seq<byte>, i: nat, a: seq<byte>, b: seq<byte>)
    requires i == EndIndex(s) && s[i + 1..] == a + b
    requires Handed([], a) + Handed(Left([], a), b) != Handed([], s[i + 1..])
    ensures s == s[..i + 1] + a + b
    ensures Handed([], s[..i + 1] + a) + Handed(Left([], s[..i + 1] + a), b) != Handed([], s)
  {
    HeadAndMore(s, i + 1);
    Regrouped(s[..i + 1], a, b);
    HandedAfterHead(s, i, a);
    HeadLine(s);
    hide *;
    OnePieceBefore(Piece(s[..i], Some(s[i])), Handed([], a), Handed(Left([], a), b), Handed([], s[i + 1..]));
  }

  lemma HandedAfterHead(s: seq<byte>, i: nat, a: seq<byte>)
    requires i == EndIndex(s)
    ensures Handed([], s[..i + 1] + a) == [Piece(s[..i], Some(s[i]))] + Handed([], a)
    ensures Left([], s[..i + 1] + a) == Left([], a)
  {
    SameHead(s, i, a);
    hide *;
    HeadLine(s[..i + 1] + a);
  }

  lemma OnePieceBefore(x: Piece, a: seq<Piece>, b: seq<Piece>, all: seq<Piece>)
    requires a + b != all
    ensures [x] + a + b != [x] + all
  {
    Regrouped([x], a, b);
    SameTail([x], a + b, all);
  }

  lemma HeadAndMore(s: seq<byte>, i: nat)
    requires i <= |s|
    ensures s[..i] + s[i..] == s
  {
  }

  lemma SameTail(x: seq<Piece>, y: seq<Piece>, z: seq<Piece>)
    ensures x + y == x + z ==> y == z
  {
    assert (x + y)[|x|..] == y && (x + z)[|x|..] == z;
  }

  /** However the bytes are cut into writes, the lines are those of one write, exactly when no line is too
      long. */
  lemma CutsAgreeIff(s: seq<byte>)
    ensures (forall chunks | Concat(chunks) == s :: HandedAfter(chunks) == HandedAfter([s])) <==> NoneTooLong(s)
  {
    OneWrite(s);
    if NoneTooLong(s) {
      forall chunks | Concat(chunks) == s ensures HandedAfter(chunks) == HandedAfter([s]) {
        ChunksDoNotMatter(chunks);
      }
    } else {
      var a, b := TooLongDepends(s);
      hide *;
      TwoWrites(a, b);
      assert HandedAfter([a, b]) != HandedAfter([s]);
    }
  }

  lemma TooLongDepends(s: seq<byte>) returns (a: seq<byte>, b: seq<byte>)
    requires !NoneTooLong(s)
    ensures s == a + b && Handed([], a) + Handed(Left([], a), b) != Handed([], s)
  {
    if |Rest(s)| > MAX_PENDING + 1 {
      a, b := LongTailDepends(s);
    } else {
      assert HasLongLine(s);
      a, b := LongLineDepends(s);
    }
  }

  // ----- the count of repeats -----

  /** For one key, since it last entered the table: its lines, how many of them were logged, and how
      many the log said were left out. */
  datatype Tally = Tally(lines: nat, logged: nat, reported: nat)

  /** The line clears the table before it is entered. */
  predicate Resets(seen: Table, line: Taken) {
    Trimmed(line.text) != [] && Key(Trimmed(line.text)) !in seen && |seen| >= MAX_SEEN
  }

  function TallyOf(lines: seq<Taken>, key: seq<byte>): Tally {
    if lines == [] then Tally(0, 0, 0)
    else
      var init, last := lines[..|lines| - 1], lines[|lines| - 1];
      var seen := TableAfter(init);
      var before := if Resets(seen, last) then Tally(0, 0, 0) else TallyOf(init, key);
      if Trimmed(last.text) == [] || Key(Trimmed(last.text)) != key then before
      else
        var entry := EntryOf(seen, last);
        Tally(before.lines + 1, before.logged + |entry|, before.reported + if entry == [] then 0 else entry[0].likeIt)
  }

  /** No line goes uncounted: for every key in the table, its lines are those logged, those the log
      said were left out, and those skipped since. */
  lemma {:induction false} EveryLineCounted(lines: seq<Taken>, key: seq<byte>)
    ensures var t, seen := TallyOf(lines, key), TableAfter(lines);
            t.lines == t.logged + t.reported + (if key in seen then seen[key].skipped else 0)
    ensures key !in TableAfter(lines) ==> TallyOf(lines, key) == Tally(0, 0, 0)
  {
    if lines != [] {
      EveryLineCounted(lines[..|lines| - 1], key);
      hide Trimmed;
      hide Key;
    }
  }

  /** Line i is logged. */
  predicate IsLogged(lines: seq<Taken>, i: nat)
    requires i < |lines|
  {
    EntryOf(TableAfter(lines[..i]), lines[i]) != []
  }

  predicate NoReset(lines: seq<Taken>, i: nat, j: nat)
    requires i <= j <= |lines|
  {
    forall k | i < k < j :: !Resets(TableAfter(lines[..k]), lines[k])
  }

  lemma TableStep(lines: seq<Taken>, k: nat)
    requires k < |lines|
    ensures TableAfter(lines[..k + 1])
         == if Trimmed(lines[k].text) == [] then TableAfter(lines[..k])
            else AfterLine(TableAfter(lines[..k]), Trimmed(lines[k].text), lines[k].now)
  {
    OneMore(lines[..k], lines[k]);
    assert lines[..k] + [lines[k]] == lines[..k + 1];
  }

  lemma LoggedAtGrows(seen: Table, trimmed: seq<byte>, now: int, key: seq<byte>)
    requires key in seen && (Key(trimmed) in seen || |seen| < MAX_SEEN)
    ensures var after := AfterLine(seen, trimmed, now);
            key in after && after[key].loggedAt >= seen[key].loggedAt
  {
    hide Key;
  }

  lemma LoggedNow(seen: Table, trimmed: seq<byte>, now: int)
    requires Logged(seen, trimmed, now).Some?
    ensures var after := AfterLine(seen, trimmed, now);
            Key(trimmed) in after && after[Key(trimmed)] == Repeated(now, 0)
  {
    hide Key;
  }

  lemma {:induction false} LoggedSince(lines: seq<Taken>, i: nat, j: nat)
    requires i < j <= |lines| && IsLogged(lines, i) && NoReset(lines, i, j)
    ensures var key, seen := Key(Trimmed(lines[i].text)), TableAfter(lines[..j]);
            key in seen && seen[key].loggedAt >= lines[i].now
  {
    hide TableAfter;
    hide Trimmed;
    hide Key;
    hide AfterLine;
    hide Logged;
    var seen, line := TableAfter(lines[..j - 1]), lines[j - 1];
    TableStep(lines, j - 1);
    if i + 1 < j {
      LoggedSince(lines, i, j - 1);
      assert !Resets(seen, line);
      if Trimmed(line.text) != [] {
        LoggedAtGrows(seen, Trimmed(line.text), line.now, Key(Trimmed(lines[i].text)));
      }
    } else {
      LoggedNow(seen, Trimmed(line.text), line.now);
    }
  }

  /** Until the table is cleared, lines that differ only in their digits are logged no closer to each
      other than the interval. */
  lemma LoggedApart(lines: seq<Taken>, i: nat, j: nat)
    requires i < j < |lines| && IsLogged(lines, i) && IsLogged(lines, j) && NoReset(lines, i, j)
    requires Key(Trimmed(lines[i].text)) == Key(Trimmed(lines[j].text))
    ensures lines[j].now - lines[i].now >= REPEAT_LOG_INTERVAL
  {
    LoggedSince(lines, i, j);
    hide TableAfter;
    hide Trimmed;
    hide Key;
  }

  lemma OneKeyMore(seen: Table, key: seq<byte>, r: Repeated)
    ensures |seen[key := r]| == |seen| + if key in seen then 0 else 1
  {
    assert seen[key := r].Keys == seen.Keys + {key};
  }

  /** The table stays small. */
  lemma {:induction false} TableStaysSmall(lines: seq<Taken>)
    ensures |TableAfter(lines)| <= MAX_SEEN
  {
    if lines != [] {
      TableStaysSmall(lines[..|lines| - 1]);
      var seen, last := TableAfter(lines[..|lines| - 1]), lines[|lines| - 1];
      var key := Key(Trimmed(last.text));
      if key in seen {
        OneKeyMore(seen, key, TableAfter(lines)[key]);
      }
      OneKeyMore(seen, key, Repeated(last.now, 0));
      OneKeyMore(map[], key, Repeated(last.now, 0));
      hide Trimmed;
      hide Key;
    }
  }
}
