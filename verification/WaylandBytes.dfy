/** What is on the wire, byte by byte: words and headers, the requests of the device, and the events a compositor says
    something with. */
module WaylandBytes {
  import opened Bytes
  import opened WaylandWire
  import opened WaylandConn
  import opened WaylandFraming
  import opened WaylandDevice

  // ----- words and headers -----

  /** The four bytes at i, the lowest first, are v. */
  predicate LittleEndian(s: seq<byte>, i: nat, v: nat) {
    i + 4 <= |s| && s[i] as nat + 256 * s[i + 1] as nat + 65536 * s[i + 2] as nat + 16777216 * s[i + 3] as nat == v
  }

  lemma WordIs(v: u32)
    ensures LittleEndian(PutU32(v), 0, v)
  {
    Digits(v);
  }

  lemma PlacedWord(before: seq<byte>, v: u32, after: seq<byte>)
    ensures LittleEndian(before + PutU32(v) + after, |before|, v)
  {
    WordIs(v);
    hide PutU32;
    var s := before + PutU32(v) + after;
    assert forall k | 0 <= k < 4 :: s[|before| + k] == PutU32(v)[k];
  }

  lemma HalvesOf(s: seq<byte>, size: nat, op: nat)
    requires |s| >= 8 && op < 65536 && LittleEndian(s, 4, size * 65536 + op)
    ensures s[4] as nat + 256 * s[5] as nat == op && s[6] as nat + 256 * s[7] as nat == size
  {
    var low, high := s[4] as nat + 256 * s[5] as nat, s[6] as nat + 256 * s[7] as nat;
    assert low + 65536 * high == size * 65536 + op && low < 65536;
  }

  /** A message is its object in four bytes, what it is in two, its whole size in two, each lowest byte first, and its
      arguments. */
  lemma MessageIs(e: Event)
    requires FitsSize(e)
    ensures var s := Encode(e);
            && |s| == 8 + |e.body| && s[8..] == e.body
            && LittleEndian(s, 0, e.obj)
            && s[4] as nat + 256 * s[5] as nat == e.op && s[6] as nat + 256 * s[7] as nat == |s|
  {
    var a, b := PutU32(e.obj), PutU32(SizeAndOp(e));
    PlacedWord([], e.obj, b + e.body);
    PlacedWord(a, SizeAndOp(e), e.body);
    assert SizeAndOp(e) == (8 + |e.body|) * 65536 + e.op;
    hide PutU32;
    hide SizeAndOp;
    hide LittleEndian;
    assert [] + a + (b + e.body) == a + b + e.body;
    HalvesOf(Encode(e), 8 + |e.body|, e.op);
  }

  lemma StringStarts(s: seq<byte>)
    requires |s| + 1 < TWO_32
    ensures LittleEndian(PutStr(s), 0, |s| + 1)
  {
    var n, rest := PutU32(|s| + 1), s + [0] + Zeros(Padding(|s| + 1));
    PlacedWord([], |s| + 1, rest);
    hide PutU32;
    hide LittleEndian;
    hide Padding;
    assert [] + n + rest == n + s + [0] + Zeros(Padding(|s| + 1));
  }

  lemma Parts(a: seq<byte>, b: seq<byte>, z: seq<byte>)
    requires forall i | 0 <= i < |z| :: z[i] == 0
    ensures var r := a + b + [0] + z;
            r[|a|..|a| + |b|] == b && forall i | |a| + |b| <= i < |r| :: r[i] == 0
  {
  }

  /** A string is its length with the final zero in four bytes, its own bytes, and one to four zeros up to the next
      word. */
  lemma StringIs(s: seq<byte>)
    requires |s| + 1 < TWO_32
    ensures var r := PutStr(s);
            && LittleEndian(r, 0, |s| + 1) && r[4..4 + |s|] == s
            && |r| % 4 == 0 && 5 + |s| <= |r| <= 8 + |s| && forall i | 4 + |s| <= i < |r| :: r[i] == 0
  {
    StringStarts(s);
    PaddingEnds(0, |s| + 1, Padding(|s| + 1));
    hide PutU32;
    hide LittleEndian;
    Parts(PutU32(|s| + 1), s, Zeros(Padding(|s| + 1)));
  }

  // ----- requests -----

  /** An offer is destroyed by its request number 1, which has no arguments. */
  lemma DestroyIs(id: u32)
    ensures var r := DestroyRequest(id);
            && r.fds == [] && |r.bytes| == 8 && LittleEndian(r.bytes, 0, id) && r.bytes[4..] == [1, 0, 8, 0]
  {
    MessageIs(Event(id, 1, []));
    var s := Encode(Event(id, 1, []));
    hide Encode;
    hide LittleEndian;
    FourBytes(s[4], s[5], s[6], s[7], 1, 8);
    assert s[4..] == [s[4], s[5], s[6], s[7]];
  }

  lemma FourBytes(a: byte, b: byte, c: byte, d: byte, op: nat, size: nat)
    requires a as nat + 256 * b as nat == op < 256 && c as nat + 256 * d as nat == size < 256
    ensures a as nat == op && b == 0 && c as nat == size && d == 0
  {
  }

  /** The display is asked by its request number 0 for an answer to cb. */
  lemma SyncIs(cb: u32)
    ensures var r := SyncRequest(cb);
            && r.fds == [] && |r.bytes| == 12 && LittleEndian(r.bytes, 0, 1)
            && r.bytes[4..8] == [0, 0, 12, 0] && LittleEndian(r.bytes[8..], 0, cb)
  {
    MessageIs(Event(1, 0, PutU32(cb)));
    WordIs(cb);
    var s := Encode(Event(1, 0, PutU32(cb)));
    hide Encode;
    hide LittleEndian;
    FourBytes(s[4], s[5], s[6], s[7], 0, 12);
    assert s[4..8] == [s[4], s[5], s[6], s[7]];
  }

  // ----- events -----

  /** How the compositor announces an offer, selects one, and says that one has a type. */
  function EventOf(device: u32, m: Meaning): Event {
    match m
    case Announce(id) => Event(device, 0, PutU32(id))
    case Select(id) => Event(device, 1, PutU32(id))
    case Says(id, mime) => Event(id, 0, PutStr(mime))
    case Nothing => Event(device, 2, [])
  }

  /** It fits in a message, and is said of an object that is not the device, the display or the callback. */
  predicate Sayable(device: u32, cb: u32, m: Meaning) {
    && device != 1 && device != cb
    && (m.Says? ==> m.id != device && m.id != 1 && m.id != cb)
    && FitsSize(EventOf(device, m))
  }

  lemma WordBack(v: u32)
    ensures WordAt(PutU32(v), 0) == v
  {
    WordReadsBack([], v, []);
    hide GetU32;
    hide PutU32;
    assert [] + PutU32(v) + [] == PutU32(v);
  }

  lemma StrBack(s: seq<byte>)
    requires |s| + 1 < TWO_32
    ensures StrAt(PutStr(s), 0).0 == s
  {
    StrReadsBack([], s, []);
    hide StrAt;
    hide PutStr;
    assert [] + PutStr(s) + [] == PutStr(s);
  }

  /** The device takes them to mean that. */
  lemma MeansWhatItSays(device: u32, cb: u32, m: Meaning)
    requires Sayable(device, cb, m)
    ensures MeaningOf(device, EventOf(device, m)) == m
  {
    match m
    case Announce(id) => WordBack(id);
    case Select(id) => WordBack(id);
    case Says(id, mime) => StrBack(mime);
    case Nothing =>
  }

  function EventsOf(device: u32, ms: seq<Meaning>): (evs: seq<Event>)
    ensures |evs| == |ms|
  {
    seq(|ms|, i requires 0 <= i < |ms| => EventOf(device, ms[i]))
  }

  /** Whatever the compositor says before its answer, in any reads, the device hears it, all of it, in order. */
  lemma HistoryIsHeard(device: u32, io: Io, cb: u32, ms: seq<Meaning>, answer: Event, rest: seq<byte>)
    requires AllArrive(io.feed) && Stream(io) == EncodeAll(EventsOf(device, ms)) + (Encode(answer) + rest)
    requires forall i | 0 <= i < |ms| :: Sayable(device, cb, ms[i])
    requires FitsSize(answer) && !IsDisplayError(answer) && Answers(answer, cb)
    ensures Meanings(device, Until(io, cb).evs) == ms && Until(io, cb).last == Got(answer)
  {
    var evs := EventsOf(device, ms);
    forall e | e in evs ensures FitsSize(e) && !IsDisplayError(e) && !Answers(e, cb) {
      var i :| 0 <= i < |evs| && evs[i] == e;
      assert Sayable(device, cb, ms[i]);
    }
    hide Stream;
    hide EncodeAll;
    hide Encode;
    UntilTheAnswer(io, cb, evs, answer, rest);
    forall i | 0 <= i < |ms| ensures MeaningOf(device, evs[i]) == ms[i] {
      MeansWhatItSays(device, cb, ms[i]);
    }
    hide Until;
    hide MeaningOf;
    hide EventOf;
  }

  /** An event announces an offer, or selects one, only as the device's event number 0 or 1, with the id as its first
      word, which is 0 when there is none. */
  lemma AnnouncesIff(device: u32, ev: Event, id: u32)
    ensures MeaningOf(device, ev) == Announce(id)
       <==> ev.obj == device && ev.op == 0 && if |ev.body| < 4 then id == 0 else LittleEndian(ev.body, 0, id)
    ensures MeaningOf(device, ev) == Select(id)
       <==> ev.obj == device && ev.op == 1 && if |ev.body| < 4 then id == 0 else LittleEndian(ev.body, 0, id)
  {
    hide StrAt;
  }

  // ----- what ends the reading -----

  /** The display's error, about an object, comes with its number and its text. */
  lemma ErrorIs(about: u32, code: u32, text: seq<byte>)
    requires |text| + 1 < TWO_32
    ensures var e := Event(1, 0, PutU32(about) + PutU32(code) + PutStr(text)); OutcomeOf(e) == DisplayError(e, code, text)
  {
    var a, b := PutU32(about), PutU32(code);
    var body := a + b + PutStr(text);
    WordReadsBack(a, code, PutStr(text));
    StrReadsBack(a + b, text, []);
    assert body + [] == body;
    hide PutU32;
    hide PutStr;
    hide GetU32;
    hide StrAt;
  }

  /** Whatever is not the first event of the display is handed out. */
  lemma HandedOutIff(e: Event)
    ensures OutcomeOf(e) == Got(e) <==> e.obj != 1 || e.op != 0
  {
  }

  /** A message that says it is shorter than its own header is bad, and no other is. */
  lemma BadIff(s: seq<byte>)
    ensures Frame(s).Bad? <==> |s| >= 8 && s[6] as nat + 256 * s[7] as nat < 8
  {
    if |s| >= 8 {
      var w := GetU32(s, 4);
      var low, high := s[4] as nat + 256 * s[5] as nat, s[6] as nat + 256 * s[7] as nat;
      assert w == low + 65536 * high && low < 65536;
    }
  }
}
