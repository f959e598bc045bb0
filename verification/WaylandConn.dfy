/** The client's end of a Wayland connection: messages framed over the socket's reads, descriptors and
    object ids. */
module WaylandConn {
  import opened Bytes
  import opened WaylandWire

  /** A message: the object it is for, which of its requests or events it is, and its arguments. */
  datatype Event = Event(obj: u32, op: u16, body: seq<byte>)

  // ----- framing -----

  /** The size, in the upper half of the second word, takes sixteen bits. */
  function SizeAndOp(e: Event): u32 {
    (8 + |e.body|) % TWO_16 * TWO_16 + e.op
  }

  function Encode(e: Event): seq<byte> {
    PutU32(e.obj) + PutU32(SizeAndOp(e)) + e.body
  }

  predicate FitsSize(e: Event) {
    8 + |e.body| < TWO_16
  }

  /** What the pending bytes start with. */
  datatype Framed = More | Bad | Whole(ev: Event, rest: seq<byte>)

  function Frame(s: seq<byte>): Framed {
    if |s| < 8 then More
    else
      var size := GetU32(s, 4) / TWO_16;
      if size < 8 then Bad
      else if |s| < size then More
      else Whole(Event(GetU32(s, 0), GetU32(s, 4) % TWO_16, s[8..size]), s[size..])
  }

  lemma HeaderReadsBack(e: Event, rest: seq<byte>)
    ensures var s := Encode(e) + rest;
            |s| == 8 + |e.body| + |rest| && GetU32(s, 0) == e.obj && GetU32(s, 4) == SizeAndOp(e)
  {
    var a, b := PutU32(e.obj), PutU32(SizeAndOp(e));
    var s := Encode(e) + rest;
    assert s == [] + a + (b + e.body + rest) by { hide PutU32; hide SizeAndOp; }
    assert s == a + b + (e.body + rest) by { hide PutU32; hide SizeAndOp; }
    WordReadsBack([], e.obj, b + e.body + rest);
    WordReadsBack(a, SizeAndOp(e), e.body + rest);
  }

  lemma HeaderSplits(e: Event)
    ensures SizeAndOp(e) / TWO_16 == (8 + |e.body|) % TWO_16 && SizeAndOp(e) % TWO_16 == e.op
  {
  }

  lemma FrameOf(s: seq<byte>, e: Event, rest: seq<byte>)
    requires s == Encode(e) + rest && FitsSize(e)
    ensures Frame(s) == Whole(e, rest)
  {
    HeaderReadsBack(e, rest);
    HeaderSplits(e);
    hide PutU32;
    hide GetU32;
    hide SizeAndOp;
    assert s[8..8 + |e.body|] == e.body && s[8 + |e.body|..] == rest;
  }

  /** A message is read back exactly when its size fits its sixteen bits. */
  lemma FramesBackIff(e: Event)
    ensures Frame(Encode(e)) == Whole(e, []) <==> FitsSize(e)
  {
    var s := Encode(e);
    assert s + [] == s;
    if FitsSize(e) {
      FrameOf(s, e, []);
    } else {
      HeaderReadsBack(e, []);
      HeaderSplits(e);
      hide PutU32;
      hide GetU32;
      hide SizeAndOp;
    }
  }

  /** Whatever the bytes, an event cut from them is encoded by the bytes cut. */
  lemma WholeIsEncoded(s: seq<byte>)
    requires Frame(s).Whole?
    ensures FitsSize(Frame(s).ev) && s == Encode(Frame(s).ev) + Frame(s).rest
  {
    var w := GetU32(s, 4);
    var e, rest := Frame(s).ev, Frame(s).rest;
    assert SizeAndOp(e) == w;
    WordIsItsBytes(s, 0);
    WordIsItsBytes(s, 4);
    hide GetU32;
    hide PutU32;
    hide SizeAndOp;
    assert s == s[0..4] + s[4..8] + s[8..8 + |e.body|] + s[8 + |e.body|..];
  }

  /** More bytes do not change what was already decided. */
  lemma FrameOfMore(s: seq<byte>, t: seq<byte>)
    ensures Frame(s).Bad? ==> Frame(s + t).Bad?
    ensures Frame(s).Whole? ==> Frame(s + t) == Whole(Frame(s).ev, Frame(s).rest + t)
  {
    if |s| >= 8 {
      SameWords(s, t);
      hide GetU32;
      var size := GetU32(s, 4) / TWO_16;
      if 8 <= size <= |s| {
        assert (s + t)[8..size] == s[8..size] && (s + t)[size..] == s[size..] + t;
      }
    }
  }

  lemma SameWords(s: seq<byte>, t: seq<byte>)
    requires |s| >= 8
    ensures GetU32(s + t, 0) == GetU32(s, 0) && GetU32(s + t, 4) == GetU32(s, 4)
  {
  }

  // ----- the next event -----

  /** One read of the socket: what it brought, and whether it failed. A read that brings no bytes means
      that the connection is closed. */
  datatype Read = Read(bytes: seq<byte>, fds: seq<int>, failed: bool)

  /** Bytes and descriptors not yet taken, and the reads to come; with none left the deadline passes. */
  datatype Io = Io(pending: seq<byte>, fds: seq<int>, feed: seq<Read>)

  datatype Outcome =
    | Got(ev: Event)
    | DisplayError(ev: Event, code: u32, text: seq<byte>)
    | BadMessage
    | ReadFailed
    | Closed

  predicate IsDisplayError(e: Event) {
    e.obj == 1 && e.op == 0
  }

  function OutcomeOf(e: Event): Outcome {
    if IsDisplayError(e) then DisplayError(e, WordAt(e.body, 4), StrAt(e.body, 8).0) else Got(e)
  }

  function Next(io: Io): (Outcome, Io)
    decreases |io.feed|
  {
    match Frame(io.pending)
    case Bad => (BadMessage, io)
    case Whole(e, rest) => (OutcomeOf(e), io.(pending := rest))
    case More =>
      if io.feed == [] then (ReadFailed, io)
      else
        var r, feed := io.feed[0], io.feed[1..];
        var fds := io.fds + r.fds;
        if r.failed then (ReadFailed, Io(io.pending, fds, feed))
        else if r.bytes == [] then (Closed, Io(io.pending, fds, feed))
        else Next(Io(io.pending + r.bytes, fds, feed))
  }

  function IdAfter(id: u32): u32 {
    (id + 1) % TWO_32
  }

  /** What was handed to the socket: a message, and the descriptor sent along, if any. */
  datatype Sent = Sent(bytes: seq<byte>, fds: seq<int>)

  class Conn {
    var pending: seq<byte>
    var fds: seq<int>
    var nextID: u32
    var feed: seq<Read>
    var written: seq<Sent>

    function State(): Io
      reads this
    {
      Io(pending, fds, feed)
    }

    constructor (toRead: seq<Read>)
      ensures State() == Io([], [], toRead) && nextID == 2 && written == []
    {
      pending, fds, nextID, feed, written := [], [], 2, toRead, [];
    }

    /** Gives out the next object id; it wraps. */
    method NewID() returns (id: u32)
      modifies `nextID
      ensures id == old(nextID) && nextID == IdAfter(id)
    {
      id := nextID;
      nextID := (nextID + 1) % TWO_32;
    }

    /** Writes one request; the socket may refuse it. */
    method Send(obj: u32, op: u16, args: seq<byte>, fd: int) returns (ok: bool)
      modifies `written
      ensures written == old(written) + [Sent(Encode(Event(obj, op, args)), if fd >= 0 then [fd] else [])]
    {
      var msg := PutU32(obj);
      msg := msg + PutU32((8 + |args|) % TWO_16 * TWO_16 + op);
      msg := msg + args;
      var oob := [];
      if fd >= 0 {
        oob := [fd];
      }
      written := written + [Sent(msg, oob)];
      ok := *;
    }

    /** Reads until the next event is whole, or the connection is of no more use. */
    method NextEvent() returns (o: Outcome)
      modifies `pending, `fds, `feed
      ensures (o, State()) == Next(old(State()))
    {
      while true
        invariant Next(State()) == Next(old(State()))
        decreases |feed|
      {
        if |pending| >= 8 {
          var size := GetU32(pending, 4) / TWO_16;
          if size < 8 {
            return BadMessage;
          }
          if |pending| >= size {
            var ev := Event(GetU32(pending, 0), GetU32(pending, 4) % TWO_16, pending[8..size]);
            pending := pending[size..];
            if ev.obj == 1 && ev.op == 0 {
              var text := StrAt(ev.body, 8).0;
              return DisplayError(ev, WordAt(ev.body, 4), text);
            }
            return Got(ev);
          }
        }
        if feed == [] {
          return ReadFailed;
        }
        var r := feed[0];
        feed := feed[1..];
        fds := fds + r.fds;
        if r.failed {
          return ReadFailed;
        }
        if r.bytes == [] {
          return Closed;
        }
        pending := pending + r.bytes;
      }
    }

    /** Takes the oldest descriptor received, -1 when there is none. */
    method TakeFD() returns (fd: int)
      modifies `fds
      ensures if old(fds) == [] then fd == -1 && fds == [] else [fd] + fds == old(fds)
    {
      if |fds| == 0 {
        return -1;
      }
      fd := fds[0];
      fds := fds[1..];
    }
  }
}
