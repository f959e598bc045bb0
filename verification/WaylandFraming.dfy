/** However the socket's reads cut the byte stream, the events read are the messages sent. */
module WaylandFraming {
  import opened Bytes
  import opened WaylandWire
  import opened WaylandConn

  function Arriving(feed: seq<Read>): seq<byte> {
    if feed == [] then [] else feed[0].bytes + Arriving(feed[1..])
  }

  function FdsArriving(feed: seq<Read>): seq<int> {
    if feed == [] then [] else feed[0].fds + FdsArriving(feed[1..])
  }

  /** Everything not yet taken: the bytes pending and those to come. */
  function Stream(io: Io): seq<byte> {
    io.pending + Arriving(io.feed)
  }

  function FdStream(io: Io): seq<int> {
    io.fds + FdsArriving(io.feed)
  }

  function EncodeAll(es: seq<Event>): seq<byte> {
    if es == [] then [] else Encode(es[0]) + EncodeAll(es[1..])
  }

  /** No read fails, and none is empty. */
  predicate AllArrive(feed: seq<Read>) {
    forall r | r in feed :: !r.failed && r.bytes != []
  }

  /** The first n events, as long as each is delivered. */
  function NextMany(io: Io, n: nat): (seq<Outcome>, Io)
    decreases n
  {
    if n == 0 then ([], io)
    else
      var (o, after) := Next(io);
      var (os, end) := NextMany(after, n - 1);
      ([o] + os, end)
  }

  function OutcomesOf(es: seq<Event>): seq<Outcome> {
    if es == [] then [] else [OutcomeOf(es[0])] + OutcomesOf(es[1..])
  }

  /** The state after the read at the head of the feed. */
  function AfterRead(io: Io): Io
    requires io.feed != []
  {
    Io(io.pending + io.feed[0].bytes, io.fds + io.feed[0].fds, io.feed[1..])
  }

  lemma SameStream(io: Io)
    requires io.feed != []
    ensures Stream(AfterRead(io)) == Stream(io) && FdStream(AfterRead(io)) == FdStream(io)
  {
    Regrouped(io.pending, io.feed[0].bytes, Arriving(io.feed[1..]));
    Regrouped(io.fds, io.feed[0].fds, FdsArriving(io.feed[1..]));
  }

  lemma NextReads(io: Io)
    requires Frame(io.pending).More? && io.feed != [] && !io.feed[0].failed && io.feed[0].bytes != []
    ensures Next(io) == Next(AfterRead(io))
  {
    hide Frame;
  }

  lemma NextTakes(io: Io)
    requires Frame(io.pending).Whole?
    ensures Next(io) == (OutcomeOf(Frame(io.pending).ev), io.(pending := Frame(io.pending).rest))
  {
    hide Frame;
  }

  /** A message at the head of the stream is the next event, and no byte after it is touched. */
  lemma {:induction false} NextIsHead(io: Io, e: Event, rest: seq<byte>)
    requires AllArrive(io.feed) && FitsSize(e) && Stream(io) == Encode(e) + rest
    ensures Next(io).0 == OutcomeOf(e)
    ensures Stream(Next(io).1) == rest && FdStream(Next(io).1) == FdStream(io) && AllArrive(Next(io).1.feed)
    decreases |io.feed|
  {
    FrameOf(Stream(io), e, rest);
    FrameOfMore(io.pending, Arriving(io.feed));
    if io.feed == [] {
      assert Stream(io) == io.pending;
    }
    hide Frame;
    hide Encode;
    hide OutcomeOf;
    if Frame(io.pending).Whole? {
      NextTakes(io);
    } else {
      assert io.feed[0] in io.feed;
      NextReads(io);
      SameStream(io);
      NextIsHead(AfterRead(io), e, rest);
    }
  }

  /** Framing undoes encoding: messages that fit are read back in order, however the reads cut them,
      and what follows them is kept. */
  lemma {:induction false} FramingRoundTrip(io: Io, es: seq<Event>, rest: seq<byte>)
    requires AllArrive(io.feed) && (forall e | e in es :: FitsSize(e))
    requires Stream(io) == EncodeAll(es) + rest
    ensures NextMany(io, |es|).0 == OutcomesOf(es)
    ensures Stream(NextMany(io, |es|).1) == rest && FdStream(NextMany(io, |es|).1) == FdStream(io)
    decreases |es|
  {
    if es == [] {
      assert [] + rest == rest;
    } else {
      var tail := EncodeAll(es[1..]) + rest;
      Regrouped(Encode(es[0]), EncodeAll(es[1..]), rest);
      assert es[0] in es;
      NextIsHead(io, es[0], tail);
      FramingRoundTrip(Next(io).1, es[1..], rest);
      hide Next;
      hide Encode;
      hide OutcomeOf;
      hide Stream;
    }
  }

  /** Without an error from the display, each outcome is the event itself. */
  lemma {:induction false} EventsComeBack(es: seq<Event>)
    requires forall e | e in es :: !IsDisplayError(e)
    ensures OutcomesOf(es) == seq(|es|, i requires 0 <= i < |es| => Got(es[i]))
  {
    if es != [] {
      assert es[0] in es;
      EventsComeBack(es[1..]);
    }
  }

  /** Whatever bytes arrive, an event handed out is the bytes taken off the stream: nothing is lost,
      repeated or reordered, and neither are descriptors. */
  lemma {:induction false} NextConserves(io: Io)
    ensures FdStream(Next(io).1) == FdStream(io)
    ensures Next(io).0.Got? || Next(io).0.DisplayError?
        ==> Stream(io) == Encode(Next(io).0.ev) + Stream(Next(io).1) && FitsSize(Next(io).0.ev)
    ensures Next(io).0.BadMessage? ==> Stream(Next(io).1) == Stream(io)
    decreases |io.feed|
  {
    var f := Frame(io.pending);
    if f.Whole? {
      WholeIsEncoded(io.pending);
      NextTakes(io);
      hide Encode;
      hide Frame;
      Regrouped(Encode(f.ev), f.rest, Arriving(io.feed));
    } else if f.More? && io.feed != [] {
      SameStream(io);
      if !io.feed[0].failed && io.feed[0].bytes != [] {
        NextReads(io);
        NextConserves(AfterRead(io));
        hide *;
      }
    }
  }

  // ----- object ids -----

  /** The id that call number k gets; the first is 2. */
  function NthID(k: nat): u32 {
    (2 + k) % TWO_32
  }

  lemma NthIDSteps(k: nat)
    ensures NthID(0) == 2 && NthID(k + 1) == IdAfter(NthID(k))
  {
  }

  lemma Apart(i: nat, j: nat)
    requires i < j < i + TWO_32
    ensures NthID(i) != NthID(j)
  {
    var q, r := (2 + i) / TWO_32, (2 + i) % TWO_32;
    assert 2 + j == q * TWO_32 + (r + (j - i));
    if r + (j - i) < TWO_32 {
      assert (2 + j) % TWO_32 == r + (j - i);
    } else {
      assert 2 + j == (q + 1) * TWO_32 + (r + (j - i) - TWO_32);
    }
  }

  /** No id is given out twice, for as many calls as there are ids. */
  lemma IdsDifferIff(calls: nat)
    ensures (forall i: nat, j: nat | i < j < calls :: NthID(i) != NthID(j)) <==> calls <= TWO_32
  {
    if calls <= TWO_32 {
      forall i: nat, j: nat | i < j < calls ensures NthID(i) != NthID(j) {
        Apart(i, j);
      }
    } else {
      assert NthID(0) == NthID(TWO_32);
    }
  }
}
