/** The queue of far-end frames between what is played and what is captured. */
module EchoQueue {
  type Frame = seq<real>

  /** Frames kept back, so that the echo of a frame comes after it. */
  const PLAYBACK_DELAY: nat := 2

  /** started says that frames are queued; capture starts it. */
  datatype Queue = Queue(frames: seq<Frame>, started: bool)

  /** Queues a frame; an empty queue takes it twice, a full one drops it. */
  function Played(q: Queue, frame: Frame): Queue {
    if !q.started || |q.frames| > PLAYBACK_DELAY then q
    else if |q.frames| == 0 then q.(frames := [frame, frame])
    else q.(frames := q.frames + [frame])
  }

  /** Takes the oldest frame; a reset meanwhile leaves one frame of silence, and the queue stopped. */
  function Captured(q: Queue, silence: Frame, reset: bool): Queue {
    if q.frames == [] then Queue([], true)
    else if reset then Queue([silence], false)
    else Queue(q.frames[1..], true)
  }

  function Initial(silence: Frame): Queue {
    Queue([silence, silence], false)
  }

  // ----- runs -----

  /** A capture may start the canceller over, and switching cancellation off does. */
  datatype Op = Play(frame: Frame) | Capture(reset: bool) | Reset

  function Next(q: Queue, op: Op, silence: Frame): Queue {
    match op
    case Play(frame) => Played(q, frame)
    case Capture(reset) => Captured(q, silence, reset)
    case Reset => Initial(silence)
  }

  function After(q: Queue, ops: seq<Op>, silence: Frame): Queue {
    if ops == [] then q else Next(After(q, ops[..|ops| - 1], silence), ops[|ops| - 1], silence)
  }

  /** What op puts into q. */
  function Enters(q: Queue, op: Op, silence: Frame): seq<Frame> {
    match op
    case Play(frame) =>
      if !q.started || |q.frames| > PLAYBACK_DELAY then [] else if q.frames == [] then [frame, frame] else [frame]
    case Capture(reset) => if reset && q.frames != [] then [silence, silence] else []
    case Reset => [silence, silence]
  }

  /** A frame leaves as the one whose echo is removed, or is dropped. */
  datatype Departure = Heard(frame: Frame) | Dropped(frame: Frame)

  function AllDropped(frames: seq<Frame>): (ds: seq<Departure>)
    ensures |ds| == |frames|
  {
    seq(|frames|, i requires 0 <= i < |frames| => Dropped(frames[i]))
  }

  /** What op takes from q. */
  function Leaves(q: Queue, op: Op, silence: Frame): seq<Departure> {
    match op
    case Play(_) => []
    case Capture(reset) =>
      if q.frames == [] then []
      else [Heard(q.frames[0])] + if reset then AllDropped(q.frames[1..] + [silence]) else []
    case Reset => AllDropped(q.frames)
  }

  function Entered(q: Queue, ops: seq<Op>, silence: Frame): seq<Frame> {
    if ops == [] then []
    else
      var init := ops[..|ops| - 1];
      Entered(q, init, silence) + Enters(After(q, init, silence), ops[|ops| - 1], silence)
  }

  function Left(q: Queue, ops: seq<Op>, silence: Frame): seq<Departure> {
    if ops == [] then []
    else
      var init := ops[..|ops| - 1];
      Left(q, init, silence) + Leaves(After(q, init, silence), ops[|ops| - 1], silence)
  }

  function FramesOf(ds: seq<Departure>): (frames: seq<Frame>)
    ensures |frames| == |ds|
  {
    seq(|ds|, i requires 0 <= i < |ds| => ds[i].frame)
  }

  lemma {:induction false} NeverTooLong(q: Queue, ops: seq<Op>, silence: Frame)
    requires |q.frames| <= PLAYBACK_DELAY + 1
    ensures |After(q, ops, silence).frames| <= PLAYBACK_DELAY + 1
  {
    if ops != [] {
      NeverTooLong(q, ops[..|ops| - 1], silence);
    }
  }

  lemma StepInOrder(q: Queue, op: Op, silence: Frame)
    ensures q.frames + Enters(q, op, silence) == FramesOf(Leaves(q, op, silence)) + Next(q, op, silence).frames
  {
    var n := |q.frames|;
    match op
    case Play(_) =>
    case Reset =>
      assert FramesOf(AllDropped(q.frames)) == q.frames;
    case Capture(reset) =>
      if n > 0 {
        var rest := q.frames[1..];
        assert q.frames == [q.frames[0]] + rest;
        if reset {
          assert FramesOf([Heard(q.frames[0])] + AllDropped(rest + [silence])) == [q.frames[0]] + (rest + [silence]);
        } else {
          assert FramesOf([Heard(q.frames[0])]) == [q.frames[0]];
          assert [Heard(q.frames[0])] + [] == [Heard(q.frames[0])];
        }
      }
  }

  lemma Chained(a: seq<Frame>, b: seq<Frame>, c: seq<Frame>, e: seq<Frame>, f: seq<Frame>, g: seq<Frame>, h: seq<Frame>)
    requires a + b == c + e && e + f == g + h
    ensures a + (b + f) == (c + g) + h
  {
    assert a + (b + f) == (a + b) + f;
    assert (c + e) + f == c + (e + f);
    assert c + (g + h) == (c + g) + h;
  }

  lemma FramesOfConcat(a: seq<Departure>, b: seq<Departure>)
    ensures FramesOf(a + b) == FramesOf(a) + FramesOf(b)
  {
  }

  /** First in, first out, from any queue on and over any calls: the frames that left, heard or dropped, and
      then those still queued, are those there at first and those that entered, in order. */
  lemma {:induction false} FirstInFirstOut(q: Queue, ops: seq<Op>, silence: Frame)
    ensures q.frames + Entered(q, ops, silence) == FramesOf(Left(q, ops, silence)) + After(q, ops, silence).frames
  {
    if ops != [] {
      var init, last := ops[..|ops| - 1], ops[|ops| - 1];
      FirstInFirstOut(q, init, silence);
      hide Next;
      hide Enters;
      hide Leaves;
      var mid := After(q, init, silence);
      StepInOrder(mid, last, silence);
      FramesOfConcat(Left(q, init, silence), Leaves(mid, last, silence));
      hide FramesOf;
      Chained(q.frames, Entered(q, init, silence), FramesOf(Left(q, init, silence)), mid.frames,
              Enters(mid, last, silence), FramesOf(Leaves(mid, last, silence)), Next(mid, last, silence).frames);
    }
  }

  predicate NoneDropped(ds: seq<Departure>) {
    forall i | 0 <= i < |ds| :: ds[i].Heard?
  }

  /** A call starts the canceller over with frames waiting. */
  predicate Disturbs(q: Queue, op: Op) {
    q.frames != [] && (op.Reset? || (op.Capture? && op.reset))
  }

  predicate DisturbedAt(q: Queue, ops: seq<Op>, silence: Frame, i: nat)
    requires i < |ops|
  {
    Disturbs(After(q, ops[..i], silence), ops[i])
  }

  lemma DisturbedBefore(q: Queue, ops: seq<Op>, silence: Frame)
    requires ops != []
    ensures var init := ops[..|ops| - 1];
            && (forall i | 0 <= i < |init| :: DisturbedAt(q, ops, silence, i) == DisturbedAt(q, init, silence, i))
            && DisturbedAt(q, ops, silence, |init|) == Disturbs(After(q, init, silence), ops[|init|])
  {
    var init := ops[..|ops| - 1];
    hide After;
    hide Disturbs;
    forall i | 0 <= i < |init| ensures DisturbedAt(q, ops, silence, i) == DisturbedAt(q, init, silence, i) {
      assert ops[..i] == init[..i];
    }
  }

  /** Frames are dropped exactly when some call starts the canceller over with frames waiting. */
  lemma {:induction false} DroppedIff(q: Queue, ops: seq<Op>, silence: Frame)
    ensures NoneDropped(Left(q, ops, silence)) <==> forall i | 0 <= i < |ops| :: !DisturbedAt(q, ops, silence, i)
  {
    if ops != [] {
      var init, last := ops[..|ops| - 1], ops[|ops| - 1];
      DroppedIff(q, init, silence);
      hide Leaves;
      hide NoneDropped;
      hide Disturbs;
      hide After;
      DisturbedBefore(q, ops, silence);
      hide DisturbedAt;
      NoneDroppedConcat(Left(q, init, silence), Leaves(After(q, init, silence), last, silence));
      StepDrops(After(q, init, silence), last, silence);
    }
  }

  lemma NoneDroppedConcat(a: seq<Departure>, b: seq<Departure>)
    ensures NoneDropped(a + b) <==> NoneDropped(a) && NoneDropped(b)
  {
    var ab := a + b;
    assert forall i | 0 <= i < |a| :: ab[i] == a[i];
    assert forall i | 0 <= i < |b| :: ab[|a| + i] == b[i];
  }

  lemma StepDrops(q: Queue, op: Op, silence: Frame)
    ensures NoneDropped(Leaves(q, op, silence)) <==> !Disturbs(q, op)
  {
    if Disturbs(q, op) {
      var ds := Leaves(q, op, silence);
      assert ds[|ds| - 1].Dropped?;
    }
  }

  /** Once a frame has been captured, every frame played enters, unless three are waiting. */
  lemma PlayedEnters(q: Queue, ops: seq<Op>, silence: Frame, frame: Frame)
    requires After(q, ops, silence).started && |After(q, ops, silence).frames| <= PLAYBACK_DELAY
    ensures var next := After(q, ops + [Play(frame)], silence);
            next.frames != [] && next.frames[|next.frames| - 1] == frame && |next.frames| >= PLAYBACK_DELAY
  {
    assert (ops + [Play(frame)])[..|ops|] == ops;
  }

  // ----- the buffer -----

  /** The frames in the first n values of a buffer that has room for three. */
  function FramesIn(buf: seq<real>, n: nat, fs: nat): seq<Frame>
    requires |buf| == 3 * fs && n <= 3 * fs
  {
    if n < fs then []
    else if n < 2 * fs then [buf[..fs]]
    else if n < 3 * fs then [buf[..fs], buf[fs..2 * fs]]
    else [buf[..fs], buf[fs..2 * fs], buf[2 * fs..]]
  }

  predicate WholeFrames(n: nat, fs: nat) {
    n == 0 || n == fs || n == 2 * fs || n == 3 * fs
  }
}
