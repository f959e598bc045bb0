/** Chunks do not matter to capture, and capturing what was played gives back the frames rendered. */
module AudioLoopback {
  import opened Bytes
  import opened Pcm

  /** What was taken of the bytes pushed so far, and what is carried over. */
  datatype Capture = Capture(samples: seq<int16>, carry: seq<byte>)

  /** What one PushBytes does. */
  function Pushed(c: Capture, data: seq<byte>): Capture {
    Capture(c.samples + Decode(c.carry + data), OddByte(c.carry + data))
  }

  function AfterChunks(chunks: seq<seq<byte>>): Capture {
    if chunks == [] then Capture([], []) else Pushed(AfterChunks(chunks[..|chunks| - 1]), chunks[|chunks| - 1])
  }

  /** However the bytes are cut, the samples taken are the bytes decoded, and at most one byte, the odd
      last one, is carried over. */
  lemma {:induction false} ChunksDoNotMatter(chunks: seq<seq<byte>>)
    ensures AfterChunks(chunks) == Capture(Decode(Concat(chunks)), OddByte(Concat(chunks)))
    ensures |AfterChunks(chunks).carry| <= 1
  {
    if chunks != [] {
      var init, last := chunks[..|chunks| - 1], chunks[|chunks| - 1];
      ChunksDoNotMatter(init);
      DecodeConcat(Concat(init), last);
      hide Decode;
    }
  }

  /** Pushing samples and pushing their bytes take the same. */
  lemma BytesAreSamples(c: Capture, samples: seq<int16>)
    requires c.carry == []
    ensures Pushed(c, Encode(samples)) == Capture(c.samples + samples, [])
  {
    DecodeEncode(samples);
    Regrouped(Encode(samples), [], []);
    hide Encode;
    hide Decode;
  }

  /** The bytes of each buffer filled. */
  function Encodings(parts: seq<seq<int16>>): seq<seq<byte>> {
    seq(|parts|, i requires 0 <= i < |parts| => Encode(parts[i]))
  }

  lemma {:induction false} PlayedBytes(parts: seq<seq<int16>>)
    ensures Concat(Encodings(parts)) == Encode(Concat(parts))
  {
    if parts != [] {
      var init, last := parts[..|parts| - 1], parts[|parts| - 1];
      assert Encodings(parts)[..|parts| - 1] == Encodings(init);
      PlayedBytes(init);
      EncodeConcat(Concat(init), last);
      hide Encode;
    }
  }

  lemma DecodeOfPrefix(p: seq<byte>, samples: seq<int16>)
    requires p <= Encode(samples)
    ensures Decode(p) == samples[..|p| / 2]
  {
    DecodeEncode(samples);
    hide Encode;
    hide Sample;
    var d := Decode(Encode(samples));
    assert forall i | 0 <= i < |p| / 2 :: Decode(p)[i] == d[i];
  }

  lemma PrefixOfSum<T>(s: seq<T>, t: seq<T>, n: nat)
    requires n <= |s|
    ensures s[..n] <= s + t
  {
  }

  lemma CapturedIsPrefix(all: seq<int16>, left: seq<int16>, parts: seq<seq<int16>>, chunks: seq<seq<byte>>)
    requires Concat(parts) + left == all && Concat(chunks) <= Concat(Encodings(parts))
    ensures AfterChunks(chunks).samples <= all
    ensures Concat(chunks) == Concat(Encodings(parts)) ==> AfterChunks(chunks) == Capture(Concat(parts), [])
  {
    hide *;
    var p, d := Concat(chunks), Concat(parts);
    PlayedBytes(parts);
    ChunksDoNotMatter(chunks);
    DecodeOfPrefix(p, d);
    PrefixOfSum(d, left, |p| / 2);
    DecodeEncode(d);
  }

  /** Frames are handed on in order, and what waits is the start of the next one. */
  predicate InOrder(rendered: seq<Frame>, emitted: seq<Frame>, waiting: seq<int16>) {
    && emitted <= rendered
    && if |emitted| == |rendered| then |waiting| == 0 else waiting <= rendered[|emitted|]
  }

  lemma CutOfFrames(a: seq<Frame>, ra: seq<int16>, b: seq<Frame>)
    requires AreFrames(a) && AreFrames(b) && |ra| < FRAME_SAMPLES && Flat(a) + ra <= Flat(b)
    ensures InOrder(b, a, ra)
  {
    NoneAfter(Flat(b));
    hide Flat;
    hide AreFrames;
    CutOfPrefix(a, ra, b, []);
  }

  lemma NoneAfter(s: seq<int16>)
    ensures s + [] == s
  {
  }

  /** Buffers filled from rendered frames, part by part, and any prefix of their bytes pushed in any
      chunks: the frames handed on are the frames rendered, in order, and the samples waiting start the
      next one. When all the bytes are pushed, every sample played is there and none is carried over. */
  lemma Loopback(rendered: seq<Frame>, left: seq<int16>, parts: seq<seq<int16>>, chunks: seq<seq<byte>>,
                 emitted: seq<Frame>, waiting: seq<int16>)
    requires AreFrames(rendered) && Concat(parts) + left == Flat(rendered)
    requires Concat(chunks) <= Concat(Encodings(parts))
    requires AreFrames(emitted) && |waiting| < FRAME_SAMPLES && Flat(emitted) + waiting == AfterChunks(chunks).samples
    ensures InOrder(rendered, emitted, waiting)
    ensures Concat(chunks) == Concat(Encodings(parts))
         ==> Flat(emitted) + waiting == Concat(parts) && AfterChunks(chunks).carry == []
  {
    hide *;
    CapturedIsPrefix(Flat(rendered), left, parts, chunks);
    CutOfFrames(emitted, waiting, rendered);
  }
}
