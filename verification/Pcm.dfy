/** Samples as little-endian bytes, and streams of samples as fixed frames. */
module Pcm {
  import opened Bytes

  newtype int16 = x: int | -0x8000 <= x < 0x8000

  const FRAME_SAMPLES: nat := 960

  type Frame = seq<int16>

  // ----- bytes -----

  function Unsigned(s: int16): (v: nat)
    ensures v < 0x1_0000
  {
    if s < 0 then s as int + 0x1_0000 else s as int
  }

  function Low(s: int16): byte {
    (Unsigned(s) % 256) as byte
  }

  function High(s: int16): byte {
    (Unsigned(s) / 256) as byte
  }

  function Sample(low: byte, high: byte): int16 {
    var v := low as int + 256 * high as int;
    if v >= 0x8000 then (v - 0x1_0000) as int16 else v as int16
  }

  lemma SampleReadsBack(s: int16)
    ensures Sample(Low(s), High(s)) == s
  {
  }

  lemma BytesReadBack(low: byte, high: byte)
    ensures Low(Sample(low, high)) == low && High(Sample(low, high)) == high
  {
    var v := low as int + 256 * high as int;
    assert v / 256 == high as int && v % 256 == low as int;
  }

  /** The whole samples in s; an odd last byte is left out. */
  function Decode(s: seq<byte>): (r: seq<int16>)
    ensures |r| == |s| / 2
  {
    seq(|s| / 2, i requires 0 <= i < |s| / 2 => Sample(s[2 * i], s[2 * i + 1]))
  }

  /** The byte that Decode leaves out, if any. */
  function OddByte(s: seq<byte>): seq<byte> {
    s[|s| / 2 * 2..]
  }

  function Encode(s: seq<int16>): (r: seq<byte>)
    ensures |r| == 2 * |s|
  {
    seq(2 * |s|, k requires 0 <= k < 2 * |s| => if k % 2 == 0 then Low(s[k / 2]) else High(s[k / 2]))
  }

  /** A sample is two bytes, the lower first; a negative one is its complement. */
  lemma EncodeIs(s: seq<int16>, i: nat)
    requires i < |s|
    ensures var b := Encode(s); var v := b[2 * i] as int + 256 * b[2 * i + 1] as int;
            v == s[i] as int || (s[i] < 0 && v == s[i] as int + 65536)
  {
    var v := Unsigned(s[i]);
    assert v == v % 256 + 256 * (v / 256);
    assert Encode(s)[2 * i] == Low(s[i]) && Encode(s)[2 * i + 1] == High(s[i]);
  }

  lemma DecodeEncode(s: seq<int16>)
    ensures Decode(Encode(s)) == s && OddByte(Encode(s)) == []
  {
    var r := Encode(s);
    forall i | 0 <= i < |s| ensures Decode(r)[i] == s[i] {
      assert r[2 * i] == Low(s[i]) && r[2 * i + 1] == High(s[i]);
      SampleReadsBack(s[i]);
    }
  }

  lemma EncodeDecode(s: seq<byte>)
    ensures Encode(Decode(s)) + OddByte(s) == s
  {
    var d := Decode(s);
    forall k | 0 <= k < 2 * |d| ensures Encode(d)[k] == s[k] {
      var i := k / 2;
      BytesReadBack(s[2 * i], s[2 * i + 1]);
      assert k == 2 * i || k == 2 * i + 1;
    }
  }

  /** Decoding goes on with the byte left out. */
  lemma DecodeConcat(a: seq<byte>, b: seq<byte>)
    ensures Decode(a + b) == Decode(a) + Decode(OddByte(a) + b)
    ensures OddByte(a + b) == OddByte(OddByte(a) + b)
  {
    var ab, c := a + b, OddByte(a) + b;
    var m := |a| / 2;
    assert |ab| == 2 * m + |c| && ab[2 * m..] == c;
    forall i | 0 <= i < |ab| / 2 ensures Decode(ab)[i] == (Decode(a) + Decode(c))[i] {
      if i >= m {
        assert ab[2 * i] == c[2 * (i - m)] && ab[2 * i + 1] == c[2 * (i - m) + 1];
      }
    }
  }

  lemma EncodeConcat(a: seq<int16>, b: seq<int16>)
    ensures Encode(a + b) == Encode(a) + Encode(b)
  {
    hide Low;
    hide High;
  }

  // ----- frames -----

  function Flat(frames: seq<Frame>): seq<int16> {
    if frames == [] then [] else frames[0] + Flat(frames[1..])
  }

  predicate AreFrames(frames: seq<Frame>) {
    forall f | f in frames :: |f| == FRAME_SAMPLES
  }

  lemma {:induction false} FlatOneMore(frames: seq<Frame>, f: Frame)
    ensures Flat(frames + [f]) == Flat(frames) + f
  {
    var all := frames + [f];
    if frames == [] {
      assert all == [f] && [f][1..] == [];
    } else {
      assert all[0] == frames[0] && all[1..] == frames[1..] + [f];
      FlatOneMore(frames[1..], f);
      Regrouped(frames[0], Flat(frames[1..]), f);
    }
  }

  lemma Peel(x: seq<int16>, s: seq<int16>, y: seq<int16>, t: seq<int16>)
    requires x + s <= y + t && |x| == |y|
    ensures x == y && s <= t
  {
    var xs, yt := x + s, y + t;
    forall i | 0 <= i < |x| ensures x[i] == y[i] {
      assert xs[i] == yt[i];
    }
    forall i | 0 <= i < |s| ensures s[i] == t[i] {
      assert xs[|x| + i] == yt[|x| + i];
    }
  }

  /** Whole frames and less than one more say how a stream is cut: one stream has one cutting, and a
      prefix of it has the first frames of it. */
  lemma {:induction false} CutOfPrefix(a: seq<Frame>, ra: seq<int16>, b: seq<Frame>, rb: seq<int16>)
    requires AreFrames(a) && AreFrames(b) && |ra| < FRAME_SAMPLES && |rb| < FRAME_SAMPLES
    requires Flat(a) + ra <= Flat(b) + rb
    ensures a <= b
    ensures if |a| == |b| then ra <= rb else ra <= b[|a|]
  {
    if a == [] {
      if b == [] {
        Regrouped(ra, [], []);
        Regrouped(rb, [], []);
      } else {
        assert b[0] in b && |b[0]| == FRAME_SAMPLES;
        Regrouped(b[0], Flat(b[1..]), rb);
        Regrouped(ra, [], []);
        StartOf(ra, b[0], Flat(b[1..]) + rb);
      }
    } else {
      assert a[0] in a && |a[0]| == FRAME_SAMPLES;
      Regrouped(a[0], Flat(a[1..]), ra);
      assert b != [];
      assert b[0] in b && |b[0]| == FRAME_SAMPLES;
      Regrouped(b[0], Flat(b[1..]), rb);
      Peel(a[0], Flat(a[1..]) + ra, b[0], Flat(b[1..]) + rb);
      CutOfPrefix(a[1..], ra, b[1..], rb);
      hide Flat;
      hide AreFrames;
    }
  }

  lemma StartOf(r: seq<int16>, x: seq<int16>, t: seq<int16>)
    requires r <= x + t && |r| <= |x|
    ensures r <= x
  {
  }
}
