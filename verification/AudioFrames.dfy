/** Capture in chunks of any size becomes frames, and frames fill buffers of any size. */
module AudioFrames {
  import opened Bytes
  import opened Pcm

  // ----- slices -----

  /** The first len bytes of an array; more may be appended in place while the array has room. */
  datatype Slice = Slice(arr: array<byte>, len: nat) {
    predicate Valid() {
      len <= arr.Length
    }

    function Contents(): seq<byte>
      requires Valid()
      reads arr
    {
      arr[..len]
    }
  }

  /** Appends in place when there is room, and otherwise to a copy, in an array at least large enough. */
  method Append(s: Slice, xs: seq<byte>) returns (r: Slice)
    requires s.Valid()
    modifies s.arr
    ensures r.Valid() && r.Contents() == old(s.Contents()) + xs
    ensures if s.len + |xs| <= s.arr.Length then r.arr == s.arr else fresh(r.arr) && s.arr[..] == old(s.arr[..])
  {
    var n := s.len + |xs|;
    if n <= s.arr.Length {
      forall i | 0 <= i < |xs| {
        s.arr[s.len + i] := xs[i];
      }
      r := Slice(s.arr, n);
    } else {
      var capacity: nat :| capacity >= n;
      var grown := new byte[capacity];
      forall i | 0 <= i < s.len {
        grown[i] := s.arr[i];
      }
      forall i | 0 <= i < |xs| {
        grown[s.len + i] := xs[i];
      }
      r := Slice(grown, n);
    }
  }

  /** The caller's variable that holds the slice with the odd byte between calls. */
  class Carry {
    var s: Slice

    ghost predicate Valid()
      reads this
    {
      s.Valid()
    }

    function Bytes(): seq<byte>
      requires Valid()
      reads this, s.arr
    {
      s.Contents()
    }

    constructor ()
      ensures Valid() && Bytes() == [] && fresh(s.arr)
    {
      var arr := new byte[0];
      s := Slice(arr, 0);
    }

    /** The first length bytes of a buffer, after the bytes carried over, which are taken. */
    method Join(buffer: array<byte>, length: nat) returns (data: Slice)
      requires Valid() && length <= buffer.Length && buffer != s.arr
      modifies this, s.arr
      ensures Valid() && s.arr == old(s.arr) && s.len == 0
      ensures data.Valid() && data.Contents() == old(Bytes() + buffer[..length])
      ensures data.arr == buffer || data.arr == s.arr || fresh(data.arr)
    {
      data := Slice(buffer, length);
      if s.len > 0 {
        data := Append(s, buffer[..length]);
        s := Slice(s.arr, 0);
      }
    }
  }

  /** Copies samples into an array, from position at on. */
  method Copy(dst: array<int16>, at: nat, src: seq<int16>)
    requires at + |src| <= dst.Length
    modifies dst
    ensures dst[..at + |src|] == old(dst[..at]) + src && dst[at + |src|..] == old(dst[at + |src|..])
  {
    forall x | at <= x < at + |src| {
      dst[x] := src[x - at];
    }
  }

  // ----- capture -----

  class FrameAccumulator {
    const buf: array<int16>
    var n: nat
    var emitted: seq<Frame>

    ghost predicate Valid()
      reads this
    {
      buf.Length == FRAME_SAMPLES && n < FRAME_SAMPLES && AreFrames(emitted)
    }

    /** Every sample taken so far: those handed on in frames, and those waiting. */
    ghost function Taken(): seq<int16>
      requires n <= buf.Length
      reads this, buf
    {
      Flat(emitted) + buf[..n]
    }

    constructor ()
      ensures Valid() && Taken() == [] && emitted == [] && fresh(buf)
    {
      buf := new int16[FRAME_SAMPLES];
      n, emitted := 0, [];
    }

    /** Hands the full buffer to the callback, which may change it: the buffer is reused. */
    method Emit()
      requires buf.Length == FRAME_SAMPLES
      modifies `emitted, buf
      ensures emitted == old(emitted) + [old(buf[..])]
    {
      emitted := emitted + [buf[..]];
    }

    /** Hands the buffer on once it is full. */
    method EmitIfFull()
      requires buf.Length == FRAME_SAMPLES && n <= FRAME_SAMPLES && AreFrames(emitted)
      modifies this, buf
      ensures Valid() && Taken() == old(Taken()) && old(emitted) <= emitted
    {
      hide Flat;
      if n == FRAME_SAMPLES {
        FlatOneMore(emitted, buf[..]);
        assert buf[..n] == buf[..];
        Emit();
        n := 0;
        Regrouped(Flat(emitted), [], []);
      }
    }

    method Push(samples: seq<int16>)
      requires Valid()
      modifies this, buf
      ensures Valid() && Taken() == old(Taken()) + samples && old(emitted) <= emitted
    {
      var rest := samples;
      while |rest| > 0
        invariant Valid() && Taken() + rest == old(Taken()) + samples && old(emitted) <= emitted
        decreases |rest|
      {
        ghost var before, had := buf[..n], emitted;
        var k := if FRAME_SAMPLES - n < |rest| then FRAME_SAMPLES - n else |rest|;
        Copy(buf, n, rest[..k]);
        n := n + k;
        Moved(Flat(emitted), before, rest, k);
        rest := rest[k..];
        EmitIfFull();
      }
    }

    /** Decodes k samples of data, from sample i on, into the buffer. */
    method Decoded(data: Slice, i: nat, k: nat)
      requires Valid() && data.Valid() && i + k <= data.len / 2 && n + k <= FRAME_SAMPLES
      modifies buf
      ensures buf[..n + k] == old(buf[..n]) + Decode(data.Contents())[i..i + k]
    {
      hide Sample;
      hide Decode;
      ghost var d := Decode(data.Contents());
      var j := 0;
      while j < k
        invariant 0 <= j <= k
        invariant buf[..n] == old(buf[..n]) && forall x | n <= x < n + j :: buf[x] == d[i + (x - n)]
      {
        DecodeAt(data.Contents(), i + j);
        buf[n + j] := Sample(data.arr[2 * (i + j)], data.arr[2 * (i + j) + 1]);
        j := j + 1;
      }
      assert buf[n..n + k] == d[i..i + k];
      assert buf[..n + k] == buf[..n] + buf[n..n + k];
    }

    /** Takes the whole samples of data, frame by frame. */
    method PushDecoded(data: Slice)
      requires Valid() && data.Valid()
      modifies this, buf
      ensures Valid() && Taken() == old(Taken()) + Decode(data.Contents()) && old(emitted) <= emitted
    {
      hide Decode;
      hide Flat;
      hide AreFrames;
      ghost var d, taken := Decode(data.Contents()), Taken();
      assert d[..0] == [];
      Regrouped(taken, [], []);
      var samples := data.len / 2;
      var i: nat := 0;
      while i < samples
        invariant i <= samples && Valid() && old(emitted) <= emitted
        invariant Taken() == taken + d[..i]
      {
        var k := if FRAME_SAMPLES - n < samples - i then FRAME_SAMPLES - n else samples - i;
        MovedOn(Flat(emitted), buf[..n], taken, d, i, i + k);
        Decoded(data, i, k);
        n := n + k;
        i := i + k;
        assert Taken() == taken + d[..i];
        EmitIfFull();
      }
      assert d[..i] == d;
    }

    /** Takes the first length bytes of a buffer, after the byte carried over, if any, and carries over
        an odd last one. The carried byte and the bytes after it may share the carry's array. */
    method PushBytes(buffer: array<byte>, length: nat, carry: Carry)
      requires Valid() && carry.Valid() && length <= buffer.Length && buffer != carry.s.arr
      modifies this, buf, carry, carry.s.arr
      ensures Valid() && carry.Valid() && (carry.s.arr == old(carry.s.arr) || fresh(carry.s.arr))
      ensures Taken() == old(Taken()) + Decode(old(carry.Bytes() + buffer[..length])) && old(emitted) <= emitted
      ensures carry.Bytes() == OddByte(old(carry.Bytes() + buffer[..length]))
    {
      hide Decode;
      hide OddByte;
      hide Flat;
      var data := carry.Join(buffer, length);
      ghost var all := data.Contents();
      OddByteIs(all);
      PushDecoded(data);
      assert data.Contents() == all && carry.s.Contents() == [];
      if data.len % 2 == 1 {
        carry.s := Append(carry.s, [data.arr[data.len - 1]]);
      }
    }
  }

  // ----- playback -----

  class RenderAdapter {
    const frame: array<int16>
    var pos: nat
    var rendered: seq<Frame>
    ghost var given: seq<int16>

    /** What was given out and what is left of the last frame are the frames rendered; none is rendered
        before it is needed. */
    ghost predicate Valid()
      reads this, frame
    {
      && frame.Length == FRAME_SAMPLES && pos <= FRAME_SAMPLES && AreFrames(rendered)
      && given + frame[pos..] == Flat(rendered)
      && (if rendered == [] then pos == FRAME_SAMPLES else pos > 0)
    }

    constructor ()
      ensures Valid() && given == [] && rendered == [] && fresh(frame)
    {
      frame := new int16[FRAME_SAMPLES];
      pos, rendered, given := FRAME_SAMPLES, [], [];
    }

    /** Has the callback fill the frame; it may put anything there. */
    method Render()
      requires frame.Length == FRAME_SAMPLES
      modifies `rendered, frame
      ensures rendered == old(rendered) + [frame[..]]
    {
      var source: int -> int16 := *;
      forall i | 0 <= i < FRAME_SAMPLES {
        frame[i] := source(i);
      }
      rendered := rendered + [frame[..]];
    }

    /** Has the next frame rendered once the last one is used up. */
    method RenderIfUsedUp()
      requires Valid()
      modifies this, frame
      ensures frame.Length == FRAME_SAMPLES && pos < FRAME_SAMPLES && AreFrames(rendered) && rendered != []
      ensures given == old(given) && given + frame[pos..] == Flat(rendered) && old(rendered) <= rendered
    {
      hide Flat;
      if pos == FRAME_SAMPLES {
        assert given + frame[pos..] == given;
        Render();
        pos := 0;
        FlatOneMore(old(rendered), frame[..]);
        assert frame[pos..] == frame[..];
      }
    }

    method Fill(out: array<int16>)
      requires Valid() && out != frame
      modifies this, frame, out
      ensures Valid() && given == old(given) + out[..] && old(rendered) <= rendered
    {
      hide Flat;
      hide AreFrames;
      var o := 0;
      while o < out.Length
        invariant 0 <= o <= out.Length && Valid() && old(rendered) <= rendered
        invariant given == old(given) + out[..o]
      {
        RenderIfUsedUp();
        var k := if FRAME_SAMPLES - pos < out.Length - o then FRAME_SAMPLES - pos else out.Length - o;
        Regrouped(old(given), out[..o], frame[pos..pos + k]);
        Copy(out, o, frame[pos..pos + k]);
        Used(given, frame[..], pos, k);
        given := given + frame[pos..pos + k];
        pos := pos + k;
        o := o + k;
      }
      assert out[..o] == out[..];
    }

    /** Writes k samples of the frame as bytes, from sample i of the buffer on. */
    method Encoded(out: array<byte>, i: nat, k: nat)
      requires frame.Length == FRAME_SAMPLES && pos + k <= FRAME_SAMPLES && 2 * (i + k) <= out.Length
      modifies out
      ensures out[..2 * (i + k)] == old(out[..2 * i]) + Encode(frame[pos..pos + k])
      ensures out[2 * (i + k)..] == old(out[2 * (i + k)..])
    {
      hide Low;
      hide High;
      ghost var bytes := Encode(frame[pos..pos + k]);
      var j := 0;
      while j < k
        invariant 0 <= j <= k
        invariant out[..2 * i] == old(out[..2 * i]) && out[2 * (i + k)..] == old(out[2 * (i + k)..])
        invariant forall x | 2 * i <= x < 2 * (i + j) :: out[x] == bytes[x - 2 * i]
      {
        EncodeAt(frame[pos..pos + k], j);
        out[2 * (i + j)] := Low(frame[pos + j]);
        out[2 * (i + j) + 1] := High(frame[pos + j]);
        j := j + 1;
      }
      assert out[2 * i..2 * (i + k)] == bytes;
      assert out[..2 * (i + k)] == out[..2 * i] + out[2 * i..2 * (i + k)];
    }

    /** Fills the whole samples of a buffer; an odd last byte is left as it is. */
    method FillBytes(out: array<byte>)
      requires Valid()
      modifies this, frame, out
      ensures Valid() && old(rendered) <= rendered
      ensures old(given) <= given && out[..out.Length / 2 * 2] == Encode(given[|old(given)|..])
      ensures out[out.Length / 2 * 2..] == old(out[out.Length / 2 * 2..])
    {
      hide Flat;
      hide AreFrames;
      hide Encode;
      var n := out.Length / 2;
      ghost var more: seq<int16>, before := [], given;
      var i := 0;
      while i < n
        invariant 0 <= i <= n && Valid() && old(rendered) <= rendered
        invariant given == before + more && out[..2 * i] == Encode(more)
        invariant out[2 * n..] == old(out[2 * n..])
      {
        RenderIfUsedUp();
        var k := if FRAME_SAMPLES - pos < n - i then FRAME_SAMPLES - pos else n - i;
        Encoded(out, i, k);
        ghost var piece := frame[pos..pos + k];
        EncodeConcat(more, piece);
        Regrouped(before, more, piece);
        Used(given, frame[..], pos, k);
        given, more := given + piece, more + piece;
        pos := pos + k;
        i := i + k;
      }
    }
  }

  lemma EncodeAt(s: seq<int16>, j: nat)
    requires j < |s|
    ensures Encode(s)[2 * j] == Low(s[j]) && Encode(s)[2 * j + 1] == High(s[j])
  {
  }

  lemma Used(given: seq<int16>, frame: Frame, pos: nat, k: nat)
    requires pos + k <= |frame|
    ensures given + frame[pos..pos + k] + frame[pos + k..] == given + frame[pos..]
  {
    assert frame[pos..] == frame[pos..pos + k] + frame[pos + k..];
  }

  lemma Moved(f: seq<int16>, before: seq<int16>, rest: seq<int16>, k: nat)
    requires k <= |rest|
    ensures f + before + rest == f + (before + rest[..k]) + rest[k..]
  {
    assert rest == rest[..k] + rest[k..];
  }

  lemma MovedOn(f: seq<int16>, before: seq<int16>, taken: seq<int16>, d: seq<int16>, i: nat, j: nat)
    requires i <= j <= |d| && f + before == taken + d[..i]
    ensures f + (before + d[i..j]) == taken + d[..j]
  {
    assert d[..j] == d[..i] + d[i..j];
    Regrouped(f, before, d[i..j]);
    Regrouped(taken, d[..i], d[i..j]);
  }

  lemma OddByteIs(s: seq<byte>)
    ensures OddByte(s) == if |s| % 2 == 1 then [s[|s| - 1]] else []
  {
  }

  lemma DecodeAt(s: seq<byte>, i: nat)
    requires i < |s| / 2
    ensures Decode(s)[i] == Sample(s[2 * i], s[2 * i + 1])
  {
  }
}
