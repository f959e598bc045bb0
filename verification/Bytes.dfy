/** Bytes, and byte strings cut into chunks. */
module Bytes {
  newtype byte = b: int | 0 <= b < 256

  function Concat<T>(chunks: seq<seq<T>>): seq<T> {
    if chunks == [] then [] else Concat(chunks[..|chunks| - 1]) + chunks[|chunks| - 1]
  }

  lemma Regrouped<T>(a: seq<T>, b: seq<T>, c: seq<T>)
    ensures a + (b + c) == a + b + c
    ensures [] + a == a
  {
  }

  lemma {:induction false} ConcatSplits<T>(a: seq<seq<T>>, b: seq<seq<T>>)
    ensures Concat(a + b) == Concat(a) + Concat(b)
  {
    if b == [] {
      assert a + b == a;
    } else {
      var init, last := b[..|b| - 1], b[|b| - 1];
      var ab := a + b;
      assert ab[..|ab| - 1] == a + init && ab[|ab| - 1] == last;
      ConcatSplits(a, init);
      Regrouped(Concat(a), Concat(init), last);
    }
  }

  lemma ConcatOfOne<T>(chunk: seq<T>)
    ensures Concat([chunk]) == chunk
  {
    assert [chunk][..0] == [];
  }

  lemma ConcatHead<T>(chunks: seq<seq<T>>)
    requires chunks != []
    ensures Concat(chunks) == chunks[0] + Concat(chunks[1..])
  {
    assert chunks == [chunks[0]] + chunks[1..];
    ConcatSplits([chunks[0]], chunks[1..]);
    ConcatOfOne(chunks[0]);
  }
}
