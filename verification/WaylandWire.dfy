/** The Wayland wire format as the clipboard's client writes and reads it: 32-bit little-endian words,
    padded strings, and messages cut out of whatever the socket hands over. */
module WaylandWire {
  import opened Bytes

  const TWO_16: nat := 0x1_0000
  const TWO_32: nat := 0x1_0000_0000

  type u32 = v: nat | v < TWO_32
  type u16 = v: nat | v < TWO_16

  // ----- words -----

  function PutU32(v: u32): (s: seq<byte>)
    ensures |s| == 4
  {
    [(v % 256) as byte, (v / 256 % 256) as byte, (v / 0x1_0000 % 256) as byte, (v / 0x100_0000) as byte]
  }

  function GetU32(s: seq<byte>, i: nat): u32
    requires i + 4 <= |s|
  {
    s[i] as nat + 256 * s[i + 1] as nat + 0x1_0000 * s[i + 2] as nat + 0x100_0000 * s[i + 3] as nat
  }

  lemma Digits(v: u32)
    ensures v % 256 + 256 * (v / 256 % 256) + 0x1_0000 * (v / 0x1_0000 % 256) + 0x100_0000 * (v / 0x100_0000) == v
  {
    var a, b, c := v / 256, v / 0x1_0000, v / 0x100_0000;
    assert v == 256 * a + v % 256;
    assert b == a / 256 && a == 256 * b + a % 256;
    assert c == b / 256 && b == 256 * c + b % 256;
  }

  /** A word reads back wherever it was put. */
  lemma WordReadsBack(before: seq<byte>, v: u32, after: seq<byte>)
    ensures GetU32(before + PutU32(v) + after, |before|) == v
  {
    Digits(v);
    var s := before + PutU32(v) + after;
    assert forall k | 0 <= k < 4 :: s[|before| + k] == PutU32(v)[k];
  }

  lemma WordIsItsBytes(s: seq<byte>, i: nat)
    requires i + 4 <= |s|
    ensures PutU32(GetU32(s, i)) == s[i..i + 4]
  {
    var a, b, c, d := s[i] as nat, s[i + 1] as nat, s[i + 2] as nat, s[i + 3] as nat;
    var v := GetU32(s, i);
    assert v / 256 == b + 256 * c + 0x1_0000 * d && v % 256 == a;
    assert v / 0x1_0000 == c + 256 * d;
    assert v / 0x100_0000 == d;
  }

  // ----- arguments -----

  /** An argument of a request. */
  datatype Arg = Word(v: u32) | Str(s: seq<byte>)

  function Zeros(n: nat): (z: seq<byte>)
    ensures |z| == n
  {
    seq(n, _ => 0 as byte)
  }

  /** Zeros up to the next multiple of four. */
  function Padding(n: nat): nat {
    (4 - n % 4) % 4
  }

  lemma PaddingEnds(base: nat, n: nat, k: nat)
    requires base % 4 == 0 && k <= Padding(n)
    ensures (base + 4 + n + k) % 4 == 0 <==> k == Padding(n)
  {
    var q, r, b := n / 4, n % 4, base / 4;
    assert base + 4 + n + k == 4 * (b + 1 + q) + (r + k);
    assert (base + 4 + n + k) % 4 == (r + k) % 4;
  }

  lemma RoundedUp(n: nat)
    ensures (n + 3) / 4 * 4 == n + Padding(n)
  {
    var q, r := n / 4, n % 4;
    assert n + 3 == 4 * q + (r + 3);
    assert (n + 3) / 4 == q + (r + 3) / 4;
  }

  function PutStr(s: seq<byte>): (r: seq<byte>)
    ensures |r| == 4 + |s| + 1 + Padding(|s| + 1)
  {
    PutU32((|s| + 1) % TWO_32) + s + [0] + Zeros(Padding(|s| + 1))
  }

  function PutArg(a: Arg): seq<byte> {
    match a
    case Word(v) => PutU32(v)
    case Str(s) => PutStr(s)
  }

  function Build(args: seq<Arg>): seq<byte> {
    if args == [] then [] else Build(args[..|args| - 1]) + PutArg(args[|args| - 1])
  }

  /** Appends a string to a request body of whole words: its length with the final zero, its bytes,
      and zeros up to the next word. */
  method AppendStr(args: seq<byte>, s: seq<byte>) returns (a: seq<byte>)
    requires |args| % 4 == 0
    ensures a == args + PutStr(s)
    ensures |a| % 4 == 0
  {
    a := args + PutU32((|s| + 1) % TWO_32);
    a := a + s;
    a := a + [0];
    ghost var put, n: nat := a, 0;
    PaddingEnds(|args|, |s| + 1, 0);
    hide Padding;
    hide PutU32;
    while |a| % 4 != 0
      invariant a == put + Zeros(n)
      invariant n <= Padding(|s| + 1) && (|a| % 4 == 0 <==> n == Padding(|s| + 1))
      decreases Padding(|s| + 1) - n
    {
      a := a + [0];
      assert Zeros(n) + [0] == Zeros(n + 1);
      n := n + 1;
      PaddingEnds(|args|, |s| + 1, n);
    }
    assert put + Zeros(n) == args + (PutU32((|s| + 1) % TWO_32) + s + [0] + Zeros(n));
  }

  /** The word at offset i of an event's arguments, 0 when they end before it does. */
  function WordAt(body: seq<byte>, i: nat): u32 {
    if |body| < i + 4 then 0 else GetU32(body, i)
  }

  /** The string at offset i, and the offset after it. Whatever the bytes are, what is read lies within
      them, and the next offset is a whole number of words on, at most a padding past the end. */
  function StrAt(body: seq<byte>, i: nat): (r: (seq<byte>, nat))
    ensures r.0 == [] || (i + 4 + |r.0| < |body| && r.0 == body[i + 4..i + 4 + |r.0|])
    ensures i + 4 <= r.1 && (r.1 - i) % 4 == 0 && (r.1 == i + 4 || r.1 < |body| + 4)
  {
    var n := WordAt(body, i);
    if n == 0 || |body| < i + 4 + n then ([], i + 4)
    else (body[i + 4..i + 4 + n - 1], i + 4 + (n + 3) / 4 * 4)
  }

  /** Reads one argument of each kind asked for, and where the next one is. */
  datatype Kind = AWord | AStr

  function KindOf(a: Arg): Kind {
    match a case Word(_) => AWord case Str(_) => AStr
  }

  function ArgAt(body: seq<byte>, i: nat, k: Kind): (Arg, nat) {
    match k
    case AWord => (Word(WordAt(body, i)), i + 4)
    case AStr => (Str(StrAt(body, i).0), StrAt(body, i).1)
  }

  predicate FitsLength(a: Arg) {
    a.Str? ==> |a.s| + 1 < TWO_32
  }

  lemma ArgIsWords(base: nat, a: Arg)
    requires base % 4 == 0
    ensures (base + |PutArg(a)|) % 4 == 0
  {
    if a.Str? {
      PaddingEnds(base, |a.s| + 1, Padding(|a.s| + 1));
      hide Padding;
    }
  }

  /** So every string starts at a whole word. */
  lemma {:induction false} BodyIsWords(args: seq<Arg>)
    ensures |Build(args)| % 4 == 0
  {
    if args != [] {
      var init, last := args[..|args| - 1], args[|args| - 1];
      BodyIsWords(init);
      ArgIsWords(|Build(init)|, last);
      hide PutArg;
    }
  }

  lemma Slice(a: seq<byte>, b: seq<byte>, c: seq<byte>)
    ensures (a + b + c)[|a|..|a| + |b|] == b
  {
  }

  lemma LaidOut(before: seq<byte>, s: seq<byte>, after: seq<byte>)
    ensures var n, tail := PutU32((|s| + 1) % TWO_32), [0] + Zeros(Padding(|s| + 1)) + after;
            before + PutStr(s) + after == before + n + (s + tail) == before + n + s + tail
  {
    hide PutU32;
    hide Padding;
  }

  lemma StrAtWhen(body: seq<byte>, i: nat, s: seq<byte>)
    requires i + 4 + |s| + 1 <= |body|
    requires WordAt(body, i) == |s| + 1 && body[i + 4..i + 4 + |s|] == s
    ensures StrAt(body, i) == (s, i + 4 + |s| + 1 + Padding(|s| + 1))
  {
    RoundedUp(|s| + 1);
    hide WordAt;
    hide Padding;
  }

  lemma StrReadsBack(before: seq<byte>, s: seq<byte>, after: seq<byte>)
    requires |s| + 1 < TWO_32
    ensures StrAt(before + PutStr(s) + after, |before|) == (s, |before| + |PutStr(s)|)
  {
    hide *;
    var i, body, tail := |before|, before + PutStr(s) + after, [0] + Zeros(Padding(|s| + 1)) + after;
    LaidOut(before, s, after);
    WordReadsBack(before, |s| + 1, s + tail);
    Slice(before + PutU32(|s| + 1), s, tail);
    assert WordAt(body, i) == |s| + 1 by {
      IsWordAt(body, i);
    }
    StrAtWhen(body, i, s);
  }

  lemma IsWordAt(body: seq<byte>, i: nat)
    requires i + 4 <= |body|
    ensures WordAt(body, i) == GetU32(body, i)
  {
  }

  /** A string too long for its length word does not. */
  lemma StrReadsBackIff(before: seq<byte>, s: seq<byte>)
    ensures StrAt(before + PutStr(s), |before|).0 == s <==> |s| + 1 < TWO_32
  {
    var body := before + PutStr(s);
    if |s| + 1 < TWO_32 {
      StrReadsBack(before, s, []);
      assert body + [] == body;
    } else {
      LaidOut(before, s, []);
      assert body + [] == body;
      WordReadsBack(before, (|s| + 1) % TWO_32, s + ([0] + Zeros(Padding(|s| + 1)) + []));
      hide PutU32;
      hide GetU32;
      hide PutStr;
    }
  }

  lemma OneArg(before: seq<byte>, a: Arg, after: seq<byte>)
    requires FitsLength(a)
    ensures ArgAt(before + PutArg(a) + after, |before|, KindOf(a)) == (a, |before| + |PutArg(a)|)
  {
    match a
    case Word(v) =>
      WordReadsBack(before, v, after);
      IsWordAt(before + PutU32(v) + after, |before|);
      hide PutU32;
      hide WordAt;
      hide StrAt;
    case Str(s) =>
      StrReadsBack(before, s, after);
      hide StrAt;
      hide PutStr;
  }

  /** Arguments put one after another read back, each from where the one before it ended. */
  lemma ArgReadsBack(args: seq<Arg>, k: nat)
    requires k < |args| && FitsLength(args[k])
    ensures ArgAt(Build(args), |Build(args[..k])|, KindOf(args[k])) == (args[k], |Build(args[..k + 1])|)
  {
    hide *;
    BuildOneMore(args, k);
    var rest := BuildAfter(args, k + 1);
    OneArg(Build(args[..k]), args[k], rest);
  }

  lemma BuildOneMore(args: seq<Arg>, k: nat)
    requires k < |args|
    ensures Build(args[..k + 1]) == Build(args[..k]) + PutArg(args[k])
  {
    assert args[..k + 1][..k] == args[..k];
    hide PutArg;
  }

  /** What follows the first k arguments. */
  lemma {:induction false} BuildAfter(args: seq<Arg>, k: nat) returns (rest: seq<byte>)
    requires k <= |args|
    ensures Build(args) == Build(args[..k]) + rest
    decreases |args|
  {
    if k == |args| {
      rest := [];
      assert args[..k] == args && Build(args) + [] == Build(args);
    } else {
      var init := args[..|args| - 1];
      var r := BuildAfter(init, k);
      rest := r + PutArg(args[|args| - 1]);
      assert init[..k] == args[..k];
      Regrouped(Build(args[..k]), r, PutArg(args[|args| - 1]));
    }
  }
}
