/** Runes, the terminal cells they take, and whitespace. */
module Cells {
  /** The runes drawn over two cells; every other rune takes one. As the set is arbitrary, so is
      the width table, except that no rune has width zero. */
  type WideRunes = set<char>

  function RuneWidth(wide: WideRunes, r: char): (w: nat) {
    if r in wide then 2 else 1
  }

  function StringWidth(wide: WideRunes, s: string): (w: nat) {
    if s == "" then 0 else RuneWidth(wide, s[0]) + StringWidth(wide, s[1..])
  }

  lemma {:induction false} WidthConcat(wide: WideRunes, a: string, b: string)
    ensures StringWidth(wide, a + b) == StringWidth(wide, a) + StringWidth(wide, b)
  {
    if a == "" {
      assert a + b == b;
    } else {
      assert (a + b)[1..] == a[1..] + b;
      WidthConcat(wide, a[1..], b);
    }
  }

  lemma {:induction false} WidthBounds(wide: WideRunes, s: string)
    ensures |s| <= StringWidth(wide, s) <= 2 * |s|
  {
    if s != "" {
      WidthBounds(wide, s[1..]);
    }
  }

  /** White space as the Unicode White_Space property has it. */
  predicate IsSpace(r: char) {
    var c := r as int;
    || 0x09 <= c <= 0x0D || c == 0x20 || c == 0x85 || c == 0xA0 || c == 0x1680
    || 0x2000 <= c <= 0x200A || c == 0x2028 || c == 0x2029 || c == 0x202F || c == 0x205F || c == 0x3000
  }

  predicate AllSpace(s: string) {
    forall i | 0 <= i < |s| :: IsSpace(s[i])
  }

  /** How many runes of rs, from its start, fit in width cells. */
  function FitCount(wide: WideRunes, rs: string, width: int): (n: nat)
    ensures n <= |rs|
  {
    if rs == "" || RuneWidth(wide, rs[0]) > width then 0
    else 1 + FitCount(wide, rs[1..], width - RuneWidth(wide, rs[0]))
  }

  /** FitCount is the longest prefix that fits. */
  lemma {:induction false} FitCountIsLongest(wide: WideRunes, rs: string, width: int)
    requires width >= 0
    ensures var n := FitCount(wide, rs, width);
            && StringWidth(wide, rs[..n]) <= width
            && forall k | n < k <= |rs| :: StringWidth(wide, rs[..k]) > width
  {
    var n := FitCount(wide, rs, width);
    if rs != "" {
      var first := RuneWidth(wide, rs[0]);
      if first <= width {
        FitCountIsLongest(wide, rs[1..], width - first);
        assert rs[..n][1..] == rs[1..][..n - 1];
      }
      forall k | n < k <= |rs| ensures StringWidth(wide, rs[..k]) > width {
        assert rs[..k][1..] == rs[1..][..k - 1];
      }
    }
  }

  /** How many of rs fit in width cells, possibly none. */
  method FitRunesWithin(wide: WideRunes, rs: string, width: int) returns (n: nat)
    ensures n == FitCount(wide, rs, width)
  {
    var w := 0;
    for i := 0 to |rs|
      invariant w <= width || i == 0
      invariant FitCount(wide, rs, width) == i + FitCount(wide, rs[i..], width - w)
    {
      w := w + RuneWidth(wide, rs[i]);
      if w > width {
        return i;
      }
      assert rs[i..][1..] == rs[i + 1..];
    }
    assert rs[|rs|..] == "";
    return |rs|;
  }

  /** How many of rs fit in width cells, at least one so that a wrap always advances. */
  method FitRunes(wide: WideRunes, rs: string, width: int) returns (n: nat)
    ensures n <= |rs| && (rs != "" ==> n > 0)
    ensures n == FitCount(wide, rs, width) || (FitCount(wide, rs, width) == 0 && n == 1)
  {
    var w := 0;
    for i := 0 to |rs|
      invariant w <= width || i == 0
      invariant FitCount(wide, rs, width) == i + FitCount(wide, rs[i..], width - w)
    {
      w := w + RuneWidth(wide, rs[i]);
      if w > width {
        return if i < 1 then 1 else i;
      }
      assert rs[i..][1..] == rs[i + 1..];
    }
    assert rs[|rs|..] == "";
    return |rs|;
  }
}
