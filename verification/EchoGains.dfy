/** The gains that keep the echo canceller's adaptation bounded. */
module EchoGains {
  import opened Spectra

  // ----- sums -----

  function Sum(s: seq<real>): real {
    if s == [] then 0.0 else Sum(s[..|s| - 1]) + s[|s| - 1]
  }

  predicate AllPositive(s: seq<real>) {
    forall i | 0 <= i < |s| :: s[i] > 0.0
  }

  predicate NoneNegative(s: seq<real>) {
    forall i | 0 <= i < |s| :: s[i] >= 0.0
  }

  lemma SumOfOneMore(s: seq<real>, n: nat)
    requires n < |s|
    ensures Sum(s[..n + 1]) == Sum(s[..n]) + s[n]
  {
    assert s[..n + 1][..n] == s[..n];
  }

  lemma SumOfOne(a: real)
    ensures Sum([a]) == a
  {
  }

  lemma {:induction false} SumIsPositive(s: seq<real>)
    requires AllPositive(s)
    ensures Sum(s) >= 0.0 && (s != [] ==> Sum(s) > 0.0)
  {
    if s != [] {
      SumIsPositive(s[..|s| - 1]);
    }
  }

  /** The part of c that a has in the whole. */
  function Part(c: real, a: real, whole: real): real
    requires whole > 0.0
  {
    c * a / whole
  }

  lemma PartsAdd(c: real, a: real, b: real, whole: real)
    requires whole > 0.0
    ensures Part(c, 0.0, whole) == 0.0 && Part(c, a, whole) + Part(c, b, whole) == Part(c, a + b, whole)
  {
  }

  /** The parts of all the terms add up to the part of the sum. */
  lemma {:induction false} SumOfParts(s: seq<real>, t: seq<real>, c: real, whole: real)
    requires |s| == |t| && whole > 0.0 && forall i | 0 <= i < |s| :: t[i] == Part(c, s[i], whole)
    ensures Sum(t) == Part(c, Sum(s), whole)
  {
    hide Part;
    if s == [] {
      PartsAdd(c, 0.0, 0.0, whole);
    } else {
      var n := |s| - 1;
      SumOfParts(s[..n], t[..n], c, whole);
      PartsAdd(c, Sum(s[..n]), s[n], whole);
    }
  }

  lemma PartBounds(c: real, a: real, whole: real)
    requires c > 0.0 && whole > 0.0
    ensures a > 0.0 ==> Part(c, a, whole) > 0.0
    ensures 0.0 <= a <= whole ==> Part(c, a, whole) <= c
    ensures Part(c, whole, whole) == c
  {
    if 0.0 <= a <= whole {
      TimesGrows(a, whole, c);
      TimesGrows(0.0, a, c);
      QuotientBetween(c * a, whole, c);
    }
  }

  /** The larger one is, the larger its part. */
  lemma LargerPart(c: real, a: real, b: real, whole: real)
    requires c > 0.0 && whole > 0.0
    ensures a <= b <==> Part(c, a, whole) <= Part(c, b, whole)
  {
  }

  // ----- square roots -----

  /** What is known of the square root. */
  ghost predicate IsSqrt(sqrt: real -> real) {
    forall x: real | x >= 0.0 :: sqrt(x) >= 0.0 && sqrt(x) * sqrt(x) == x
  }

  lemma SqrtOfOneOrMore(sqrt: real -> real, x: real)
    requires IsSqrt(sqrt) && x >= 1.0
    ensures sqrt(x) >= 1.0
  {
    var r := sqrt(x);
    assert r * r == x && r >= 0.0;
    if r < 1.0 {
      BelowOne(r);
    }
  }

  lemma TimesGrows(a: real, b: real, c: real)
    requires a <= b && c >= 0.0
    ensures a * c <= b * c
  {
  }

  lemma SqrtGrows(sqrt: real -> real, x: real, y: real)
    requires IsSqrt(sqrt) && x >= 0.0 && y >= 0.0
    ensures sqrt(x) <= sqrt(y) <==> x <= y
  {
    var a, b := sqrt(x), sqrt(y);
    assert Times(a, a) == x && Times(b, b) == y && a >= 0.0 && b >= 0.0;
    hide IsSqrt;
    hide Times;
    if a < b {
      SquaresGrow(a, b);
    } else if b < a {
      SquaresGrow(b, a);
    }
  }

  lemma TimesLess(a: real, b: real, c: real)
    requires a < b && c > 0.0
    ensures Times(a, c) < Times(b, c)
  {
    assert (b - a) * c > 0.0;
  }

  lemma TimesSwapped(a: real, b: real)
    ensures Times(a, b) == Times(b, a)
  {
  }

  lemma SquaresGrow(a: real, b: real)
    requires 0.0 <= a < b
    ensures Times(a, a) < Times(b, b)
  {
    hide Times;
    TimesLess(a, b, b);
    TimesSwapped(a, b);
    if a == 0.0 {
      NoTimes(a, a);
      NoTimes(a, b);
    } else {
      TimesLess(a, b, a);
    }
  }

  lemma NoTimes(a: real, b: real)
    requires a == 0.0
    ensures Times(a, b) == 0.0
  {
  }

  lemma BelowOne(r: real)
    requires 0.0 <= r < 1.0
    ensures r * r < 1.0
  {
    TimesGrows(r, 1.0, r);
    assert r * r <= 1.0 * r;
  }

  // ----- inner products -----

  function Times(a: real, b: real): real {
    a * b
  }

  function Inner(x: seq<real>, y: seq<real>): real
    requires |x| == |y|
  {
    if x == [] then 0.0 else Inner(x[..|x| - 1], y[..|y| - 1]) + Times(x[|x| - 1], y[|y| - 1])
  }

  lemma InnerOfOneMore(x: seq<real>, y: seq<real>, n: nat)
    requires n < |x| == |y|
    ensures Inner(x[..n + 1], y[..n + 1]) == Inner(x[..n], y[..n]) + Times(x[n], y[n])
  {
    hide Times;
    assert x[..n + 1][..n] == x[..n] && y[..n + 1][..n] == y[..n];
  }

  lemma SquareIsPositive(v: real)
    ensures Times(v, v) == v * v >= 0.0
  {
  }

  lemma {:induction false} EnergyIsPositive(x: seq<real>)
    ensures Inner(x, x) >= 0.0
  {
    if x != [] {
      EnergyIsPositive(x[..|x| - 1]);
      SquareIsPositive(x[|x| - 1]);
      hide Times;
    }
  }

  method InnerProd(x: seq<real>, y: seq<real>) returns (sum: real)
    requires |x| == |y|
    ensures sum == Inner(x, y)
  {
    sum := 0.0;
    for i := 0 to |x|
      invariant sum == Inner(x[..i], y[..i])
    {
      InnerOfOneMore(x, y, i);
      sum := sum + x[i] * y[i];
    }
    assert x[..|x|] == x && y[..|y|] == y;
  }

  // ----- tap weights -----

  /** One more than the energy of the filter's spectrum number i. */
  function Grown(w: seq<real>, n: nat, m: nat, i: nat): real
    requires i < m && m * n <= |w|
  {
    BlockFits(i, m, n);
    var block := w[i * n..i * n + n];
    1.0 + Inner(block, block)
  }

  /** How large it has grown. */
  function Root(sqrt: real -> real, w: seq<real>, n: nat, m: nat, i: nat): real
    requires i < m && m * n <= |w|
  {
    sqrt(Grown(w, n, m, i))
  }

  function Largest(s: seq<real>): real {
    if s == [] then 1.0
    else if s[|s| - 1] > Largest(s[..|s| - 1]) then s[|s| - 1] else Largest(s[..|s| - 1])
  }

  lemma LargestOfOneMore(s: seq<real>, n: nat)
    requires n < |s|
    ensures Largest(s[..n + 1]) == if s[n] > Largest(s[..n]) then s[n] else Largest(s[..n])
  {
    assert s[..n + 1][..n] == s[..n];
  }

  lemma {:induction false} LargestIsUpperBound(s: seq<real>, i: nat)
    requires i < |s|
    ensures Largest(s) >= s[i] && Largest(s) >= 1.0
    decreases |s|
  {
    if i < |s| - 1 {
      LargestIsUpperBound(s[..|s| - 1], i);
    } else if i > 0 {
      LargestIsUpperBound(s[..|s| - 1], i - 1);
    }
  }

  method OneAndEnergy(w: array<real>, n: nat, m: nat, i: nat) returns (tmp: real)
    requires i < m && m * n <= w.Length
    ensures tmp == Grown(w[..], n, m, i) && tmp >= 1.0
  {
    hide Times;
    BlockFits(i, m, n);
    ghost var block := w[i * n..i * n + n];
    tmp := 1.0;
    for j := 0 to n
      invariant tmp == 1.0 + Inner(block[..j], block[..j])
    {
      var v := w[i * n + j];
      assert v == block[j];
      SquareIsPositive(v);
      InnerOfOneMore(block, block, j);
      tmp := tmp + v * v;
    }
    assert block[..n] == block && w[..][i * n..i * n + n] == block;
    EnergyIsPositive(block);
  }

  method RootEnergies(w: array<real>, prop: array<real>, n: nat, m: nat, sqrt: real -> real) returns (maxSum: real)
    requires m * n <= w.Length && m == prop.Length && w != prop && IsSqrt(sqrt)
    modifies prop
    ensures forall i | 0 <= i < m :: prop[i] == Root(sqrt, w[..], n, m, i) && prop[i] >= 1.0
    ensures maxSum == Largest(prop[..]) && maxSum >= 1.0
  {
    hide Grown;
    hide IsSqrt;
    ghost var ws := w[..];
    maxSum := 1.0;
    for i := 0 to m
      invariant w[..] == ws && maxSum == Largest(prop[..i]) && maxSum >= 1.0
      invariant forall t | 0 <= t < i :: prop[t] == Root(sqrt, ws, n, m, t) && prop[t] >= 1.0
    {
      var tmp := OneAndEnergy(w, n, m, i);
      SqrtOfOneOrMore(sqrt, tmp);
      ghost var done := prop[..i];
      prop[i] := sqrt(tmp);
      assert prop[i] == Root(sqrt, ws, n, m, i);
      hide Root;
      assert prop[..i] == done;
      LargestOfOneMore(prop[..], i);
      hide Largest;
      assert prop[..][..i + 1] == prop[..i + 1] && prop[..][..i] == prop[..i];
      if prop[i] > maxSum {
        maxSum := prop[i];
      }
    }
    assert prop[..m] == prop[..];
  }

  method RaiseAll(prop: array<real>, more: real) returns (propSum: real)
    modifies prop
    ensures forall i | 0 <= i < prop.Length :: prop[i] == old(prop[i]) + more
    ensures propSum == 1.0 + Sum(prop[..])
  {
    propSum := 1.0;
    for i := 0 to prop.Length
      invariant propSum == 1.0 + Sum(prop[..i])
      invariant forall t | 0 <= t < i :: prop[t] == old(prop[t]) + more
      invariant forall t | i <= t < prop.Length :: prop[t] == old(prop[t])
    {
      ghost var done := prop[..i];
      prop[i] := prop[i] + more;
      propSum := propSum + prop[i];
      assert prop[..i] == done;
      SumOfOneMore(prop[..], i);
      assert prop[..][..i + 1] == prop[..i + 1] && prop[..][..i] == prop[..i];
    }
    assert prop[..prop.Length] == prop[..];
  }

  /** Replaces each value by its part of c in the whole. */
  method TakeParts(prop: array<real>, c: real, whole: real)
    requires AllPositive(prop[..]) && whole > 0.0 && c > 0.0
    modifies prop
    ensures forall i | 0 <= i < prop.Length :: prop[i] == Part(c, old(prop[i]), whole)
    ensures AllPositive(prop[..]) && Sum(prop[..]) == Part(c, Sum(old(prop[..])), whole)
  {
    ghost var was := prop[..];
    for i := 0 to prop.Length
      invariant forall t | 0 <= t < i :: prop[t] == Part(c, was[t], whole) && prop[t] > 0.0
      invariant forall t | i <= t < prop.Length :: prop[t] == was[t]
    {
      assert was[i] > 0.0;
      PartBounds(c, prop[i], whole);
      prop[i] := c * prop[i] / whole;
    }
    SumOfParts(was, prop[..], c, whole);
  }

  function Raised(roots: seq<real>): (r: seq<real>)
    ensures |r| == |roots|
  {
    seq(|roots|, i requires 0 <= i < |roots| => roots[i] + 0.1 * Largest(roots))
  }

  function Roots(sqrt: real -> real, w: seq<real>, n: nat, m: nat): (r: seq<real>)
    requires m * n <= |w|
    ensures |r| == m
  {
    seq(m, i requires 0 <= i < m => Root(sqrt, w, n, m, i))
  }

  /** The weights of the filter's spectra: each one's share, by how large it has grown, raised by a tenth of
      the largest; together they stay below one. */
  method AdjustProp(w: array<real>, prop: array<real>, n: nat, m: nat, sqrt: real -> real)
    requires m * n <= w.Length && m == prop.Length && w != prop && IsSqrt(sqrt)
    modifies prop
    ensures AllPositive(prop[..]) && Sum(prop[..]) <= 0.99
    ensures var raised := Raised(Roots(sqrt, w[..], n, m));
            1.0 + Sum(raised) > 0.0 && forall i | 0 <= i < m :: prop[i] == Part(0.99, raised[i], 1.0 + Sum(raised))
    ensures forall i, j | 0 <= i < m && 0 <= j < m ::
              prop[i] <= prop[j] <==> Grown(w[..], n, m, i) <= Grown(w[..], n, m, j)
  {
    hide *;
    var maxSum := RootEnergies(w, prop, n, m, sqrt);
    ghost var roots := prop[..];
    assert roots == Roots(sqrt, w[..], n, m) by {
      RootsAre(roots, sqrt, w[..], n, m);
    }
    var propSum := RaiseAll(prop, 0.1 * maxSum);
    ghost var raised := prop[..];
    RaisedAre(raised, roots);
    SumIsPositive(raised);
    TakeParts(prop, 0.99, propSum);
    PartBounds(0.99, Sum(raised), propSum);
    InOrder(sqrt, w[..], n, m, prop[..]);
  }

  /** Shares by raised roots are in the order of the energies. */
  lemma InOrder(sqrt: real -> real, w: seq<real>, n: nat, m: nat, prop: seq<real>)
    requires IsSqrt(sqrt) && m * n <= |w| && |prop| == m
    requires var raised := Raised(Roots(sqrt, w, n, m));
             1.0 + Sum(raised) > 0.0 && forall i | 0 <= i < m :: prop[i] == Part(0.99, raised[i], 1.0 + Sum(raised))
    ensures forall i, j | 0 <= i < m && 0 <= j < m :: prop[i] <= prop[j] <==> Grown(w, n, m, i) <= Grown(w, n, m, j)
  {
    hide Part;
    hide Grown;
    hide IsSqrt;
    hide Sum;
    hide Largest;
    var roots := Roots(sqrt, w, n, m);
    var raised := Raised(roots);
    forall i, j | 0 <= i < m && 0 <= j < m
      ensures prop[i] <= prop[j] <==> Grown(w, n, m, i) <= Grown(w, n, m, j)
    {
      AtLeastOne(w, n, m, i);
      AtLeastOne(w, n, m, j);
      SqrtGrows(sqrt, Grown(w, n, m, i), Grown(w, n, m, j));
      LargerPart(0.99, raised[i], raised[j], 1.0 + Sum(raised));
    }
  }

  /** One more than its energy, so never less than one. */
  lemma AtLeastOne(w: seq<real>, n: nat, m: nat, i: nat)
    requires i < m && m * n <= |w|
    ensures 0 <= i * n && i * n + n <= |w| && Grown(w, n, m, i) - 1.0 == Inner(w[i * n..i * n + n], w[i * n..i * n + n]) >= 0.0
  {
    BlockFits(i, m, n);
    EnergyIsPositive(w[i * n..i * n + n]);
  }

  lemma {:induction false} LargestIsThere(s: seq<real>)
    ensures Largest(s) == 1.0 || exists i | 0 <= i < |s| :: s[i] == Largest(s)
  {
    if s != [] {
      var init := s[..|s| - 1];
      LargestIsThere(init);
      if Largest(s) == Largest(init) && Largest(init) != 1.0 {
        var i :| 0 <= i < |init| && init[i] == Largest(init);
        assert s[i] == Largest(s);
      }
    }
  }

  /** Every root is raised by a tenth of the largest one, or of 1 when none is larger. */
  lemma RaisedIs(roots: seq<real>, i: nat) returns (most: real)
    requires i < |roots|
    ensures (most == 1.0 || most in roots) && most >= 1.0 && forall r | r in roots :: r <= most
    ensures 10.0 * (Raised(roots)[i] - roots[i]) == most
  {
    most := Largest(roots);
    LargestIsThere(roots);
    LargestIsUpperBound(roots, i);
    forall r | r in roots ensures r <= most {
      var k :| 0 <= k < |roots| && roots[k] == r;
      LargestIsUpperBound(roots, k);
    }
  }

  lemma RootsAre(roots: seq<real>, sqrt: real -> real, w: seq<real>, n: nat, m: nat)
    requires m * n <= |w| && |roots| == m && forall i | 0 <= i < m :: roots[i] == Root(sqrt, w, n, m, i)
    ensures roots == Roots(sqrt, w, n, m)
  {
  }

  lemma RaisedAre(raised: seq<real>, roots: seq<real>)
    requires |raised| == |roots| && forall i | 0 <= i < |roots| :: roots[i] >= 1.0
    requires forall i | 0 <= i < |roots| :: raised[i] == roots[i] + 0.1 * Largest(roots)
    ensures raised == Raised(roots) && AllPositive(raised)
  {
    forall i | 0 <= i < |roots| ensures raised[i] > 0.0 {
      LargestIsUpperBound(roots, i);
    }
  }

  // ----- power -----

  /** Smooths the power of the far end; one is added each time, so that it is never nothing. */
  method UpdatePower(power: array<real>, xf: array<real>, ss: real)
    requires power.Length == xf.Length && power != xf && 0.0 < ss < 1.0
    requires NoneNegative(power[..]) && NoneNegative(xf[..])
    modifies power
    ensures forall j | 0 <= j < power.Length :: power[j] == Smoothed(old(power[j]), xf[j], ss) + 1.0
    ensures forall j | 0 <= j < power.Length :: power[j] >= 1.0
  {
    for j := 0 to power.Length
      invariant forall t | 0 <= t < j :: power[t] == Smoothed(old(power[t]), xf[t], ss) + 1.0 && power[t] >= 1.0
      invariant forall t | j <= t < power.Length :: power[t] == old(power[t])
    {
      assert power[..][j] >= 0.0;
      assert old(power[..])[j] >= 0.0 && xf[..][j] >= 0.0;
      SmoothedIs(power[j], xf[j], ss);
      hide Smoothed;
      power[j] := (1.0 - ss) * power[j] + 1.0 + ss * xf[j];
    }
  }

  /** A moving average. */
  function Smoothed(a: real, b: real, ss: real): real {
    (1.0 - ss) * a + ss * b
  }

  lemma SmoothedIs(a: real, b: real, ss: real)
    requires 0.0 < ss < 1.0
    ensures (1.0 - ss) * a + 1.0 + ss * b == Smoothed(a, b, ss) + 1.0
    ensures a >= 0.0 && b >= 0.0 ==> Smoothed(a, b, ss) >= 0.0
  {
    if a >= 0.0 && b >= 0.0 {
      TimesGrows(0.0, 1.0 - ss, a);
      TimesGrows(0.0, ss, b);
    }
  }

  // ----- gains -----

  /** The echo expected in a bin, at most half of what is there. */
  function Expected(leak: real, yf: real, e: real): real {
    if leak * yf > 0.5 * e then 0.5 * e else leak * yf
  }

  /** It is mixed with the echo expected overall. */
  function Mixed(r: real, rer: real, e: real): real {
    0.7 * r + 0.3 * (rer * e)
  }

  function OverPower(r: real, e: real, power: real): real
    requires e > 0.0 && power >= 0.0
  {
    ProductIsPositive(e, power + 10.0);
    r / (e * (power + 10.0))
  }

  /** The gain of a bin once the filter has adapted. */
  function AdaptedGain(leak: real, rer: real, e: real, yf: real, power: real): real
    requires e > 0.0 && power >= 0.0
  {
    OverPower(Mixed(Expected(leak, yf, e), rer, e), e, power)
  }

  lemma ProductIsPositive(a: real, b: real)
    requires a > 0.0 && b > 0.0
    ensures a * b > 0.0
  {
  }

  lemma QuotientBetween(a: real, d: real, c: real)
    requires d > 0.0 && 0.0 <= a <= c * d
    ensures 0.0 <= a / d <= c
  {
  }

  const LARGEST_GAIN: real := 0.5 / 11.0

  lemma ExpectedBounds(leak: real, yf: real, e: real)
    requires 0.0 <= leak && 0.0 <= yf && 0.0 <= e
    ensures 0.0 <= Expected(leak, yf, e) <= 0.5 * e
  {
    TimesGrows(0.0, leak, yf);
  }

  lemma MixedBounds(r: real, rer: real, e: real)
    requires 0.0 <= r <= 0.5 * e && 0.0 <= rer <= 0.5 && 0.0 <= e
    ensures 0.0 <= Mixed(r, rer, e) <= 0.5 * e
  {
    TimesGrows(0.0, rer, e);
    TimesGrows(rer, 0.5, e);
  }

  lemma OverPowerBounds(r: real, e: real, power: real)
    requires 0.0 <= r <= 0.5 * e && e > 0.0 && power >= 1.0
    ensures 0.0 <= OverPower(r, e, power) <= LARGEST_GAIN
  {
    ProductIsPositive(e, power + 10.0);
    TimesGrows(11.0, power + 10.0, e);
    var d := e * (power + 10.0);
    assert d >= 11.0 * e;
    QuotientBetween(r, d, LARGEST_GAIN);
  }

  /** While the filter adapts, no bin's gain is negative or above a bound. */
  lemma GainBounds(leak: real, rer: real, e: real, yf: real, power: real)
    requires 0.0 <= leak && 0.0 <= rer <= 0.5 && 0.0 < e && 0.0 <= yf && 1.0 <= power
    ensures 0.0 <= AdaptedGain(leak, rer, e, yf, power) <= LARGEST_GAIN
  {
    ExpectedBounds(leak, yf, e);
    MixedBounds(Expected(leak, yf, e), rer, e);
    OverPowerBounds(Mixed(Expected(leak, yf, e), rer, e), e, power);
    hide Expected;
    hide Mixed;
    hide OverPower;
  }

  /** The gain of one bin, where e is one more than the error's power there. */
  method BinGain(leak: real, rer: real, e: real, yf: real, power: real) returns (gain: real)
    requires 0.0 <= leak && 0.0 <= rer <= 0.5 && 0.0 < e && 0.0 <= yf && 1.0 <= power
    ensures gain == AdaptedGain(leak, rer, e, yf, power)
    ensures 0.0 <= gain <= LARGEST_GAIN
  {
    GainBounds(leak, rer, e, yf, power);
    ProductIsPositive(e, power + 10.0);
    var r := leak * yf;
    if r > 0.5 * e {
      r := 0.5 * e;
    }
    r := 0.7 * r + 0.3 * (rer * e);
    gain := r / (e * (power + 10.0));
  }

  /** The gains of all bins once the filter has adapted. */
  method AdaptedGains(power1: array<real>, power: array<real>, rf: array<real>, yf: array<real>, leak: real, rer: real)
    requires power1.Length == power.Length == rf.Length == yf.Length && power1 !in {power, rf, yf}
    requires 0.0 <= leak && 0.0 <= rer <= 0.5 && NoneNegative(rf[..]) && NoneNegative(yf[..])
    requires forall i | 0 <= i < power.Length :: power[i] >= 1.0
    modifies power1
    ensures forall i | 0 <= i < power1.Length ::
              rf[i] >= 0.0 && power1[i] == AdaptedGain(leak, rer, rf[i] + 1.0, yf[i], power[i])
    ensures forall i | 0 <= i < power1.Length :: 0.0 <= power1[i] <= LARGEST_GAIN
  {
    assert forall i | 0 <= i < power.Length :: rf[..][i] >= 0.0 && yf[..][i] >= 0.0;
    hide AdaptedGain;
    for i := 0 to power1.Length
      invariant forall t | 0 <= t < i :: power1[t] == AdaptedGain(leak, rer, rf[t] + 1.0, yf[t], power[t])
      invariant forall t | 0 <= t < i :: 0.0 <= power1[t] <= LARGEST_GAIN
    {
      power1[i] := BinGain(leak, rer, rf[i] + 1.0, yf[i], power[i]);
    }
  }

  /** The gains while the filter has not adapted. */
  method InitialGains(power1: array<real>, power: array<real>, adaptRate: real)
    requires power1.Length == power.Length && power1 != power && 0.0 <= adaptRate <= 0.25
    requires forall i | 0 <= i < power.Length :: power[i] >= 1.0
    modifies power1
    ensures forall i | 0 <= i < power1.Length :: power[i] >= 0.0 && power1[i] == adaptRate / (power[i] + 10.0)
    ensures forall i | 0 <= i < power1.Length :: 0.0 <= power1[i] <= LARGEST_GAIN
  {
    for i := 0 to power1.Length
      invariant forall t | 0 <= t < i :: power1[t] == adaptRate / (power[t] + 10.0)
      invariant forall t | 0 <= t < i :: 0.0 <= power1[t] <= LARGEST_GAIN
    {
      QuotientBetween(adaptRate, power[i] + 10.0, LARGEST_GAIN);
      power1[i] := adaptRate / (power[i] + 10.0);
    }
  }

  // ----- what the spectra say about the leak -----

  /** The sum, from bin j on, of the products of what changed in two spectra. */
  function Changes(a: seq<real>, a0: seq<real>, b: seq<real>, b0: seq<real>, j: nat): real
    requires |a| == |a0| == |b| == |b0| && j <= |a|
    decreases |a| - j
  {
    if j == |a| then 0.0 else Changes(a, a0, b, b0, j + 1) + Times(a[j] - a0[j], b[j] - b0[j])
  }

  lemma {:induction false} ChangesArePositive(a: seq<real>, a0: seq<real>, j: nat)
    requires |a| == |a0| && j <= |a|
    ensures Changes(a, a0, a, a0, j) >= 0.0
    decreases |a| - j
  {
    if j < |a| {
      ChangesArePositive(a, a0, j + 1);
      SquareIsPositive(a[j] - a0[j]);
      hide Times;
    }
  }

  function Changed(a: seq<real>, a0: seq<real>): (d: seq<real>)
    requires |a| == |a0|
    ensures |d| == |a|
  {
    seq(|a|, i requires 0 <= i < |a| => a[i] - a0[i])
  }

  /** That sum over all bins is the inner product of the changes. */
  lemma {:induction false} ChangesAreInner(a: seq<real>, a0: seq<real>, b: seq<real>, b0: seq<real>, j: nat)
    requires |a| == |a0| == |b| == |b0| && j <= |a|
    ensures var d, e := Changed(a, a0), Changed(b, b0);
            Inner(d[..j], e[..j]) + Changes(a, a0, b, b0, j) == Inner(d, e)
    decreases |a| - j
  {
    var d, e := Changed(a, a0), Changed(b, b0);
    if j < |a| {
      ChangesAreInner(a, a0, b, b0, j + 1);
      InnerOfOneMore(d, e, j);
      hide Times;
      assert d[j] == a[j] - a0[j] && e[j] == b[j] - b0[j];
    } else {
      assert d[..j] == d && e[..j] == e;
    }
  }

  /** Correlates how the error and the echo estimate changed, and moves their averages. */
  method Correlate(rf: array<real>, yf: array<real>, eh: array<real>, yh: array<real>, average: real)
    returns (pey: real, pyy: real)
    requires rf.Length == yf.Length == eh.Length == yh.Length && eh !in {rf, yf, yh} && yh !in {rf, yf}
    modifies eh, yh
    ensures pey == 1.0 + Changes(rf[..], old(eh[..]), yf[..], old(yh[..]), 0)
    ensures pyy == 1.0 + Changes(yf[..], old(yh[..]), yf[..], old(yh[..]), 0) >= 1.0
    ensures forall j | 0 <= j < eh.Length :: eh[j] == Smoothed(old(eh[j]), rf[j], average)
    ensures forall j | 0 <= j < yh.Length :: yh[j] == Smoothed(old(yh[j]), yf[j], average)
  {
    ghost var rs, ys, e0, y0 := rf[..], yf[..], eh[..], yh[..];
    pey, pyy := 1.0, 1.0;
    for j := rf.Length downto 0
      invariant pey == 1.0 + Changes(rs, e0, ys, y0, j)
      invariant pyy == 1.0 + Changes(ys, y0, ys, y0, j)
      invariant forall t | 0 <= t < j :: eh[t] == e0[t] && yh[t] == y0[t]
      invariant forall t | j <= t < eh.Length :: eh[t] == Smoothed(e0[t], rs[t], average) && yh[t] == Smoothed(y0[t], ys[t], average)
    {
      hide Smoothed;
      var de := rf[j] - eh[j];
      var dy := yf[j] - yh[j];
      assert de == rs[j] - e0[j] && dy == ys[j] - y0[j];
      TimesIs(de, dy);
      TimesIs(dy, dy);
      hide Times;
      pey := pey + de * dy;
      pyy := pyy + dy * dy;
      AverageIs(eh[j], rf[j], average);
      AverageIs(yh[j], yf[j], average);
      eh[j] := (1.0 - average) * eh[j] + average * rf[j];
      yh[j] := (1.0 - average) * yh[j] + average * yf[j];
    }
    ChangesArePositive(ys, y0, 0);
    assert rf[..] == rs && yf[..] == ys;
  }

  lemma TimesIsPositive(a: real, b: real)
    requires a > 0.0 && b > 0.0
    ensures Times(a, b) > 0.0
  {
    ProductIsPositive(a, b);
  }

  lemma TimesIs(a: real, b: real)
    ensures Times(a, b) == a * b
  {
  }

  lemma AverageIs(a: real, b: real, ss: real)
    ensures (1.0 - ss) * a + ss * b == Smoothed(a, b, ss)
  {
  }

  // ----- the first tap weights -----

  /** The first weight, and the rest by the same factor. */
  method Decaying(prop: array<real>, decay: real) returns (sum: real)
    requires prop.Length >= 1 && decay > 0.0
    modifies prop
    ensures AllPositive(prop[..]) && sum == Sum(prop[..]) && sum > 0.0
    ensures forall i | 1 <= i < prop.Length :: prop[i] == Times(prop[i - 1], decay)
  {
    hide Times;
    hide Sum;
    prop[0] := 0.7;
    sum := prop[0];
    assert prop[..1] == [0.7];
    SumOfOne(0.7);
    for i := 1 to prop.Length
      invariant forall t | 0 <= t < i :: prop[t] > 0.0
      invariant forall t | 1 <= t < i :: prop[t] == Times(prop[t - 1], decay)
      invariant sum == Sum(prop[..i]) && sum > 0.0
    {
      ghost var done := prop[..i];
      TimesIsPositive(prop[i - 1], decay);
      prop[i] := Times(prop[i - 1], decay);
      sum := sum + prop[i];
      assert prop[..i] == done;
      SumOfOneMore(prop[..], i);
      assert prop[..][..i + 1] == prop[..i + 1] && prop[..][..i] == prop[..i];
    }
    assert prop[..prop.Length] == prop[..];
  }

  /** Weights that decay from one spectrum to the next, by the same factor, and add up to 0.8. */
  method InitialProp(prop: array<real>, decay: real)
    requires prop.Length >= 1 && decay > 0.0
    modifies prop
    ensures AllPositive(prop[..]) && Sum(prop[..]) == 0.8
    ensures forall i | 1 <= i < prop.Length :: prop[i] == Times(prop[i - 1], decay)
  {
    hide *;
    var sum := Decaying(prop, decay);
    ghost var was := prop[..];
    TakeParts(prop, 0.8, sum);
    PartBounds(0.8, sum, sum);
    forall i | 1 <= i < prop.Length ensures prop[i] == Times(prop[i - 1], decay) {
      PartOfProduct(was[i - 1], decay, sum);
    }
  }

  lemma PartOfProduct(a: real, decay: real, sum: real)
    requires sum > 0.0
    ensures Part(0.8, Times(a, decay), sum) == Times(Part(0.8, a, sum), decay)
  {
    assert 0.8 * (a * decay) / sum == 0.8 * a / sum * decay;
  }
}
