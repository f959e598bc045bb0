/** Spectra of real signals in packed form: of n values, the first and the last are the two real bins, and
    each pair between them is a complex bin. */
module Spectra {
  // ----- complex numbers -----

  datatype Complex = Complex(re: real, im: real)

  const ZERO := Complex(0.0, 0.0)

  function Add(a: Complex, b: Complex): Complex {
    Complex(a.re + b.re, a.im + b.im)
  }

  function Mul(a: Complex, b: Complex): Complex {
    Complex(a.re * b.re - a.im * b.im, a.re * b.im + a.im * b.re)
  }

  function Conj(a: Complex): Complex {
    Complex(a.re, -a.im)
  }

  function Scale(c: real, a: Complex): Complex {
    Complex(c * a.re, c * a.im)
  }

  /** The step size of a bin: the gain of its spectrum times the weight of the bin. */
  function StepSize(p: real, weights: seq<real>, k: nat): real
    requires k < |weights|
  {
    p * weights[k]
  }

  /** The squared magnitude. */
  function Norm(a: Complex): real {
    a.re * a.re + a.im * a.im
  }

  lemma MulAdds(a: Complex, b: Complex, c: Complex)
    ensures Mul(a, Add(b, c)) == Add(Mul(a, b), Mul(a, c))
  {
  }

  lemma MulScales(a: Complex, c: real, b: Complex)
    ensures Mul(a, Scale(c, b)) == Scale(c, Mul(a, b))
  {
  }

  lemma MulConj(a: Complex, b: Complex)
    ensures Mul(a, Mul(Conj(a), b)) == Scale(Norm(a), b)
  {
  }

  lemma ScaleTwice(c: real, d: real, a: Complex)
    ensures Scale(c, Scale(d, a)) == Scale(c * d, a)
  {
  }

  // ----- packed spectra -----

  predicate Packed(s: seq<real>, o: nat, n: nat) {
    n % 2 == 0 && 2 <= n && o + n <= |s|
  }

  /** Bin k, of n / 2 + 1, of the spectrum packed from position o on. */
  function Bin(s: seq<real>, o: nat, n: nat, k: nat): Complex
    requires Packed(s, o, n) && k <= n / 2
  {
    if k == 0 then Complex(s[o], 0.0)
    else if k == n / 2 then Complex(s[o + n - 1], 0.0)
    else Complex(s[o + 2 * k - 1], s[o + 2 * k])
  }

  /** A packed spectrum is its bins. */
  lemma BinsDetermine(s: seq<real>, t: seq<real>, n: nat)
    requires Packed(s, 0, n) && Packed(t, 0, n)
    requires forall k | 0 <= k <= n / 2 :: Bin(s, 0, n, k) == Bin(t, 0, n, k)
    ensures s[..n] == t[..n]
  {
    forall i | 0 <= i < n ensures s[i] == t[i] {
      var k := (i + 1) / 2;
      assert Bin(s, 0, n, k) == Bin(t, 0, n, k);
    }
  }

  lemma NormIs(a: Complex)
    ensures Norm(a) == a.re * a.re + a.im * a.im
    ensures a.im == 0.0 ==> Norm(a) == a.re * a.re
  {
  }

  lemma MulIs(a: Complex, b: Complex)
    ensures Mul(a, b) == Complex(a.re * b.re - a.im * b.im, a.im * b.re + a.re * b.im)
    ensures a.im == 0.0 && b.im == 0.0 ==> Mul(a, b) == Complex(a.re * b.re, 0.0)
  {
  }

  // ----- the loops -----

  /** The power of each bin. */
  method PowerSpectrum(x: array<real>, ps: array<real>, n: nat)
    requires Packed(x[..], 0, n) && n / 2 < ps.Length && x != ps
    modifies ps
    ensures forall k | 0 <= k <= n / 2 :: ps[k] == Norm(Bin(x[..], 0, n, k))
    ensures ps[n / 2 + 1..] == old(ps[n / 2 + 1..])
  {
    hide Norm;
    ghost var xs := x[..];
    NormIs(Bin(xs, 0, n, 0));
    ps[0] := x[0] * x[0];
    var j := 1;
    var i := 1;
    while i < n - 1
      invariant i == 2 * j - 1 && 1 <= j <= n / 2
      invariant forall k | 0 <= k < j :: ps[k] == Norm(Bin(xs, 0, n, k))
      invariant ps[n / 2 + 1..] == old(ps[n / 2 + 1..])
    {
      var a := Complex(x[i], x[i + 1]);
      NormIs(a);
      assert a == Bin(xs, 0, n, j);
      ps[j] := a.re * a.re + a.im * a.im;
      i, j := i + 2, j + 1;
    }
    NormIs(Bin(xs, 0, n, j));
    ps[j] := x[i] * x[i];
    assert x[..] == xs;
  }

  /** Adds the power of each bin. */
  method PowerSpectrumAccum(x: array<real>, ps: array<real>, n: nat)
    requires Packed(x[..], 0, n) && n / 2 < ps.Length && x != ps
    modifies ps
    ensures forall k | 0 <= k <= n / 2 :: ps[k] == old(ps[k]) + Norm(Bin(x[..], 0, n, k))
    ensures ps[n / 2 + 1..] == old(ps[n / 2 + 1..])
  {
    hide Norm;
    ghost var xs := x[..];
    NormIs(Bin(xs, 0, n, 0));
    ps[0] := ps[0] + x[0] * x[0];
    var j := 1;
    var i := 1;
    while i < n - 1
      invariant i == 2 * j - 1 && 1 <= j <= n / 2
      invariant forall k | 0 <= k < j :: ps[k] == old(ps[k]) + Norm(Bin(xs, 0, n, k))
      invariant forall k | j <= k < ps.Length :: ps[k] == old(ps[k])
    {
      var a := Complex(x[i], x[i + 1]);
      NormIs(a);
      assert a == Bin(xs, 0, n, j);
      ps[j] := ps[j] + (a.re * a.re + a.im * a.im);
      i, j := i + 2, j + 1;
    }
    NormIs(Bin(xs, 0, n, j));
    ps[j] := ps[j] + x[i] * x[i];
    assert x[..] == xs;
  }

  // ----- stacked spectra -----

  /** The m spectra of n values stacked in s; the one numbered j starts at j * n. */
  predicate Stacked(s: seq<real>, n: nat, m: nat) {
    n % 2 == 0 && 2 <= n && m * n <= |s|
  }

  lemma {:induction false} MoreIsLonger(a: nat, b: nat, n: nat)
    requires a <= b
    ensures 0 <= a * n <= b * n
    decreases b
  {
    if a < b {
      MoreIsLonger(a, b - 1, n);
      assert b * n == (b - 1) * n + n;
    } else if a > 0 {
      MoreIsLonger(a - 1, a - 1, n);
      assert a * n == (a - 1) * n + n;
    }
  }

  lemma BlockFits(j: nat, m: nat, n: nat)
    requires j < m
    ensures 0 <= j * n && j * n + n == (j + 1) * n <= m * n
  {
    MoreIsLonger(j, j, n);
    MoreIsLonger(j + 1, m, n);
  }

  function BinOf(s: seq<real>, n: nat, j: nat, k: nat): Complex
    requires Stacked(s, n, j + 1) && k <= n / 2
  {
    BlockFits(j, j + 1, n);
    Bin(s, j * n, n, k)
  }

  lemma FewerStacked(s: seq<real>, n: nat, m: nat, j: nat)
    requires Stacked(s, n, m) && j <= m
    ensures Stacked(s, n, j)
  {
    MoreIsLonger(j, m, n);
  }

  /** What the filter w makes of the stacked spectra x: the sum, bin by bin, of their products. */
  function Filtered(x: seq<real>, w: seq<real>, n: nat, m: nat, k: nat): Complex
    requires Stacked(x, n, m) && Stacked(w, n, m) && k <= n / 2
  {
    if m == 0 then ZERO
    else
      FewerStacked(x, n, m, m - 1);
      FewerStacked(w, n, m, m - 1);
      Add(Filtered(x, w, n, m - 1, k), Mul(BinOf(x, n, m - 1, k), BinOf(w, n, m - 1, k)))
  }

  /** The bins before bin j. */
  lemma BinsKept(s: seq<real>, t: seq<real>, n: nat, j: nat)
    requires Packed(s, 0, n) && Packed(t, 0, n) && 1 <= j <= n / 2
    requires s[..2 * j - 1] == t[..2 * j - 1]
    ensures forall k | 0 <= k < j :: Bin(s, 0, n, k) == Bin(t, 0, n, k)
  {
    forall k | 0 <= k < j ensures Bin(s, 0, n, k) == Bin(t, 0, n, k) {
      var a, b := s[..2 * j - 1], t[..2 * j - 1];
      assert a[0] == s[0] && b[0] == t[0];
      if k > 0 {
        assert a[2 * k - 1] == s[2 * k - 1] && b[2 * k - 1] == t[2 * k - 1];
        assert a[2 * k] == s[2 * k] && b[2 * k] == t[2 * k];
      }
    }
  }

  /** Adds the products of the bins of one spectrum of x and one of y. */
  method MulAccumOne(x: array<real>, y: array<real>, acc: array<real>, o: nat, n: nat)
    requires Packed(x[..], o, n) && Packed(y[..], o, n) && Packed(acc[..], 0, n) && x != acc && y != acc
    modifies acc
    ensures forall k | 0 <= k <= n / 2 ::
              Bin(acc[..], 0, n, k) == Add(old(Bin(acc[..], 0, n, k)), Mul(Bin(x[..], o, n, k), Bin(y[..], o, n, k)))
    ensures acc[n..] == old(acc[n..])
  {
    hide Mul;
    ghost var xs, ys, was := x[..], y[..], acc[..];
    MulIs(Bin(xs, o, n, 0), Bin(ys, o, n, 0));
    acc[0] := acc[0] + x[o] * y[o];
    var i := 1;
    ghost var j := 1;
    while i < n - 1
      invariant i == 2 * j - 1 && 1 <= j <= n / 2
      invariant forall k | 0 <= k < j ::
                  Bin(acc[..], 0, n, k) == Add(Bin(was, 0, n, k), Mul(Bin(xs, o, n, k), Bin(ys, o, n, k)))
      invariant forall t | i <= t < acc.Length :: acc[t] == was[t]
    {
      var a, b := Complex(x[o + i], x[o + i + 1]), Complex(y[o + i], y[o + i + 1]);
      MulIs(a, b);
      assert a == Bin(xs, o, n, j) && b == Bin(ys, o, n, j);
      ghost var before := acc[..];
      acc[i] := acc[i] + (a.re * b.re - a.im * b.im);
      acc[i + 1] := acc[i + 1] + (a.im * b.re + a.re * b.im);
      BinsKept(before, acc[..], n, j);
      assert Bin(acc[..], 0, n, j) == Add(Bin(was, 0, n, j), Mul(a, b));
      i, j := i + 2, j + 1;
    }
    MulIs(Bin(xs, o, n, j), Bin(ys, o, n, j));
    ghost var before := acc[..];
    acc[i] := acc[i] + x[o + i] * y[o + i];
    BinsKept(before, acc[..], n, j);
    assert Bin(acc[..], 0, n, j) == Add(Bin(was, 0, n, j), Mul(Bin(xs, o, n, j), Bin(ys, o, n, j)));
    hide Bin;
    hide Add;
    assert x[..] == xs && y[..] == ys;
  }

  /** The filter's output. */
  method SpectralMulAccum(x: array<real>, y: array<real>, acc: array<real>, n: nat, m: nat)
    requires Stacked(x[..], n, m) && Stacked(y[..], n, m) && Packed(acc[..], 0, n) && x != acc && y != acc
    modifies acc
    ensures forall k | 0 <= k <= n / 2 :: Bin(acc[..], 0, n, k) == Filtered(x[..], y[..], n, m, k)
  {
    forall i | 0 <= i < n {
      acc[i] := 0.0;
    }
    FewerStacked(x[..], n, m, 0);
    FewerStacked(y[..], n, m, 0);
    var j := 0;
    while j < m
      invariant 0 <= j <= m && Stacked(x[..], n, j) && Stacked(y[..], n, j)
      invariant forall k | 0 <= k <= n / 2 :: Bin(acc[..], 0, n, k) == Filtered(x[..], y[..], n, j, k)
    {
      BlockFits(j, m, n);
      MulAccumOne(x, y, acc, j * n, n);
      j := j + 1;
    }
  }

  lemma GradientIs(c: real, a: Complex, b: Complex)
    ensures Scale(c, Mul(Conj(a), b)) == Complex(c * (a.re * b.re + a.im * b.im), c * (-a.im * b.re + a.re * b.im))
  {
  }

  lemma RealGradientIs(c: real, a: Complex, b: Complex)
    requires a.im == 0.0 && b.im == 0.0
    ensures Scale(c, Mul(Conj(a), b)) == Complex(c * a.re * b.re, 0.0)
  {
  }

  /** The gradient of one spectrum: the product of conjugate x and y, weighted bin by bin. */
  method WeightedSpectralMulConj(w: array<real>, p: real, x: array<real>, xo: nat, y: array<real>, prod: array<real>, n: nat)
    requires n / 2 < w.Length && Packed(x[..], xo, n) && Packed(y[..], 0, n) && Packed(prod[..], 0, n)
    requires prod != w && prod != x && prod != y
    modifies prod
    ensures forall k | 0 <= k <= n / 2 ::
              Bin(prod[..], 0, n, k) == Scale(StepSize(p, w[..], k), Mul(Conj(Bin(x[..], xo, n, k)), Bin(y[..], 0, n, k)))
  {
    hide Scale;
    hide Mul;
    hide Conj;
    ghost var ws, xs, ys := w[..], x[..], y[..];
    var weight := p * w[0];
    assert weight == StepSize(p, ws, 0);
    RealGradientIs(weight, Bin(xs, xo, n, 0), Bin(ys, 0, n, 0));
    prod[0] := weight * x[xo] * y[0];
    var i, j := 1, 1;
    while i < n - 1
      invariant i == 2 * j - 1 && 1 <= j <= n / 2
      invariant forall k | 0 <= k < j ::
                  Bin(prod[..], 0, n, k) == Scale(StepSize(p, ws, k), Mul(Conj(Bin(xs, xo, n, k)), Bin(ys, 0, n, k)))
    {
      weight := p * w[j];
      assert weight == StepSize(p, ws, j);
      GradientIs(weight, Bin(xs, xo, n, j), Bin(ys, 0, n, j));
      prod[i] := weight * (x[xo + i] * y[i] + x[xo + i + 1] * y[i + 1]);
      prod[i + 1] := weight * (-x[xo + i + 1] * y[i] + x[xo + i] * y[i + 1]);
      i, j := i + 2, j + 1;
    }
    weight := p * w[j];
    assert weight == StepSize(p, ws, j);
    RealGradientIs(weight, Bin(xs, xo, n, j), Bin(ys, 0, n, j));
    prod[i] := weight * x[xo + i] * y[i];
    assert w[..] == ws && x[..] == xs && y[..] == ys;
  }

  // ----- one update of the filter -----

  /** The update of bin k of the filter's spectrum j, and what the output then gains. */
  function Step(x: seq<real>, e: seq<real>, weights: seq<real>, p: real, n: nat, j: nat, k: nat): Complex
    requires Stacked(x, n, j + 1) && Packed(e, 0, n) && n / 2 < |weights| && k <= n / 2
  {
    Scale(StepSize(p, weights, k), Mul(Conj(BinOf(x, n, j, k)), Bin(e, 0, n, k)))
  }

  /** The sum, over the stacked spectra, of their power at bin k, each times its gain. */
  function WeightedPower(p: real, weights: seq<real>, k: nat, x: Complex): real
    requires k < |weights|
  {
    StepSize(p, weights, k) * Norm(x)
  }

  function GainOf(x: seq<real>, p: seq<real>, weights: seq<real>, n: nat, m: nat, k: nat): real
    requires Stacked(x, n, m) && m <= |p| && n / 2 < |weights| && k <= n / 2
  {
    if m == 0 then 0.0
    else
      FewerStacked(x, n, m, m - 1);
      GainOf(x, p, weights, n, m - 1, k) + WeightedPower(p[m - 1], weights, k, BinOf(x, n, m - 1, k))
  }

  lemma FilteredOneMore(x: seq<real>, w: seq<real>, n: nat, m: nat, k: nat)
    requires m > 0 && Stacked(x, n, m) && Stacked(w, n, m) && k <= n / 2
    ensures Stacked(x, n, m - 1) && Stacked(w, n, m - 1)
    ensures Filtered(x, w, n, m, k) == Add(Filtered(x, w, n, m - 1, k), Mul(BinOf(x, n, m - 1, k), BinOf(w, n, m - 1, k)))
  {
    FewerStacked(x, n, m, m - 1);
    FewerStacked(w, n, m, m - 1);
    hide Stacked;
    hide Add;
    hide Mul;
    hide BinOf;
  }

  lemma GainOneMore(x: seq<real>, p: seq<real>, weights: seq<real>, n: nat, m: nat, k: nat)
    requires m > 0 && Stacked(x, n, m) && Stacked(x, n, m - 1) && m <= |p| && n / 2 < |weights| && k <= n / 2
    ensures GainOf(x, p, weights, n, m, k)
         == GainOf(x, p, weights, n, m - 1, k) + WeightedPower(p[m - 1], weights, k, BinOf(x, n, m - 1, k))
  {
    hide Stacked;
    hide BinOf;
    hide WeightedPower;
  }

  lemma NoneYet(x: seq<real>, w: seq<real>, p: seq<real>, weights: seq<real>, n: nat, k: nat, e: Complex)
    requires Stacked(x, n, 0) && Stacked(w, n, 0) && n / 2 < |weights| && k <= n / 2
    ensures Filtered(x, w, n, 0, k) == ZERO && Add(ZERO, Scale(GainOf(x, p, weights, n, 0, k), e)) == ZERO
  {
  }

  /** The output of one spectrum after its step. */
  lemma OneStep(x: Complex, w: Complex, p: real, weights: seq<real>, k: nat, e: Complex)
    requires k < |weights|
    ensures Mul(x, Add(w, Scale(StepSize(p, weights, k), Mul(Conj(x), e))))
         == Add(Mul(x, w), Scale(WeightedPower(p, weights, k, x), e))
  {
    var c := StepSize(p, weights, k);
    MulAdds(x, w, Scale(c, Mul(Conj(x), e)));
    MulScales(x, c, Mul(Conj(x), e));
    MulConj(x, e);
    ScaleTwice(c, Norm(x), e);
    hide Add;
    hide Mul;
    hide Scale;
    hide Conj;
    hide Norm;
    hide StepSize;
  }

  lemma Gather(s: Complex, g: real, e: Complex, t: Complex, h: real)
    ensures Add(Add(s, Scale(g, e)), Add(t, Scale(h, e))) == Add(Add(s, t), Scale(g + h, e))
  {
  }

  /** Bin k of the filter's spectrum j has taken its step. */
  predicate Updated(x: seq<real>, e: seq<real>, weights: seq<real>, p: seq<real>, w: seq<real>, w': seq<real>, n: nat, j: nat, k: nat) {
    && Stacked(x, n, j + 1) && Stacked(w, n, j + 1) && Stacked(w', n, j + 1)
    && Packed(e, 0, n) && n / 2 < |weights| && j < |p| && k <= n / 2
    && BinOf(w', n, j, k) == Add(BinOf(w, n, j, k), Step(x, e, weights, p[j], n, j, k))
  }

  lemma WhatUpdatedSays(x: seq<real>, e: seq<real>, weights: seq<real>, p: seq<real>, w: seq<real>, w': seq<real>,
                        n: nat, j: nat, k: nat)
    requires Updated(x, e, weights, p, w, w', n, j, k)
    requires Stacked(x, n, j + 1) && Stacked(w, n, j + 1) && Stacked(w', n, j + 1)
    requires Packed(e, 0, n) && n / 2 < |weights| && j < |p| && k <= n / 2
    ensures BinOf(w', n, j, k)
         == Add(BinOf(w, n, j, k), Scale(StepSize(p[j], weights, k), Mul(Conj(BinOf(x, n, j, k)), Bin(e, 0, n, k))))
  {
    hide Stacked;
    hide BinOf;
    hide Bin;
    hide Add;
    hide Mul;
    hide Scale;
    hide StepSize;
  }

  /** One update moves the output by the gradient: each bin gains the error times the weighted power of
      the signal there. */
  lemma {:induction false} UpdateMovesOutput(x: seq<real>, e: seq<real>, weights: seq<real>, p: seq<real>,
                                             w: seq<real>, w': seq<real>, n: nat, m: nat, k: nat)
    requires Stacked(x, n, m) && Stacked(w, n, m) && Stacked(w', n, m) && Packed(e, 0, n) && n / 2 < |weights| && m <= |p|
    requires k <= n / 2 && forall j | 0 <= j < m :: Updated(x, e, weights, p, w, w', n, j, k)
    ensures Filtered(x, w', n, m, k)
         == Add(Filtered(x, w, n, m, k), Scale(GainOf(x, p, weights, n, m, k), Bin(e, 0, n, k)))
    decreases m
  {
    hide *;
    if m == 0 {
      NoneYet(x, w, p, weights, n, k, Bin(e, 0, n, k));
      NoneYet(x, w', p, weights, n, k, Bin(e, 0, n, k));
    } else {
      var j, err := m - 1, Bin(e, 0, n, k);
      FilteredOneMore(x, w, n, m, k);
      FilteredOneMore(x, w', n, m, k);
      GainOneMore(x, p, weights, n, m, k);
      UpdateMovesOutput(x, e, weights, p, w, w', n, j, k);
      WhatUpdatedSays(x, e, weights, p, w, w', n, j, k);
      var xj, wj := BinOf(x, n, j, k), BinOf(w, n, j, k);
      OneStep(xj, wj, p[j], weights, k, err);
      Gather(Filtered(x, w, n, j, k), GainOf(x, p, weights, n, j, k), err, Mul(xj, wj), WeightedPower(p[j], weights, k, xj));
    }
  }

  /** Adds a spectrum to the one packed from position o on. */
  method AddSpectrum(w: array<real>, o: nat, phi: array<real>, n: nat)
    requires Packed(w[..], o, n) && Packed(phi[..], 0, n) && w != phi
    modifies w
    ensures w[..o] == old(w[..o]) && w[o + n..] == old(w[o + n..])
    ensures forall k | 0 <= k <= n / 2 :: Bin(w[..], o, n, k) == Add(old(Bin(w[..], o, n, k)), Bin(phi[..], 0, n, k))
  {
    var i := 0;
    while i < n
      invariant 0 <= i <= n
      invariant forall t | o <= t < o + i :: w[t] == old(w[t]) + phi[t - o]
      invariant forall t | o + i <= t < o + n :: w[t] == old(w[t])
      invariant w[..o] == old(w[..o]) && w[o + n..] == old(w[o + n..])
    {
      w[o + i] := w[o + i] + phi[i];
      i := i + 1;
    }
  }

  /** The spectra after the first. */
  lemma ShiftedBin(x: seq<real>, n: nat, m: nat, j: nat, k: nat)
    requires Stacked(x, n, m + 1) && j < m && k <= n / 2
    ensures n <= |x| && Stacked(x[n..], n, m) && Stacked(x[n..], n, j + 1) && (j + 1) * n + n <= |x|
    ensures BinOf(x[n..], n, j, k) == Bin(x, (j + 1) * n, n, k)
  {
    BlockFits(0, m + 1, n);
    BlockFits(j, j + 1, n);
    BlockFits(j + 1, m + 1, n);
    assert (m + 1) * n == m * n + n;
    FewerStacked(x[n..], n, m, j + 1);
  }

  /** Spectra are not changed before they are reached. */
  lemma SameTail(w: seq<real>, v: seq<real>, o: nat, n: nat, j: nat, k: nat)
    requires |w| == |v| && Stacked(w, n, j + 1) && k <= n / 2 && o <= j * n && o <= |w| && w[o..] == v[o..]
    ensures Stacked(v, n, j + 1) && BinOf(v, n, j, k) == BinOf(w, n, j, k)
  {
    BlockFits(j, j + 1, n);
    assert forall t | o <= t < |w| :: w[t] == w[o..][t - o] && v[t] == v[o..][t - o];
  }

  /** Spectra from j on have taken their steps; those before are as they were. */
  ghost predicate UpdatedFrom(x: seq<real>, e: seq<real>, weights: seq<real>, p: seq<real>, w: seq<real>, w': seq<real>,
                              n: nat, m: nat, j: nat) {
    && |w'| == |w| && 0 <= j * n <= |w| && w'[..j * n] == w[..j * n]
    && forall t: nat, k: nat | j <= t < m && k <= n / 2 :: Updated(x, e, weights, p, w, w', n, t, k)
  }

  lemma UpdatedOneMore(x: seq<real>, e: seq<real>, weights: seq<real>, p: seq<real>, w: seq<real>, v: seq<real>, w': seq<real>,
                       phi: seq<real>, n: nat, m: nat, j: nat)
    requires Stacked(x, n, m + 1) && Stacked(w, n, m) && Packed(e, 0, n) && Packed(phi, 0, n) && n / 2 < |weights| && m <= |p|
    requires j < m && n <= |x| && UpdatedFrom(x[n..], e, weights, p, w, v, n, m, j + 1)
    requires |w'| == |v| && 0 <= j * n <= j * n + n <= |w| && (j + 1) * n + n <= |x|
    requires w'[..j * n] == v[..j * n] && w'[j * n + n..] == v[j * n + n..]
    requires forall k | 0 <= k <= n / 2 :: Bin(w', j * n, n, k) == Add(Bin(v, j * n, n, k), Bin(phi, 0, n, k))
    requires forall k | 0 <= k <= n / 2 ::
               Bin(phi, 0, n, k) == Scale(StepSize(p[j], weights, k), Mul(Conj(Bin(x, (j + 1) * n, n, k)), Bin(e, 0, n, k)))
    ensures UpdatedFrom(x[n..], e, weights, p, w, w', n, m, j)
  {
    forall t: nat, k: nat | j <= t < m && k <= n / 2 ensures Updated(x[n..], e, weights, p, w, w', n, t, k) {
      if t == j {
        UpdatedHere(x, e, weights, p, w, v, w', phi, n, m, j, k);
      } else {
        StaysUpdated(x[n..], e, weights, p, w, v, w', n, j, t, k);
      }
    }
    MoreIsLonger(j, j + 1, n);
    assert w'[..j * n] == v[..(j + 1) * n][..j * n] == w[..j * n];
  }

  lemma UpdatedHere(x: seq<real>, e: seq<real>, weights: seq<real>, p: seq<real>, w: seq<real>, v: seq<real>, w': seq<real>,
                    phi: seq<real>, n: nat, m: nat, j: nat, k: nat)
    requires Stacked(x, n, m + 1) && Stacked(w, n, m) && Packed(e, 0, n) && Packed(phi, 0, n) && n / 2 < |weights| && m <= |p|
    requires j < m && n <= |x| && k <= n / 2 && |w'| == |v| == |w| && 0 <= j * n <= j * n + n <= |w| && (j + 1) * n + n <= |x|
    requires 0 <= (j + 1) * n <= |w| && v[..(j + 1) * n] == w[..(j + 1) * n]
    requires Bin(w', j * n, n, k) == Add(Bin(v, j * n, n, k), Bin(phi, 0, n, k))
    requires Bin(phi, 0, n, k) == Scale(StepSize(p[j], weights, k), Mul(Conj(Bin(x, (j + 1) * n, n, k)), Bin(e, 0, n, k)))
    ensures Updated(x[n..], e, weights, p, w, w', n, j, k)
  {
    ShiftedBin(x, n, m, j, k);
    FewerStacked(w, n, m, j + 1);
    BlockFits(j, j + 1, n);
    assert Bin(v, j * n, n, k) == Bin(w, j * n, n, k) by {
      assert forall t | 0 <= t < (j + 1) * n :: v[t] == v[..(j + 1) * n][t] && w[t] == w[..(j + 1) * n][t];
    }
    hide Bin;
    hide Add;
    hide Mul;
    hide Scale;
    hide StepSize;
  }

  lemma StaysUpdated(x: seq<real>, e: seq<real>, weights: seq<real>, p: seq<real>, w: seq<real>, v: seq<real>, w': seq<real>,
                     n: nat, j: nat, t: nat, k: nat)
    requires j < t && |w'| == |v| && 0 <= j * n + n <= |v| && w'[j * n + n..] == v[j * n + n..]
    requires Updated(x, e, weights, p, w, v, n, t, k)
    ensures Updated(x, e, weights, p, w, w', n, t, k)
  {
    BlockFits(j, t, n);
    SameTail(v, w', j * n + n, n, t, k);
    hide BinOf;
    hide Stacked;
    hide Step;
    hide Add;
  }

  /** One update of the whole filter, on the stacked spectra after the first; it moves the output by the
      gradient. */
  method UpdateFilter(x: array<real>, e: array<real>, weights: array<real>, p: array<real>, w: array<real>, phi: array<real>,
                      n: nat, m: nat)
    requires Stacked(x[..], n, m + 1) && n <= x.Length && Stacked(x[n..], n, m) && Stacked(w[..], n, m)
    requires Packed(e[..], 0, n) && Packed(phi[..], 0, n) && n / 2 < weights.Length && m <= p.Length
    requires w !in {x, e, weights, p, phi} && phi !in {x, e, weights, p}
    modifies w, phi
    ensures UpdatedFrom(x[n..], e[..], weights[..], p[..], old(w[..]), w[..], n, m, 0)
    ensures forall k | 0 <= k <= n / 2 ::
              var gain := GainOf(x[n..], p[..], weights[..], n, m, k);
              Filtered(x[n..], w[..], n, m, k) == Add(Filtered(x[n..], old(w[..]), n, m, k), Scale(gain, Bin(e[..], 0, n, k)))
  {
    hide Bin;
    hide Add;
    hide Mul;
    hide Scale;
    hide StepSize;
    hide Filtered;
    hide GainOf;
    hide UpdatedFrom;
    ghost var xs, es, gs, ps, was := x[..], e[..], weights[..], p[..], w[..];
    var j := m;
    AllToUpdate(xs[n..], es, gs, ps, was, n, m);
    while j > 0
      invariant 0 <= j <= m && x[..] == xs && e[..] == es && weights[..] == gs && p[..] == ps
      invariant UpdatedFrom(xs[n..], es, gs, ps, was, w[..], n, m, j)
    {
      j := j - 1;
      BlockFits(j, m, n);
      BlockFits(j + 1, m + 1, n);
      ghost var before := w[..];
      WeightedSpectralMulConj(weights, p[j], x, (j + 1) * n, e, phi, n);
      AddSpectrum(w, j * n, phi, n);
      UpdatedOneMore(xs, es, gs, ps, was, before, w[..], phi[..], n, m, j);
    }
    AllUpdated(xs[n..], es, gs, ps, was, w[..], n, m);
  }

  lemma AllToUpdate(x: seq<real>, e: seq<real>, weights: seq<real>, p: seq<real>, w: seq<real>, n: nat, m: nat)
    requires Stacked(w, n, m)
    ensures UpdatedFrom(x, e, weights, p, w, w, n, m, m)
  {
    MoreIsLonger(m, m, n);
  }

  lemma AllUpdated(x: seq<real>, e: seq<real>, weights: seq<real>, p: seq<real>, w: seq<real>, w': seq<real>, n: nat, m: nat)
    requires Stacked(x, n, m) && Stacked(w, n, m) && Packed(e, 0, n) && n / 2 < |weights| && m <= |p|
    requires UpdatedFrom(x, e, weights, p, w, w', n, m, 0)
    ensures Stacked(w', n, m)
    ensures forall k | 0 <= k <= n / 2 ::
              Filtered(x, w', n, m, k) == Add(Filtered(x, w, n, m, k), Scale(GainOf(x, p, weights, n, m, k), Bin(e, 0, n, k)))
  {
    hide Filtered;
    hide GainOf;
    hide Add;
    hide Scale;
    hide Bin;
    hide Updated;
    forall k | 0 <= k <= n / 2
      ensures Filtered(x, w', n, m, k) == Add(Filtered(x, w, n, m, k), Scale(GainOf(x, p, weights, n, m, k), Bin(e, 0, n, k)))
    {
      UpdateMovesOutput(x, e, weights, p, w, w', n, m, k);
    }
  }

  /** With gains and weights that are not negative, no bin moves away from the error. */
  lemma {:induction false} GainIsPositive(x: seq<real>, p: seq<real>, weights: seq<real>, n: nat, m: nat, k: nat)
    requires Stacked(x, n, m) && m <= |p| && n / 2 < |weights| && k <= n / 2
    requires weights[k] >= 0.0 && forall j | 0 <= j < m :: p[j] >= 0.0
    ensures GainOf(x, p, weights, n, m, k) >= 0.0
  {
    if m > 0 {
      FewerStacked(x, n, m, m - 1);
      GainIsPositive(x, p, weights, n, m - 1, k);
      GainOneMore(x, p, weights, n, m, k);
      PowerIsPositive(p[m - 1], weights, k, BinOf(x, n, m - 1, k));
      hide *;
    }
  }

  lemma PowerIsPositive(p: real, weights: seq<real>, k: nat, x: Complex)
    requires k < |weights| && p >= 0.0 && weights[k] >= 0.0
    ensures WeightedPower(p, weights, k, x) >= 0.0
  {
    assert x.re * x.re >= 0.0 && x.im * x.im >= 0.0;
    assert StepSize(p, weights, k) >= 0.0;
  }
}
