/** When the echo canceller counts as adapted, how fast it learns until then and after, and what its leak follows. */
module EchoAdaptation {
  import opened EchoGains

  const MIN_LEAK: real := 0.005

  // ----- what is measured of a frame -----

  /** The energies of the far end, of the error and of the echo estimate, the correlation of the last two, and the
      leak estimated from their spectra. */
  datatype Measured = Measured(sxx: real, see: real, syy: real, sey: real, leak: real)

  type Lesson = l: Measured | l.see > 0.0 witness Measured(0.0, 1.0, 0.0, 0.0, 0.0)

  /** The far end is loud enough to learn from. */
  predicate Loud(n: nat, l: Lesson) {
    l.sxx > n as real * 1000.0
  }

  /** How much a frame teaches a filter that has not adapted. */
  function Rate(n: nat, l: Lesson): real {
    if !Loud(n, l) then 0.0 else (if l.sxx > l.see then 0.25 * l.see else 0.25 * l.sxx) / l.see
  }

  /** Some of the echo is in the error. */
  predicate Echoes(l: Lesson) {
    l.leak * l.syy > 0.03 * l.syy
  }

  datatype Adaptation = Adaptation(adapted: bool, sum: real)

  function NextAdaptation(n: nat, m: nat, a: Adaptation, l: Lesson): Adaptation {
    if a.adapted || (a.sum > m as real && Echoes(l)) then a.(adapted := true) else a.(sum := a.sum + Rate(n, l))
  }

  /** After the frames since the canceller last started over. */
  function AdaptationAfter(n: nat, m: nat, lessons: seq<Lesson>): Adaptation {
    if lessons == [] then Adaptation(false, 0.0)
    else NextAdaptation(n, m, AdaptationAfter(n, m, lessons[..|lessons| - 1]), lessons[|lessons| - 1])
  }

  // ----- when it has adapted -----

  /** All that the frames teach. */
  function Taught(n: nat, lessons: seq<Lesson>): real {
    if lessons == [] then 0.0 else Taught(n, lessons[..|lessons| - 1]) + Rate(n, lessons[|lessons| - 1])
  }

  /** A loud frame teaches a quarter, less when the error is louder than the far end; a quiet one nothing. */
  lemma RateIs(n: nat, l: Lesson)
    ensures Loud(n, l) <==> l.sxx > 1000.0 * n as real
    ensures !Loud(n, l) ==> Rate(n, l) == 0.0
    ensures Loud(n, l) && l.sxx >= l.see ==> Rate(n, l) == 0.25
    ensures Loud(n, l) && l.sxx < l.see ==> 0.0 <= Rate(n, l) < 0.25 && Rate(n, l) * l.see == 0.25 * l.sxx
    ensures 0.0 <= Rate(n, l) <= 0.25
  {
    if Loud(n, l) {
      if l.sxx >= l.see {
        assert 0.25 * l.see / l.see == 0.25;
      } else {
        QuotientBetween(0.25 * l.sxx, l.see, 0.25);
        QuotientBelow(0.25 * l.sxx, l.see, 0.25);
      }
    }
  }

  lemma QuotientBelow(a: real, d: real, c: real)
    requires d > 0.0 && a < c * d
    ensures a / d < c
  {
    if a / d >= c {
      TimesGrows(c, a / d, d);
    }
  }

  lemma EchoesIff(l: Lesson)
    requires l.syy >= 0.0
    ensures Echoes(l) <==> l.syy > 0.0 && l.leak > 0.03
  {
    if l.leak > 0.03 {
      if l.syy > 0.0 {
        assert (l.leak - 0.03) * l.syy > 0.0;
      }
    } else {
      TimesGrows(l.leak, 0.03, l.syy);
    }
  }

  lemma {:induction false} UntilAdapted(n: nat, m: nat, lessons: seq<Lesson>)
    ensures !AdaptationAfter(n, m, lessons).adapted ==> AdaptationAfter(n, m, lessons).sum == Taught(n, lessons)
  {
    hide Rate;
    hide Echoes;
    if lessons != [] {
      UntilAdapted(n, m, lessons[..|lessons| - 1]);
    }
  }

  /** Frame k is one that sets adapted: it echoes, and those before it taught more than m. */
  predicate Tips(n: nat, m: nat, lessons: seq<Lesson>, k: nat)
    requires k < |lessons|
  {
    Echoes(lessons[k]) && Taught(n, lessons[..k]) > m as real
  }

  /** The canceller has adapted exactly when some frame with echo in it came after frames that taught more than m, the
      number of spectra of its filter. */
  lemma {:induction false} AdaptedIff(n: nat, m: nat, lessons: seq<Lesson>)
    ensures AdaptationAfter(n, m, lessons).adapted <==> exists k | 0 <= k < |lessons| :: Tips(n, m, lessons, k)
  {
    hide Rate;
    hide Echoes;
    if lessons != [] {
      var last := |lessons| - 1;
      var init := lessons[..last];
      AdaptedIff(n, m, init);
      UntilAdapted(n, m, init);
      assert forall k | 0 <= k < last :: init[..k] == lessons[..k] && init[k] == lessons[k];
      if AdaptationAfter(n, m, init).adapted {
        var k :| 0 <= k < |init| && Tips(n, m, init, k);
        assert Tips(n, m, lessons, k);
      }
      if k :| 0 <= k < |lessons| && Tips(n, m, lessons, k) {
        if k < last {
          assert Tips(n, m, init, k);
        }
      }
      assert AdaptationAfter(n, m, lessons).adapted ==> AdaptationAfter(n, m, init).adapted || Tips(n, m, lessons, last);
    }
  }

  lemma {:induction false} TaughtBounds(n: nat, lessons: seq<Lesson>)
    ensures 0.0 <= Taught(n, lessons) <= 0.25 * |lessons| as real
    ensures (forall i | 0 <= i < |lessons| :: Loud(n, lessons[i]) && lessons[i].sxx >= lessons[i].see) ==>
              Taught(n, lessons) == 0.25 * |lessons| as real
    ensures (forall i | 0 <= i < |lessons| :: !Loud(n, lessons[i])) ==> Taught(n, lessons) == 0.0
  {
    if lessons != [] {
      var init, last := lessons[..|lessons| - 1], lessons[|lessons| - 1];
      TaughtBounds(n, init);
      RateIs(n, last);
      hide Rate;
      hide Loud;
    }
  }

  /** It takes more than four frames for each spectrum. */
  lemma NotSooner(n: nat, m: nat, lessons: seq<Lesson>)
    requires AdaptationAfter(n, m, lessons).adapted
    ensures |lessons| > 4 * m + 1
  {
    AdaptedIff(n, m, lessons);
    var k :| 0 <= k < |lessons| && Tips(n, m, lessons, k);
    TaughtBounds(n, lessons[..k]);
  }

  /** And no more, when they are loud and the error is not louder: the next frame with echo in it sets adapted. */
  lemma LoudFramesAdapt(n: nat, m: nat, lessons: seq<Lesson>, last: Lesson)
    requires |lessons| > 4 * m && Echoes(last)
    requires forall i | 0 <= i < |lessons| :: Loud(n, lessons[i]) && lessons[i].sxx >= lessons[i].see
    ensures AdaptationAfter(n, m, lessons + [last]).adapted
  {
    var all := lessons + [last];
    assert all[..|lessons|] == lessons;
    TaughtBounds(n, lessons);
    AdaptedIff(n, m, all);
    assert Tips(n, m, all, |lessons|);
  }

  /** Silence never does. */
  lemma QuietNeverAdapts(n: nat, m: nat, lessons: seq<Lesson>)
    requires forall i | 0 <= i < |lessons| :: !Loud(n, lessons[i])
    ensures !AdaptationAfter(n, m, lessons).adapted
  {
    AdaptedIff(n, m, lessons);
    forall k | 0 <= k < |lessons| ensures !Tips(n, m, lessons, k) {
      TaughtBounds(n, lessons[..k]);
    }
  }

  // ----- the share of the error that is echo -----

  /** The residual echo to error ratio: what the leak and the far end suggest, no less than the correlation shows, and
      no more than a half. */
  function Residual(l: Lesson): real
    requires l.syy >= 0.0
  {
    var rer := if Suggested(l) < Shown(l) then Shown(l) else Suggested(l);
    if rer > 0.5 then 0.5 else rer
  }

  function Suggested(l: Lesson): real {
    (0.0001 * l.sxx + 3.0 * l.leak * l.syy) / l.see
  }

  function Shown(l: Lesson): real
    requires l.syy >= 0.0
  {
    TimesGrows(0.0, l.see, l.syy);
    l.sey * l.sey / (1.0 + l.see * l.syy)
  }

  lemma QuotientTimes(a: real, d: real)
    requires d > 0.0
    ensures Times(a / d, d) == a
  {
  }

  lemma AtMost(a: real, b: real, c: real)
    requires c > 0.0
    ensures Times(a, c) <= Times(b, c) <==> a <= b
  {
    if b < a {
      TimesLess(b, a, c);
    } else {
      TimesGrows(a, b, c);
    }
  }

  lemma QuotientAtMost(a: real, d: real, c: real)
    requires d > 0.0
    ensures a / d <= c <==> a <= c * d
    ensures a / d >= c <==> a >= c * d
  {
    QuotientTimes(a, d);
    TimesIs(c, d);
    hide Times;
    AtMost(a / d, c, d);
    AtMost(c, a / d, d);
  }

  /** Below a half it is at most c exactly when both ratios are. */
  lemma ResidualAtMost(l: Lesson, c: real)
    requires l.syy >= 0.0 && c < 0.5
    ensures Residual(l) <= c <==>
            0.0001 * l.sxx + 3.0 * l.leak * l.syy <= c * l.see && l.sey * l.sey <= c * (1.0 + l.see * l.syy)
  {
    SuggestedAtMost(l, c);
    ShownAtMost(l, c);
    hide Suggested;
    hide Shown;
  }

  lemma SuggestedAtMost(l: Lesson, c: real)
    ensures Suggested(l) <= c <==> 0.0001 * l.sxx + 3.0 * l.leak * l.syy <= c * l.see
  {
    QuotientAtMost(0.0001 * l.sxx + 3.0 * l.leak * l.syy, l.see, c);
  }

  lemma ShownAtMost(l: Lesson, c: real)
    requires l.syy >= 0.0
    ensures Shown(l) <= c <==> l.sey * l.sey <= c * (1.0 + l.see * l.syy)
  {
    TimesGrows(0.0, l.see, l.syy);
    QuotientAtMost(l.sey * l.sey, 1.0 + l.see * l.syy, c);
  }

  lemma ResidualBounds(l: Lesson)
    requires l.sxx >= 0.0 && l.syy >= 0.0 && l.leak >= 0.0
    ensures 0.0 <= Residual(l) <= 0.5
  {
    TimesGrows(0.0, l.leak, l.syy);
    QuotientAtMost(0.0001 * l.sxx + 3.0 * l.leak * l.syy, l.see, 0.0);
    assert Suggested(l) >= 0.0;
    hide Suggested;
    hide Shown;
  }

  /** The gain of a bin of an adapted filter, cleared of its divisions: the error's power and the smoothed power of the
      far end times it are the echo expected in the bin, at most half of the error, mixed with the share expected
      overall. */
  lemma AdaptedGainIs(leak: real, rer: real, e: real, yf: real, power: real)
    requires e > 0.0 && power >= 0.0
    ensures AdaptedGain(leak, rer, e, yf, power) * (e * (power + 10.0))
         == 0.7 * (if leak * yf > 0.5 * e then 0.5 * e else leak * yf) + 0.3 * (rer * e)
  {
    ProductIsPositive(e, power + 10.0);
    QuotientTimes(Mixed(Expected(leak, yf, e), rer, e), e * (power + 10.0));
    TimesIs(AdaptedGain(leak, rer, e, yf, power), e * (power + 10.0));
    hide Times;
  }

  // ----- the leak -----

  datatype Leakage = Leakage(pey: real, pyy: real)

  /** How fast the leak follows: by the echo's part in the error, up to a bound. */
  function Speed(frameSize: nat, rate: nat, syy: real, see: real): real
    requires rate >= 1 && see > 0.0
  {
    LesserPart(2.0 * frameSize as real / rate as real, 0.5 * frameSize as real / rate as real, syy, see)
  }

  /** a of b, but no more than c of d, as a part of d. */
  function LesserPart(a: real, c: real, b: real, d: real): real
    requires d > 0.0
  {
    (if a * b > c * d then c * d else a * b) / d
  }

  /** The averages after a frame in which the error's spectrum changed by ey for each py that the echo's did. */
  function NextLeakage(p: Leakage, alpha: real, ey: real, py: real): Leakage {
    var pyy := Smoothed(p.pyy, py, alpha);
    var pyy := if pyy < 1.0 then 1.0 else pyy;
    var pey := Smoothed(p.pey, ey, alpha);
    var pey := if pey < MIN_LEAK * pyy then MIN_LEAK * pyy else pey;
    Leakage(if pey > pyy then pyy else pey, pyy)
  }

  predicate GoodLeakage(p: Leakage) {
    p.pyy >= 1.0 && MIN_LEAK * p.pyy <= p.pey <= p.pyy
  }

  function LeakOf(p: Leakage): real
    requires p.pyy > 0.0
  {
    p.pey / p.pyy
  }

  lemma NextIsGood(p: Leakage, alpha: real, ey: real, py: real)
    ensures GoodLeakage(NextLeakage(p, alpha, ey, py))
  {
  }

  lemma LeakBounds(p: Leakage)
    requires GoodLeakage(p)
    ensures MIN_LEAK <= LeakOf(p) <= 1.0
  {
    QuotientAtMost(p.pey, p.pyy, 1.0);
    QuotientAtMost(p.pey, p.pyy, MIN_LEAK);
  }

  /** A frame of up to two seconds moves the leak by a part. */
  lemma SpeedBounds(frameSize: nat, rate: nat, syy: real, see: real)
    requires rate >= 1 && see > 0.0 && syy >= 0.0
    ensures Speed(frameSize, rate, syy, see) >= 0.0
    ensures frameSize <= 2 * rate ==> Speed(frameSize, rate, syy, see) <= 1.0
  {
    QuotientAtMost(2.0 * frameSize as real, rate as real, 0.0);
    QuotientAtMost(0.5 * frameSize as real, rate as real, 0.0);
    QuotientAtMost(0.5 * frameSize as real, rate as real, 1.0);
    LesserPartBounds(2.0 * frameSize as real / rate as real, 0.5 * frameSize as real / rate as real, syy, see);
    hide LesserPart;
  }

  lemma LesserPartBounds(a: real, c: real, b: real, d: real)
    requires a >= 0.0 && b >= 0.0 && c >= 0.0 && d > 0.0
    ensures 0.0 <= LesserPart(a, c, b, d) <= c
  {
    TimesGrows(0.0, a, b);
    TimesGrows(0.0, c, d);
    var taken := if a * b > c * d then c * d else a * b;
    QuotientAtMost(taken, d, 0.0);
    QuotientAtMost(taken, d, c);
  }

  /** The speed, cleared of its divisions: twice the echo's energy, but no more than half of the error's, for as much
      of a second as a frame takes. */
  lemma SpeedIs(frameSize: nat, rate: nat, syy: real, see: real)
    requires rate >= 1 && see > 0.0 && syy >= 0.0
    ensures Times(Times(Speed(frameSize, rate, syy, see), see), rate as real)
         == Times(frameSize as real, if 2.0 * syy > 0.5 * see then 0.5 * see else 2.0 * syy)
  {
    var f, r := frameSize as real, rate as real;
    var a, c := 2.0 * f / r, 0.5 * f / r;
    PartOfSecond(2.0, f, r, syy);
    PartOfSecond(0.5, f, r, see);
    hide Speed;
    hide LesserPart;
    SpeedTaken(frameSize, rate, syy, see);
    hide Times;
    if frameSize == 0 {
      NoFrame(syy, see);
      NoTimes(f, if 2.0 * syy > 0.5 * see then 0.5 * see else 2.0 * syy);
    } else {
      AtMost(Times(a, syy), Times(c, see), r);
      Scaled(f, 2.0 * syy, 0.5 * see);
    }
  }

  /** What the lesser part is of. */
  lemma SpeedTaken(frameSize: nat, rate: nat, syy: real, see: real)
    requires rate >= 1 && see > 0.0
    ensures var a, c := 2.0 * frameSize as real / rate as real, 0.5 * frameSize as real / rate as real;
            Times(Speed(frameSize, rate, syy, see), see) == if Times(a, syy) > Times(c, see) then Times(c, see) else Times(a, syy)
  {
    var a, c := 2.0 * frameSize as real / rate as real, 0.5 * frameSize as real / rate as real;
    TimesIs(a, syy);
    TimesIs(c, see);
    QuotientTimes(if a * syy > c * see then c * see else a * syy, see);
    hide Times;
  }

  lemma PartOfSecond(k: real, f: real, r: real, x: real)
    requires r > 0.0
    ensures Times(Times(k * f / r, x), r) == Times(f, k * x)
  {
    QuotientTimes(k * f, r);
    assert k * f / r * x * r == k * f / r * r * x;
  }

  lemma Scaled(f: real, x: real, y: real)
    requires f > 0.0
    ensures Times(f, x) <= Times(f, y) <==> x <= y
  {
    AtMost(x, y, f);
    TimesSwapped(f, x);
    TimesSwapped(f, y);
    hide Times;
  }

  lemma NoFrame(syy: real, see: real)
    ensures Times(Times(0.0, syy), 0.0) == 0.0 && Times(Times(0.0, see), 0.0) == 0.0
  {
  }

  /** c lies between a and b. */
  predicate Between(a: real, c: real, b: real) {
    (a <= c <= b) || (b <= c <= a)
  }

  function Limited(r: real): real {
    if r < MIN_LEAK then MIN_LEAK else if r > 1.0 then 1.0 else r
  }

  lemma SmoothedGrows(a: real, b: real, c: real, d: real, alpha: real)
    requires a <= c && b <= d && 0.0 <= alpha <= 1.0
    ensures Smoothed(a, b, alpha) <= Smoothed(c, d, alpha)
  {
    hide *;
    SmoothedParts(a, b, alpha);
    SmoothedParts(c, d, alpha);
    PartGrows(a, c, 1.0 - alpha);
    PartGrows(b, d, alpha);
  }

  lemma PartGrows(a: real, b: real, c: real)
    requires a <= b && c >= 0.0
    ensures Times(a, c) <= Times(b, c)
  {
    TimesGrows(a, b, c);
  }

  lemma SmoothedParts(a: real, b: real, alpha: real)
    ensures Smoothed(a, b, alpha) == Times(a, 1.0 - alpha) + Times(b, alpha)
  {
  }

  lemma SmoothedAtLeastOne(a: real, b: real, alpha: real)
    requires a >= 1.0 && b >= 1.0 && 0.0 <= alpha <= 1.0
    ensures Smoothed(a, b, alpha) >= 1.0
  {
    SmoothedOnes(alpha);
    SmoothedGrows(1.0, 1.0, a, b, alpha);
    hide Smoothed;
  }

  lemma SmoothedOnes(alpha: real)
    ensures Smoothed(1.0, 1.0, alpha) == 1.0
  {
  }

  lemma SmoothedTimes(c: real, a: real, b: real, alpha: real)
    ensures Smoothed(Times(c, a), Times(c, b), alpha) == Times(c, Smoothed(a, b, alpha))
  {
  }

  /** A weighted sum is at most, or at least, c times another when its terms are. */
  lemma SmoothedAgainst(p: real, a: real, q: real, b: real, alpha: real, c: real)
    requires 0.0 <= alpha <= 1.0
    ensures p <= Times(c, a) && q <= Times(c, b) ==> Smoothed(p, q, alpha) <= Times(c, Smoothed(a, b, alpha))
    ensures p >= Times(c, a) && q >= Times(c, b) ==> Smoothed(p, q, alpha) >= Times(c, Smoothed(a, b, alpha))
  {
    hide *;
    SmoothedTimes(c, a, b, alpha);
    if p <= Times(c, a) && q <= Times(c, b) {
      SmoothedGrows(p, q, Times(c, a), Times(c, b), alpha);
    }
    if p >= Times(c, a) && q >= Times(c, b) {
      SmoothedGrows(Times(c, a), Times(c, b), p, q, alpha);
    }
  }

  /** The leak moves from where it was towards the ratio a frame shows, and not past it, both kept to [0.005, 1]. */
  lemma LeakFollows(p: Leakage, alpha: real, ey: real, py: real)
    requires GoodLeakage(p) && py >= 1.0 && 0.0 <= alpha <= 1.0
    ensures var next := NextLeakage(p, alpha, ey, py);
            next.pyy >= 1.0 && Between(LeakOf(p), LeakOf(next), Limited(ey / py))
  {
    var pyy, pey, ratio := Smoothed(p.pyy, py, alpha), Smoothed(p.pey, ey, alpha), ey / py;
    SmoothedAtLeastOne(p.pyy, py, alpha);
    LeakBounds(p);
    LowerFollows(p, alpha, ey, py, pyy, pey);
    UpperFollows(p, alpha, ey, py, pyy, pey);
    LimitedRatio(pey, pyy, NextLeakage(p, alpha, ey, py));
    hide LeakOf;
    hide Smoothed;
  }

  /** Both averages move by that part of the way, as long as the frame shows a ratio the leak may have. */
  lemma AveragesMove(p: Leakage, alpha: real, ey: real, py: real)
    requires GoodLeakage(p) && py >= 1.0 && MIN_LEAK * py <= ey <= py && 0.0 <= alpha <= 1.0
    ensures var next := NextLeakage(p, alpha, ey, py);
            next.pyy == p.pyy + alpha * (py - p.pyy) && next.pey == p.pey + alpha * (ey - p.pey)
  {
    SmoothedAtLeastOne(p.pyy, py, alpha);
    SmoothedGrows(p.pey, ey, p.pyy, py, alpha);
    SmoothedGrows(MIN_LEAK * p.pyy, MIN_LEAK * py, p.pey, ey, alpha);
    SmoothedLeast(p.pyy, py, alpha);
    SmoothedMoves(p.pyy, py, alpha);
    SmoothedMoves(p.pey, ey, alpha);
    hide Smoothed;
  }

  lemma SmoothedLeast(a: real, b: real, alpha: real)
    ensures Smoothed(MIN_LEAK * a, MIN_LEAK * b, alpha) == MIN_LEAK * Smoothed(a, b, alpha)
  {
  }

  lemma SmoothedMoves(a: real, b: real, alpha: real)
    ensures Smoothed(a, b, alpha) == a + alpha * (b - a)
  {
  }

  lemma LimitedRatio(pey: real, pyy: real, next: Leakage)
    requires pyy >= 1.0
    requires var low := if pey < MIN_LEAK * pyy then MIN_LEAK * pyy else pey;
             next == Leakage(if low > pyy then pyy else low, pyy)
    ensures LeakOf(next) == Limited(pey / pyy)
  {
    QuotientAtMost(pey, pyy, 1.0);
    QuotientAtMost(pey, pyy, MIN_LEAK);
    assert MIN_LEAK * pyy / pyy == MIN_LEAK && pyy / pyy == 1.0;
  }

  lemma QuotientOver(a: real, d: real, c: real)
    requires d > 0.0
    ensures a / d <= c <==> a <= Times(c, d)
    ensures a / d >= c <==> a >= Times(c, d)
  {
    QuotientAtMost(a, d, c);
    TimesIs(c, d);
  }

  lemma LowerFollows(p: Leakage, alpha: real, ey: real, py: real, pyy: real, pey: real)
    requires GoodLeakage(p) && py >= 1.0 && 0.0 <= alpha <= 1.0
    requires pyy == Smoothed(p.pyy, py, alpha) >= 1.0 && pey == Smoothed(p.pey, ey, alpha)
    ensures LeakOf(p) <= ey / py ==> LeakOf(p) <= pey / pyy <= ey / py
  {
    var q, r := LeakOf(p), ey / py;
    if q <= r {
      QuotientOver(p.pey, p.pyy, q);
      QuotientOver(p.pey, p.pyy, r);
      QuotientOver(ey, py, q);
      QuotientOver(ey, py, r);
      QuotientOver(pey, pyy, q);
      QuotientOver(pey, pyy, r);
      hide Times;
      hide Smoothed;
      SmoothedAgainst(p.pey, p.pyy, ey, py, alpha, q);
      SmoothedAgainst(p.pey, p.pyy, ey, py, alpha, r);
    }
  }

  lemma UpperFollows(p: Leakage, alpha: real, ey: real, py: real, pyy: real, pey: real)
    requires GoodLeakage(p) && py >= 1.0 && 0.0 <= alpha <= 1.0
    requires pyy == Smoothed(p.pyy, py, alpha) >= 1.0 && pey == Smoothed(p.pey, ey, alpha)
    ensures LeakOf(p) >= ey / py ==> LeakOf(p) >= pey / pyy >= ey / py
  {
    var q, r := LeakOf(p), ey / py;
    if q >= r {
      QuotientOver(p.pey, p.pyy, q);
      QuotientOver(p.pey, p.pyy, r);
      QuotientOver(ey, py, q);
      QuotientOver(ey, py, r);
      QuotientOver(pey, pyy, q);
      QuotientOver(pey, pyy, r);
      hide Times;
      hide Smoothed;
      SmoothedAgainst(p.pey, p.pyy, ey, py, alpha, q);
      SmoothedAgainst(p.pey, p.pyy, ey, py, alpha, r);
    }
  }
}
