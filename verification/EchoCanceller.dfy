/** The echo canceller's state from call to call: its queue, its gains, and when it starts over. */
module EchoCanceller {
  import opened Spectra
  import opened EchoGains
  import opened EchoAdaptation
  import opened EchoQueue
  import Pcm

  /** So many bad frames in a row start the canceller over. */
  const TOO_MANY: nat := 50

  /** What a frame is found to be: its energies are out of bounds, or the error is larger than the near end
      allows, or neither; a canceller started over has judged none. */
  datatype Verdict = Good | Bad | Broken | StartedOver

  function VerdictOf(windowSize: nat, sff: real, see: real, syy: real, sxx: real, sdd: real): Verdict {
    var most := windowSize as real * 1000000000.0;
    if syy < 0.0 || sxx < 0.0 || see < 0.0 || sff >= most || syy >= most || sxx >= most then Broken
    else if sff > sdd + windowSize as real * 10000.0 then Bad
    else Good
  }

  /** A frame is broken when an energy is negative or the far end, the echo or what the first filter leaves has a
      thousand million for each sample of the window; otherwise it is bad when the filter leaves more than the
      microphone took in, by ten thousand for each. */
  lemma VerdictIs(windowSize: nat, sff: real, see: real, syy: real, sxx: real, sdd: real)
    ensures var v, n := VerdictOf(windowSize, sff, see, syy, sxx, sdd), windowSize as real;
            && (v != Broken <==> 0.0 <= syy < 1000000000.0 * n && 0.0 <= sxx < 1000000000.0 * n && 0.0 <= see && sff < 1000000000.0 * n)
            && (v == Bad ==> sff - sdd > 10000.0 * n) && (v == Good ==> sff - sdd <= 10000.0 * n)
  {
  }

  /** How many bad frames there are at the end. */
  function BadInARow(verdicts: seq<Verdict>): (k: nat)
    ensures k <= |verdicts|
    ensures forall i | |verdicts| - k <= i < |verdicts| :: verdicts[i] == Bad
    ensures k < |verdicts| ==> verdicts[|verdicts| - k - 1] != Bad
  {
    if verdicts == [] || verdicts[|verdicts| - 1] != Bad then 0 else 1 + BadInARow(verdicts[..|verdicts| - 1])
  }

  function Counted(screwedUp: nat, v: Verdict): nat {
    match v
    case Broken => screwedUp + TOO_MANY
    case Bad => screwedUp + 1
    case Good | StartedOver => 0
  }

  lemma OneMoreVerdict(verdicts: seq<Verdict>, v: Verdict)
    ensures BadInARow(verdicts + [v]) == if v == Bad then BadInARow(verdicts) + 1 else 0
  {
    assert (verdicts + [v])[..|verdicts|] == verdicts;
  }

  /** A signal the model says nothing of fills the array. */
  method Signal(a: array<real>)
    modifies a
  {
    var signal: int -> real := *;
    forall i | 0 <= i < a.Length {
      a[i] := signal(i);
    }
  }

  method SignalAt(a: array<real>, o: nat, n: nat)
    requires o + n <= a.Length
    modifies a
    ensures a[..o] == old(a[..o]) && a[o + n..] == old(a[o + n..])
  {
    var signal: int -> real := *;
    forall i | o <= i < o + n {
      a[i] := signal(i);
    }
  }

  lemma SamePart(p: seq<real>, q: seq<real>, a: seq<real>, b: seq<real>, from: nat, u: nat, n: nat)
    requires p == q && from <= u && from + |p| <= |a| == |b| && u + n <= from + |p|
    requires p == a[from..from + |p|] && q == b[from..from + |p|]
    ensures b[u..u + n] == a[u..u + n]
  {
    var c, d := a[u..u + n], b[u..u + n];
    forall i | 0 <= i < n ensures d[i] == c[i] {
      assert p[u - from + i] == a[u + i] && q[u - from + i] == b[u + i];
    }
  }

  method Fill(a: array<real>, v: real)
    modifies a
    ensures forall i | 0 <= i < a.Length :: a[i] == v
  {
    forall i | 0 <= i < a.Length {
      a[i] := v;
    }
  }

  /** What the model knows of the signals of a frame: the errors of the two filters, the echo estimate,
      the far end and the near end. */
  datatype Signals = Signals(foreground: seq<real>, background: seq<real>, echo: seq<real>, far: seq<real>, near: seq<real>)

  method PassOn(rec: seq<Pcm.int16>, out: array<Pcm.int16>)
    requires |rec| == out.Length
    modifies out
    ensures out[..] == rec
  {
    forall i | 0 <= i < out.Length {
      out[i] := rec[i];
    }
  }

  predicate SignalsFit(s: Signals, n: nat) {
    |s.foreground| == |s.background| == |s.echo| == |s.far| == |s.near| == n
  }

  /** The energies of the errors of the two filters, of the echo estimate, the far end and the near end, and the
      correlation of the error with the echo estimate. */
  datatype Energies = Energies(sff: real, see: real, syy: real, sxx: real, sdd: real, sey: real)

  function EnergiesOf(s: Signals, n: nat): Energies
    requires SignalsFit(s, n)
  {
    Energies(Inner(s.foreground, s.foreground), Inner(s.background, s.background), Inner(s.echo, s.echo),
             Inner(s.far, s.far), Inner(s.near, s.near), Inner(s.background, s.echo))
  }

  method MeasureEnergies(s: Signals, n: nat) returns (en: Energies)
    requires SignalsFit(s, n)
    ensures en == EnergiesOf(s, n) && en.sxx >= 0.0 && en.syy >= 0.0
  {
    var sff := InnerProd(s.foreground, s.foreground);
    var see := InnerProd(s.background, s.background);
    var sey := InnerProd(s.background, s.echo);
    var syy := InnerProd(s.echo, s.echo);
    var sdd := InnerProd(s.near, s.near);
    var sxx := InnerProd(s.far, s.far);
    EnergyIsPositive(s.echo);
    EnergyIsPositive(s.far);
    en := Energies(sff, see, syy, sxx, sdd, sey);
  }

  method MeasureSignals(n: nat) returns (s: Signals)
    ensures SignalsFit(s, n)
  {
    var a: nat -> real, b: nat -> real, c: nat -> real, d: nat -> real, e: nat -> real := *, *, *, *, *;
    s := Signals(seq(n, a), seq(n, b), seq(n, c), seq(n, d), seq(n, e));
  }

  class Canceller {
    const frameSize: nat
    const windowSize: nat
    const m: nat
    const rate: nat
    const sqrt: real -> real

    const x: array<real>
    const y: array<real>
    const e: array<real>
    const phi: array<real>
    const w: array<real>
    const power: array<real>
    const power1: array<real>
    const rf: array<real>
    const yf: array<real>
    const xf: array<real>
    const eh: array<real>
    const yh: array<real>
    const prop: array<real>
    const playBuf: array<real>

    var adapted: bool
    var saturated: nat
    var screwedUp: nat
    var cancelCount: nat
    var sumAdapt: real
    var leak: real
    var pey: real
    var pyy: real
    var playBufPos: nat
    var playBufStarted: bool
    /** The far-end frames whose echo was to be removed, so far. */
    ghost var heard: seq<Frame>
    /** What the frames were found to be, so far. */
    ghost var verdicts: seq<Verdict>
    /** What the frames since the canceller last started over measured. */
    ghost var lessons: seq<Lesson>

    /** The sizes of the arrays, which are all different. */
    ghost predicate Shaped() {
      && frameSize >= 1 && windowSize == 2 * frameSize && m >= 2 && rate >= 1 && IsSqrt(sqrt)
      && x.Length == (m + 1) * windowSize && y.Length == e.Length == phi.Length == windowSize && w.Length == m * windowSize
      && power.Length == power1.Length == rf.Length == yf.Length == xf.Length == eh.Length == yh.Length == frameSize + 1
      && prop.Length == m && playBuf.Length == 3 * frameSize
      && playBuf !in {x, y, e, phi, w, power, power1, rf, yf, xf, eh, yh, prop}
      && prop !in {x, y, e, phi, w, power, power1, rf, yf, xf, eh, yh}
      && power !in {x, y, e, phi, w, power1, rf, yf, xf, eh, yh}
      && power1 !in {x, y, e, phi, w, rf, yf, xf, eh, yh}
      && rf !in {x, y, e, phi, w, yf, xf, eh, yh}
      && yf !in {x, y, e, phi, w, xf, eh, yh}
      && xf !in {x, y, e, phi, w, eh, yh}
      && eh !in {x, y, e, phi, w, yh} && yh !in {x, y, e, phi, w}
      && w !in {x, y, e, phi} && phi !in {x, y, e} && x !in {y, e} && y != e
    }

    ghost predicate Valid()
      reads this, power, power1, prop
    {
      && Shaped()
      && AllPositive(prop[..]) && Sum(prop[..]) <= 0.99
      && NoneNegative(power[..]) && NoneNegative(power1[..])
      && screwedUp == BadInARow(verdicts) < TOO_MANY
      && Learned() && GoodLeakage(Leakage(pey, pyy))
      && WholeFrames(playBufPos, frameSize)
    }

    /** Whether the filter has adapted, and how far it is until then, is what the frames make it. */
    ghost predicate Learned()
      reads `adapted, `sumAdapt, `lessons
    {
      Adaptation(adapted, sumAdapt) == AdaptationAfter(windowSize, m, lessons)
    }

    /** The gains are those the frame l gives: before the filter has adapted one rate for all bins, and then each by
        the echo expected there. */
    ghost predicate GainsFrom(l: Lesson)
      reads this, power, power1, rf, yf
    {
      && power1.Length == power.Length == rf.Length == yf.Length
      && l.leak == leak && l.syy >= 0.0
      && forall j | 0 <= j < power1.Length ::
           && power[j] >= 1.0 && rf[j] >= 0.0
           && power1[j] == if adapted then AdaptedGain(leak, Residual(l), rf[j] + 1.0, yf[j], power[j])
                           else Rate(windowSize, l) / (power[j] + 10.0)
    }

    /** The queue the buffer holds. */
    ghost function Held(): Queue
      requires playBuf.Length == 3 * frameSize && playBufPos <= 3 * frameSize
      reads this, playBuf
    {
      Queue(FramesIn(playBuf[..], playBufPos, frameSize), playBufStarted)
    }

    function Silence(): Frame {
      seq(frameSize, _ => 0.0)
    }

    /** A canceller for frames of frameSize samples and an echo of filterLength samples. */
    constructor (frameSize: nat, filterLength: nat, rate: nat, decay: real, sqrt: real -> real)
      requires frameSize >= 1 && rate >= 1 && decay > 0.0 && IsSqrt(sqrt)
      ensures Valid() && Held() == Initial(Silence())
      ensures this.frameSize == frameSize && heard == []
    {
      var n, m := 2 * frameSize, (filterLength + frameSize - 1) / frameSize;
      if m < 2 {
        m := 2;
      }
      this.frameSize, this.windowSize, this.m, this.rate, this.sqrt := frameSize, n, m, rate, sqrt;
      x, y, e, phi, w := new real[(m + 1) * n], new real[n], new real[n], new real[n], new real[m * n];
      power, power1 := new real[frameSize + 1], new real[frameSize + 1];
      rf, yf, xf := new real[frameSize + 1], new real[frameSize + 1], new real[frameSize + 1];
      eh, yh, prop := new real[frameSize + 1], new real[frameSize + 1], new real[m];
      playBuf := new real[(PLAYBACK_DELAY + 1) * frameSize];
      leak, cancelCount, heard, verdicts, lessons := 0.0, 0, [], [], [];
      new;
      assert Shaped();
      hide *;
      Begin(decay);
    }

    /** The first weights, and then as after starting over. */
    method Begin(decay: real)
      requires Shaped() && decay > 0.0
      modifies `screwedUp, `verdicts, `lessons, `saturated, `adapted, `sumAdapt, `pey, `pyy, `playBufPos, `playBufStarted
      modifies x, e, w, power, power1, eh, yh, playBuf, prop
      ensures Valid() && Held() == Initial(Silence()) && heard == old(heard)
    {
      hide Valid;
      hide Held;
      hide Initial;
      hide AllPositive;
      hide Sum;
      InitialProp(prop, decay);
      Reset();
    }

    // ----- the queue -----

    /** Queues a frame that has just been played. */
    method Playback(play: seq<Pcm.int16>)
      requires Valid() && |play| == frameSize
      modifies `playBufPos, playBuf
      ensures Valid() && Held() == Played(old(Held()), AsReals(play))
    {
      if !playBufStarted {
        return;
      }
      if playBufPos <= PLAYBACK_DELAY * frameSize {
        Store(play);
        if playBufPos <= (PLAYBACK_DELAY - 1) * frameSize {
          Store(play);
        }
      }
    }

    /** Puts a frame after those queued. */
    method Store(play: seq<Pcm.int16>)
      requires Shaped() && WholeFrames(playBufPos, frameSize) && playBufPos <= PLAYBACK_DELAY * frameSize && |play| == frameSize
      modifies `playBufPos, playBuf
      ensures playBufPos == old(playBufPos) + frameSize && WholeFrames(playBufPos, frameSize)
      ensures Held().frames == old(Held()).frames + [AsReals(play)]
    {
      ghost var before := playBuf[..];
      for i := 0 to frameSize
        modifies playBuf
        invariant forall t | 0 <= t < i :: playBuf[playBufPos + t] == AsReals(play)[t]
        invariant forall t | 0 <= t < playBufPos :: playBuf[t] == before[t]
      {
        playBuf[playBufPos + i] := play[i] as real;
      }
      StoredAfter(before, playBuf[..], playBufPos, frameSize, AsReals(play));
      playBufPos := playBufPos + frameSize;
    }

    /** Removes the echo of the oldest frame queued from a microphone frame; with none queued the frame goes
        out as it is. */
    method Capture(rec: seq<Pcm.int16>, out: array<Pcm.int16>) returns (reset: bool)
      requires Valid() && |rec| == frameSize && out.Length == frameSize
      modifies this, x, y, e, phi, w, power, power1, rf, yf, xf, eh, yh, prop, playBuf, out
      ensures Valid() && Held() == Captured(old(Held()), Silence(), reset)
      ensures heard == old(heard) + if old(Held()).frames == [] then [] else [old(Held()).frames[0]]
      ensures old(Held()).frames == [] ==> !reset && out[..] == rec
      ensures old(Held()).frames != [] && !reset ==> Bounded()
    {
      assert playBuf.Length == 3 * frameSize;
      hide Shaped;
      hide AllPositive;
      hide Sum;
      hide NoneNegative;
      playBufStarted := true;
      reset := false;
      if playBufPos >= frameSize {
        ghost var verdict, lesson;
        reset, verdict, lesson := Cancel(rec, playBuf[..frameSize], out);
        DropOldest();
      } else {
        playBufPos := 0;
        PassOn(rec, out);
      }
    }

    /** Moves the frames queued up by one. */
    method DropOldest()
      requires Valid() && playBufPos >= frameSize
      modifies `playBufPos, playBuf
      ensures Valid() && Held() == old(Queue(Held().frames[1..], playBufStarted))
      ensures old(Bounded()) ==> Bounded()
    {
      ghost var before, props := playBuf[..], prop[..];
      playBufPos := playBufPos - frameSize;
      forall i | 0 <= i < playBufPos {
        playBuf[i] := playBuf[frameSize + i];
      }
      OneTaken(before, playBuf[..], playBufPos, frameSize);
      assert prop[..] == props;
    }

    /** What holds after a frame that did not start the canceller over. */
    ghost predicate Bounded()
      reads this, power, power1
    {
      && MIN_LEAK <= leak <= 1.0
      && (forall j | 0 <= j < power.Length :: power[j] >= 1.0)
      && (forall j | 0 <= j < power1.Length :: 0.0 <= power1[j] <= LARGEST_GAIN)
    }

    /** Starts over; no frame is queued until one has been captured, and two of silence are there. */
    method Reset()
      requires Shaped() && AllPositive(prop[..]) && Sum(prop[..]) <= 0.99
      modifies `screwedUp, `verdicts, `lessons, `saturated, `adapted, `sumAdapt, `pey, `pyy, `playBufPos, `playBufStarted
      modifies x, e, w, power, power1, eh, yh, playBuf
      ensures Valid() && Held() == Initial(Silence()) && !adapted && screwedUp == 0
      ensures playBufPos == 2 * frameSize && verdicts == old(verdicts) + [StartedOver] && heard == old(heard)
      ensures lessons == []
    {
      hide AllPositive;
      hide Sum;
      hide NoneNegative;
      hide BadInARow;
      hide FramesIn;
      hide Learned;
      hide GoodLeakage;
      ghost var props := prop[..];
      ClearFilter();
      QueueSilence();
      StartCounting();
      assert prop[..] == props;
    }

    /** Two frames of silence wait, and none is queued. */
    method QueueSilence()
      requires Shaped()
      modifies `playBufPos, `playBufStarted, playBuf
      ensures playBuf.Length == 3 * frameSize && playBufPos == 2 * frameSize && WholeFrames(playBufPos, frameSize)
      ensures Held() == Initial(Silence())
    {
      Fill(playBuf, 0.0);
      playBufPos := PLAYBACK_DELAY * frameSize;
      playBufStarted := false;
      SilenceQueued(playBuf[..], frameSize);
    }

    method StartCounting()
      modifies `screwedUp, `verdicts, `lessons, `saturated, `adapted, `sumAdapt, `pey, `pyy
      ensures screwedUp == 0 == BadInARow(verdicts) && verdicts == old(verdicts) + [StartedOver] && !adapted
      ensures lessons == [] && Learned() && GoodLeakage(Leakage(pey, pyy))
    {
      lessons := [];
      OneMoreVerdict(verdicts, StartedOver);
      verdicts := verdicts + [StartedOver];
      screwedUp := 0;
      saturated := 0;
      adapted := false;
      sumAdapt := 0.0;
      pey, pyy := 1.0, 1.0;
    }

    /** Clears the filter and the averages. */
    method ClearFilter()
      requires Shaped()
      modifies x, e, w, power, power1, eh, yh
      ensures NoneNegative(power[..]) && NoneNegative(power1[..])
    {
      Fill(w, 0.0);
      Fill(x, 0.0);
      Fill(power, 0.0);
      Fill(power1, 1.0);
      Fill(eh, 0.0);
      Fill(yh, 0.0);
      Fill(e, 0.0);
    }

    /** Removes the echo of farEnd from rec; starts over when it has gone wrong for too long. */
    method Cancel(rec: seq<Pcm.int16>, farEnd: seq<real>, out: array<Pcm.int16>)
      returns (reset: bool, ghost verdict: Verdict, ghost lesson: Lesson)
      requires Valid() && |rec| == frameSize && |farEnd| == frameSize && out.Length == frameSize
      modifies this, x, y, e, phi, w, power, power1, rf, yf, xf, eh, yh, prop, playBuf, out
      ensures Valid() && (reset || playBufPos == old(playBufPos))
      ensures if reset then Held() == Initial(Silence()) && playBufPos == 2 * frameSize else Held() == old(Held()) && Bounded()
      ensures verdicts == old(verdicts) + [verdict] + if reset then [StartedOver] else []
      ensures reset <==> verdict == Broken || BadInARow(old(verdicts) + [verdict]) == TOO_MANY
      ensures if reset then lessons == [] else lessons == old(lessons) + [lesson] && GainsFrom(lesson)
      ensures heard == old(heard) + [farEnd]
    {
      hide AllPositive;
      hide Sum;
      hide NoneNegative;
      hide BadInARow;
      hide GainsFrom;
      hide Learned;
      hide GoodLeakage;
      heard := heard + [farEnd];
      cancelCount := cancelCount + 1;
      var s, en;
      s, en, verdict := Filter(rec, out);
      hide Shaped;
      hide WholeFrames;
      reset, lesson := Conclude(s.far, en.sxx, en.see, en.syy, en.sey);
    }

    /** Starts over after too many bad frames, and learns from a frame otherwise. */
    method Conclude(far: seq<real>, sxx: real, see: real, syy: real, sey: real) returns (reset: bool, ghost lesson: Lesson)
      requires Shaped() && AllPositive(prop[..]) && Sum(prop[..]) <= 0.99 && sxx >= 0.0 && syy >= 0.0
      requires NoneNegative(power[..]) && NoneNegative(rf[..]) && NoneNegative(yf[..])
      requires Learned() && GoodLeakage(Leakage(pey, pyy)) && WholeFrames(playBufPos, frameSize)
      requires screwedUp < TOO_MANY ==> screwedUp == BadInARow(verdicts)
      modifies `screwedUp, `verdicts, `lessons, `saturated, `adapted, `sumAdapt, `leak, `pey, `pyy, `playBufPos, `playBufStarted
      modifies x, e, w, power, power1, xf, eh, yh, playBuf
      ensures Valid() && (reset <==> old(screwedUp) >= TOO_MANY) && (reset || playBufPos == old(playBufPos))
      ensures if reset then Held() == Initial(Silence()) && playBufPos == 2 * frameSize else Held() == old(Held()) && Bounded()
      ensures verdicts == old(verdicts) + if reset then [StartedOver] else []
      ensures if reset then lessons == [] else lessons == old(lessons) + [lesson] && GainsFrom(lesson)
      ensures heard == old(heard)
    {
      hide AllPositive;
      hide Sum;
      hide NoneNegative;
      hide BadInARow;
      hide GainsFrom;
      hide Learned;
      hide GoodLeakage;
      hide WholeFrames;
      lesson := Measured(0.0, 1.0, 0.0, 0.0, leak);
      reset := screwedUp >= TOO_MANY;
      if reset {
        Reset();
      } else {
        ghost var props, buf := prop[..], playBuf[..];
        lesson := Learn(far, sxx, see, syy, sey);
        assert prop[..] == props && playBuf[..] == buf;
      }
    }

    /** Filters a frame: the output, the signals and their energies, and whether the frame is a bad one. */
    method Filter(rec: seq<Pcm.int16>, out: array<Pcm.int16>) returns (s: Signals, en: Energies, ghost verdict: Verdict)
      requires Shaped() && AllPositive(prop[..]) && Sum(prop[..]) <= 0.99 && |rec| == out.Length
      requires screwedUp == BadInARow(verdicts) < TOO_MANY
      modifies `saturated, `screwedUp, `verdicts, x, y, e, phi, w, rf, yf, prop, out
      ensures AllPositive(prop[..]) && Sum(prop[..]) <= 0.99 && NoneNegative(rf[..]) && NoneNegative(yf[..])
      ensures SignalsFit(s, frameSize) && en == EnergiesOf(s, frameSize) && en.sxx >= 0.0 && en.syy >= 0.0
      ensures verdict == VerdictOf(windowSize, en.sff, en.see, en.syy, en.sxx, en.sdd)
      ensures verdicts == old(verdicts) + [verdict]
      ensures screwedUp >= TOO_MANY <==> verdict == Broken || BadInARow(verdicts) == TOO_MANY
      ensures screwedUp < TOO_MANY ==> screwedUp == BadInARow(verdicts)
    {
      hide AllPositive;
      hide Sum;
      hide NoneNegative;
      hide BadInARow;
      hide EnergiesOf;
      hide Norm;
      hide Bin;
      hide VerdictOf;
      Signal(x);
      ghost var updated := Adapt();
      hide SharesOf;
      hide SameBlock;
      ghost var props := prop[..];
      s := MeasureSignals(frameSize);
      en := MeasureEnergies(s, frameSize);
      Output(rec, out);
      MeasureSpectra();
      ghost var rs, ys := rf[..], yf[..];
      verdict := Judge(en.sff, en.see, en.syy, en.sxx, en.sdd, out);
      OneMoreVerdict(verdicts, verdict);
      verdicts := verdicts + [verdict];
      assert prop[..] == props && rf[..] == rs && yf[..] == ys;
    }

    /** Estimates the leak from the signals, and the gains from the leak. */
    method Learn(far: seq<real>, sxx: real, see: real, syy: real, sey: real) returns (ghost lesson: Lesson)
      requires Shaped() && sxx >= 0.0 && syy >= 0.0 && Learned()
      requires NoneNegative(power[..]) && NoneNegative(rf[..]) && NoneNegative(yf[..])
      modifies `adapted, `sumAdapt, `leak, `pey, `pyy, `lessons, xf, power, power1, eh, yh
      ensures Bounded() && NoneNegative(power[..]) && NoneNegative(power1[..])
      ensures lesson.sxx == sxx + Inner(far, far) && lesson.syy == syy && lesson.sey == sey
      ensures lesson.see == if see < windowSize as real * 100.0 then windowSize as real * 100.0 else see
      ensures lessons == old(lessons) + [lesson] && Learned() && GoodLeakage(Leakage(pey, pyy)) && GainsFrom(lesson)
      ensures forall j | 0 <= j < power.Length :: power[j] == Smoothed(old(power[j]), xf[j], 0.35 / m as real) + 1.0
    {
      hide Norm;
      hide Bin;
      hide Inner;
      hide Smoothed;
      hide Learned;
      hide GoodLeakage;
      hide GainsFrom;
      var atLeast := if see < windowSize as real * 100.0 then windowSize as real * 100.0 else see;
      var more := InnerProd(far, far);
      EnergyIsPositive(far);
      FarSpectrum();
      var ss := 0.35 / m as real;
      QuotientBetween(0.35, m as real, 0.175);
      UpdatePower(power, xf, ss);
      UpdateLeak(syy, atLeast);
      lesson := UpdateGains(sxx + more, atLeast, syy, sey);
    }

    /** Moves the filter towards what removes the error of the last frame, and shortens it again; after
        clipping it waits for a frame. */
    method Adapt() returns (ghost updated: seq<real>)
      requires Shaped() && AllPositive(prop[..]) && Sum(prop[..]) <= 0.99
      modifies `saturated, prop, w, phi
      ensures AllPositive(prop[..]) && Sum(prop[..]) <= 0.99
      ensures saturated == if old(saturated) == 0 then 0 else old(saturated) - 1
      ensures if adapted then SharesOf(prop[..], old(w[..])) else prop[..] == old(prop[..])
      ensures |updated| == w.Length && windowSize <= x.Length
      ensures if old(saturated) == 0
              then UpdatedFrom(x[windowSize..], e[..], power1[..], prop[..], old(w[..]), updated, windowSize, m, 0)
              else updated == old(w[..])
      ensures forall j | 0 <= j < m && !Shortened(j) :: SameBlock(w[..], updated, j)
    {
      hide AllPositive;
      hide Sum;
      hide UpdatedFrom;
      hide SharesOf;
      StackedSpectra(x[..], windowSize, m);
      ghost var was := w[..];
      if adapted {
        AdjustProp(w, prop, windowSize, m, sqrt);
        assert SharesOf(prop[..], was) by {
          SharesAre(prop[..], was);
        }
      }
      ghost var props := prop[..];
      if saturated == 0 {
        UpdateFilter(x, e, power1, prop, w, phi, windowSize, m);
      } else {
        saturated := saturated - 1;
      }
      updated := w[..];
      Shorten();
      assert prop[..] == props;
    }

    /** The weights are the shares of the spectra of the filter. */
    ghost predicate SharesOf(p: seq<real>, filter: seq<real>) {
      && |filter| == m * windowSize && |p| == m
      && var raised := Raised(Roots(sqrt, filter, windowSize, m));
      && 1.0 + Sum(raised) > 0.0 && forall i | 0 <= i < m :: p[i] == Part(0.99, raised[i], 1.0 + Sum(raised))
    }

    lemma SharesAre(p: seq<real>, filter: seq<real>)
      requires |filter| == m * windowSize && |p| == m
      requires var raised := Raised(Roots(sqrt, filter, windowSize, m));
               1.0 + Sum(raised) > 0.0 && forall i | 0 <= i < m :: p[i] == Part(0.99, raised[i], 1.0 + Sum(raised))
      ensures SharesOf(p, filter)
    {
    }

    /** Spectrum j of the filter is shortened to a frame: the first at every call, the others in turn. */
    predicate Shortened(j: nat)
      requires m >= 2
      reads `cancelCount
    {
      j == 0 || cancelCount % (m - 1) == j - 1
    }

    ghost predicate SameBlock(a: seq<real>, b: seq<real>, j: nat)
      requires j < m && |a| == |b| == m * windowSize
    {
      BlockFits(j, m, windowSize);
      a[j * windowSize..j * windowSize + windowSize] == b[j * windowSize..j * windowSize + windowSize]
    }

    /** Shortens those spectra; what that leaves in them is not modelled. */
    method Shorten()
      requires m >= 2 && w.Length == m * windowSize
      modifies w
      ensures forall j | 0 <= j < m && !Shortened(j) :: SameBlock(w[..], old(w[..]), j)
    {
      ghost var was := w[..];
      for j := 0 to m
        invariant forall t | 0 <= t < m && (t >= j || !Shortened(t)) :: SameBlock(w[..], was, t)
      {
        if j == 0 || cancelCount % (m - 1) == j - 1 {
          BlockFits(j, m, windowSize);
          ghost var before := w[..];
          SignalAt(w, j * windowSize, windowSize);
          forall t | 0 <= t < m && t != j && SameBlock(before, was, t) ensures SameBlock(w[..], was, t) {
            BlocksApart(before, w[..], j, t);
          }
          hide SameBlock;
        }
      }
    }

    lemma BlocksApart(a: seq<real>, b: seq<real>, j: nat, t: nat)
      requires j < m && t < m && j != t && |a| == |b| == m * windowSize && 0 <= j * windowSize <= j * windowSize + windowSize <= |a|
      requires a[..j * windowSize] == b[..j * windowSize] && a[j * windowSize + windowSize..] == b[j * windowSize + windowSize..]
      ensures SameBlock(b, a, t)
    {
      BlockFits(t, m, windowSize);
      var o, u := j * windowSize, t * windowSize;
      if t < j {
        BlockFits(t, j, windowSize);
        SamePart(a[..o], b[..o], a, b, 0, u, windowSize);
      } else {
        BlockFits(j, t, windowSize);
        SamePart(a[o + windowSize..], b[o + windowSize..], a, b, o + windowSize, u, windowSize);
      }
    }

    /** The output, from the signals; a clipped microphone frame stops adaptation for a frame. */
    method Output(rec: seq<Pcm.int16>, out: array<Pcm.int16>)
      requires |rec| == out.Length
      modifies `saturated, out
      ensures saturated == if old(saturated) == 0 && (exists i | 0 <= i < |rec| :: rec[i] <= -32000 || rec[i] >= 32000)
                           then 1 else old(saturated)
    {
      for i := 0 to |rec|
        invariant saturated == if old(saturated) == 0 && (exists t | 0 <= t < i :: rec[t] <= -32000 || rec[t] >= 32000)
                               then 1 else old(saturated)
      {
        if rec[i] <= -32000 || rec[i] >= 32000 {
          if saturated == 0 {
            saturated := 1;
          }
        }
        var sample: Pcm.int16 := *;
        out[i] := sample;
      }
    }

    /** The power spectra of the error and of the echo estimate. */
    method MeasureSpectra()
      requires Shaped()
      modifies e, y, rf, yf
      ensures NoneNegative(rf[..]) && NoneNegative(yf[..])
      ensures forall k | 0 <= k <= windowSize / 2 ::
                rf[k] == Norm(Bin(e[..], 0, windowSize, k)) && yf[k] == Norm(Bin(y[..], 0, windowSize, k))
    {
      hide Norm;
      Fill(rf, 0.0);
      Fill(yf, 0.0);
      Signal(e);
      Signal(y);
      PowerSpectrumAccum(e, rf, windowSize);
      PowerSpectrumAccum(y, yf, windowSize);
      NormsArePositive(e[..], windowSize);
      NormsArePositive(y[..], windowSize);
    }

    /** The power spectrum of the far end. */
    method FarSpectrum()
      requires Shaped()
      modifies xf
      ensures NoneNegative(xf[..])
      ensures windowSize <= x.Length && forall k | 0 <= k <= windowSize / 2 :: xf[k] == Norm(Bin(x[..], 0, windowSize, k))
    {
      hide Norm;
      Fill(xf, 0.0);
      StackedSpectra(x[..], windowSize, m);
      PowerSpectrumAccum(x, xf, windowSize);
      NormsArePositive(x[..], windowSize);
    }

    /** Counts bad frames in a row; a broken one counts as too many, and is silenced. */
    method Judge(sff: real, see: real, syy: real, sxx: real, sdd: real, out: array<Pcm.int16>) returns (ghost verdict: Verdict)
      modifies `screwedUp, out
      ensures verdict == VerdictOf(windowSize, sff, see, syy, sxx, sdd)
      ensures screwedUp == Counted(old(screwedUp), verdict)
      ensures if verdict == Broken then forall i | 0 <= i < out.Length :: out[i] == 0 else out[..] == old(out[..])
    {
      verdict := VerdictOf(windowSize, sff, see, syy, sxx, sdd);
      var most := windowSize as real * 1000000000.0;
      if !(syy >= 0.0 && sxx >= 0.0 && see >= 0.0) || !(sff < most && syy < most && sxx < most) {
        screwedUp := screwedUp + TOO_MANY;
        forall i | 0 <= i < out.Length {
          out[i] := 0;
        }
      } else if sff > sdd + windowSize as real * 10000.0 {
        screwedUp := screwedUp + 1;
      } else {
        screwedUp := 0;
      }
    }

    /** The leak: how much of the echo estimate is in the error, from how their spectra changed together. */
    method UpdateLeak(syy: real, see: real)
      requires Shaped() && see > 0.0
      modifies `leak, `pey, `pyy, eh, yh
      ensures MIN_LEAK <= leak <= 1.0 && GoodLeakage(Leakage(pey, pyy)) && leak == LeakOf(Leakage(pey, pyy))
      ensures var py := sqrt(1.0 + Changes(yf[..], old(yh[..]), yf[..], old(yh[..]), 0));
              var ey := 1.0 + Changes(rf[..], old(eh[..]), yf[..], old(yh[..]), 0);
              && py >= 1.0
              && Leakage(pey, pyy) == NextLeakage(old(Leakage(pey, pyy)), Speed(frameSize, rate, syy, see), ey / py, py)
      ensures forall j | 0 <= j < eh.Length :: eh[j] == Smoothed(old(eh[j]), rf[j], frameSize as real / rate as real)
      ensures forall j | 0 <= j < yh.Length :: yh[j] == Smoothed(old(yh[j]), yf[j], frameSize as real / rate as real)
    {
      var average := frameSize as real / rate as real;
      var py, ey := 0.0, 0.0;
      ey, py := Correlate(rf, yf, eh, yh, average);
      SqrtOfOneOrMore(sqrt, py);
      py := sqrt(py);
      ey := ey / py;
      MoveLeak(syy, see, ey, py);
    }

    /** Moves the leak towards the ratio of ey and py. */
    method MoveLeak(syy: real, see: real, ey: real, py: real)
      requires rate >= 1 && see > 0.0
      modifies `leak, `pey, `pyy
      ensures Leakage(pey, pyy) == NextLeakage(old(Leakage(pey, pyy)), Speed(frameSize, rate, syy, see), ey, py)
      ensures GoodLeakage(Leakage(pey, pyy)) && leak == LeakOf(Leakage(pey, pyy)) && MIN_LEAK <= leak <= 1.0
    {
      var alpha := SpeedOf(frameSize, rate, syy, see);
      pey := Average(pey, ey, alpha);
      pyy := Average(pyy, py, alpha);
      hide Smoothed;
      hide Speed;
      if pyy < 1.0 {
        pyy := 1.0;
      }
      if pey < MIN_LEAK * pyy {
        pey := MIN_LEAK * pyy;
      }
      if pey > pyy {
        pey := pyy;
      }
      leak := pey / pyy;
      LeakBounds(Leakage(pey, pyy));
    }

    /** The gains of the next update. */
    method UpdateGains(sxx: real, see: real, syy: real, sey: real) returns (ghost lesson: Lesson)
      requires Shaped() && 0.0 <= leak <= 1.0 && sxx >= 0.0 && see > 0.0 && syy >= 0.0 && Learned()
      requires NoneNegative(rf[..]) && NoneNegative(yf[..]) && forall j | 0 <= j < power.Length :: power[j] >= 1.0
      modifies `adapted, `sumAdapt, `lessons, power1
      ensures forall j | 0 <= j < power1.Length :: 0.0 <= power1[j] <= LARGEST_GAIN
      ensures lesson == Measured(sxx, see, syy, sey, leak) && lessons == old(lessons) + [lesson]
      ensures Learned() && GainsFrom(lesson) && (old(adapted) ==> adapted)
    {
      lesson := Measured(sxx, see, syy, sey, leak);
      OneMoreLesson(windowSize, m, lessons, lesson);
      lessons := lessons + [lesson];
      hide Rate;
      hide Residual;
      hide AdaptationAfter;
      hide GainsFrom;
      var rer := ResidualRatio(sxx, see, syy, sey, leak);
      if !adapted && sumAdapt > m as real && leak * syy > 0.03 * syy {
        adapted := true;
      }
      GiveGains(sxx, see, rer, lesson);
    }

    /** Gives every bin its gain, and counts what the frame teaches until the filter has adapted. */
    method GiveGains(sxx: real, see: real, rer: real, ghost lesson: Lesson)
      requires Shaped() && lesson.sxx == sxx && lesson.see == see && lesson.syy >= 0.0 && lesson.leak == leak >= 0.0
      requires rer == Residual(lesson) && 0.0 <= rer <= 0.5
      requires NoneNegative(rf[..]) && NoneNegative(yf[..]) && forall j | 0 <= j < power.Length :: power[j] >= 1.0
      modifies `sumAdapt, power1
      ensures forall j | 0 <= j < power1.Length :: 0.0 <= power1[j] <= LARGEST_GAIN
      ensures GainsFrom(lesson) && sumAdapt == if adapted then old(sumAdapt) else old(sumAdapt) + Rate(windowSize, lesson)
    {
      assert power1.Length == power.Length == rf.Length == yf.Length && power1 !in {power, rf, yf};
      hide Shaped;
      hide Rate;
      hide Residual;
      hide AdaptedGain;
      RateIs(windowSize, lesson);
      if adapted {
        AdaptedGains(power1, power, rf, yf, leak, rer);
      } else {
        var adaptRate := RateOf(windowSize, sxx, see, lesson);
        InitialGains(power1, power, adaptRate);
        sumAdapt := sumAdapt + adaptRate;
      }
    }
  }

  method SpeedOf(frameSize: nat, rate: nat, syy: real, see: real) returns (alpha: real)
    requires rate >= 1 && see > 0.0
    ensures alpha == Speed(frameSize, rate, syy, see)
  {
    var beta0 := 2.0 * frameSize as real / rate as real;
    var betaMax := 0.5 * frameSize as real / rate as real;
    var tmp := beta0 * syy;
    if tmp > betaMax * see {
      tmp := betaMax * see;
    }
    alpha := tmp / see;
  }

  method Average(a: real, b: real, alpha: real) returns (c: real)
    ensures c == Smoothed(a, b, alpha)
  {
    AverageIs(a, b, alpha);
    c := (1.0 - alpha) * a + alpha * b;
  }

  lemma OneMoreLesson(n: nat, m: nat, lessons: seq<Lesson>, l: Lesson)
    ensures AdaptationAfter(n, m, lessons + [l]) == NextAdaptation(n, m, AdaptationAfter(n, m, lessons), l)
  {
    hide NextAdaptation;
    assert (lessons + [l])[..|lessons|] == lessons;
  }

  /** The rate of a filter that has not adapted, for all bins. */
  method RateOf(windowSize: nat, sxx: real, see: real, ghost lesson: Lesson) returns (adaptRate: real)
    requires lesson.sxx == sxx && lesson.see == see
    ensures adaptRate == Rate(windowSize, lesson)
  {
    adaptRate := 0.0;
    if sxx > windowSize as real * 1000.0 {
      var tmp := 0.25 * sxx;
      if tmp > 0.25 * see {
        tmp := 0.25 * see;
      }
      adaptRate := tmp / see;
    }
  }

  /** The residual echo to error ratio. */
  method ResidualRatio(sxx: real, see: real, syy: real, sey: real, leak: real) returns (rer: real)
    requires sxx >= 0.0 && see > 0.0 && syy >= 0.0 && leak >= 0.0
    ensures rer == Residual(Measured(sxx, see, syy, sey, leak)) && 0.0 <= rer <= 0.5
  {
    ghost var l: Lesson := Measured(sxx, see, syy, sey, leak);
    ResidualBounds(l);
    rer := (0.0001 * sxx + 3.0 * leak * syy) / see;
    assert rer == Suggested(l);
    TimesGrows(0.0, see, syy);
    var most := sey * sey / (1.0 + see * syy);
    assert most == Shown(l);
    hide Suggested;
    hide Shown;
    if rer < most {
      rer := most;
    }
    if rer > 0.5 {
      rer := 0.5;
    }
  }

  lemma StackedSpectra(x: seq<real>, n: nat, m: nat)
    requires n % 2 == 0 && n >= 2 && |x| == (m + 1) * n
    ensures Stacked(x, n, m + 1) && n <= |x| && Stacked(x[n..], n, m) && Packed(x, 0, n)
  {
    assert (m + 1) * n == m * n + n;
    MoreIsLonger(0, m, n);
  }

  lemma NormsArePositive(s: seq<real>, n: nat)
    requires Packed(s, 0, n)
    ensures forall k | 0 <= k <= n / 2 :: Norm(Bin(s, 0, n, k)) >= 0.0
  {
    forall k | 0 <= k <= n / 2 ensures Norm(Bin(s, 0, n, k)) >= 0.0 {
      NormIsPositive(Bin(s, 0, n, k));
    }
  }

  lemma NormIsPositive(a: Complex)
    ensures Norm(a) >= 0.0
  {
    assert a.re * a.re >= 0.0 && a.im * a.im >= 0.0;
  }

  lemma SilenceQueued(buf: seq<real>, fs: nat)
    requires fs >= 1 && |buf| == 3 * fs && forall t | 0 <= t < 3 * fs :: buf[t] == 0.0
    ensures buf == seq(3 * fs, _ => 0.0)
    ensures FramesIn(buf, 2 * fs, fs) == [seq(fs, _ => 0.0), seq(fs, _ => 0.0)]
    ensures FramesIn(buf, 2 * fs, fs)[1..] == [seq(fs, _ => 0.0)]
  {
    var silence := seq(fs, _ => 0.0);
    assert buf[..fs] == silence && buf[fs..2 * fs] == silence;
  }

  lemma OneTaken(before: seq<real>, buf: seq<real>, n: nat, fs: nat)
    requires fs >= 1 && |before| == |buf| == 3 * fs && WholeFrames(n + fs, fs) && n <= 2 * fs
    requires forall t | 0 <= t < n :: buf[t] == before[fs + t]
    ensures FramesIn(before, n + fs, fs) != [] && FramesIn(before, n + fs, fs)[1..] == FramesIn(buf, n, fs)
  {
    if n >= fs {
      assert buf[..fs] == before[fs..2 * fs];
    }
    if n >= 2 * fs {
      assert buf[fs..2 * fs] == before[2 * fs..];
    }
  }

  lemma StoredAfter(before: seq<real>, buf: seq<real>, n: nat, fs: nat, frame: Frame)
    requires fs >= 1 && |before| == |buf| == 3 * fs && WholeFrames(n, fs) && n <= 2 * fs && |frame| == fs
    requires forall t | 0 <= t < n :: buf[t] == before[t]
    requires forall t | 0 <= t < fs :: buf[n + t] == frame[t]
    ensures FramesIn(buf, n + fs, fs) == FramesIn(before, n, fs) + [frame]
  {
    assert buf[n..n + fs] == frame;
    if n >= fs {
      assert buf[..fs] == before[..fs];
    }
    if n >= 2 * fs {
      assert buf[fs..2 * fs] == before[fs..2 * fs] && buf[2 * fs..] == frame;
    }
  }

  function AsReals(play: seq<Pcm.int16>): Frame {
    seq(|play|, i requires 0 <= i < |play| => play[i] as real)
  }
}
