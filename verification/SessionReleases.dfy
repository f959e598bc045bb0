/** What finish and Stop do before they return: the releases they took are called and the error is reported; and
    exactly which releases of a session are never called. Any number of Restarts may run at once. */
module SessionReleases {
  import opened Options
  import opened Session
  import opened SessionRuns
  import opened SessionLost

  // ----- what a goroutine has taken it calls -----

  /** t is to call r. */
  predicate InHands(s: State, t: Thread, r: Release) {
    t in s.pc && match s.pc[t] {
      case Cleaning(c, _) => c == Some(r)
      case StopCleaning(c) => c == Some(r)
      case _ => false
    }
  }

  /** A step from pc takes nothing back, and reports only where finish does. */
  predicate Mild(s: State, s': State, pc: Pc) {
    && s.ran <= s'.ran
    && (s.f.finished ==> s'.winner == s.winner)
    && (!pc.Reporting? ==> s'.errs == s.errs)
  }

  lemma FinishIsMild(s: State, t: Thread)
    requires t in s.pc
    ensures Mild(s, FinishStep(s, t, s.pc[t]), s.pc[t])
  {
  }

  lemma WaitIsMild(s: State, g: Gen)
    requires Supervisor(g) in s.pc
    ensures Mild(s, WaitStep(s, g, s.pc[Supervisor(g)]), s.pc[Supervisor(g)])
  {
  }

  lemma RestartIsMild(s: State, t: Thread, c: Choice)
    requires t in s.pc
    ensures Mild(s, RestartStep(s, t, s.pc[t], c), s.pc[t])
  {
  }

  lemma LaunchIsMild(s: State, t: Thread, c: Choice)
    requires t in s.pc
    ensures Mild(s, LaunchStep(s, t, s.pc[t], c), s.pc[t])
  {
  }

  lemma StopIsMild(s: State, t: Thread)
    requires t in s.pc
    ensures Mild(s, StopStep(s, t, s.pc[t]), s.pc[t])
  {
  }

  lemma StepIsMild(s: State, t: Thread, c: Choice)
    requires t in s.pc
    ensures Mild(s, Stepped(s, t, s.pc[t], c), s.pc[t])
  {
    hide WaitStep;
    hide FinishStep;
    hide RestartStep;
    hide LaunchStep;
    hide StopStep;
    FinishIsMild(s, t);
    RestartIsMild(s, t, c);
    LaunchIsMild(s, t, c);
    StopIsMild(s, t);
    if t.Supervisor? {
      WaitIsMild(s, t.g);
    }
  }

  lemma NextRanGrows(s: State, a: Action)
    ensures s.ran <= Next(s, a).ran
  {
    hide Stepped;
    if a.Step? && a.t in s.pc {
      StepIsMild(s, a.t, a.choice);
    }
  }

  lemma OwnStepReleases(s: State, t: Thread, c: Choice, r: Release)
    requires InHands(s, t, r)
    ensures r in Stepped(s, t, s.pc[t], c).ran
  {
    var next := Stepped(s, t, s.pc[t], c);
    assert next.ran == s.ran + [r];
  }

  /** Only t's own steps move it. */
  lemma OthersStay(s: State, a: Action, t: Thread)
    requires Numbered(s) && t in s.pc && (a.Step? ==> a.t != t) && !s.pc[t].Waiting?
    ensures t in Next(s, a).pc && Next(s, a).pc[t] == s.pc[t]
  {
    if a.Step? && a.t in s.pc {
      StepMoves(s, a.t, a.choice);
    }
    hide Stepped;
    hide Numbered;
  }

  lemma NextReleases(s: State, a: Action, t: Thread, r: Release)
    requires Numbered(s) && (InHands(s, t, r) || r in s.ran)
    ensures InHands(Next(s, a), t, r) || r in Next(s, a).ran
  {
    NextRanGrows(s, a);
    if InHands(s, t, r) {
      if a.Step? && a.t == t {
        OwnStepReleases(s, t, a.choice, r);
      } else {
        OthersStay(s, a, t);
      }
    }
    hide Stepped;
    hide Numbered;
  }

  // ----- Stop -----

  /** The call of Stop goes on past its lock. */
  predicate StopGoesOn(s: State, a: Action, i: nat) {
    a == CallStop(i) && Stopper(i) !in s.pc && !s.f.stopped
  }

  /** Where a Stop that goes on is: to call the cleanup it took, past that, or back with the context ended. */
  predicate StopIsOn(s: State, i: nat, cleanup: Option<Release>) {
    var t := Stopper(i);
    && t in s.pc
    && match s.pc[t] {
      case StopCleaning(c) => c == cleanup
      case Cancelling => cleanup.Some? ==> cleanup.value in s.ran
      case Returned => (cleanup.Some? ==> cleanup.value in s.ran) && s.cancelled
      case _ => false
    }
  }

  lemma OwnStopStep(s: State, i: nat, c: Choice, cleanup: Option<Release>)
    requires StopIsOn(s, i, cleanup)
    ensures StopIsOn(Next(s, Step(Stopper(i), c)), i, cleanup)
  {
  }

  lemma CancelStays(s: State, a: Action)
    ensures s.cancelled ==> Next(s, a).cancelled
  {
  }

  lemma NextStop(s: State, a: Action, i: nat, cleanup: Option<Release>)
    requires Numbered(s) && StopIsOn(s, i, cleanup)
    ensures StopIsOn(Next(s, a), i, cleanup)
  {
    if a.Step? && a.t == Stopper(i) {
      OwnStopStep(s, i, a.choice, cleanup);
    } else {
      OthersStay(s, a, Stopper(i));
      NextRanGrows(s, a);
      CancelStays(s, a);
    }
    hide Next;
    hide Numbered;
  }

  lemma {:induction false} StopRuns(start: State, actions: seq<Action>, k: nat, i: nat)
    requires Safe(start) && k < |actions| && StopGoesOn(Run(start, actions[..k]), actions[k], i)
    ensures StopIsOn(Run(start, actions), i, Run(start, actions[..k]).f.cleanup)
  {
    hide *;
    var n := |actions| - 1;
    var init := actions[..n];
    RunIsSafe(start, init);
    SafeIsNumbered(Run(start, init));
    LastOf(start, actions);
    if k < n {
      assert init[..k] == actions[..k];
      StopRuns(start, init, k, i);
      NextStop(Run(start, init), actions[n], i, Run(start, actions[..k]).f.cleanup);
    } else {
      StopBegins(Run(start, init), actions[n], i);
    }
  }

  lemma StopBegins(s: State, a: Action, i: nat)
    requires StopGoesOn(s, a, i)
    ensures StopIsOn(Next(s, a), i, s.f.cleanup)
  {
    hide Stepped;
  }

  /** Once the Stop that went on has returned, the cleanup it took at its lock has been called, and the context
      has ended. */
  lemma StopReleases(isBroad: bool, cleanup: bool, source: bool, actions: seq<Action>, k: nat, i: nat)
    requires k < |actions| && StopGoesOn(Run(Start(isBroad, cleanup, source), actions[..k]), actions[k], i)
    ensures var start := Start(isBroad, cleanup, source);
            var s, taken := Run(start, actions), Run(start, actions[..k]).f.cleanup;
            && Stopper(i) in s.pc
            && (s.pc[Stopper(i)].Returned? ==> s.cancelled && (taken.Some? ==> taken.value in s.ran))
  {
    StartIsSafe(isBroad, cleanup, source);
    StopRuns(Start(isBroad, cleanup, source), actions, k, i);
    hide Run;
  }

  lemma {:induction false} StopStops(start: State, actions: seq<Action>, k: nat, i: nat)
    requires Safe(start) && k < |actions| && StopGoesOn(Run(start, actions[..k]), actions[k], i)
    ensures Run(start, actions).f.stopped
  {
    hide *;
    var n := |actions| - 1;
    var init := actions[..n];
    RunIsSafe(start, init);
    LastOf(start, actions);
    if k < n {
      assert init[..k] == actions[..k];
      StopStops(start, init, k, i);
      SafeIsNumbered(Run(start, init));
      StoppedStays(Run(start, init), actions[n]);
    } else {
      GoesOnStops(Run(start, init), actions[n], i);
    }
  }

  lemma StoppedStays(s: State, a: Action)
    requires Numbered(s) && s.f.stopped
    ensures Next(s, a).f.stopped
  {
    NextOnlyGrows(s, a);
    hide Next;
  }

  lemma GoesOnStops(s: State, a: Action, i: nat)
    requires StopGoesOn(s, a, i)
    ensures Next(s, a).f.stopped
  {
    hide Stepped;
  }

  /** One call of Stop goes on at most, however many there are. */
  lemma OneStopGoesOn(isBroad: bool, cleanup: bool, source: bool, actions: seq<Action>, k: nat, l: nat, i: nat, j: nat)
    requires k < l < |actions|
    requires StopGoesOn(Run(Start(isBroad, cleanup, source), actions[..k]), actions[k], i)
    ensures !StopGoesOn(Run(Start(isBroad, cleanup, source), actions[..l]), actions[l], j)
  {
    var start := Start(isBroad, cleanup, source);
    StartIsSafe(isBroad, cleanup, source);
    hide Run;
    hide Safe;
    assert actions[..l][..k] == actions[..k];
    StopStops(start, actions[..l], k, i);
  }

  // ----- finish -----

  /** The step is t's, from pc. */
  predicate StepsFrom(s: State, a: Action, t: Thread, pc: Pc) {
    a.Step? && a.t == t && t in s.pc && s.pc[t] == pc
  }

  /** The three steps of the finish that goes on: at the lock, when the source is released, when the error is
      reported; failed says whether it was given an error. */
  datatype Steps = Steps(lock: nat, release: nat, report: nat, failed: bool)

  ghost predicate LockedAt(start: State, actions: seq<Action>, t: Thread, k: nat, failed: bool) {
    && k < |actions|
    && StepsFrom(Run(start, actions[..k]), actions[k], t, Entering(failed)) && !Run(start, actions[..k]).f.finished
  }

  ghost predicate ReleasedAt(start: State, actions: seq<Action>, t: Thread, k: nat, failed: bool) {
    k < |actions| && StepsFrom(Run(start, actions[..k]), actions[k], t, Releasing(failed))
  }

  ghost predicate ReportedAt(start: State, actions: seq<Action>, t: Thread, k: nat, failed: bool) {
    k < |actions| && StepsFrom(Run(start, actions[..k]), actions[k], t, Reporting(failed))
  }

  /** r, if any, has been called. */
  predicate Called(s: State, r: Option<Release>) {
    r.Some? ==> r.value in s.ran
  }

  /** How far the finish of t is, and what it has done by then. */
  ghost predicate FinishIsOn(start: State, actions: seq<Action>, t: Thread, st: Steps) {
    var s := Run(start, actions);
    && LockedAt(start, actions, t, st.lock, st.failed)
    && t in s.pc && s.winner == Some(t)
    && match s.pc[t] {
      case Cleaning(c, failed) => c == Run(start, actions[..st.lock]).f.cleanup && failed == st.failed && s.errs == 0
      case Releasing(failed) => CleanupCalled(start, actions, st) && failed == st.failed && s.errs == 0
      case Reporting(failed) =>
        CleanupCalled(start, actions, st) && SourceCalled(start, actions, t, st) && failed == st.failed && s.errs == 0
      case Closing => AllDone(start, actions, t, st)
      case Returned => AllDone(start, actions, t, st)
      case _ => false
    }
  }

  ghost predicate CleanupCalled(start: State, actions: seq<Action>, st: Steps) {
    st.lock < |actions| && Called(Run(start, actions), Run(start, actions[..st.lock]).f.cleanup)
  }

  ghost predicate SourceCalled(start: State, actions: seq<Action>, t: Thread, st: Steps) {
    && st.lock < st.release && ReleasedAt(start, actions, t, st.release, st.failed)
    && Called(Run(start, actions), Run(start, actions[..st.release]).source)
  }

  /** All that a finish is to do: the cleanup held at its lock and the source held at its release have been
      called, and the error it was given was sent unless the context had ended. */
  ghost predicate AllDone(start: State, actions: seq<Action>, t: Thread, st: Steps) {
    && CleanupCalled(start, actions, st) && SourceCalled(start, actions, t, st)
    && st.release < st.report && ReportedAt(start, actions, t, st.report, st.failed)
    && Run(start, actions).errs == if st.failed && !Run(start, actions[..st.report]).cancelled then 1 else 0
  }

  lemma CalledStays(s: State, a: Action, r: Option<Release>)
    requires Called(s, r)
    ensures Called(Next(s, a), r)
  {
    NextRanGrows(s, a);
    hide Next;
  }

  /** What holds of a step holds of it in a longer run. */
  lemma StillAt(start: State, actions: seq<Action>, t: Thread, k: nat, failed: bool)
    requires actions != []
    ensures var init := actions[..|actions| - 1];
            && (LockedAt(start, init, t, k, failed) ==> LockedAt(start, actions, t, k, failed))
            && (ReleasedAt(start, init, t, k, failed) ==> ReleasedAt(start, actions, t, k, failed))
            && (ReportedAt(start, init, t, k, failed) ==> ReportedAt(start, actions, t, k, failed))
            && (k < |init| ==> Run(start, actions[..k]) == Run(start, init[..k]))
  {
    hide Run;
    hide StepsFrom;
    var init := actions[..|actions| - 1];
    if k < |init| {
      assert actions[..k] == init[..k];
    }
  }

  lemma StillCalled(start: State, actions: seq<Action>, t: Thread, st: Steps)
    requires actions != []
    ensures var init := actions[..|actions| - 1];
            && (CleanupCalled(start, init, st) ==> CleanupCalled(start, actions, st))
            && (SourceCalled(start, init, t, st) ==> SourceCalled(start, actions, t, st))
  {
    var init := actions[..|actions| - 1];
    var s, a := Run(start, init), actions[|actions| - 1];
    StillAt(start, actions, t, st.lock, st.failed);
    StillAt(start, actions, t, st.release, st.failed);
    if CleanupCalled(start, init, st) {
      CalledStays(s, a, Run(start, init[..st.lock]).f.cleanup);
    }
    if SourceCalled(start, init, t, st) {
      CalledStays(s, a, Run(start, init[..st.release]).source);
    }
    assert Run(start, actions) == Next(s, a);
    hide Run;
    hide Next;
    hide Called;
    hide LockedAt;
    hide ReleasedAt;
    hide ReportedAt;
  }

  lemma StillDone(start: State, actions: seq<Action>, t: Thread, st: Steps)
    requires actions != [] && AllDone(start, actions[..|actions| - 1], t, st)
    requires Run(start, actions).errs == Run(start, actions[..|actions| - 1]).errs
    ensures AllDone(start, actions, t, st)
  {
    StillCalled(start, actions, t, st);
    StillAt(start, actions, t, st.report, st.failed);
    hide Run;
    hide CleanupCalled;
    hide SourceCalled;
    assert st.report < |actions| - 1;
  }

  /** Nobody else reports, and the one whose finish goes on stays the same. */
  lemma NotReporting(s: State, a: Action)
    requires FinishOnce(s) && s.winner.Some?
    ensures Next(s, a).winner == s.winner
    ensures !(a.Step? && s.winner == Some(a.t) && s.pc[a.t].Reporting?) ==> Next(s, a).errs == s.errs
  {
    if a.Step? && a.t in s.pc {
      StepIsMild(s, a.t, a.choice);
    }
    hide Stepped;
  }

  /** Somebody else's action leaves a finish where it is. */
  lemma OthersLeaveIt(start: State, actions: seq<Action>, t: Thread, st: Steps)
    requires actions != [] && FinishIsOn(start, actions[..|actions| - 1], t, st)
    requires Safe(Run(start, actions[..|actions| - 1]))
    requires var a := actions[|actions| - 1]; a.Step? ==> a.t != t
    ensures FinishIsOn(start, actions, t, st)
  {
    var init, a := actions[..|actions| - 1], actions[|actions| - 1];
    var s := Run(start, init);
    LastOf(start, actions);
    OthersStay(s, a, t);
    NotReporting(s, a);
    StillAt(start, actions, t, st.lock, st.failed);
    StillCalled(start, actions, t, st);
    if s.pc[t].Closing? || s.pc[t].Returned? {
      StillDone(start, actions, t, st);
    }
    hide AllDone;
    hide CleanupCalled;
    hide SourceCalled;
    hide Run;
    hide Next;
    hide Numbered;
    hide OnePlaceEach;
    hide LockedAt;
  }

  lemma AfterCleaning(s: State, a: Action, t: Thread, cleanup: Option<Release>, failed: bool)
    requires StepsFrom(s, a, t, Cleaning(cleanup, failed))
    ensures var next := Next(s, a);
            && t in next.pc && next.pc[t] == Releasing(failed)
            && next.errs == s.errs && next.winner == s.winner && Called(next, cleanup)
  {
  }

  lemma AfterReleasing(s: State, a: Action, t: Thread, failed: bool)
    requires StepsFrom(s, a, t, Releasing(failed))
    ensures var next := Next(s, a);
            && t in next.pc && next.pc[t] == Reporting(failed)
            && next.errs == s.errs && next.winner == s.winner && Called(next, s.source)
  {
  }

  lemma AfterReporting(s: State, a: Action, t: Thread, failed: bool)
    requires StepsFrom(s, a, t, Reporting(failed))
    ensures var next := Next(s, a);
            && t in next.pc && next.pc[t] == Closing && next.winner == s.winner
            && next.errs == s.errs + if failed && !s.cancelled then 1 else 0
  {
  }

  lemma AfterClosing(s: State, a: Action, t: Thread)
    requires StepsFrom(s, a, t, Closing) || StepsFrom(s, a, t, Returned)
    ensures var next := Next(s, a);
            t in next.pc && next.pc[t] == Returned && next.winner == s.winner && next.errs == s.errs
  {
  }

  lemma CleaningStep(start: State, actions: seq<Action>, t: Thread, st: Steps, failed: bool, cleanup: Option<Release>)
    requires actions != [] && FinishIsOn(start, actions[..|actions| - 1], t, st)
    requires StepsFrom(Run(start, actions[..|actions| - 1]), actions[|actions| - 1], t, Cleaning(cleanup, failed))
    ensures FinishIsOn(start, actions, t, st)
  {
    var init, a := actions[..|actions| - 1], actions[|actions| - 1];
    var s := Run(start, init);
    LastOf(start, actions);
    AfterCleaning(s, a, t, cleanup, failed);
    StillAt(start, actions, t, st.lock, st.failed);
    hide Run;
    hide Next;
    hide LockedAt;
  }

  lemma ReleasingStep(start: State, actions: seq<Action>, t: Thread, st: Steps, failed: bool)
    requires actions != [] && FinishIsOn(start, actions[..|actions| - 1], t, st)
    requires StepsFrom(Run(start, actions[..|actions| - 1]), actions[|actions| - 1], t, Releasing(failed))
    ensures FinishIsOn(start, actions, t, st.(release := |actions| - 1))
  {
    var init, a := actions[..|actions| - 1], actions[|actions| - 1];
    LastOf(start, actions);
    AfterReleasing(Run(start, init), a, t, failed);
    StillAt(start, actions, t, st.lock, st.failed);
    StillCalled(start, actions, t, st);
    JustReleased(start, actions, t, st, failed);
    hide Run;
    hide Next;
    hide LockedAt;
    hide CleanupCalled;
    hide SourceCalled;
    hide Called;
  }

  lemma JustReleased(start: State, actions: seq<Action>, t: Thread, st: Steps, failed: bool)
    requires actions != [] && st.failed == failed && st.lock < |actions| - 1
    requires StepsFrom(Run(start, actions[..|actions| - 1]), actions[|actions| - 1], t, Releasing(failed))
    requires Called(Run(start, actions), Run(start, actions[..|actions| - 1]).source)
    ensures CleanupCalled(start, actions, st.(release := |actions| - 1)) == CleanupCalled(start, actions, st)
    ensures SourceCalled(start, actions, t, st.(release := |actions| - 1))
  {
    hide Run;
    hide StepsFrom;
    hide Called;
    assert ReleasedAt(start, actions, t, |actions| - 1, failed);
  }

  lemma ReportingStep(start: State, actions: seq<Action>, t: Thread, st: Steps, failed: bool)
    requires actions != [] && FinishIsOn(start, actions[..|actions| - 1], t, st)
    requires StepsFrom(Run(start, actions[..|actions| - 1]), actions[|actions| - 1], t, Reporting(failed))
    ensures FinishIsOn(start, actions, t, st.(report := |actions| - 1))
  {
    hide *;
    var init, a := actions[..|actions| - 1], actions[|actions| - 1];
    var s := Run(start, init);
    IsReporting(start, init, t, st, failed, a);
    LastOf(start, actions);
    AfterReporting(s, a, t, failed);
    StillAt(start, actions, t, st.lock, st.failed);
    StillCalled(start, actions, t, st);
    JustReported(start, actions, t, st, failed);
    IsDone(start, actions, t, st.(report := |actions| - 1));
  }

  lemma IsReporting(start: State, actions: seq<Action>, t: Thread, st: Steps, failed: bool, a: Action)
    requires FinishIsOn(start, actions, t, st) && StepsFrom(Run(start, actions), a, t, Reporting(failed))
    ensures LockedAt(start, actions, t, st.lock, failed) && CleanupCalled(start, actions, st) && SourceCalled(start, actions, t, st)
    ensures st.release < |actions| && st.failed == failed
    ensures Run(start, actions).errs == 0 && Run(start, actions).winner == Some(t)
  {
    hide Run;
    hide LockedAt;
    hide CleanupCalled;
  }

  lemma JustReported(start: State, actions: seq<Action>, t: Thread, st: Steps, failed: bool)
    requires actions != [] && st.failed == failed && st.release < |actions| - 1
    requires CleanupCalled(start, actions, st) && SourceCalled(start, actions, t, st)
    requires var s := Run(start, actions[..|actions| - 1]);
             && StepsFrom(s, actions[|actions| - 1], t, Reporting(failed))
             && Run(start, actions).errs == if failed && !s.cancelled then 1 else 0
    ensures AllDone(start, actions, t, st.(report := |actions| - 1))
  {
    hide Run;
    hide StepsFrom;
    hide Called;
    assert ReportedAt(start, actions, t, |actions| - 1, failed);
  }

  lemma IsDone(start: State, actions: seq<Action>, t: Thread, st: Steps)
    requires LockedAt(start, actions, t, st.lock, st.failed) && AllDone(start, actions, t, st)
    requires var s := Run(start, actions); t in s.pc && s.winner == Some(t) && (s.pc[t].Closing? || s.pc[t].Returned?)
    ensures FinishIsOn(start, actions, t, st)
  {
    hide Run;
    hide LockedAt;
    hide AllDone;
  }

  lemma WasDone(start: State, actions: seq<Action>, t: Thread, st: Steps, a: Action)
    requires FinishIsOn(start, actions, t, st)
    requires StepsFrom(Run(start, actions), a, t, Closing) || StepsFrom(Run(start, actions), a, t, Returned)
    ensures LockedAt(start, actions, t, st.lock, st.failed) && AllDone(start, actions, t, st)
    ensures Run(start, actions).winner == Some(t)
  {
    hide Run;
    hide LockedAt;
    hide AllDone;
  }

  lemma ClosingStep(start: State, actions: seq<Action>, t: Thread, st: Steps)
    requires actions != [] && FinishIsOn(start, actions[..|actions| - 1], t, st)
    requires var s, a := Run(start, actions[..|actions| - 1]), actions[|actions| - 1];
             StepsFrom(s, a, t, Closing) || StepsFrom(s, a, t, Returned)
    ensures FinishIsOn(start, actions, t, st)
  {
    hide *;
    var init, a := actions[..|actions| - 1], actions[|actions| - 1];
    WasDone(start, init, t, st, a);
    LastOf(start, actions);
    AfterClosing(Run(start, init), a, t);
    StillAt(start, actions, t, st.lock, st.failed);
    StillDone(start, actions, t, st);
    IsDone(start, actions, t, st);
  }

  lemma OwnFinishStep(start: State, actions: seq<Action>, t: Thread, st: Steps) returns (st': Steps)
    requires actions != [] && FinishIsOn(start, actions[..|actions| - 1], t, st)
    requires var a := actions[|actions| - 1]; a.Step? && a.t == t
    ensures FinishIsOn(start, actions, t, st')
  {
    st' := st;
    var pc := Run(start, actions[..|actions| - 1]).pc[t];
    IsInFinish(start, actions[..|actions| - 1], t, st);
    hide FinishIsOn;
    hide Run;
    match pc {
      case Cleaning(cleanup, failed) => CleaningStep(start, actions, t, st, failed, cleanup);
      case Releasing(failed) =>
        ReleasingStep(start, actions, t, st, failed);
        st' := st.(release := |actions| - 1);
      case Reporting(failed) =>
        ReportingStep(start, actions, t, st, failed);
        st' := st.(report := |actions| - 1);
      case _ => ClosingStep(start, actions, t, st);
    }
  }

  lemma IsInFinish(start: State, actions: seq<Action>, t: Thread, st: Steps)
    requires FinishIsOn(start, actions, t, st)
    ensures var s := Run(start, actions); t in s.pc && (InFinish(s.pc[t]) || s.pc[t].Returned?)
  {
    hide Run;
  }

  lemma FinishBegins(s: State, a: Action)
    requires FinishOnce(s) && Numbered(s) && s.winner == None
    ensures var next := Next(s, a);
            && next.errs == s.errs == 0
            && (next.winner.Some? ==>
                  && a == Step(next.winner.value, a.choice) && a.t in s.pc && s.pc[a.t].Entering? && !s.f.finished
                  && a.t in next.pc && next.pc[a.t] == Cleaning(s.f.cleanup, s.pc[a.t].failed))
  {
    if a.Step? && a.t in s.pc {
      StepBegins(s, a.t, a.choice);
    }
    hide Stepped;
  }

  lemma StepBegins(s: State, t: Thread, c: Choice)
    requires FinishOnce(s) && Numbered(s) && s.winner == None && t in s.pc
    ensures var next := Stepped(s, t, s.pc[t], c);
            && next.errs == s.errs
            && (next.winner.Some? ==>
                  && next.winner.value == t && s.pc[t].Entering? && !s.f.finished
                  && t in next.pc && next.pc[t] == Cleaning(s.f.cleanup, s.pc[t].failed))
  {
    if s.pc[t].Entering? {
      EnteringBegins(s, t);
      hide FinishStep;
    } else {
      StepOutside(s, t, c);
      hide Stepped;
    }
    hide Numbered;
  }

  lemma EnteringBegins(s: State, t: Thread)
    requires t in s.pc && s.pc[t].Entering? && !s.f.finished
    ensures FinishStep(s, t, s.pc[t])
         == s.(pc := s.pc[t := Cleaning(s.f.cleanup, s.pc[t].failed)], f := AfterFinish(s.f), winner := Some(t))
  {
  }

  lemma {:induction false} FinishRuns(start: State, actions: seq<Action>) returns (st: Steps)
    requires Safe(start) && start.winner == None
    ensures var s := Run(start, actions);
            if s.winner.Some? then FinishIsOn(start, actions, s.winner.value, st) else s.errs == 0
  {
    hide FinishIsOn;
    hide Next;
    hide Numbered;
    hide OnePlaceEach;
    st := Steps(0, 0, 0, false);
    if actions != [] {
      var n := |actions| - 1;
      var init, a := actions[..n], actions[n];
      st := FinishRuns(start, init);
      RunIsSafe(start, init);
      var s := Run(start, init);
      if s.winner.Some? {
        NotReporting(s, a);
        if a.Step? && a.t == s.winner.value {
          st := OwnFinishStep(start, actions, a.t, st);
        } else {
          OthersLeaveIt(start, actions, s.winner.value, st);
        }
      } else {
        FinishBegins(s, a);
        if Next(s, a).winner.Some? {
          st := Steps(n, 0, 0, s.pc[a.t].failed);
          JustLocked(start, actions, a.t, st);
        }
      }
    }
  }

  lemma JustLocked(start: State, actions: seq<Action>, t: Thread, st: Steps)
    requires actions != [] && st.lock == |actions| - 1
    requires var s, a := Run(start, actions[..|actions| - 1]), actions[|actions| - 1];
             && StepsFrom(s, a, t, Entering(st.failed)) && !s.f.finished
             && t in Next(s, a).pc && Next(s, a).pc[t] == Cleaning(s.f.cleanup, st.failed)
             && Next(s, a).winner == Some(t) && Next(s, a).errs == 0
    ensures FinishIsOn(start, actions, t, st)
  {
    LastOf(start, actions);
    hide Run;
    hide Next;
  }

  /** Whenever Done is closed, the goroutine that closed it has called the cleanup that was there when it took the
      lock, and the capture source's release that was there when it came to it; and an error was sent exactly if it
      was given one and the context had not ended by then. */
  lemma FinishDoesItAll(isBroad: bool, cleanup: bool, source: bool, actions: seq<Action>) returns (t: Thread, st: Steps)
    requires Run(Start(isBroad, cleanup, source), actions).done == 1
    ensures var start := Start(isBroad, cleanup, source);
            && Run(start, actions).winner == Some(t)
            && LockedAt(start, actions, t, st.lock, st.failed) && AllDone(start, actions, t, st)
  {
    var start := Start(isBroad, cleanup, source);
    StartIsSafe(isBroad, cleanup, source);
    RunIsSafe(start, actions);
    st := FinishRuns(start, actions);
    t := Run(start, actions).winner.value;
    hide Run;
    hide LockedAt;
    hide AllDone;
  }

  // ----- where the error comes from -----

  /** Each goroutine is in its own code. */
  ghost predicate AllTyped(s: State) {
    forall t | t in s.pc :: Typed(t, s.pc[t])
  }

  lemma NewAreSupervisors(s: State, t: Thread, c: Choice)
    requires t in s.pc
    ensures forall u | u in Stepped(s, t, s.pc[t], c).pc :: u in s.pc || u.Supervisor?
  {
    if InLaunch(s.pc[t]) {
      LaunchesSupervisors(s, t, c);
      hide LaunchStep;
    } else {
      OtherMoves(s, t, c);
      hide Stepped;
    }
  }

  lemma LaunchesSupervisors(s: State, t: Thread, c: Choice)
    requires t in s.pc
    ensures forall u | u in LaunchStep(s, t, s.pc[t], c).pc :: u in s.pc || u.Supervisor?
  {
  }

  /** The goroutine's finish is, or would be, given an error. */
  predicate HasError(pc: Pc, failed: bool) {
    pc == Exited(failed) || pc == Checking(failed) || pc == Entering(failed)
  }

  /** Where a finish gets its error from: the process failed, or the launch did; a Restart that finds the session
      stopped gives none. */
  predicate GivesError(s: State, a: Action, t: Thread, failed: bool) {
    t in s.pc && match t {
      case Supervisor(g) => a == ProcessExits(g, failed) && s.pc[t] == Waiting
      case Restarter(_) => a.Step? && a.t == t && s.pc[t] == if failed then Clearing(None) else Abandoning
      case Stopper(_) => false
    }
  }

  lemma OwnError(s: State, t: Thread, c: Choice)
    requires t in s.pc && Typed(t, s.pc[t])
    ensures var next := Stepped(s, t, s.pc[t], c);
            && t in next.pc && Typed(t, next.pc[t])
            && forall failed | HasError(next.pc[t], failed) ::
                 HasError(s.pc[t], failed) || GivesError(s, Step(t, c), t, failed)
  {
    hide WaitStep;
    hide FinishStep;
    hide RestartStep;
    hide LaunchStep;
    hide StopStep;
    var pc := s.pc[t];
    if InWait(pc) {
      WaitError(s, t.g, c);
    } else if InFinish(pc) || pc.Entering? {
      FinishSteps(s, t);
    } else if InLaunch(pc) {
      LaunchError(s, t, c);
    } else if InRestart(pc) {
      RestartError(s, t, c);
    } else {
      StopError(s, t);
    }
  }

  lemma WaitError(s: State, g: Gen, c: Choice)
    requires Supervisor(g) in s.pc && InWait(s.pc[Supervisor(g)])
    ensures var t := Supervisor(g); var next := WaitStep(s, g, s.pc[t]);
            && t in next.pc && Typed(t, next.pc[t])
            && forall failed | HasError(next.pc[t], failed) :: HasError(s.pc[t], failed)
  {
  }

  lemma LaunchError(s: State, t: Thread, c: Choice)
    requires t in s.pc && t.Restarter? && InLaunch(s.pc[t])
    ensures var next := LaunchStep(s, t, s.pc[t], c);
            t in next.pc && Typed(t, next.pc[t]) && forall failed :: !HasError(next.pc[t], failed)
  {
  }

  lemma RestartError(s: State, t: Thread, c: Choice)
    requires t in s.pc && t.Restarter? && InRestart(s.pc[t])
    ensures var next := RestartStep(s, t, s.pc[t], c);
            && t in next.pc && Typed(t, next.pc[t])
            && forall failed | HasError(next.pc[t], failed) :: GivesError(s, Step(t, c), t, failed)
  {
  }

  lemma StopError(s: State, t: Thread)
    requires t in s.pc && (s.pc[t].StopCleaning? || s.pc[t].Cancelling? || s.pc[t].Returned?) && Typed(t, s.pc[t])
    ensures var next := StopStep(s, t, s.pc[t]);
            t in next.pc && Typed(t, next.pc[t]) && forall failed :: !HasError(next.pc[t], failed)
  {
  }

  lemma NextError(s: State, a: Action, t: Thread)
    requires Numbered(s) && AllTyped(s)
    ensures var next := Next(s, a);
            t in next.pc ==>
              && Typed(t, next.pc[t])
              && forall failed | HasError(next.pc[t], failed) ::
                   (t in s.pc && HasError(s.pc[t], failed)) || GivesError(s, a, t, failed)
  {
    if a.Step? && a.t in s.pc {
      StepMoves(s, a.t, a.choice);
      NewAreSupervisors(s, a.t, a.choice);
      OwnError(s, a.t, a.choice);
      assert Next(s, a) == Stepped(s, a.t, s.pc[a.t], a.choice);
      assert a == Step(a.t, a.choice);
    }
    hide Stepped;
    hide Numbered;
  }

  lemma NextTyped(s: State, a: Action)
    requires Numbered(s) && AllTyped(s)
    ensures AllTyped(Next(s, a))
  {
    forall t | t in Next(s, a).pc ensures Typed(t, Next(s, a).pc[t]) {
      NextError(s, a, t);
    }
    hide Next;
  }

  /** The error a finish is given comes from the exit of its process, or from its own Restart. */
  lemma {:induction false} ErrorComes(start: State, actions: seq<Action>, t: Thread, failed: bool) returns (k: nat)
    requires Safe(start) && AllTyped(start) && (t in start.pc ==> !HasError(start.pc[t], failed))
    ensures AllTyped(Run(start, actions))
    ensures t in Run(start, actions).pc && HasError(Run(start, actions).pc[t], failed) ==>
              k < |actions| && GivesError(Run(start, actions[..k]), actions[k], t, failed)
  {
    hide *;
    k := 0;
    LastOf(start, actions);
    if actions != [] {
      var n := |actions| - 1;
      var init := actions[..n];
      k := ErrorComes(start, init, t, failed);
      RunIsSafe(start, init);
      SafeIsNumbered(Run(start, init));
      NextTyped(Run(start, init), actions[n]);
      NextError(Run(start, init), actions[n], t);
      if GivesError(Run(start, init), actions[n], t, failed) {
        k := n;
      } else if k < n {
        assert init[..k] == actions[..k];
      }
    }
  }

  lemma LastOf(start: State, actions: seq<Action>)
    ensures actions == [] ==> Run(start, actions) == start
    ensures actions != [] ==> Run(start, actions) == Next(Run(start, actions[..|actions| - 1]), actions[|actions| - 1])
  {
    hide Next;
  }

  /** So when Done is closed an error has been sent exactly if the process whose exit ended the session had failed, or
      the launch of the Restart that ended it had, and the context had not ended before the report. */
  lemma ErrorIsReported(isBroad: bool, cleanup: bool, source: bool, actions: seq<Action>) returns (t: Thread, failed: bool, i: nat, k: nat)
    requires Run(Start(isBroad, cleanup, source), actions).done == 1
    ensures var start := Start(isBroad, cleanup, source);
            && i < k < |actions|
            && GivesError(Run(start, actions[..i]), actions[i], t, failed)
            && ReportedAt(start, actions, t, k, failed)
            && (Run(start, actions).errs == 1 <==> failed && !Run(start, actions[..k]).cancelled)
  {
    var start := Start(isBroad, cleanup, source);
    StartIsSafe(isBroad, cleanup, source);
    var st: Steps;
    t, st := FinishDoesItAll(isBroad, cleanup, source, actions);
    failed, k := st.failed, st.report;
    StartTyped(isBroad, cleanup, source);
    hide Run;
    hide Safe;
    hide GivesError;
    i := ErrorComes(start, actions[..st.lock], t, failed);
    assert actions[..st.lock][..i] == actions[..i];
  }

  lemma StartTyped(isBroad: bool, cleanup: bool, source: bool)
    ensures AllTyped(Start(isBroad, cleanup, source))
    ensures forall t | t in Start(isBroad, cleanup, source).pc :: Start(isBroad, cleanup, source).pc[t] == Waiting
  {
  }
}
