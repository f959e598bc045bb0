/** Which releases of a session are never called: those a launch keeps too late, and those it keeps over another. */
module SessionLeaks {
  import opened Options
  import opened Session
  import opened SessionRuns
  import opened SessionLost
  import opened SessionReleases
  import opened SessionEnds

  /** finish has come past the capture source. */
  predicate PastRelease(s: State) {
    s.winner.Some? && s.winner.value in s.pc
    && match s.pc[s.winner.value] {
      case Reporting(_) => true
      case Closing => true
      case Returned => true
      case _ => false
    }
  }

  /** A launch keeps a cleanup while another is kept or after finish took what there was, or gives the session a
      capture source after finish released what there was. */
  predicate Leaks(s: State, a: Action) {
    a.Step? && a.t in s.pc && match s.pc[a.t] {
      case Keeping(_) => s.f.cleanup.Some? || s.f.finished
      case Launching => !a.choice.planFails && a.choice.ownsSource && !s.sourceOwned && PastRelease(s)
      case _ => false
    }
  }

  /** r is a release of the session: one it began with, or one a launch made. */
  predicate Made(cleanup: bool, source: bool, s: State, r: Release) {
    if r == 0 then cleanup else if r == 1 then source else r < s.nextRelease
  }

  ghost predicate Somewhere(s: State, r: Release) {
    exists p :: Holds(s, p, r)
  }

  // ----- without such a launch nothing is lost -----

  /** Where the release at p is after a step of t. */
  function Goal(s: State, t: Thread, pc: Pc, p: Place): Place {
    match pc
    case Entering(_) => if p == CleanupField && !s.f.finished then With(t) else p
    case Cleaning(_, _) => if p == With(t) then Ran(|s.ran|) else p
    case StopCleaning(_) => if p == With(t) then Ran(|s.ran|) else p
    case Releasing(_) => if p == SourceField then Ran(|s.ran|) else p
    case Keeping(_) => if p == With(t) then CleanupField else p
    case _ => p
  }

  lemma EnteringCarries(s: State, t: Thread, p: Place, r: Release)
    requires t in s.pc && s.pc[t].Entering? && Holds(s, p, r)
    ensures Holds(FinishStep(s, t, s.pc[t]), Goal(s, t, s.pc[t], p), r)
  {
  }

  lemma CallingCarries(s: State, t: Thread, p: Place, r: Release)
    requires t in s.pc && (s.pc[t].Cleaning? || s.pc[t].Releasing?) && Holds(s, p, r)
    ensures Holds(FinishStep(s, t, s.pc[t]), Goal(s, t, s.pc[t], p), r)
  {
  }

  lemma ReportingCarries(s: State, t: Thread, p: Place, r: Release)
    requires t in s.pc && (s.pc[t].Reporting? || s.pc[t].Closing?) && Holds(s, p, r)
    ensures Holds(FinishStep(s, t, s.pc[t]), Goal(s, t, s.pc[t], p), r)
  {
  }

  lemma FinishCarries(s: State, t: Thread, p: Place, r: Release)
    requires t in s.pc && (InFinish(s.pc[t]) || s.pc[t].Entering?) && Holds(s, p, r)
    ensures Holds(FinishStep(s, t, s.pc[t]), Goal(s, t, s.pc[t], p), r)
  {
    hide FinishStep;
    hide Goal;
    hide Holds;
    if s.pc[t].Entering? {
      EnteringCarries(s, t, p, r);
    } else if s.pc[t].Cleaning? || s.pc[t].Releasing? {
      CallingCarries(s, t, p, r);
    } else {
      ReportingCarries(s, t, p, r);
    }
  }

  lemma WaitCarries(s: State, g: Gen, p: Place, r: Release)
    requires Supervisor(g) in s.pc && InWait(s.pc[Supervisor(g)]) && Holds(s, p, r)
    ensures Holds(WaitStep(s, g, s.pc[Supervisor(g)]), p, r)
  {
  }

  lemma RestartCarries(s: State, t: Thread, c: Choice, p: Place, r: Release)
    requires t in s.pc && InRestart(s.pc[t]) && Holds(s, p, r)
    ensures Holds(RestartStep(s, t, s.pc[t], c), p, r)
  {
  }

  lemma StopCarries(s: State, t: Thread, p: Place, r: Release)
    requires t in s.pc && (s.pc[t].StopCleaning? || s.pc[t].Cancelling? || s.pc[t].Returned?) && Holds(s, p, r)
    ensures Holds(StopStep(s, t, s.pc[t]), Goal(s, t, s.pc[t], p), r)
  {
  }

  predicate SourceIsOwned(s: State) {
    s.source.Some? ==> s.sourceOwned
  }

  lemma KeepCarries(s: State, t: Thread, c: Choice, p: Place, r: Release)
    requires t in s.pc && s.pc[t].Keeping? && Holds(s, p, r) && s.f.cleanup == None
    ensures Holds(LaunchStep(s, t, s.pc[t], c), Goal(s, t, s.pc[t], p), r)
  {
  }

  lemma LaunchCarries(s: State, t: Thread, c: Choice, p: Place, r: Release)
    requires Numbered(s) && SourceIsOwned(s)
    requires t in s.pc && InLaunch(s.pc[t]) && !s.pc[t].Keeping? && Holds(s, p, r)
    ensures Holds(LaunchStep(s, t, s.pc[t], c), p, r)
  {
  }

  lemma StepCarries(s: State, t: Thread, c: Choice, p: Place, r: Release)
    requires Numbered(s) && SourceIsOwned(s) && AllTyped(s) && t in s.pc
    requires !Leaks(s, Step(t, c)) && Holds(s, p, r)
    ensures Holds(Stepped(s, t, s.pc[t], c), Goal(s, t, s.pc[t], p), r)
  {
    hide WaitStep;
    hide FinishStep;
    hide RestartStep;
    hide StopStep;
    hide LaunchStep;
    hide Holds;
    var pc := s.pc[t];
    if InWait(pc) {
      WaitCarries(s, t.g, p, r);
    } else if InFinish(pc) || pc.Entering? {
      FinishCarries(s, t, p, r);
    } else if pc.Keeping? {
      KeepCarries(s, t, c, p, r);
    } else if InLaunch(pc) {
      LaunchCarries(s, t, c, p, r);
    } else if InRestart(pc) {
      RestartCarries(s, t, c, p, r);
    } else {
      StopCarries(s, t, p, r);
    }
  }

  /** The lock of a Stop that goes on takes the cleanup. */
  function CallGoal(s: State, a: Action, p: Place): Place {
    if a.CallStop? && Stopper(a.i) !in s.pc && !s.f.stopped && p == CleanupField then With(Stopper(a.i)) else p
  }

  lemma CallCarries(s: State, a: Action, p: Place, r: Release)
    requires !a.Step? && Holds(s, p, r)
    ensures Holds(Next(s, a), CallGoal(s, a, p), r)
  {
    hide Stepped;
  }

  lemma NextCarries(s: State, a: Action, r: Release)
    requires Numbered(s) && SourceIsOwned(s) && AllTyped(s) && !Leaks(s, a) && Somewhere(s, r)
    ensures Somewhere(Next(s, a), r)
  {
    var p :| Holds(s, p, r);
    if a.Step? {
      if a.t in s.pc {
        StepCarries(s, a.t, a.choice, p, r);
        assert a == Step(a.t, a.choice);
      }
    } else {
      CallCarries(s, a, p, r);
    }
    hide Stepped;
    hide Holds;
    hide Numbered;
  }

  // ----- new releases -----

  lemma LaunchIsPlaced(s: State, t: Thread, c: Choice)
    requires t in s.pc && Numbered(s)
    ensures var next := LaunchStep(s, t, s.pc[t], c);
            && s.nextRelease <= next.nextRelease <= s.nextRelease + 1
            && (next.nextRelease > s.nextRelease ==> Holds(next, NewPlace(s, t, c), s.nextRelease))
  {
  }

  lemma NewIsPlaced(s: State, a: Action)
    requires Numbered(s)
    ensures s.nextRelease <= Next(s, a).nextRelease <= s.nextRelease + 1
    ensures Next(s, a).nextRelease > s.nextRelease ==> Somewhere(Next(s, a), s.nextRelease)
  {
    if a.Step? && a.t in s.pc {
      var pc := s.pc[a.t];
      if InLaunch(pc) {
        LaunchIsPlaced(s, a.t, a.choice);
        hide LaunchStep;
      } else {
        SameRelease(s, a.t, a.choice);
        hide Stepped;
      }
    }
    hide Stepped;
    hide Numbered;
    hide Holds;
  }

  lemma SameRelease(s: State, t: Thread, c: Choice)
    requires t in s.pc && !InLaunch(s.pc[t])
    ensures Stepped(s, t, s.pc[t], c).nextRelease == s.nextRelease
  {
  }

  // ----- the fields, once finish has taken what they held -----

  lemma LaunchOwns(s: State, t: Thread, c: Choice)
    requires t in s.pc && SourceIsOwned(s)
    ensures SourceIsOwned(LaunchStep(s, t, s.pc[t], c))
  {
  }

  lemma FinishOwns(s: State, t: Thread)
    requires t in s.pc && SourceIsOwned(s)
    ensures SourceIsOwned(FinishStep(s, t, s.pc[t]))
  {
  }

  lemma OtherOwns(s: State, t: Thread, c: Choice)
    requires t in s.pc && !InLaunch(s.pc[t]) && !InFinish(s.pc[t]) && !s.pc[t].Entering?
    ensures var next := Stepped(s, t, s.pc[t], c);
            next.source == s.source && next.sourceOwned == s.sourceOwned && next.f.cleanup == s.f.cleanup
  {
  }

  lemma NextOwns(s: State, a: Action)
    requires SourceIsOwned(s)
    ensures SourceIsOwned(Next(s, a))
  {
    if a.Step? && a.t in s.pc {
      if InLaunch(s.pc[a.t]) {
        LaunchOwns(s, a.t, a.choice);
        hide LaunchStep;
      } else if InFinish(s.pc[a.t]) || s.pc[a.t].Entering? {
        FinishOwns(s, a.t);
        hide FinishStep;
      } else {
        OtherOwns(s, a.t, a.choice);
        hide Stepped;
      }
    }
    hide Stepped;
  }

  /** What finish has taken from the fields nobody has put there again. */
  predicate Emptied(s: State) {
    && (s.f.finished ==> s.f.cleanup == None)
    && (PastRelease(s) ==> s.source == None)
  }

  lemma FinishEmpties(s: State, t: Thread)
    requires FinishOnce(s) && Emptied(s) && t in s.pc && (InFinish(s.pc[t]) || s.pc[t].Entering?)
    ensures Emptied(FinishStep(s, t, s.pc[t]))
  {
  }

  lemma LaunchLeavesEmpty(s: State, t: Thread, c: Choice)
    requires FinishOnce(s) && Numbered(s) && Emptied(s) && t in s.pc && InLaunch(s.pc[t]) && !Leaks(s, Step(t, c))
    ensures Emptied(LaunchStep(s, t, s.pc[t], c))
  {
    LaunchMoves(s, t, c);
    LaunchFields(s, t, c);
    hide LaunchStep;
    hide Numbered;
  }

  lemma LaunchFields(s: State, t: Thread, c: Choice)
    requires t in s.pc && InLaunch(s.pc[t])
    ensures var next := LaunchStep(s, t, s.pc[t], c);
            && next.f.cleanup == (if s.pc[t].Keeping? then Some(s.pc[t].kept) else s.f.cleanup)
            && next.source == (if s.pc[t].Launching? && !c.planFails && c.ownsSource && !s.sourceOwned
                               then Some(s.nextRelease) else s.source)
  {
  }

  lemma OtherLeavesEmpty(s: State, t: Thread, c: Choice)
    requires FinishOnce(s) && Numbered(s) && Emptied(s) && t in s.pc
    requires !InLaunch(s.pc[t]) && !InFinish(s.pc[t]) && !s.pc[t].Entering?
    ensures Emptied(Stepped(s, t, s.pc[t], c))
  {
    StepMoves(s, t, c);
    StepOutside(s, t, c);
    OtherOwns(s, t, c);
    WinnerIs(s);
    hide Stepped;
    hide Numbered;
    hide FinishOnce;
    hide InLaunch;
  }

  lemma WinnerIs(s: State)
    requires FinishOnce(s)
    ensures s.winner.Some? ==> s.winner.value in s.pc && (InFinish(s.pc[s.winner.value]) || s.pc[s.winner.value].Returned?)
    ensures s.f.finished <==> s.winner.Some?
  {
  }

  lemma CallLeavesEmpty(s: State, a: Action)
    requires FinishOnce(s) && Emptied(s) && !a.Step?
    ensures Emptied(Next(s, a))
  {
    hide Stepped;
  }

  lemma NextLeavesEmpty(s: State, a: Action)
    requires FinishOnce(s) && Numbered(s) && Emptied(s) && !Leaks(s, a)
    ensures Emptied(Next(s, a))
  {
    if a.Step? {
      if a.t in s.pc {
        assert a == Step(a.t, a.choice);
        var pc := s.pc[a.t];
        if InLaunch(pc) {
          LaunchLeavesEmpty(s, a.t, a.choice);
        } else if InFinish(pc) || pc.Entering? {
          FinishEmpties(s, a.t);
        } else {
          OtherLeavesEmpty(s, a.t, a.choice);
        }
      }
    } else {
      CallLeavesEmpty(s, a);
    }
    hide LaunchStep;
    hide FinishStep;
    hide WaitStep;
    hide RestartStep;
    hide StopStep;
    hide Emptied;
    hide Numbered;
    hide Leaks;
  }

  // ----- such a launch loses one for good -----

  /** Nothing will call r: it is nowhere, or in a field that finish has already taken what it wants from. */
  ghost predicate Stuck(s: State, r: Release) {
    && r < s.nextRelease
    && (|| !Somewhere(s, r)
        || (s.f.finished && s.f.cleanup == Some(r))
        || (PastRelease(s) && s.source == Some(r)))
  }

  /** Where a release is it came from, unless it is new. */
  lemma NextFrom(s: State, a: Action, r: Release)
    requires Numbered(s) && Somewhere(Next(s, a), r)
    ensures Somewhere(s, r) || (r == s.nextRelease && Next(s, a).nextRelease == r + 1)
  {
    var p :| Holds(Next(s, a), p, r);
    if a.Step? {
      if a.t in s.pc {
        StepHandsOver(s, a.t, a.choice, p, r);
      }
    } else {
      CallFrom(s, a, p, r);
    }
    hide Stepped;
    hide Holds;
    hide Numbered;
  }

  lemma CallFrom(s: State, a: Action, p: Place, r: Release)
    requires !a.Step? && Holds(Next(s, a), p, r)
    ensures Holds(s, p, r) || Holds(s, CleanupField, r)
  {
    hide Stepped;
  }

  /** A cleanup kept over another: the other is lost. */
  lemma KeptOver(s: State, t: Thread, c: Choice, r: Release)
    requires Safe(s) && t in s.pc && s.pc[t].Keeping? && s.f.cleanup == Some(r)
    ensures !Somewhere(Next(s, Step(t, c)), r)
  {
    var next := LaunchStep(s, t, s.pc[t], c);
    assert Holds(s, CleanupField, r) && Holds(s, With(t), s.pc[t].kept);
    assert OnePlaceEach(s);
    forall p ensures !Holds(next, p, r) {
      if Holds(next, p, r) {
        KeepingHandsOver(s, t, c, p, r);
      }
    }
    hide FinishOnce;
    hide Numbered;
  }

  lemma KeptIsMade(s: State, t: Thread, c: Choice)
    requires Safe(s) && t in s.pc && s.pc[t].Keeping?
    ensures var next := Next(s, Step(t, c));
            && s.pc[t].kept < s.nextRelease == next.nextRelease
            && next.f.cleanup == Some(s.pc[t].kept) && next.f.finished == s.f.finished
    ensures Holds(s, With(t), s.pc[t].kept)
  {
    assert Holds(s, With(t), s.pc[t].kept);
    hide FinishOnce;
    hide Numbered;
  }

  /** Past the capture source finish stays past it. */
  lemma PastStays(s: State, a: Action)
    requires Safe(s) && SourceIsOwned(s) && PastRelease(s) && s.source.Some?
    ensures PastRelease(Next(s, a)) && Next(s, a).source == s.source
  {
    var w := s.winner.value;
    NotReporting(s, a);
    if a.Step? && a.t in s.pc {
      if a.t == w {
        WinnerGoesOn(s, w, a.choice);
      } else {
        OthersStay(s, a, w);
        SourceStays(s, a.t, a.choice);
      }
    } else if a.Step? {
    } else {
      OthersStay(s, a, w);
      CallKeepsSource(s, a);
    }
    hide Stepped;
    hide Numbered;
    hide OnePlaceEach;
    hide FinishOnce;
  }

  lemma CallKeepsSource(s: State, a: Action)
    requires !a.Step?
    ensures Next(s, a).source == s.source
  {
    hide Stepped;
  }

  lemma WinnerGoesOn(s: State, w: Thread, c: Choice)
    requires w in s.pc && (s.pc[w].Reporting? || s.pc[w].Closing? || s.pc[w].Returned?)
    ensures var next := Next(s, Step(w, c));
            && next.source == s.source && next.winner == s.winner
            && w in next.pc && (next.pc[w].Reporting? || next.pc[w].Closing? || next.pc[w].Returned?)
  {
  }

  lemma SourceStays(s: State, t: Thread, c: Choice)
    requires FinishOnce(s) && SourceIsOwned(s) && PastRelease(s) && s.source.Some? && t in s.pc && s.winner != Some(t)
    ensures Stepped(s, t, s.pc[t], c).source == s.source
  {
    assert !InFinish(s.pc[t]);
    if InLaunch(s.pc[t]) {
      LaunchFields(s, t, c);
      hide LaunchStep;
    } else if s.pc[t].Entering? {
      hide Stepped;
      EnteringKeepsSource(s, t, c);
    } else {
      OtherOwns(s, t, c);
      hide Stepped;
    }
  }

  lemma EnteringKeepsSource(s: State, t: Thread, c: Choice)
    requires t in s.pc && s.pc[t].Entering?
    ensures Stepped(s, t, s.pc[t], c).source == s.source
  {
  }

  /** The cleanup field after finish's lock: only a launch that keeps one changes it. */
  lemma CleanupStays(s: State, a: Action)
    requires FinishOnce(s) && s.f.finished && !(a.Step? && a.t in s.pc && s.pc[a.t].Keeping?)
    ensures Next(s, a).f.cleanup == s.f.cleanup
  {
    if a.Step? && a.t in s.pc {
      var pc := s.pc[a.t];
      if InLaunch(pc) {
        LaunchFields(s, a.t, a.choice);
        hide LaunchStep;
      } else if InFinish(pc) || pc.Entering? {
        FinishKeepsCleanup(s, a.t);
        hide FinishStep;
      } else {
        OtherOwns(s, a.t, a.choice);
        hide Stepped;
      }
    }
    hide Stepped;
  }

  lemma FinishKeepsCleanup(s: State, t: Thread)
    requires s.f.finished && t in s.pc
    ensures FinishStep(s, t, s.pc[t]).f.cleanup == s.f.cleanup
  {
  }

  lemma FinishedStays(s: State, a: Action)
    requires Safe(s) && s.f.finished
    ensures Next(s, a).f.finished
  {
    NextOnlyGrows(s, a);
    hide Next;
  }

  lemma NextStuck(s: State, a: Action, r: Release)
    requires Safe(s) && SourceIsOwned(s) && Stuck(s, r)
    ensures Stuck(Next(s, a), r)
  {
    SafeParts(s);
    NewIsPlaced(s, a);
    hide Safe;
    hide Next;
    hide Somewhere;
    hide PastRelease;
    if !Somewhere(s, r) {
      if Somewhere(Next(s, a), r) {
        NextFrom(s, a, r);
      }
    } else if s.f.finished && s.f.cleanup == Some(r) {
      FinishedStays(s, a);
      if a.Step? && a.t in s.pc && s.pc[a.t].Keeping? {
        KeptOver(s, a.t, a.choice, r);
        assert a == Step(a.t, a.choice);
      } else {
        CleanupStays(s, a);
      }
    } else {
      PastStays(s, a);
    }
  }

  lemma SafeParts(s: State)
    requires Safe(s)
    ensures FinishOnce(s) && Numbered(s) && OnePlaceEach(s)
  {
  }

  /** What such a launch loses. */
  lemma LeakIsStuck(s: State, a: Action) returns (r: Release)
    requires Safe(s) && SourceIsOwned(s) && Leaks(s, a)
    ensures Stuck(Next(s, a), r)
    ensures Somewhere(s, r) || r == s.nextRelease
  {
    var t, c := a.t, a.choice;
    assert a == Step(t, c);
    SafeParts(s);
    NewIsPlaced(s, a);
    if s.pc[t].Keeping? {
      KeptIsMade(s, t, c);
      if s.f.cleanup.Some? {
        r := s.f.cleanup.value;
        KeptOver(s, t, c, r);
        assert Holds(s, CleanupField, r);
      } else {
        r := s.pc[t].kept;
      }
    } else {
      r := s.nextRelease;
      LateSource(s, t, c);
    }
    hide Next;
    hide Holds;
    hide Safe;
    hide FinishOnce;
    hide Numbered;
  }

  lemma LateSource(s: State, t: Thread, c: Choice)
    requires Safe(s) && Leaks(s, Step(t, c)) && s.pc[t].Launching?
    ensures var next := Next(s, Step(t, c));
            PastRelease(next) && next.source == Some(s.nextRelease) && next.nextRelease == s.nextRelease + 1
  {
    WinnerIs(s);
    var next := Next(s, Step(t, c));
    assert next.pc == s.pc && next.winner == s.winner;
    hide Safe;
  }

  // ----- over a run -----

  ghost predicate NoLeaks(start: State, actions: seq<Action>) {
    forall k | 0 <= k < |actions| :: !Leaks(Run(start, actions[..k]), actions[k])
  }

  lemma OneMoreLeaks(start: State, actions: seq<Action>)
    requires actions != []
    ensures var n := |actions| - 1;
            NoLeaks(start, actions) <==> NoLeaks(start, actions[..n]) && !Leaks(Run(start, actions[..n]), actions[n])
  {
    hide Leaks;
    hide Run;
    var n := |actions| - 1;
    var init := actions[..n];
    assert forall k | 0 <= k < n :: init[..k] == actions[..k] && init[k] == actions[k];
    if NoLeaks(start, actions) {
      forall k | 0 <= k < n ensures !Leaks(Run(start, init[..k]), init[k]) {
        assert !Leaks(Run(start, actions[..k]), actions[k]);
      }
    }
  }

  /** What holds of the session's releases after every run. */
  ghost predicate Tracked(cleanup: bool, source: bool, s: State, none: bool) {
    && Safe(s) && SourceIsOwned(s) && AllTyped(s) && s.nextRelease >= 2
    && (forall r | Somewhere(s, r) :: Made(cleanup, source, s, r))
    && if none then Emptied(s) && forall r | Made(cleanup, source, s, r) :: Somewhere(s, r)
       else exists r :: Made(cleanup, source, s, r) && Stuck(s, r)
  }

  lemma StartIsTracked(isBroad: bool, cleanup: bool, source: bool)
    ensures Tracked(cleanup, source, Start(isBroad, cleanup, source), true)
  {
    var s := Start(isBroad, cleanup, source);
    StartIsSafe(isBroad, cleanup, source);
    StartTyped(isBroad, cleanup, source);
    forall r | Made(cleanup, source, s, r) ensures Somewhere(s, r) {
      assert r == 0 ==> Holds(s, CleanupField, r);
      assert r == 1 ==> Holds(s, SourceField, r);
    }
    hide Safe;
    hide AllTyped;
  }

  lemma MadeStays(cleanup: bool, source: bool, s: State, a: Action)
    requires Numbered(s) && s.nextRelease >= 2 && forall r | Somewhere(s, r) :: Made(cleanup, source, s, r)
    ensures forall r | Somewhere(Next(s, a), r) :: Made(cleanup, source, Next(s, a), r)
    ensures forall r | Made(cleanup, source, s, r) :: Made(cleanup, source, Next(s, a), r)
    ensures forall r: Release | Made(cleanup, source, Next(s, a), r) ::
              Made(cleanup, source, s, r) || (r == s.nextRelease && Next(s, a).nextRelease == r + 1)
  {
    NewIsPlaced(s, a);
    forall r | Somewhere(Next(s, a), r) ensures Made(cleanup, source, Next(s, a), r) {
      NextFrom(s, a, r);
    }
    hide Next;
    hide Somewhere;
    hide Numbered;
  }

  lemma NextIsTracked(cleanup: bool, source: bool, s: State, none: bool, a: Action)
    requires Tracked(cleanup, source, s, none)
    ensures Tracked(cleanup, source, Next(s, a), none && !Leaks(s, a))
  {
    SafeParts(s);
    NextIsSafe(s, a);
    NextOwns(s, a);
    NextTyped(s, a);
    NewIsPlaced(s, a);
    MadeStays(cleanup, source, s, a);
    hide Safe;
    hide SourceIsOwned;
    hide AllTyped;
    hide Next;
    hide Numbered;
    hide FinishOnce;
    hide OnePlaceEach;
    hide Somewhere;
    hide Made;
    if !none {
      var r :| Made(cleanup, source, s, r) && Stuck(s, r);
      NextStuck(s, a, r);
    } else if Leaks(s, a) {
      var r := LeakIsStuck(s, a);
      StuckIsMade(cleanup, source, s, a, r);
    } else {
      NextLeavesEmpty(s, a);
      forall r | Made(cleanup, source, Next(s, a), r) ensures Somewhere(Next(s, a), r) {
        if Made(cleanup, source, s, r) {
          NextCarries(s, a, r);
        }
      }
    }
  }

  lemma StuckIsMade(cleanup: bool, source: bool, s: State, a: Action, r: Release)
    requires s.nextRelease >= 2 && Stuck(Next(s, a), r) && (Somewhere(s, r) || r == s.nextRelease)
    requires forall q | Somewhere(s, q) :: Made(cleanup, source, s, q)
    requires forall q | Made(cleanup, source, s, q) :: Made(cleanup, source, Next(s, a), q)
    ensures Made(cleanup, source, Next(s, a), r)
  {
    hide Next;
    hide Somewhere;
    hide PastRelease;
  }

  lemma {:induction false} RunIsTracked(isBroad: bool, cleanup: bool, source: bool, actions: seq<Action>)
    ensures var start := Start(isBroad, cleanup, source);
            Tracked(cleanup, source, Run(start, actions), NoLeaks(start, actions))
  {
    var start := Start(isBroad, cleanup, source);
    LastOf(start, actions);
    hide Run;
    hide Tracked;
    hide Next;
    hide Leaks;
    if actions == [] {
      StartIsTracked(isBroad, cleanup, source);
    } else {
      var n := |actions| - 1;
      RunIsTracked(isBroad, cleanup, source, actions[..n]);
      OneMoreLeaks(start, actions);
      NextIsTracked(cleanup, source, Run(start, actions[..n]), NoLeaks(start, actions[..n]), actions[n]);
    }
  }

  /** No goroutine is on the way to call or to keep a release. */
  ghost predicate NobodyHolds(s: State) {
    forall t, r :: !Holds(s, With(t), r)
  }

  /** Once Done is closed and no goroutine holds a release, every release the session had, from the start or from a
      launch, has been called exactly when no launch kept a cleanup over another or after finish's lock, nor gave
      the session a capture source after finish had released it. */
  lemma AllCalledIff(isBroad: bool, cleanup: bool, source: bool, actions: seq<Action>)
    requires var s := Run(Start(isBroad, cleanup, source), actions); s.done == 1 && NobodyHolds(s)
    ensures var start := Start(isBroad, cleanup, source);
            var s := Run(start, actions);
            (forall r | Made(cleanup, source, s, r) :: r in s.ran) <==> NoLeaks(start, actions)
  {
    var start := Start(isBroad, cleanup, source);
    var s := Run(start, actions);
    RunIsTracked(isBroad, cleanup, source, actions);
    SafeParts(s);
    hide Run;
    hide NoLeaks;
    if NoLeaks(start, actions) {
      DoneIsPast(s);
      forall r | Made(cleanup, source, s, r) ensures r in s.ran {
        var p :| Holds(s, p, r);
        HeldWhere(s, p, r);
      }
    } else {
      var r :| Made(cleanup, source, s, r) && Stuck(s, r);
      StuckIsNotCalled(s, r);
    }
    hide Safe;
    hide Numbered;
  }

  lemma DoneIsPast(s: State)
    requires FinishOnce(s) && s.done == 1 && Emptied(s)
    ensures s.f.cleanup == None && s.source == None
  {
  }

  lemma HeldWhere(s: State, p: Place, r: Release)
    requires Holds(s, p, r) && NobodyHolds(s) && s.f.cleanup == None && s.source == None
    ensures r in s.ran
  {
    match p
    case With(t) => assert false;
    case Ran(_) =>
    case CleanupField =>
    case SourceField =>
  }

  lemma StuckIsNotCalled(s: State, r: Release)
    requires OnePlaceEach(s) && Stuck(s, r)
    ensures r !in s.ran
  {
    if r in s.ran {
      var k :| 0 <= k < |s.ran| && s.ran[k] == r;
      assert Holds(s, Ran(k), r);
      assert s.f.cleanup == Some(r) ==> Holds(s, CleanupField, r);
      assert s.source == Some(r) ==> Holds(s, SourceField, r);
    }
  }

  // ----- it happens -----

  /** The launch keeps a cleanup. */
  const KEEPS := Choice(false, false, true, false, false)

  /** The session is finished while its Restart launches. */
  function LateLaunch(pc: Pc): State {
    var s := Replacing(pc, Cleaning(None, true));
    s.(f := AfterFinish(s.f), winner := Some(Supervisor(0)), exited := {0}, nextRelease := if pc.Keeping? then 3 else 2)
  }

  lemma FinishesMeanwhile()
    ensures Next(Replacing(Launching, Entering(true)), Step(Supervisor(0), TIMEOUT)) == LateLaunch(Launching)
    ensures Next(LateLaunch(Launching), Step(Restarter(0), KEEPS)) == LateLaunch(Keeping(2))
    ensures Leaks(LateLaunch(Keeping(2)), Step(Restarter(0), TIMEOUT))
  {
  }

  /** With one Restart alone: its launch keeps a cleanup after the supervisor of the old encoder, past its check when
      Restart was called, has finished the session. */
  lemma LateLaunchLeaks() returns (actions: seq<Action>)
    ensures SerialRun(BROADCAST, actions) && !NoLeaks(BROADCAST, actions)
  {
    FinishesMeanwhile();
    assert MayBe(Entering(true));
    hide *;
    actions := RestartUntilLaunching(Entering(true));
    actions := ThenStep(actions, Replacing(Launching, Entering(true)), Supervisor(0), LateLaunch(Launching));
    StepIsSerial(LateLaunch(Launching), Restarter(0), KEEPS);
    actions := Then(BROADCAST, actions, Step(Restarter(0), KEEPS), LateLaunch(Keeping(2)));
    StepIsSerial(LateLaunch(Keeping(2)), Restarter(0), TIMEOUT);
    actions := LeaksThen(actions, LateLaunch(Keeping(2)), Step(Restarter(0), TIMEOUT));
  }

  lemma LeaksThen(before: seq<Action>, s: State, a: Action) returns (actions: seq<Action>)
    requires SerialRun(BROADCAST, before) && Run(BROADCAST, before) == s && Serial(s, a) && Leaks(s, a)
    ensures SerialRun(BROADCAST, actions) && !NoLeaks(BROADCAST, actions)
  {
    hide Leaks;
    hide Run;
    actions := before + [a];
    assert actions[..|before|] == before && actions[|before|] == a;
  }
}