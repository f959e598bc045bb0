/** One encoder at a time: a Restart starts the next only once the one before is gone, unless waiting for it timed
    out. */
module SessionEncoders {
  import opened Options
  import opened Session
  import opened SessionRuns
  import opened SessionLost
  import opened SessionReleases
  import opened SessionEnds

  predicate NoTimeout(a: Action) {
    a.Step? ==> !a.choice.timedOut
  }

  /** A Restart at pc is past its wait for the old encoder, and has not attached a new one. */
  predicate PastWait(pc: Pc) {
    pc.CheckingStop? || pc.Abandoning? || InLaunch(pc)
  }

  /** Every encoder but the current one is gone, and the current one too once a Restart has waited for it. */
  ghost predicate OneAtATime(s: State, r: Option<nat>) {
    && s.f.gen.Some?
    && (forall g: Gen | g < s.nextGen :: g == s.f.gen.value || g in s.exited)
    && (PastWait(At(s, r)) ==> s.f.gen.value in s.exited)
    && (At(s, r).Killing? || At(s, r).AwaitingExit? ==> At(s, r).replaced == s.f.gen.value)
  }

  lemma WaitIsOne(s: State, g: Gen, r: Option<nat>)
    requires OneAtATime(s, r) && OneRestart(s, r) && Supervisor(g) in s.pc && InWait(s.pc[Supervisor(g)])
    ensures OneAtATime(WaitStep(s, g, s.pc[Supervisor(g)]), r)
  {
    assert s.exited <= WaitStep(s, g, s.pc[Supervisor(g)]).exited;
  }

  lemma FinishLeaves(s: State, t: Thread)
    requires t in s.pc
    ensures FinishStep(s, t, s.pc[t]).exited == s.exited && FinishStep(s, t, s.pc[t]).nextGen == s.nextGen
  {
  }

  lemma FinishIsOne(s: State, t: Thread, r: Option<nat>)
    requires OneAtATime(s, r) && t in s.pc && (InFinish(s.pc[t]) || s.pc[t].Entering?)
    ensures OneAtATime(FinishStep(s, t, s.pc[t]), r)
  {
    var next := FinishStep(s, t, s.pc[t]);
    FinishSteps(s, t);
    FinishLeaves(s, t);
    hide FinishStep;
    AtAfter(s, next, t, r);
    hide At;
    hide SameRestart;
  }

  lemma AtAfter(s: State, s': State, t: Thread, r: Option<nat>)
    requires SameRestart(s, s', t)
    ensures s'.f.gen == s.f.gen && (At(s', r) == At(s, r) || At(s', r) == s'.pc[t])
  {
  }

  lemma RestartIsOne(s: State, i: nat, c: Choice, r: Option<nat>)
    requires OneAtATime(s, r) && r == Some(i) && Restarter(i) in s.pc && InRestart(s.pc[Restarter(i)]) && !c.timedOut
    ensures OneAtATime(RestartStep(s, Restarter(i), s.pc[Restarter(i)], c), r)
  {
  }

  lemma LaunchIsOne(s: State, i: nat, c: Choice, r: Option<nat>)
    requires OneAtATime(s, r) && Numbered(s) && r == Some(i) && Restarter(i) in s.pc && InLaunch(s.pc[Restarter(i)])
    ensures OneAtATime(LaunchStep(s, Restarter(i), s.pc[Restarter(i)], c), r)
  {
  }

  lemma StopIsOne(s: State, t: Thread, r: Option<nat>)
    requires OneAtATime(s, r) && t in s.pc && Typed(t, s.pc[t])
    requires s.pc[t].StopCleaning? || s.pc[t].Cancelling? || s.pc[t].Returned?
    ensures OneAtATime(StopStep(s, t, s.pc[t]), r)
  {
  }

  lemma StepIsOne(s: State, t: Thread, c: Choice, r: Option<nat>)
    requires OneAtATime(s, r) && OneRestart(s, r) && Numbered(s) && t in s.pc && !c.timedOut
    ensures OneAtATime(Stepped(s, t, s.pc[t], c), r)
  {
    assert Typed(t, s.pc[t]);
    var pc := s.pc[t];
    if InWait(pc) {
      WaitIsOne(s, t.g, r);
    } else if InFinish(pc) || pc.Entering? {
      FinishIsOne(s, t, r);
    } else if pc.Returned? || t.Stopper? {
      StopIsOne(s, t, r);
    } else {
      assert InFlight(s, t.i);
      if InLaunch(pc) {
        LaunchIsOne(s, t.i, c, r);
      } else {
        RestartIsOne(s, t.i, c, r);
      }
    }
    hide OneAtATime;
    hide OneRestart;
    hide WaitStep;
    hide FinishStep;
    hide RestartStep;
    hide StopStep;
    hide LaunchStep;
  }

  lemma CallIsOne(s: State, a: Action, r: Option<nat>)
    requires OneAtATime(s, r) && OneRestart(s, r) && Serial(s, a) && !a.Step?
    ensures OneAtATime(Next(s, a), InFlightAfter(s, a, r))
  {
    hide Stepped;
    assert a.CallRestart? ==> r == None;
  }

  lemma DoneIsOne(s: State, r: Option<nat>)
    requires OneAtATime(s, r) && At(s, r).Returned?
    ensures OneAtATime(s, None)
  {
  }

  lemma NextIsOne(s: State, a: Action, r: Option<nat>)
    requires OneAtATime(s, r) && OneRestart(s, r) && Numbered(s) && Serial(s, a) && NoTimeout(a)
    ensures OneAtATime(Next(s, a), InFlightAfter(s, a, r))
  {
    if a.Step? {
      if a.t in s.pc {
        StepIsOne(s, a.t, a.choice, r);
      }
      if At(Next(s, a), r).Returned? {
        DoneIsOne(Next(s, a), r);
      }
      hide Stepped;
    } else {
      CallIsOne(s, a, r);
      hide Next;
    }
    hide OneAtATime;
    hide OneRestart;
    hide Numbered;
    hide At;
  }

  lemma {:induction false} RunIsOne(isBroad: bool, cleanup: bool, source: bool, actions: seq<Action>)
    requires SerialRun(Start(isBroad, cleanup, source), actions)
    requires forall k | 0 <= k < |actions| :: NoTimeout(actions[k])
    ensures var start := Start(isBroad, cleanup, source);
            OneAtATime(Run(start, actions), InFlightAfterRun(start, actions))
  {
    if actions != [] {
      var start, n := Start(isBroad, cleanup, source), |actions| - 1;
      var init := actions[..n];
      RunIsOne(isBroad, cleanup, source, init);
      RunKeeps(isBroad, cleanup, source, init);
      SafeIsNumbered(Run(start, init));
      hide OneAtATime;
      hide OneRestart;
      hide Numbered;
      hide Safe;
      hide Next;
      hide InFlightAfter;
      NextIsOne(Run(start, init), actions[n], InFlightAfterRun(start, init));
    }
  }

  /** With Restarts one at a time and no wait timing out, never are two encoders running, and none is when a Restart
      launches one. */
  lemma OneEncoder(isBroad: bool, cleanup: bool, source: bool, actions: seq<Action>)
    requires SerialRun(Start(isBroad, cleanup, source), actions)
    requires forall k | 0 <= k < |actions| :: NoTimeout(actions[k])
    ensures var s := Run(Start(isBroad, cleanup, source), actions);
            && (forall g: Gen, h: Gen | g < s.nextGen && h < s.nextGen && g !in s.exited && h !in s.exited :: g == h)
            && (forall t | t in s.pc && InLaunch(s.pc[t]) :: forall g: Gen | g < s.nextGen :: g in s.exited)
  {
    var start := Start(isBroad, cleanup, source);
    var s, r := Run(start, actions), InFlightAfterRun(start, actions);
    RunIsOne(isBroad, cleanup, source, actions);
    RunKeeps(isBroad, cleanup, source, actions);
    forall t | t in s.pc && InLaunch(s.pc[t]) ensures PastWait(At(s, r)) {
      assert Typed(t, s.pc[t]);
      assert InFlight(s, t.i);
    }
    hide Run;
    hide InFlightAfterRun;
    hide Safe;
    hide SerialRun;
  }

  // ----- which encoders are known to be gone -----

  predicate PastExit(s: State, g: Gen) {
    Supervisor(g) in s.pc && !s.pc[Supervisor(g)].Waiting? && !s.pc[Supervisor(g)].Exited?
  }

  ghost predicate ExitsAreSaid(s: State) {
    forall g: Gen :: g in s.exited <==> PastExit(s, g)
  }

  lemma ExitIsSaid(s: State, g: Gen)
    requires ExitsAreSaid(s) && Supervisor(g) in s.pc && InWait(s.pc[Supervisor(g)])
    ensures ExitsAreSaid(WaitStep(s, g, s.pc[Supervisor(g)]))
  {
    var next := WaitStep(s, g, s.pc[Supervisor(g)]);
    forall h: Gen ensures h in next.exited <==> PastExit(next, h) {
      assert h in s.exited <==> PastExit(s, h);
    }
  }

  lemma OthersSayNothing(s: State, t: Thread, c: Choice)
    requires t in s.pc && !InWait(s.pc[t])
    ensures Stepped(s, t, s.pc[t], c).exited == s.exited
  {
  }

  lemma StaysPastExit(s: State, t: Thread, c: Choice)
    requires t in s.pc && Typed(t, s.pc[t]) && !InWait(s.pc[t])
    ensures t in Stepped(s, t, s.pc[t], c).pc && !InWait(Stepped(s, t, s.pc[t], c).pc[t])
  {
    if InFinish(s.pc[t]) || s.pc[t].Entering? {
      FinishSteps(s, t);
      hide FinishStep;
    }
  }

  lemma StepIsSaid(s: State, t: Thread, c: Choice)
    requires ExitsAreSaid(s) && Numbered(s) && AllTyped(s) && t in s.pc
    ensures ExitsAreSaid(Stepped(s, t, s.pc[t], c))
  {
    if InWait(s.pc[t]) {
      assert Typed(t, s.pc[t]);
      ExitIsSaid(s, t.g);
      hide WaitStep;
      hide ExitsAreSaid;
    } else {
      StepMoves(s, t, c);
      OthersSayNothing(s, t, c);
      StaysPastExit(s, t, c);
      hide Stepped;
      var next := Stepped(s, t, s.pc[t], c);
      forall h: Gen ensures h in next.exited <==> PastExit(next, h) {
        assert h in s.exited <==> PastExit(s, h);
      }
      hide Numbered;
    }
  }

  lemma CallIsSaid(s: State, a: Action)
    requires ExitsAreSaid(s) && !a.Step?
    ensures ExitsAreSaid(Next(s, a))
  {
    hide Stepped;
    forall h: Gen ensures h in Next(s, a).exited <==> PastExit(Next(s, a), h) {
      assert h in s.exited <==> PastExit(s, h);
    }
  }

  /** Over every run an encoder's exit is announced exactly when its supervisor has taken it, and whoever waits for it
      goes on then. */
  lemma {:induction false} ExitedIff(isBroad: bool, cleanup: bool, source: bool, actions: seq<Action>)
    ensures var s := Run(Start(isBroad, cleanup, source), actions); ExitsAreSaid(s) && AllTyped(s) && Numbered(s)
  {
    var start := Start(isBroad, cleanup, source);
    StartIsSafe(isBroad, cleanup, source);
    StartTyped(isBroad, cleanup, source);
    LastOf(start, actions);
    if actions != [] {
      var init, a := actions[..|actions| - 1], actions[|actions| - 1];
      var s := Run(start, init);
      ExitedIff(isBroad, cleanup, source, init);
      hide *;
      NextTyped(s, a);
      NextNumbered(s, a);
      NextIsSaid(s, a);
    } else {
      hide Safe;
      forall h: Gen ensures !PastExit(start, h) {
      }
      SafeIsNumbered(start);
    }
  }

  lemma NextIsSaid(s: State, a: Action)
    requires ExitsAreSaid(s) && Numbered(s) && AllTyped(s)
    ensures ExitsAreSaid(Next(s, a))
  {
    if a.Step? {
      if a.t in s.pc {
        StepIsSaid(s, a.t, a.choice);
      }
      hide Stepped;
    } else {
      CallIsSaid(s, a);
      hide Next;
    }
    hide ExitsAreSaid;
  }

  // ----- a stopped session -----

  /** The Restart i has not come past the lock where it looks whether the session is stopped, or has given up there. */
  predicate NotLaunching(s: State, i: nat) {
    Restarter(i) in s.pc ==> match s.pc[Restarter(i)] {
      case Killing(_) => true
      case AwaitingExit(_) => true
      case CheckingStop => true
      case Abandoning => true
      case Returned => true
      case pc => pc.Entering? || InFinish(pc)
    }
  }

  lemma OwnStepLaunchesNothing(s: State, i: nat, c: Choice)
    requires s.f.stopped && NotLaunching(s, i) && Restarter(i) in s.pc
    ensures NotLaunching(Stepped(s, Restarter(i), s.pc[Restarter(i)], c), i)
  {
  }

  lemma NextLaunchesNothing(s: State, a: Action, i: nat)
    requires Numbered(s) && s.f.stopped && NotLaunching(s, i)
    ensures NotLaunching(Next(s, a), i)
  {
    if a.Step? && a.t in s.pc {
      if a.t == Restarter(i) {
        OwnStepLaunchesNothing(s, i, a.choice);
      } else {
        StepMoves(s, a.t, a.choice);
        NewAreSupervisors(s, a.t, a.choice);
      }
    }
    hide Stepped;
    hide Numbered;
  }

  /** Once the session is stopped, a Restart that has not yet looked whether it is launches nothing any more, and neither
      does one called later. */
  lemma {:induction false} StoppedLaunchesNothing(s: State, actions: seq<Action>, i: nat)
    requires Safe(s) && s.f.stopped && NotLaunching(s, i)
    ensures NotLaunching(Run(s, actions), i) && Run(s, actions).f.stopped
  {
    hide *;
    LastOf(s, actions);
    if actions != [] {
      var init := actions[..|actions| - 1];
      StoppedLaunchesNothing(s, init, i);
      RunIsSafe(s, init);
      SafeIsNumbered(Run(s, init));
      NextLaunchesNothing(Run(s, init), actions[|actions| - 1], i);
      StoppedStays(Run(s, init), actions[|actions| - 1]);
    }
  }

  /** When the wait times out two can run: here the old encoder has not exited when the new one is started. */
  lemma TimeoutOverlaps() returns (actions: seq<Action>)
    ensures var s := Run(BROADCAST, actions);
            && SerialRun(BROADCAST, actions)
            && Restarter(0) in s.pc && s.pc[Restarter(0)] == Attaching && 0 !in s.exited
  {
    assert MayBe(Waiting);
    assert 0 !in Replacing(Attaching, Waiting).exited && Replacing(Attaching, Waiting).pc[Restarter(0)] == Attaching;
    hide Run;
    hide SerialRun;
    actions := RestartUntilAttaching(Waiting);
  }
}
