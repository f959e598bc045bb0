/** Which sessions end, once their encoder is gone: when one is left unfinished, and when it stays so. */
module SessionEnds {
  import opened Options
  import opened Session
  import opened SessionRuns
  import opened SessionLost

  // ----- who goes to finish -----

  /** The action sends its goroutine to finish: a supervisor whose check finds its generation current and
      no restarting set, or a Restart that finds the session stopped or whose launch failed. */
  predicate GoesToFinish(s: State, a: Action) {
    a.Step? && a.t in s.pc && match s.pc[a.t] {
      case Checking(_) => a.t.Supervisor? && !Superseded(s.f, a.t.g)
      case Abandoning => true
      case Clearing(launched) => launched.None?
      case _ => false
    }
  }

  ghost predicate NobodyWent(s: State, actions: seq<Action>) {
    forall k | 0 <= k < |actions| :: !GoesToFinish(Run(s, actions[..k]), actions[k])
  }

  predicate AtFinish(s: State, t: Thread) {
    t in s.pc && s.pc[t].Entering?
  }

  /** The session is finished, or a goroutine is about to enter finish. */
  ghost predicate Ending(s: State) {
    s.f.finished || exists t :: AtFinish(s, t)
  }

  lemma StepEnding(s: State, t: Thread, c: Choice)
    requires Numbered(s) && t in s.pc
    ensures Ending(Next(s, Step(t, c))) <==> Ending(s) || GoesToFinish(s, Step(t, c))
  {
    var next := Stepped(s, t, s.pc[t], c);
    StepMoves(s, t, c);
    StepAtFinish(s, t, c);
    hide Stepped;
    hide Numbered;
    forall u | u != t ensures AtFinish(next, u) <==> AtFinish(s, u) {
    }
  }

  /** What a step from s to next means for t's way to finish. */
  predicate WaySaid(s: State, next: State, t: Thread, goes: bool) {
    && (AtFinish(s, t) ==> next.f.finished)
    && (!AtFinish(s, t) ==> (AtFinish(next, t) <==> goes))
    && (!AtFinish(s, t) ==> next.f.finished == s.f.finished)
  }

  lemma WaitWay(s: State, g: Gen, c: Choice)
    requires Supervisor(g) in s.pc && InWait(s.pc[Supervisor(g)])
    ensures WaySaid(s, WaitStep(s, g, s.pc[Supervisor(g)]), Supervisor(g), GoesToFinish(s, Step(Supervisor(g), c)))
  {
  }

  lemma FinishWay(s: State, t: Thread, c: Choice)
    requires t in s.pc && (InFinish(s.pc[t]) || s.pc[t].Entering?)
    ensures WaySaid(s, FinishStep(s, t, s.pc[t]), t, GoesToFinish(s, Step(t, c)))
  {
  }

  lemma RestartWay(s: State, t: Thread, c: Choice)
    requires t in s.pc && InRestart(s.pc[t])
    ensures WaySaid(s, RestartStep(s, t, s.pc[t], c), t, GoesToFinish(s, Step(t, c)))
  {
  }

  lemma LaunchWay(s: State, t: Thread, c: Choice)
    requires t in s.pc && InLaunch(s.pc[t])
    ensures WaySaid(s, LaunchStep(s, t, s.pc[t], c), t, GoesToFinish(s, Step(t, c)))
  {
  }

  lemma StopWay(s: State, t: Thread, c: Choice)
    requires t in s.pc && (s.pc[t].StopCleaning? || s.pc[t].Cancelling? || s.pc[t].Returned?)
    ensures WaySaid(s, StopStep(s, t, s.pc[t]), t, GoesToFinish(s, Step(t, c)))
  {
  }

  lemma StepAtFinish(s: State, t: Thread, c: Choice)
    requires t in s.pc
    ensures WaySaid(s, Stepped(s, t, s.pc[t], c), t, GoesToFinish(s, Step(t, c)))
  {
    hide WaitStep;
    hide FinishStep;
    hide RestartStep;
    hide LaunchStep;
    hide StopStep;
    var pc := s.pc[t];
    if InWait(pc) {
      if t.Supervisor? {
        WaitWay(s, t.g, c);
      }
    } else if InFinish(pc) || pc.Entering? {
      FinishWay(s, t, c);
    } else if InLaunch(pc) {
      LaunchWay(s, t, c);
    } else if InRestart(pc) {
      RestartWay(s, t, c);
    } else {
      StopWay(s, t, c);
    }
  }

  lemma NextEnding(s: State, a: Action)
    requires Numbered(s)
    ensures Ending(Next(s, a)) <==> Ending(s) || GoesToFinish(s, a)
  {
    if a.Step? {
      if a.t in s.pc {
        StepEnding(s, a.t, a.choice);
      }
    } else {
      hide Stepped;
      forall u ensures AtFinish(Next(s, a), u) <==> AtFinish(s, u) {
      }
    }
    hide Stepped;
    hide Numbered;
  }

  lemma NobodyOneMore(s: State, actions: seq<Action>)
    requires actions != []
    ensures var n := |actions| - 1;
            NobodyWent(s, actions) <==> NobodyWent(s, actions[..n]) && !GoesToFinish(Run(s, actions[..n]), actions[n])
  {
    hide GoesToFinish;
    hide Run;
    var n := |actions| - 1;
    var init := actions[..n];
    assert forall k | 0 <= k < n :: init[..k] == actions[..k] && init[k] == actions[k];
    if NobodyWent(s, actions) {
      forall k | 0 <= k < n ensures !GoesToFinish(Run(s, init[..k]), init[k]) {
        assert !GoesToFinish(Run(s, actions[..k]), actions[k]);
      }
    }
    if NobodyWent(s, init) && !GoesToFinish(Run(s, init), actions[n]) {
      forall k | 0 <= k < |actions| ensures !GoesToFinish(Run(s, actions[..k]), actions[k]) {
        if k < n {
          assert !GoesToFinish(Run(s, init[..k]), init[k]);
        }
      }
    }
  }

  lemma {:induction false} EndingIffSomebodyWent(s: State, actions: seq<Action>)
    requires Safe(s) && !Ending(s)
    ensures Ending(Run(s, actions)) <==> !NobodyWent(s, actions)
  {
    hide Ending;
    hide GoesToFinish;
    hide Next;
    hide Safe;
    if actions != [] {
      hide NobodyWent;
      var n := |actions| - 1;
      EndingIffSomebodyWent(s, actions[..n]);
      RunIsSafe(s, actions[..n]);
      SafeIsNumbered(Run(s, actions[..n]));
      NextEnding(Run(s, actions[..n]), actions[n]);
      NobodyOneMore(s, actions);
    }
  }

  lemma StartIsNotEnding(isBroad: bool, cleanup: bool, source: bool)
    ensures !Ending(Start(isBroad, cleanup, source))
  {
  }

  /** With Restarts one at a time: once the current supervisor has returned and no Restart is in flight, the
      session is left unfinished, with nobody about to finish it, exactly when that supervisor made its
      check in its own Restart's window, no supervisor before it passed its check, and no Restart failed or
      was given up. */
  lemma UnfinishedIff(isBroad: bool, cleanup: bool, source: bool, actions: seq<Action>)
    requires SerialRun(Start(isBroad, cleanup, source), actions)
    ensures var start := Start(isBroad, cleanup, source);
            var s := Run(start, actions);
            EncoderGone(s) ==> (!Ending(s) <==> s.f.gen.value in s.lost && NobodyWent(start, actions))
  {
    StartIsSafe(isBroad, cleanup, source);
    StartIsNotEnding(isBroad, cleanup, source);
    EndingIffSomebodyWent(Start(isBroad, cleanup, source), actions);
    UnfinishedMeansLost(isBroad, cleanup, source, actions);
    hide Safe;
    hide Run;
    hide SerialRun;
    hide EncoderGone;
    hide NobodyWent;
  }

  // ----- the supervisor that finishes -----

  /** The supervisor of g makes its check, with g current and restarting not set. */
  predicate PassesCheck(s: State, a: Action, g: Gen) {
    && a.Step? && a.t == Supervisor(g) && a.t in s.pc && s.pc[a.t].Checking?
    && s.f.gen == Some(g) && !s.f.restarting
  }

  /** Supervisors stay in wait and finish. */
  predicate SupervisorsTyped(s: State) {
    forall t | t in s.pc && t.Supervisor? :: Typed(t, s.pc[t])
  }

  lemma SupervisorStep(s: State, g: Gen, c: Choice)
    requires Supervisor(g) in s.pc && Typed(Supervisor(g), s.pc[Supervisor(g)])
    ensures var t := Supervisor(g);
            var next := Stepped(s, t, s.pc[t], c);
            && t in next.pc && Typed(t, next.pc[t])
            && (Finishing(next, g) ==> Finishing(s, g) || PassesCheck(s, Step(t, c), g))
  {
  }

  /** The supervisor of g is at finish, or in it, or was the one to finish. */
  predicate Finishing(s: State, g: Gen) {
    || s.winner == Some(Supervisor(g))
    || (Supervisor(g) in s.pc && (s.pc[Supervisor(g)].Entering? || InFinish(s.pc[Supervisor(g)])))
  }

  lemma OthersStep(s: State, t: Thread, c: Choice, g: Gen)
    requires Numbered(s) && t in s.pc && t != Supervisor(g)
    ensures Finishing(Next(s, Step(t, c)), g) ==> Finishing(s, g)
  {
    StepMoves(s, t, c);
    StepWinner(s, t, c);
    hide Stepped;
    hide Numbered;
  }

  lemma StepWinner(s: State, t: Thread, c: Choice)
    requires t in s.pc
    ensures Stepped(s, t, s.pc[t], c).winner == s.winner || Stepped(s, t, s.pc[t], c).winner == Some(t)
  {
  }

  lemma NextSupervisors(s: State, a: Action, g: Gen)
    requires Numbered(s) && SupervisorsTyped(s)
    ensures SupervisorsTyped(Next(s, a))
    ensures Finishing(Next(s, a), g) ==> Finishing(s, g) || PassesCheck(s, a, g)
  {
    if a.Step? && a.t in s.pc {
      if a.t.Supervisor? {
        SupervisorStep(s, a.t.g, a.choice);
      }
      if a.t != Supervisor(g) {
        OthersStep(s, a.t, a.choice, g);
      }
      StepMoves(s, a.t, a.choice);
      hide Finishing;
      hide PassesCheck;
    }
    hide Stepped;
    hide Numbered;
  }

  lemma {:induction false} FinisherPassed(start: State, actions: seq<Action>, g: Gen) returns (k: nat)
    requires Safe(start) && SupervisorsTyped(start) && !Finishing(start, g)
    ensures SupervisorsTyped(Run(start, actions))
    ensures Finishing(Run(start, actions), g) ==> k < |actions| && PassesCheck(Run(start, actions[..k]), actions[k], g)
  {
    hide Next;
    hide Safe;
    hide Finishing;
    hide PassesCheck;
    hide SupervisorsTyped;
    k := 0;
    if actions != [] {
      var n := |actions| - 1;
      var init := actions[..n];
      k := FinisherPassed(start, init, g);
      RunIsSafe(start, init);
      SafeIsNumbered(Run(start, init));
      NextSupervisors(Run(start, init), actions[n], g);
      if Finishing(Run(start, init), g) {
        assert init[..k] == actions[..k] && init[k] == actions[k];
      } else {
        k := n;
      }
    }
  }

  /** A supervisor that finishes the session made its check when its generation was current and restarting not
      set, however the goroutines interleave. */
  lemma OnlyTheCurrentFinishes(isBroad: bool, cleanup: bool, source: bool, actions: seq<Action>, g: Gen)
    returns (k: nat)
    requires Run(Start(isBroad, cleanup, source), actions).winner == Some(Supervisor(g))
    ensures k < |actions| && PassesCheck(Run(Start(isBroad, cleanup, source), actions[..k]), actions[k], g)
  {
    StartIsSafe(isBroad, cleanup, source);
    k := FinisherPassed(Start(isBroad, cleanup, source), actions, g);
  }

  lemma {:induction false} PrefixIsSerial(s: State, actions: seq<Action>, k: nat)
    requires SerialRun(s, actions) && k <= |actions|
    ensures SerialRun(s, actions[..k])
    decreases |actions|
  {
    if k == |actions| {
      assert actions[..k] == actions;
    } else {
      var init := actions[..|actions| - 1];
      PrefixIsSerial(s, init, k);
      assert init[..k] == actions[..k];
    }
  }

  /** With Restarts one at a time, no Restart was then between its first and its last lock. */
  lemma NoRestartThen(isBroad: bool, cleanup: bool, source: bool, actions: seq<Action>, g: Gen) returns (k: nat)
    requires SerialRun(Start(isBroad, cleanup, source), actions)
    requires Run(Start(isBroad, cleanup, source), actions).winner == Some(Supervisor(g))
    ensures k < |actions| && PassesCheck(Run(Start(isBroad, cleanup, source), actions[..k]), actions[k], g)
    ensures forall t | t in Run(Start(isBroad, cleanup, source), actions[..k]).pc ::
              !Restarting(Run(Start(isBroad, cleanup, source), actions[..k]).pc[t])
  {
    var start := Start(isBroad, cleanup, source);
    k := OnlyTheCurrentFinishes(isBroad, cleanup, source, actions, g);
    PrefixIsSerial(start, actions, k);
    RunKeeps(isBroad, cleanup, source, actions[..k]);
    hide Run;
    hide SerialRun;
    hide InFlightAfterRun;
    NoneRestarting(Run(start, actions[..k]), InFlightAfterRun(start, actions[..k]));
  }

  lemma NoneRestarting(s: State, r: Option<nat>)
    requires OneRestart(s, r) && !s.f.restarting
    ensures forall t | t in s.pc :: !Restarting(s.pc[t])
  {
    forall t | t in s.pc ensures !Restarting(s.pc[t]) {
      assert Typed(t, s.pc[t]);
      if t.Restarter? && Restarting(s.pc[t]) {
        assert InFlight(s, t.i);
      }
    }
  }

  // ----- a session that never ends -----

  /** A stopped session with only calls of Stop, and supervisors of generations replaced before,
      still running. */
  ghost predicate Dead(s: State) {
    && s.f.stopped && !s.f.finished && s.done == 0
    && forall t | t in s.pc ::
         || s.pc[t].Returned?
         || (t.Stopper? && (s.pc[t].StopCleaning? || s.pc[t].Cancelling?))
         || (t.Supervisor? && InWait(s.pc[t]) && s.f.gen != Some(t.g))
  }

  lemma NextStaysDead(s: State, a: Action)
    requires Dead(s)
    ensures Dead(Next(s, a))
  {
    if a.Step? && a.t in s.pc {
      var pc := s.pc[a.t];
      assert !InFinish(pc) && !pc.Entering? && !InLaunch(pc) && !InRestart(pc);
      if a.t.Supervisor? {
        WaitStaysDead(s, a.t.g);
      } else {
        StopStaysDead(s, a.t);
      }
      hide WaitStep;
      hide StopStep;
    } else {
      hide Stepped;
    }
  }

  lemma WaitStaysDead(s: State, g: Gen)
    requires Dead(s) && Supervisor(g) in s.pc
    ensures Dead(WaitStep(s, g, s.pc[Supervisor(g)])) && Dead(StopStep(s, Supervisor(g), s.pc[Supervisor(g)]))
  {
  }

  lemma StopStaysDead(s: State, t: Thread)
    requires Dead(s) && t in s.pc
    ensures Dead(StopStep(s, t, s.pc[t]))
  {
  }

  /** A dead session stays so: whatever happens after, any call of Restart and Stop included, Done does not
      close. */
  lemma {:induction false} StaysDead(s: State, actions: seq<Action>)
    requires Dead(s)
    ensures Dead(Run(s, actions)) && Run(s, actions).done == 0 && !Run(s, actions).f.finished
  {
    hide Next;
    if actions != [] {
      StaysDead(s, actions[..|actions| - 1]);
      NextStaysDead(Run(s, actions[..|actions| - 1]), actions[|actions| - 1]);
    }
  }

  /** A stopped session whose encoder is gone is dead unless it is ending. */
  lemma DeadIffNotEnding(isBroad: bool, cleanup: bool, source: bool, actions: seq<Action>)
    requires SerialRun(Start(isBroad, cleanup, source), actions)
    ensures var s := Run(Start(isBroad, cleanup, source), actions);
            EncoderGone(s) && s.f.stopped ==> (Dead(s) <==> !Ending(s))
  {
    RunKeeps(isBroad, cleanup, source, actions);
    var start := Start(isBroad, cleanup, source);
    var s, r := Run(start, actions), InFlightAfterRun(start, actions);
    hide Run;
    hide SerialRun;
    hide InFlightAfterRun;
    if EncoderGone(s) && s.f.stopped {
      if Dead(s) {
        assert forall t :: !AtFinish(s, t);
      }
      if !Ending(s) {
        NotEndingIsDead(s, r);
      }
    }
  }

  lemma NotEndingIsDead(s: State, r: Option<nat>)
    requires Safe(s) && OneRestart(s, r) && EncoderGone(s) && s.f.stopped && !Ending(s)
    ensures Dead(s)
  {
    assert s.winner == None && s.done == 0;
    forall t | t in s.pc
      ensures s.pc[t].Returned? || (t.Stopper? && (s.pc[t].StopCleaning? || s.pc[t].Cancelling?))
           || (t.Supervisor? && InWait(s.pc[t]) && s.f.gen != Some(t.g))
    {
      assert Typed(t, s.pc[t]) && !AtFinish(s, t);
      assert !InFinish(s.pc[t]);
      if t.Restarter? {
        assert !InFlight(s, t.i);
      }
    }
    hide OnePlaceEach;
    hide Numbered;
  }

  lemma {:induction false} RunCons(s: State, a: Action, more: seq<Action>)
    ensures Run(s, [a] + more) == Run(Next(s, a), more)
  {
    hide Next;
    var all := [a] + more;
    if more == [] {
      assert all == [a] && all[..0] == [];
    } else {
      assert all[..|all| - 1] == [a] + more[..|more| - 1];
      RunCons(s, a, more[..|more| - 1]);
    }
  }

  /** Steps left in finish. */
  function Left(pc: Pc): nat {
    match pc
    case Entering(_) => 5
    case Cleaning(_, _) => 4
    case Releasing(_) => 3
    case Reporting(_) => 2
    case Closing => 1
    case _ => 0
  }

  lemma FinishGoesOn(s: State, t: Thread, c: Choice)
    requires t in s.pc && (InFinish(s.pc[t]) || (s.pc[t].Entering? && !s.f.finished))
    ensures var next := Next(s, Step(t, c));
            && t in next.pc && Left(next.pc[t]) == Left(s.pc[t]) - 1
            && (InFinish(next.pc[t]) || next.pc[t].Returned?)
            && (next.pc[t].Returned? ==> next.done == s.done + 1)
  {
  }

  /** Left alone, the goroutine in finish ends the session. */
  lemma {:induction false} FinishEnds(s: State, t: Thread) returns (more: seq<Action>)
    requires t in s.pc && (InFinish(s.pc[t]) || (s.pc[t].Entering? && !s.f.finished))
    ensures Run(s, more).done > 0
    decreases Left(s.pc[t])
  {
    var a := Step(t, TIMEOUT);
    var next := Next(s, a);
    FinishGoesOn(s, t, TIMEOUT);
    hide Next;
    if next.pc[t].Returned? {
      more := [];
      assert Run(next, more) == next;
    } else {
      more := FinishEnds(next, t);
    }
    RunCons(s, a, more);
    more := [a] + more;
  }

  lemma EndingCanEnd(s: State) returns (more: seq<Action>)
    requires Safe(s) && Ending(s)
    ensures Run(s, more).done > 0
  {
    hide Next;
    hide OnePlaceEach;
    hide Numbered;
    if s.f.finished {
      var t := s.winner.value;
      if s.pc[t].Returned? {
        more := [];
      } else {
        more := FinishEnds(s, t);
      }
    } else {
      var t :| AtFinish(s, t);
      more := FinishEnds(s, t);
    }
  }

  /** Whatever happens from s on, Done does not close. */
  ghost predicate NeverEnds(s: State) {
    forall more :: Run(s, more).done == 0
  }

  /** Once such a session is stopped, Done never closes, whatever happens after, exactly when that supervisor
      made its check in its own Restart's window, no supervisor before it passed its check, and no Restart
      failed or was given up. */
  lemma NeverEndsIff(isBroad: bool, cleanup: bool, source: bool, actions: seq<Action>)
    requires SerialRun(Start(isBroad, cleanup, source), actions)
    ensures var start := Start(isBroad, cleanup, source);
            var s := Run(start, actions);
            EncoderGone(s) && s.f.stopped ==> (NeverEnds(s) <==> s.f.gen.value in s.lost && NobodyWent(start, actions))
  {
    var start := Start(isBroad, cleanup, source);
    var s := Run(start, actions);
    StartIsSafe(isBroad, cleanup, source);
    RunIsSafe(start, actions);
    DeadIffNotEnding(isBroad, cleanup, source, actions);
    UnfinishedIff(isBroad, cleanup, source, actions);
    hide *;
    if EncoderGone(s) && s.f.stopped {
      StoppedNeverEndsIff(s);
    }
  }

  lemma StoppedNeverEndsIff(s: State)
    requires Safe(s) && (Dead(s) <==> !Ending(s))
    ensures NeverEnds(s) <==> !Ending(s)
  {
    hide Run;
    hide Ending;
    hide Safe;
    if Ending(s) {
      var more := EndingCanEnd(s);
      assert Run(s, more).done != 0;
    } else {
      forall more ensures Run(s, more).done == 0 {
        StaysDead(s, more);
      }
    }
  }

  // ----- a run that ends so, and one that does not -----

  /** A broadcast whose Restart is on its way, before it attaches a generation, with the supervisor of the
      first one at sup. */
  function Replacing(pc: Pc, sup: Pc): State {
    State(Fields(false, true, false, true, Some(0), None), None, false,
          map[Supervisor(0) := sup, Restarter(0) := pc], GoneBy(sup), false, 0, 0, [], 1, 2, None, {}, {})
  }

  /** And once it has attached generation 1, whose supervisor is at wait. */
  function Replaced(restarting: bool, pc: Pc, wait: Pc, sup: Pc): State {
    State(Fields(false, restarting, false, true, Some(1), None), None, false,
          map[Supervisor(0) := sup, Restarter(0) := pc, Supervisor(1) := wait],
          GoneBy(sup) + if InWait(wait) && !wait.Checking? then {} else {1}, false, 0, 0, [], 2, 2, None,
          if restarting then {1} else {}, if wait.Returned? then {1} else {})
  }

  function GoneBy(sup: Pc): set<Gen> {
    if sup.Entering? then {0} else {}
  }

  /** Waiting for the old generation times out. */
  const TIMEOUT := Choice(true, false, false, false, false)

  /** actions, then a, after which the session is in state next. */
  lemma Then(start: State, actions: seq<Action>, a: Action, next: State) returns (more: seq<Action>)
    requires SerialRun(start, actions) && Serial(Run(start, actions), a)
    requires Next(Run(start, actions), a) == next
    ensures SerialRun(start, more) && Run(start, more) == next
  {
    assert (actions + [a])[..|actions|] == actions;
    more := actions + [a];
  }

  lemma StepIsSerial(s: State, t: Thread, c: Choice)
    ensures Serial(s, Step(t, c))
  {
  }

  lemma ThenStep(before: seq<Action>, s: State, t: Thread, next: State) returns (actions: seq<Action>)
    requires Next(s, Step(t, TIMEOUT)) == next
    requires SerialRun(BROADCAST, before) && Run(BROADCAST, before) == s
    ensures SerialRun(BROADCAST, actions) && Run(BROADCAST, actions) == next
  {
    hide *;
    StepIsSerial(s, t, TIMEOUT);
    actions := Then(BROADCAST, before, Step(t, TIMEOUT), next);
  }

  const BROADCAST := Start(true, false, false)

  /** The way of a Restart up to where it attaches. */
  predicate Follows(pc: Pc, next: Pc) {
    match pc
    case Killing(g) => g == 0 && next == AwaitingExit(0)
    case AwaitingExit(g) => g == 0 && next == CheckingStop
    case CheckingStop => next == Launching
    case Launching => next == Starting
    case Starting => next == Attaching
    case _ => false
  }

  lemma ReplacingGoes(pc: Pc, next: Pc, sup: Pc)
    requires Follows(pc, next)
    ensures Next(Replacing(pc, sup), Step(Restarter(0), TIMEOUT)) == Replacing(next, sup)
  {
  }

  lemma TheWay()
    ensures Follows(Killing(0), AwaitingExit(0)) && Follows(AwaitingExit(0), CheckingStop) && Follows(CheckingStop, Launching)
    ensures Follows(Launching, Starting) && Follows(Starting, Attaching)
  {
  }

  lemma ThenReplacing(before: seq<Action>, pc: Pc, next: Pc, sup: Pc) returns (actions: seq<Action>)
    requires Follows(pc, next)
    requires SerialRun(BROADCAST, before) && Run(BROADCAST, before) == Replacing(pc, sup)
    ensures SerialRun(BROADCAST, actions) && Run(BROADCAST, actions) == Replacing(next, sup)
  {
    hide *;
    ReplacingGoes(pc, next, sup);
    actions := ThenStep(before, Replacing(pc, sup), Restarter(0), Replacing(next, sup));
  }

  /** The first generation's supervisor still waits, or has passed its check. */
  predicate MayBe(sup: Pc) {
    sup == Waiting || sup == Entering(true)
  }

  /** The broadcast before any Restart. */
  function Broadcasting(sup: Pc): State {
    BROADCAST.(pc := map[Supervisor(0) := sup], exited := if sup.Entering? || sup.Checking? then {0} else {})
  }

  lemma FirstChecks()
    ensures BROADCAST == Broadcasting(Waiting)
    ensures Next(Broadcasting(Waiting), ProcessExits(0, true)) == Broadcasting(Exited(true))
    ensures Next(Broadcasting(Exited(true)), Step(Supervisor(0), TIMEOUT)) == Broadcasting(Checking(true))
    ensures Next(Broadcasting(Checking(true)), Step(Supervisor(0), TIMEOUT)) == Broadcasting(Entering(true))
    ensures Serial(Broadcasting(Waiting), ProcessExits(0, true))
    ensures Run(BROADCAST, []) == BROADCAST && SerialRun(BROADCAST, [])
  {
  }

  lemma FirstIsAt(sup: Pc) returns (actions: seq<Action>)
    requires MayBe(sup)
    ensures SerialRun(BROADCAST, actions) && Run(BROADCAST, actions) == Broadcasting(sup)
  {
    FirstChecks();
    hide Next;
    hide Run;
    hide SerialRun;
    hide Serial;
    hide Broadcasting;
    actions := [];
    if sup.Entering? {
      actions := Then(BROADCAST, actions, ProcessExits(0, true), Broadcasting(Exited(true)));
      actions := ThenStep(actions, Broadcasting(Exited(true)), Supervisor(0), Broadcasting(Checking(true)));
      actions := ThenStep(actions, Broadcasting(Checking(true)), Supervisor(0), Broadcasting(Entering(true)));
    }
  }

  lemma RestartIsCalled(sup: Pc)
    requires MayBe(sup)
    ensures Next(Broadcasting(sup), CallRestart(0)) == Replacing(Killing(0), sup)
    ensures Serial(Broadcasting(sup), CallRestart(0))
  {
    hide Stepped;
  }

  lemma RestartUntilLaunching(sup: Pc) returns (actions: seq<Action>)
    requires MayBe(sup)
    ensures SerialRun(BROADCAST, actions) && Run(BROADCAST, actions) == Replacing(Launching, sup)
  {
    RestartIsCalled(sup);
    TheWay();
    hide *;
    actions := FirstIsAt(sup);
    actions := Then(BROADCAST, actions, CallRestart(0), Replacing(Killing(0), sup));
    actions := ThenReplacing(actions, Killing(0), AwaitingExit(0), sup);
    actions := ThenReplacing(actions, AwaitingExit(0), CheckingStop, sup);
    actions := ThenReplacing(actions, CheckingStop, Launching, sup);
  }

  lemma RestartUntilAttaching(sup: Pc) returns (actions: seq<Action>)
    requires MayBe(sup)
    ensures SerialRun(BROADCAST, actions) && Run(BROADCAST, actions) == Replacing(Attaching, sup)
  {
    TheWay();
    hide *;
    actions := RestartUntilLaunching(sup);
    actions := ThenReplacing(actions, Launching, Starting, sup);
    actions := ThenReplacing(actions, Starting, Attaching, sup);
  }

  lemma Attaches(sup: Pc)
    requires MayBe(sup)
    ensures Next(Replacing(Attaching, sup), Step(Restarter(0), TIMEOUT)) == Replaced(true, Clearing(Some(1)), Waiting, sup)
  {
  }

  lemma Exits(sup: Pc)
    requires MayBe(sup)
    ensures var s := Replaced(true, Clearing(Some(1)), Waiting, sup);
            Next(s, ProcessExits(1, true)) == Replaced(true, Clearing(Some(1)), Exited(true), sup) && Serial(s, ProcessExits(1, true))
  {
    hide Stepped;
  }

  lemma Waits(sup: Pc)
    requires MayBe(sup)
    ensures Next(Replaced(true, Clearing(Some(1)), Exited(true), sup), Step(Supervisor(1), TIMEOUT))
         == Replaced(true, Clearing(Some(1)), Checking(true), sup)
  {
  }

  lemma Checks(sup: Pc)
    requires MayBe(sup)
    ensures Next(Replaced(true, Clearing(Some(1)), Checking(true), sup), Step(Supervisor(1), TIMEOUT))
         == Replaced(true, Clearing(Some(1)), Returned, sup)
  {
  }

  lemma Clears(sup: Pc)
    requires MayBe(sup)
    ensures Next(Replaced(true, Clearing(Some(1)), Returned, sup), Step(Restarter(0), TIMEOUT))
         == Replaced(false, Returned, Returned, sup)
  {
  }

  lemma NewEncoderExits(before: seq<Action>, sup: Pc) returns (actions: seq<Action>)
    requires MayBe(sup) && SerialRun(BROADCAST, before) && Run(BROADCAST, before) == Replacing(Attaching, sup)
    ensures SerialRun(BROADCAST, actions) && Run(BROADCAST, actions) == Replaced(false, Returned, Returned, sup)
  {
    hide *;
    var attached := Clearing(Some(1));
    Attaches(sup);
    actions := ThenStep(before, Replacing(Attaching, sup), Restarter(0), Replaced(true, attached, Waiting, sup));
    Exits(sup);
    actions := Then(BROADCAST, actions, ProcessExits(1, true), Replaced(true, attached, Exited(true), sup));
    Waits(sup);
    actions := ThenStep(actions, Replaced(true, attached, Exited(true), sup), Supervisor(1), Replaced(true, attached, Checking(true), sup));
    Checks(sup);
    actions := ThenStep(actions, Replaced(true, attached, Checking(true), sup), Supervisor(1), Replaced(true, attached, Returned, sup));
    Clears(sup);
    actions := ThenStep(actions, Replaced(true, attached, Returned, sup), Restarter(0), Replaced(false, Returned, Returned, sup));
  }

  /** A Restart whose new encoder exits before the Restart is over, and then a Stop. */
  lemma LostAndStopped(sup: Pc) returns (actions: seq<Action>)
    requires MayBe(sup)
    ensures SerialRun(BROADCAST, actions)
    ensures Run(BROADCAST, actions) == Next(Replaced(false, Returned, Returned, sup), CallStop(0))
  {
    hide *;
    actions := RestartUntilAttaching(sup);
    actions := NewEncoderExits(actions, sup);
    CallIsSerial(Replaced(false, Returned, Returned, sup));
    actions := Then(BROADCAST, actions, CallStop(0), Next(Replaced(false, Returned, Returned, sup), CallStop(0)));
  }

  lemma CallIsSerial(s: State)
    ensures Serial(s, CallStop(0))
  {
  }

  lemma StoppedThen(sup: Pc)
    requires MayBe(sup)
    ensures var s := Next(Replaced(false, Returned, Returned, sup), CallStop(0));
            EncoderGone(s) && s.f.stopped && !s.f.finished && s.f.gen.value in s.lost && (Ending(s) <==> sup.Entering?)
  {
    var s := Next(Replaced(false, Returned, Returned, sup), CallStop(0));
    assert s.pc[Supervisor(0)] == sup && s.pc[Supervisor(1)] == Returned;
    if sup.Entering? {
      assert AtFinish(s, Supervisor(0));
    }
    hide Stepped;
  }

  /** It can happen that such a session never ends. */
  lemma LostHappens() returns (actions: seq<Action>)
    ensures var s := Run(BROADCAST, actions);
            SerialRun(BROADCAST, actions) && EncoderGone(s) && s.f.stopped && NeverEnds(s)
  {
    actions := LostAndStopped(Waiting);
    StoppedThen(Waiting);
    DeadIffNotEnding(true, false, false, actions);
    StartIsSafe(true, false, false);
    RunIsSafe(BROADCAST, actions);
    hide *;
    StoppedNeverEndsIff(Run(BROADCAST, actions));
  }

  /** And that one ends although its current supervisor is lost as well and it is stopped: the supervisor
      before it had passed its check when Restart was called. */
  lemma LostButEnds() returns (actions: seq<Action>)
    ensures var s := Run(BROADCAST, actions);
            && SerialRun(BROADCAST, actions) && EncoderGone(s) && s.f.stopped && !s.f.finished
            && s.f.gen.value in s.lost && !NeverEnds(s)
  {
    actions := LostAndStopped(Entering(true));
    StoppedThen(Entering(true));
    DeadIffNotEnding(true, false, false, actions);
    StartIsSafe(true, false, false);
    RunIsSafe(BROADCAST, actions);
    hide *;
    StoppedNeverEndsIff(Run(BROADCAST, actions));
  }

  // ----- two Restarts at once -----

  /** Two Restarts: the first has attached generation 1, the second is to replace it. */
  function Overlapping(first: Pc, wait: Pc): State {
    State(Fields(false, first.Clearing?, false, true, Some(1), None), None, false,
          map[Supervisor(0) := Waiting, Restarter(0) := first, Supervisor(1) := wait, Restarter(1) := Killing(1)],
          if InWait(wait) && !wait.Checking? then {} else {1}, false, 0, 0, [], 2, 2, None,
          if first.Clearing? then {1} else {}, {})
  }

  lemma SecondIsCalled()
    ensures Next(Replaced(true, Clearing(Some(1)), Waiting, Waiting), CallRestart(1)) == Overlapping(Clearing(Some(1)), Waiting)
    ensures Next(Overlapping(Returned, Waiting), ProcessExits(1, true)) == Overlapping(Returned, Exited(true))
  {
    hide Stepped;
  }

  lemma FirstClears()
    ensures Next(Overlapping(Clearing(Some(1)), Waiting), Step(Restarter(0), TIMEOUT)) == Overlapping(Returned, Waiting)
  {
  }

  lemma SecondExits()
    ensures Next(Overlapping(Returned, Exited(true)), Step(Supervisor(1), TIMEOUT)) == Overlapping(Returned, Checking(true))
    ensures Next(Overlapping(Returned, Checking(true)), Step(Supervisor(1), TIMEOUT)) == Overlapping(Returned, Entering(true))
  {
  }

  lemma AndThen(actions: seq<Action>, a: Action)
    ensures Run(BROADCAST, actions + [a]) == Next(Run(BROADCAST, actions), a)
  {
    assert (actions + [a])[..|actions|] == actions;
    hide Next;
  }

  /** With two Restarts at once, the first clears the flag that both set: a supervisor can pass its check, and
      finish the session, while the second is about to replace its generation. */
  lemma FlagIsShared() returns (actions: seq<Action>, a: Action)
    ensures PassesCheck(Run(BROADCAST, actions), a, 1)
    ensures Restarter(1) in Run(BROADCAST, actions).pc && Run(BROADCAST, actions).pc[Restarter(1)] == Killing(1)
    ensures AtFinish(Run(BROADCAST, actions + [a]), Supervisor(1))
  {
    SecondIsCalled();
    FirstClears();
    SecondExits();
    Attaches(Waiting);
    hide Next;
    hide Run;
    hide SerialRun;
    actions := RestartUntilAttaching(Waiting);
    AndThen(actions, Step(Restarter(0), TIMEOUT));
    actions := actions + [Step(Restarter(0), TIMEOUT)];
    AndThen(actions, CallRestart(1));
    actions := actions + [CallRestart(1)];
    AndThen(actions, Step(Restarter(0), TIMEOUT));
    actions := actions + [Step(Restarter(0), TIMEOUT)];
    AndThen(actions, ProcessExits(1, true));
    actions := actions + [ProcessExits(1, true)];
    AndThen(actions, Step(Supervisor(1), TIMEOUT));
    actions := actions + [Step(Supervisor(1), TIMEOUT)];
    a := Step(Supervisor(1), TIMEOUT);
    AndThen(actions, a);
  }
}
