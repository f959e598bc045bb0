/** All interleavings of the goroutines of a session: one supervisor for each generation of the
    encoder, and any number of calls of Restart and Stop. One step is one locked section, or one
    thing done outside the lock that another goroutine or the caller can see. */
module SessionRuns {
  import opened Options
  import opened Session

  datatype Thread = Supervisor(g: Gen) | Restarter(i: nat) | Stopper(i: nat)

  /** Where a goroutine is. failed says whether finish was given an error. */
  datatype Pc =
    // wait
    | Waiting
    | Exited(failed: bool)
    | Checking(failed: bool)
    // finish
    | Entering(failed: bool)
    | Cleaning(cleanup: Option<Release>, failed: bool)
    | Releasing(failed: bool)
    | Reporting(failed: bool)
    | Closing
    // Restart, and launchBroadcast within it
    | Killing(replaced: Gen)
    | AwaitingExit(replaced: Gen)
    | CheckingStop
    | Abandoning
    | Launching
    | Keeping(kept: Release)
    | Starting
    | Attaching
    | Clearing(launched: Option<Gen>)
    // Stop
    | StopCleaning(cleanup: Option<Release>)
    | Cancelling
    | Returned

  /** f: the fields under the lock. source: the capture source's release, kept outside it, and
      sourceOwned whether there ever was one. exited: the generations whose exited channel is
      closed. errs, done: how often errCh was sent to and doneCh closed. ran: the releases called.
      The rest is history for stating properties: winner is the goroutine whose finish went on,
      window the generation a Restart has attached without having cleared restarting yet, and lost
      the generations whose supervisor made its check in that window. */
  datatype State = State(f: Fields, source: Option<Release>, sourceOwned: bool, pc: map<Thread, Pc>,
                         exited: set<Gen>, cancelled: bool, errs: nat, done: nat, ran: seq<Release>,
                         nextGen: nat, nextRelease: nat,
                         winner: Option<Thread>, window: set<Gen>, lost: set<Gen>)

  /** What the world decides: whether waiting for an exit timed out, and how a launch goes. */
  datatype Choice = Choice(timedOut: bool, planFails: bool, keepsCleanup: bool, ownsSource: bool, startFails: bool)

  datatype Action =
    | CallRestart(i: nat)
    | CallStop(i: nat)
    | ProcessExits(g: Gen, failed: bool)
    | ContextEnds
    | Step(t: Thread, choice: Choice)

  /** A session once its first generation runs. */
  function Start(isBroad: bool, cleanup: bool, source: bool): State {
    State(Fields(false, false, false, isBroad, Some(0), if cleanup then Some(0) else None),
          if source then Some(1) else None, source, map[Supervisor(0) := Waiting],
          {}, false, 0, 0, [], 1, 2, None, {}, {})
  }

  function Goes(s: State, t: Thread, pc: Pc): State {
    s.(pc := s.pc[t := pc])
  }

  function Runs(s: State, release: Option<Release>): State {
    if release.Some? then s.(ran := s.ran + [release.value]) else s
  }

  /** A step of wait. */
  function WaitStep(s: State, g: Gen, pc: Pc): State {
    var t := Supervisor(g);
    match pc
    case Exited(failed) => Goes(s, t, Checking(failed)).(exited := s.exited + {g})
    case Checking(failed) =>
      if Superseded(s.f, g) then
        Goes(s, t, Returned).(lost := if s.f.gen == Some(g) && g in s.window then s.lost + {g} else s.lost)
      else Goes(s, t, Entering(failed))
    case _ => s
  }

  /** A step of finish, in whichever goroutine. */
  function FinishStep(s: State, t: Thread, pc: Pc): State {
    match pc
    case Entering(failed) =>
      if s.f.finished then Goes(s, t, Returned)
      else Goes(s, t, Cleaning(s.f.cleanup, failed)).(f := AfterFinish(s.f), winner := Some(t))
    case Cleaning(cleanup, failed) => Goes(Runs(s, cleanup), t, Releasing(failed))
    case Releasing(failed) => Goes(Runs(s, s.source), t, Reporting(failed)).(source := None)
    case Reporting(failed) => Goes(s, t, Closing).(errs := s.errs + if failed && !s.cancelled then 1 else 0)
    case Closing => Goes(s, t, Returned).(done := s.done + 1)
    case _ => s
  }

  /** A step of Restart before or after it launches. */
  function RestartStep(s: State, t: Thread, pc: Pc, c: Choice): State {
    match pc
    case Killing(replaced) => Goes(s, t, AwaitingExit(replaced))
    case AwaitingExit(replaced) => if replaced in s.exited || c.timedOut then Goes(s, t, CheckingStop) else s
    case CheckingStop => Goes(s, t, if s.f.stopped then Abandoning else Launching)
    case Abandoning => Goes(s, t, Entering(false)).(f := s.f.(restarting := false))
    case Clearing(launched) =>
      Goes(s, t, if launched.Some? then Returned else Entering(true))
        .(f := s.f.(restarting := false), window := if launched.Some? then s.window - {launched.value} else s.window)
    case _ => s
  }

  /** A step of launchBroadcast: it may fail before or after a capture source is kept, or start a
      process and attach it. */
  function LaunchStep(s: State, t: Thread, pc: Pc, c: Choice): State {
    match pc
    case Launching =>
      if c.planFails then Goes(s, t, Clearing(None))
      else if c.ownsSource && !s.sourceOwned then
        s.(source := Some(s.nextRelease), sourceOwned := true, nextRelease := s.nextRelease + 1)
      else if c.keepsCleanup then Goes(s, t, Keeping(s.nextRelease)).(nextRelease := s.nextRelease + 1)
      else Goes(s, t, Starting)
    case Keeping(kept) => Goes(s, t, Starting).(f := s.f.(cleanup := Some(kept)))
    case Starting => Goes(s, t, if c.startFails then Clearing(None) else Attaching)
    case Attaching =>
      var g := s.nextGen;
      Goes(Goes(s, t, Clearing(Some(g))), Supervisor(g), Waiting)
        .(f := s.f.(gen := Some(g)), nextGen := g + 1, window := s.window + {g})
    case _ => s
  }

  /** A step of Stop after its lock. */
  function StopStep(s: State, t: Thread, pc: Pc): State {
    match pc
    case StopCleaning(cleanup) => Goes(Runs(s, cleanup), t, Cancelling)
    case Cancelling => Goes(s, t, Returned).(cancelled := true)
    case _ => s
  }

  predicate InWait(pc: Pc) {
    pc.Waiting? || pc.Exited? || pc.Checking?
  }

  /** Past the lock of finish, where only one goroutine gets. */
  predicate InFinish(pc: Pc) {
    pc.Cleaning? || pc.Releasing? || pc.Reporting? || pc.Closing?
  }

  predicate InLaunch(pc: Pc) {
    pc.Launching? || pc.Keeping? || pc.Starting? || pc.Attaching?
  }

  predicate InRestart(pc: Pc) {
    pc.Killing? || pc.AwaitingExit? || pc.CheckingStop? || pc.Abandoning? || pc.Clearing?
  }

  /** One step of t, which is at pc. */
  function Stepped(s: State, t: Thread, pc: Pc, c: Choice): State {
    if InWait(pc) then (if t.Supervisor? then WaitStep(s, t.g, pc) else s)
    else if InFinish(pc) || pc.Entering? then FinishStep(s, t, pc)
    else if InLaunch(pc) then LaunchStep(s, t, pc, c)
    else if InRestart(pc) then RestartStep(s, t, pc, c)
    else StopStep(s, t, pc)
  }

  /** An action that cannot happen leaves everything as it is. */
  function Next(s: State, a: Action): State {
    match a
    case CallRestart(i) =>
      if Restarter(i) in s.pc then s
      else Goes(s, Restarter(i), if MayRestart(s.f) then Killing(s.f.gen.value) else Returned).(f := AfterRestart(s.f))
    case CallStop(i) =>
      if Stopper(i) in s.pc then s
      else Goes(s, Stopper(i), if s.f.stopped then Returned else StopCleaning(s.f.cleanup)).(f := AfterStop(s.f))
    case ProcessExits(g, failed) =>
      if Supervisor(g) in s.pc && s.pc[Supervisor(g)] == Waiting then Goes(s, Supervisor(g), Exited(failed)) else s
    case ContextEnds => s.(cancelled := true)
    case Step(t, c) => if t in s.pc then Stepped(s, t, s.pc[t], c) else s
  }

  function Run(s: State, actions: seq<Action>): State {
    if actions == [] then s else Next(Run(s, actions[..|actions| - 1]), actions[|actions| - 1])
  }

  // ----- safety, with any number of Restarts at once -----

  predicate FinishOnce(s: State) {
    && (s.f.finished <==> s.winner.Some?)
    && (s.f.finished ==> s.f.stopped)
    && (s.winner.Some? ==> s.winner.value in s.pc
                           && (InFinish(s.pc[s.winner.value]) || s.pc[s.winner.value].Returned?))
    && (forall t | t in s.pc && InFinish(s.pc[t]) :: s.winner == Some(t))
    && s.done == (if s.winner.Some? && s.pc[s.winner.value].Returned? then 1 else 0)
    && s.errs <= (if s.winner.Some? && (s.pc[s.winner.value].Returned? || s.pc[s.winner.value].Closing?) then 1 else 0)
  }

  /** Generations are numbered as they are attached, each with its supervisor. */
  ghost predicate Numbered(s: State) {
    && s.f.gen.Some? && s.f.gen.value < s.nextGen
    && (forall g: Gen :: Supervisor(g) in s.pc <==> g < s.nextGen)
  }

  /** All that changes from s to s' is where t is (and that a supervisor may be there to start). */
  ghost predicate Moves(s: State, s': State, t: Thread) {
    && (forall u | u in s.pc :: u in s'.pc)
    && (forall u | u in s'.pc && u != t :: if u in s.pc then s'.pc[u] == s.pc[u] else s'.pc[u] == Waiting)
  }

  /** A move outside finish changes nothing about it. */
  lemma OutsideFinish(s: State, s': State, t: Thread)
    requires FinishOnce(s) && Moves(s, s', t)
    requires s'.winner == s.winner && s'.done == s.done && s'.errs == s.errs
    requires s'.f.finished == s.f.finished && (s.f.stopped ==> s'.f.stopped)
    requires t in s.pc ==> !InFinish(s.pc[t]) && !s.pc[t].Returned?
    requires t in s'.pc ==> !InFinish(s'.pc[t])
    ensures FinishOnce(s')
  {
  }

  lemma InsideFinish(s: State, t: Thread, c: Choice)
    requires FinishOnce(s) && t in s.pc && (InFinish(s.pc[t]) || s.pc[t].Entering?)
    ensures FinishOnce(Stepped(s, t, s.pc[t], c))
  {
  }

  /** finish, and what it has done, are as they were. */
  predicate FinishUntouched(s: State, s': State, t: Thread) {
    && s'.winner == s.winner && s'.done == s.done && s'.errs == s.errs
    && s'.f.finished == s.f.finished && (s.f.stopped ==> s'.f.stopped)
    && t in s'.pc && !InFinish(s'.pc[t])
  }

  lemma LaunchMoves(s: State, t: Thread, c: Choice)
    requires Numbered(s) && t in s.pc && InLaunch(s.pc[t])
    ensures var next := LaunchStep(s, t, s.pc[t], c);
            Moves(s, next, t) && Numbered(next) && FinishUntouched(s, next, t)
  {
    if s.pc[t].Attaching? {
      AttachMoves(s, t, c);
    } else {
      var next := LaunchStep(s, t, s.pc[t], c);
      assert t in next.pc && next.pc == s.pc[t := next.pc[t]] && !InFinish(next.pc[t]) && !InWait(next.pc[t]);
      assert next.f.gen == s.f.gen && next.nextGen == s.nextGen;
      hide LaunchStep;
      hide InLaunch;
    }
  }

  lemma AttachMoves(s: State, t: Thread, c: Choice)
    requires Numbered(s) && t in s.pc && s.pc[t].Attaching?
    ensures var next := LaunchStep(s, t, s.pc[t], c);
            Moves(s, next, t) && Numbered(next) && FinishUntouched(s, next, t)
  {
    var next := LaunchStep(s, t, s.pc[t], c);
    assert next.pc == s.pc[t := Clearing(Some(s.nextGen))][Supervisor(s.nextGen) := Waiting];
    assert next.f.gen == Some(s.nextGen) && next.nextGen == s.nextGen + 1 && FinishUntouched(s, next, t);
    hide LaunchStep;
  }

  /** Every other step only moves its own goroutine on. */
  predicate OnlyMoves(s: State, s': State, t: Thread) {
    && t in s'.pc && s'.pc == s.pc[t := s'.pc[t]]
    && s'.f.gen == s.f.gen && s'.nextGen == s.nextGen
  }

  lemma WaitMoves(s: State, g: Gen)
    requires Supervisor(g) in s.pc && InWait(s.pc[Supervisor(g)])
    ensures OnlyMoves(s, WaitStep(s, g, s.pc[Supervisor(g)]), Supervisor(g))
    ensures FinishUntouched(s, WaitStep(s, g, s.pc[Supervisor(g)]), Supervisor(g))
  {
  }

  lemma FinishMoves(s: State, t: Thread)
    requires t in s.pc
    ensures OnlyMoves(s, FinishStep(s, t, s.pc[t]), t)
  {
  }

  lemma RestartMoves(s: State, t: Thread, c: Choice)
    requires t in s.pc && InRestart(s.pc[t])
    ensures OnlyMoves(s, RestartStep(s, t, s.pc[t], c), t)
    ensures FinishUntouched(s, RestartStep(s, t, s.pc[t], c), t)
  {
  }

  lemma StopMoves(s: State, t: Thread)
    requires t in s.pc && !InFinish(s.pc[t])
    ensures OnlyMoves(s, StopStep(s, t, s.pc[t]), t)
    ensures FinishUntouched(s, StopStep(s, t, s.pc[t]), t)
  {
  }

  lemma OtherMoves(s: State, t: Thread, c: Choice)
    requires t in s.pc && !InLaunch(s.pc[t])
    ensures OnlyMoves(s, Stepped(s, t, s.pc[t], c), t)
    ensures !InFinish(s.pc[t]) && !s.pc[t].Entering? ==> FinishUntouched(s, Stepped(s, t, s.pc[t], c), t)
  {
    hide WaitStep;
    hide FinishStep;
    hide RestartStep;
    hide StopStep;
    hide InLaunch;
    if InWait(s.pc[t]) {
      if t.Supervisor? {
        WaitMoves(s, t.g);
      }
    } else if InFinish(s.pc[t]) || s.pc[t].Entering? {
      FinishMoves(s, t);
    } else if InRestart(s.pc[t]) {
      RestartMoves(s, t, c);
    } else {
      StopMoves(s, t);
    }
  }

  lemma StepMoves(s: State, t: Thread, c: Choice)
    requires Numbered(s) && t in s.pc
    ensures Moves(s, Stepped(s, t, s.pc[t], c), t)
    ensures Numbered(Stepped(s, t, s.pc[t], c))
  {
    if InLaunch(s.pc[t]) {
      hide LaunchStep;
      LaunchMoves(s, t, c);
    } else {
      OtherMoves(s, t, c);
      hide Stepped;
    }
  }

  lemma NextNumbered(s: State, a: Action)
    requires Numbered(s)
    ensures Numbered(Next(s, a))
  {
    hide Stepped;
    if a.Step? && a.t in s.pc {
      StepMoves(s, a.t, a.choice);
    }
  }

  lemma StepOutside(s: State, t: Thread, c: Choice)
    requires Numbered(s)
    requires t in s.pc && !InFinish(s.pc[t]) && !s.pc[t].Entering?
    ensures FinishUntouched(s, Stepped(s, t, s.pc[t], c), t)
  {
    if InLaunch(s.pc[t]) {
      LaunchMoves(s, t, c);
      hide LaunchStep;
      hide FinishUntouched;
    } else {
      OtherMoves(s, t, c);
      hide Stepped;
    }
  }

  lemma NextFinishesOnce(s: State, a: Action)
    requires FinishOnce(s) && Numbered(s)
    ensures FinishOnce(Next(s, a))
  {
    if a.Step? && a.t in s.pc {
      if InFinish(s.pc[a.t]) || s.pc[a.t].Entering? {
        InsideFinish(s, a.t, a.choice);
      } else if !s.pc[a.t].Returned? {
        StepMoves(s, a.t, a.choice);
        StepOutside(s, a.t, a.choice);
        hide Stepped;
        hide FinishOnce;
        OutsideFinish(s, Stepped(s, a.t, s.pc[a.t], a.choice), a.t);
      }
    } else {
      CallFinishesOnce(s, a);
    }
  }

  lemma CallFinishesOnce(s: State, a: Action)
    requires FinishOnce(s) && (a.Step? ==> a.t !in s.pc)
    ensures FinishOnce(Next(s, a))
  {
    var t := match a {
      case CallRestart(i) => Restarter(i)
      case CallStop(i) => Stopper(i)
      case ProcessExits(g, _) => Supervisor(g)
      case ContextEnds => Supervisor(0)
      case Step(t, _) => t
    };
    hide Stepped;
    if Next(s, a) != s && !a.ContextEnds? {
      hide FinishOnce;
      OutsideFinish(s, Next(s, a), t);
    }
  }

  /** Where the name of a release can be. */
  datatype Place = CleanupField | SourceField | Ran(k: nat) | With(t: Thread)

  predicate Holds(s: State, p: Place, r: Release) {
    match p
    case CleanupField => s.f.cleanup == Some(r)
    case SourceField => s.source == Some(r)
    case Ran(k) => k < |s.ran| && s.ran[k] == r
    case With(t) => t in s.pc && match s.pc[t] {
      case Cleaning(c, _) => c == Some(r)
      case StopCleaning(c) => c == Some(r)
      case Keeping(c) => c == r
      case _ => false
    }
  }

  ghost predicate OnePlaceEach(s: State) {
    && (forall p, q, r | Holds(s, p, r) && Holds(s, q, r) :: p == q)
    && (forall p, r: Release | Holds(s, p, r) :: r < s.nextRelease)
  }

  /** The place a release was at before a step of t, for the place it is at after. */
  function Origin(s: State, t: Thread, pc: Pc, p: Place): Place {
    match pc
    case Entering(_) => if p == With(t) then CleanupField else p
    case Cleaning(_, _) => if p == Ran(|s.ran|) then With(t) else p
    case StopCleaning(_) => if p == Ran(|s.ran|) then With(t) else p
    case Releasing(_) => if p == Ran(|s.ran|) then SourceField else p
    case Keeping(_) => if p == CleanupField then With(t) else p
    case _ => p
  }

  /** A release now at p was at q, and q has given it up unless it is p. */
  predicate HandedOver(s: State, s': State, p: Place, q: Place, r: Release) {
    Holds(s, q, r) && (q != p ==> !Holds(s', q, r))
  }

  lemma EnteringHandsOver(s: State, t: Thread, p: Place, r: Release)
    requires t in s.pc && s.pc[t].Entering? && Holds(FinishStep(s, t, s.pc[t]), p, r)
    ensures HandedOver(s, FinishStep(s, t, s.pc[t]), p, Origin(s, t, s.pc[t], p), r)
  {
  }

  lemma RunHandsOver(s: State, t: Thread, p: Place, r: Release)
    requires t in s.pc && (s.pc[t].Cleaning? || s.pc[t].Releasing?) && Holds(FinishStep(s, t, s.pc[t]), p, r)
    ensures HandedOver(s, FinishStep(s, t, s.pc[t]), p, Origin(s, t, s.pc[t], p), r)
  {
  }

  lemma ReportHandsOver(s: State, t: Thread, p: Place, r: Release)
    requires t in s.pc && (s.pc[t].Reporting? || s.pc[t].Closing?) && Holds(FinishStep(s, t, s.pc[t]), p, r)
    ensures HandedOver(s, FinishStep(s, t, s.pc[t]), p, Origin(s, t, s.pc[t], p), r)
  {
  }

  lemma FinishHandsOver(s: State, t: Thread, p: Place, r: Release)
    requires t in s.pc && (InFinish(s.pc[t]) || s.pc[t].Entering?) && Holds(FinishStep(s, t, s.pc[t]), p, r)
    ensures HandedOver(s, FinishStep(s, t, s.pc[t]), p, Origin(s, t, s.pc[t], p), r)
  {
    hide FinishStep;
    hide HandedOver;
    hide Holds;
    if s.pc[t].Entering? {
      EnteringHandsOver(s, t, p, r);
    } else if s.pc[t].Cleaning? || s.pc[t].Releasing? {
      RunHandsOver(s, t, p, r);
    } else {
      ReportHandsOver(s, t, p, r);
    }
  }

  lemma StopHandsOver(s: State, t: Thread, p: Place, r: Release)
    requires t in s.pc && Holds(StopStep(s, t, s.pc[t]), p, r) && (s.pc[t].StopCleaning? || s.pc[t].Cancelling? || s.pc[t].Returned?)
    ensures HandedOver(s, StopStep(s, t, s.pc[t]), p, Origin(s, t, s.pc[t], p), r)
  {
  }

  lemma RestartHandsOver(s: State, t: Thread, c: Choice, p: Place, r: Release)
    requires t in s.pc && InRestart(s.pc[t]) && Holds(RestartStep(s, t, s.pc[t], c), p, r)
    ensures Holds(s, p, r)
  {
  }

  lemma WaitHandsOver(s: State, g: Gen, p: Place, r: Release)
    requires Supervisor(g) in s.pc && InWait(s.pc[Supervisor(g)]) && Holds(WaitStep(s, g, s.pc[Supervisor(g)]), p, r)
    ensures Holds(s, p, r)
  {
  }

  lemma KeepingHandsOver(s: State, t: Thread, c: Choice, p: Place, r: Release)
    requires t in s.pc && s.pc[t].Keeping? && Holds(LaunchStep(s, t, s.pc[t], c), p, r)
    ensures HandedOver(s, LaunchStep(s, t, s.pc[t], c), p, Origin(s, t, s.pc[t], p), r)
  {
  }

  /** A launch may make a new release, at one place. */
  lemma LaunchMakes(s: State, t: Thread, c: Choice, p: Place, r: Release)
    requires t in s.pc && InLaunch(s.pc[t]) && !s.pc[t].Keeping? && Numbered(s)
    requires Holds(LaunchStep(s, t, s.pc[t], c), p, r)
    ensures var next := LaunchStep(s, t, s.pc[t], c);
            Holds(s, p, r) || (r == s.nextRelease && next.nextRelease == r + 1 && p == NewPlace(s, t, c))
  {
  }

  /** Where a launch puts a release it makes. */
  function NewPlace(s: State, t: Thread, c: Choice): Place {
    if c.ownsSource && !s.sourceOwned then SourceField else With(t)
  }

  lemma StepHandsOver(s: State, t: Thread, c: Choice, p: Place, r: Release)
    requires t in s.pc && Numbered(s) && Holds(Stepped(s, t, s.pc[t], c), p, r)
    ensures || HandedOver(s, Stepped(s, t, s.pc[t], c), p, Origin(s, t, s.pc[t], p), r)
            || (r == s.nextRelease && Stepped(s, t, s.pc[t], c).nextRelease == r + 1 && p == NewPlace(s, t, c))
  {
    var pc := s.pc[t];
    hide HandedOver;
    hide WaitStep;
    hide FinishStep;
    hide RestartStep;
    hide StopStep;
    hide LaunchStep;
    hide Holds;
    if InWait(pc) {
      if t.Supervisor? {
        WaitHandsOver(s, t.g, p, r);
      }
      StaysPut(s, Stepped(s, t, pc, c), p, r);
    } else if InFinish(pc) || pc.Entering? {
      FinishHandsOver(s, t, p, r);
    } else if pc.Keeping? {
      KeepingHandsOver(s, t, c, p, r);
    } else if InLaunch(pc) {
      LaunchMakes(s, t, c, p, r);
      StaysPut(s, Stepped(s, t, pc, c), p, r);
    } else if InRestart(pc) {
      RestartHandsOver(s, t, c, p, r);
      StaysPut(s, Stepped(s, t, pc, c), p, r);
    } else {
      StopHandsOver(s, t, p, r);
    }
  }

  lemma StaysPut(s: State, s': State, p: Place, r: Release)
    ensures Holds(s, p, r) ==> HandedOver(s, s', p, p, r)
  {
  }

  lemma OneMoves(s: State, t: Thread, pc: Pc, p: Place, q: Place)
    requires Origin(s, t, pc, p) == Origin(s, t, pc, q) && p != q
    ensures (Origin(s, t, pc, p) == p) != (Origin(s, t, pc, q) == q)
  {
  }

  lemma StepKeepsPlaces(s: State, t: Thread, c: Choice)
    requires OnePlaceEach(s) && Numbered(s) && t in s.pc
    ensures OnePlaceEach(Stepped(s, t, s.pc[t], c))
  {
    var next, pc := Stepped(s, t, s.pc[t], c), s.pc[t];
    ReleasesGrow(s, t, c);
    hide Stepped;
    hide Holds;
    hide Numbered;
    forall p, r: Release | Holds(next, p, r) ensures r < next.nextRelease {
      StepHandsOver(s, t, c, p, r);
    }
    forall p, q, r | Holds(next, p, r) && Holds(next, q, r) ensures p == q {
      StepHandsOver(s, t, c, p, r);
      StepHandsOver(s, t, c, q, r);
      if p != q && Origin(s, t, pc, p) == Origin(s, t, pc, q) {
        OneMoves(s, t, pc, p, q);
      }
    }
  }

  lemma ReleasesGrow(s: State, t: Thread, c: Choice)
    requires t in s.pc
    ensures s.nextRelease <= Stepped(s, t, s.pc[t], c).nextRelease
  {
  }

  /** Stop's lock hands the cleanup over to it. */
  lemma CallKeepsPlaces(s: State, a: Action)
    requires OnePlaceEach(s) && !a.Step?
    ensures OnePlaceEach(Next(s, a))
  {
    var next := Next(s, a);
    forall p, r: Release | Holds(next, p, r)
      ensures if a.CallStop? && Stopper(a.i) !in s.pc && p == With(Stopper(a.i))
              then Holds(s, CleanupField, r) && !Holds(next, CleanupField, r) else Holds(s, p, r)
    {
    }
    hide Holds;
  }

  // ----- every run -----

  ghost predicate Safe(s: State) {
    FinishOnce(s) && Numbered(s) && OnePlaceEach(s)
  }

  lemma StartIsSafe(isBroad: bool, cleanup: bool, source: bool)
    ensures Safe(Start(isBroad, cleanup, source))
  {
    var s := Start(isBroad, cleanup, source);
    assert Supervisor(0) in s.pc;
  }

  lemma NextIsSafe(s: State, a: Action)
    requires Safe(s)
    ensures Safe(Next(s, a))
  {
    NextFinishesOnce(s, a);
    NextNumbered(s, a);
    if a.Step? {
      if a.t in s.pc {
        StepKeepsPlaces(s, a.t, a.choice);
      }
    } else {
      CallKeepsPlaces(s, a);
    }
    hide Stepped;
    hide FinishOnce;
    hide OnePlaceEach;
    hide Numbered;
  }

  lemma {:induction false} RunIsSafe(s: State, actions: seq<Action>)
    requires Safe(s)
    ensures Safe(Run(s, actions))
  {
    hide Safe;
    hide Next;
    if actions != [] {
      RunIsSafe(s, actions[..|actions| - 1]);
      NextIsSafe(Run(s, actions[..|actions| - 1]), actions[|actions| - 1]);
    }
  }

  /** However the goroutines interleave, with any number of Restarts and Stops at once: Done closes
      at most once, and only when the session is finished; errCh is sent to at most once, so a
      send never blocks; and no release is called twice. */
  lemma EndsAtMostOnce(isBroad: bool, cleanup: bool, source: bool, actions: seq<Action>)
    ensures var s := Run(Start(isBroad, cleanup, source), actions);
            && s.done <= 1 && (s.done == 1 ==> s.f.finished && s.f.stopped)
            && s.errs <= 1
            && forall i, j | 0 <= i < j < |s.ran| :: s.ran[i] != s.ran[j]
  {
    var s := Run(Start(isBroad, cleanup, source), actions);
    StartIsSafe(isBroad, cleanup, source);
    RunIsSafe(Start(isBroad, cleanup, source), actions);
    forall i, j | 0 <= i < j < |s.ran| ensures s.ran[i] != s.ran[j] {
      assert Holds(s, Ran(i), s.ran[i]) && Holds(s, Ran(j), s.ran[j]);
    }
  }

  /** While errCh is about to be sent to, nothing has been sent before. */
  lemma SendDoesNotBlock(isBroad: bool, cleanup: bool, source: bool, actions: seq<Action>, t: Thread)
    ensures var s := Run(Start(isBroad, cleanup, source), actions);
            t in s.pc && s.pc[t].Reporting? ==> s.errs == 0 && s.done == 0
  {
    StartIsSafe(isBroad, cleanup, source);
    RunIsSafe(Start(isBroad, cleanup, source), actions);
  }

  predicate OnlyGrows(s: State, s': State) {
    && (s.f.stopped ==> s'.f.stopped) && (s.f.finished ==> s'.f.finished)
    && s.done <= s'.done && s.errs <= s'.errs
  }

  lemma FinishGrows(s: State, t: Thread)
    requires t in s.pc
    ensures OnlyGrows(s, FinishStep(s, t, s.pc[t]))
  {
  }

  lemma NextOnlyGrows(s: State, a: Action)
    requires Numbered(s)
    ensures OnlyGrows(s, Next(s, a))
  {
    hide Stepped;
    hide Numbered;
    if a.Step? && a.t in s.pc {
      StepOnlyGrows(s, a.t, a.choice);
    }
  }

  lemma StepOnlyGrows(s: State, t: Thread, c: Choice)
    requires Numbered(s) && t in s.pc
    ensures OnlyGrows(s, Stepped(s, t, s.pc[t], c))
  {
    if InFinish(s.pc[t]) || s.pc[t].Entering? {
      FinishGrows(s, t);
      hide FinishStep;
    } else {
      StepOutside(s, t, c);
      hide Stepped;
    }
  }

  /** stopped and finished never revert, whatever happens after. */
  lemma {:induction false} NeverReverts(s: State, actions: seq<Action>)
    requires Safe(s)
    ensures OnlyGrows(s, Run(s, actions))
  {
    hide Next;
    hide Safe;
    if actions != [] {
      var before := Run(s, actions[..|actions| - 1]);
      NeverReverts(s, actions[..|actions| - 1]);
      RunIsSafe(s, actions[..|actions| - 1]);
      assert Numbered(before) by { SafeIsNumbered(before); }
      NextOnlyGrows(before, actions[|actions| - 1]);
    }
  }

  lemma SafeIsNumbered(s: State)
    requires Safe(s)
    ensures Numbered(s)
  {
  }
}
