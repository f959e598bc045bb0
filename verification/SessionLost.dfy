/** When a session whose encoder is gone is not finished. Restart calls come one at a time here, as
    the caller in the repository makes them. */
module SessionLost {
  import opened Options
  import opened Session
  import opened SessionRuns

  ghost predicate InFlight(s: State, i: nat) {
    Restarter(i) in s.pc && !s.pc[Restarter(i)].Returned?
  }

  /** a does not call Restart while another Restart is in flight. */
  ghost predicate Serial(s: State, a: Action) {
    a.CallRestart? ==> forall i: nat :: !InFlight(s, i)
  }

  ghost predicate SerialRun(s: State, actions: seq<Action>) {
    actions == [] ||
    (SerialRun(s, actions[..|actions| - 1]) && Serial(Run(s, actions[..|actions| - 1]), actions[|actions| - 1]))
  }

  /** Each goroutine is in its own code, or in finish. */
  predicate Typed(t: Thread, pc: Pc) {
    match t
    case Supervisor(_) => InWait(pc) || pc.Entering? || InFinish(pc) || pc.Returned?
    case Restarter(_) => InRestart(pc) || InLaunch(pc) || pc.Entering? || InFinish(pc) || pc.Returned?
    case Stopper(_) => pc.StopCleaning? || pc.Cancelling? || pc.Returned?
  }

  /** A Restart at pc has restarting set. */
  predicate Restarting(pc: Pc) {
    InRestart(pc) || InLaunch(pc)
  }

  /** A Restart at pc ends in a new generation, or in finish. */
  predicate Replaces(pc: Pc) {
    InLaunch(pc) || pc.Entering? || (InRestart(pc) && !(pc.Clearing? && pc.launched.Some?))
  }

  predicate Attached(pc: Pc) {
    pc.Clearing? && pc.launched.Some?
  }

  /** Where the one Restart in flight, r, is. */
  function At(s: State, r: Option<nat>): Pc {
    if r.Some? && Restarter(r.value) in s.pc then s.pc[Restarter(r.value)] else Returned
  }

  /** r is the one Restart in flight, if there is one. */
  ghost predicate OneRestart(s: State, r: Option<nat>) {
    && (forall t | t in s.pc :: Typed(t, s.pc[t]))
    && (forall i: nat :: InFlight(s, i) ==> r == Some(i))
    && (s.f.restarting <==> Restarting(At(s, r)))
    && (if Attached(At(s, r)) then s.f.gen == At(s, r).launched && s.window == {s.f.gen.value} else s.window == {})
    && (r.Some? ==> InFlight(s, r.value))
  }

  /** The supervisor of the current generation returned only for a reason. */
  predicate Accounted(s: State, r: Option<nat>) {
    s.f.gen.Some? && Supervisor(s.f.gen.value) in s.pc && s.pc[Supervisor(s.f.gen.value)].Returned? ==>
      s.f.finished || s.f.gen.value in s.lost || Replaces(At(s, r))
  }

  // ----- one step -----

  /** The Restart in flight after a step. */
  function InFlightAfter(s: State, a: Action, r: Option<nat>): Option<nat> {
    if a.CallRestart? && Restarter(a.i) !in s.pc && MayRestart(s.f) then Some(a.i)
    else if r.Some? && At(Next(s, a), r).Returned? then None
    else r
  }

  lemma WaitKeeps(s: State, g: Gen, r: Option<nat>)
    requires OneRestart(s, r) && Accounted(s, r) && Numbered(s)
    requires Supervisor(g) in s.pc && InWait(s.pc[Supervisor(g)])
    ensures var next := WaitStep(s, g, s.pc[Supervisor(g)]);
            OneRestart(next, r) && Accounted(next, r)
  {
    var next := WaitStep(s, g, s.pc[Supervisor(g)]);
    WaitOthers(s, g, r);
    hide InFlight;
    hide Typed;
    assert forall i: nat :: InFlight(next, i) == InFlight(s, i);
    hide At;
  }

  lemma WaitOthers(s: State, g: Gen, r: Option<nat>)
    requires Supervisor(g) in s.pc && InWait(s.pc[Supervisor(g)]) && Typed(Supervisor(g), s.pc[Supervisor(g)])
    ensures var next := WaitStep(s, g, s.pc[Supervisor(g)]);
            && At(next, r) == At(s, r)
            && (forall i: nat :: InFlight(next, i) == InFlight(s, i))
            && next.pc.Keys == s.pc.Keys && Typed(Supervisor(g), next.pc[Supervisor(g)])
            && forall t | t in next.pc && t != Supervisor(g) :: next.pc[t] == s.pc[t]
  {
  }

  /** s' differs from s in where t is, and not in what concerns Restart. */
  predicate SameRestart(s: State, s': State, t: Thread) {
    && t in s'.pc && s'.pc == s.pc[t := s'.pc[t]]
    && s'.f.gen == s.f.gen && s'.f.restarting == s.f.restarting && s'.window == s.window && s'.lost == s.lost
  }

  lemma FinishSteps(s: State, t: Thread)
    requires t in s.pc && (InFinish(s.pc[t]) || s.pc[t].Entering?)
    ensures var next := FinishStep(s, t, s.pc[t]);
            && SameRestart(s, next, t)
            && (InFinish(next.pc[t]) || next.pc[t].Returned?)
            && (s.pc[t].Entering? || s.f.finished ==> next.f.finished)
  {
  }

  lemma SameRestartKeeps(s: State, s': State, t: Thread, r: Option<nat>)
    requires OneRestart(s, r) && t in s.pc && (InFinish(s.pc[t]) || s.pc[t].Entering?)
    requires SameRestart(s, s', t) && (InFinish(s'.pc[t]) || s'.pc[t].Returned?)
    ensures OneRestart(s', if r.Some? && At(s', r).Returned? then None else r)
  {
    assert forall i: nat :: InFlight(s', i) ==> InFlight(s, i);
  }

  lemma FinishKeeps(s: State, t: Thread, r: Option<nat>)
    requires OneRestart(s, r) && Accounted(s, r) && t in s.pc && FinishOnce(s)
    requires InFinish(s.pc[t]) || s.pc[t].Entering?
    ensures var next := FinishStep(s, t, s.pc[t]);
            var r' := if r.Some? && At(next, r).Returned? then None else r;
            OneRestart(next, r') && Accounted(next, r')
  {
    assert InFinish(s.pc[t]) ==> s.f.finished;
    FinishSteps(s, t);
    hide FinishOnce;
    hide FinishStep;
    hide OneRestart;
    SameRestartKeeps(s, FinishStep(s, t, s.pc[t]), t, r);
  }

  lemma RestartSteps(s: State, t: Thread, c: Choice)
    requires t in s.pc && InRestart(s.pc[t])
    ensures var pc, next := s.pc[t], RestartStep(s, t, s.pc[t], c);
            && t in next.pc && next.pc == s.pc[t := next.pc[t]]
            && next.f.gen == s.f.gen && next.lost == s.lost && next.f.finished == s.f.finished
            && (Restarting(next.pc[t]) || next.pc[t].Returned? || next.pc[t].Entering?)
            && (!Restarting(next.pc[t]) ==> !next.f.restarting)
            && (Restarting(next.pc[t]) ==> next.f.restarting == s.f.restarting && !Attached(next.pc[t]))
            && (Replaces(pc) ==> Replaces(next.pc[t]))
            && next.window == if Attached(pc) then s.window - {pc.launched.value} else s.window
  {
  }

  lemma RestartKeeps(s: State, i: nat, c: Choice, r: Option<nat>)
    requires OneRestart(s, r) && Accounted(s, r) && Restarter(i) in s.pc && InRestart(s.pc[Restarter(i)])
    ensures var next := RestartStep(s, Restarter(i), s.pc[Restarter(i)], c);
            var r' := if r.Some? && At(next, r).Returned? then None else r;
            OneRestart(next, r') && Accounted(next, r')
  {
    var t := Restarter(i);
    var next := RestartStep(s, t, s.pc[t], c);
    RestartSteps(s, t, c);
    hide RestartStep;
    assert InFlight(s, i) && r == Some(i);
    assert forall j: nat :: InFlight(next, j) ==> InFlight(s, j);
  }

  lemma AttachKeeps(s: State, i: nat, c: Choice, r: Option<nat>)
    requires OneRestart(s, r) && Numbered(s) && Restarter(i) in s.pc && s.pc[Restarter(i)].Attaching?
    ensures var next := LaunchStep(s, Restarter(i), s.pc[Restarter(i)], c);
            OneRestart(next, r) && Accounted(next, r)
  {
    var t := Restarter(i);
    var next := LaunchStep(s, t, s.pc[t], c);
    assert InFlight(s, i) && r == Some(i);
    assert next.pc == s.pc[t := Clearing(Some(s.nextGen))][Supervisor(s.nextGen) := Waiting];
    assert Supervisor(s.nextGen) !in s.pc;
    assert forall j: nat :: InFlight(next, j) ==> InFlight(s, j);
  }

  lemma LaunchSteps(s: State, t: Thread, c: Choice)
    requires t in s.pc && InLaunch(s.pc[t]) && !s.pc[t].Attaching?
    ensures var next := LaunchStep(s, t, s.pc[t], c);
            && t in next.pc && next.pc == s.pc[t := next.pc[t]]
            && Restarting(next.pc[t]) && Replaces(next.pc[t]) && !Attached(next.pc[t])
            && next.f.gen == s.f.gen && next.lost == s.lost && next.f.finished == s.f.finished
            && next.f.restarting == s.f.restarting && next.window == s.window
  {
  }

  lemma LaunchKeeps(s: State, i: nat, c: Choice, r: Option<nat>)
    requires OneRestart(s, r) && Accounted(s, r) && Numbered(s) && Restarter(i) in s.pc && InLaunch(s.pc[Restarter(i)])
    ensures var next := LaunchStep(s, Restarter(i), s.pc[Restarter(i)], c);
            OneRestart(next, r) && Accounted(next, r)
  {
    var t := Restarter(i);
    if s.pc[t].Attaching? {
      AttachKeeps(s, i, c, r);
      hide OneRestart;
      hide LaunchStep;
    } else {
      LaunchSteps(s, t, c);
      hide LaunchStep;
      var next := LaunchStep(s, t, s.pc[t], c);
      assert InFlight(s, i) && r == Some(i);
      assert forall j: nat :: InFlight(next, j) ==> InFlight(s, j);
    }
  }

  lemma StepKeeps(s: State, t: Thread, c: Choice, r: Option<nat>)
    requires OneRestart(s, r) && Accounted(s, r) && Safe(s) && t in s.pc
    ensures var next := Stepped(s, t, s.pc[t], c);
            var r' := if r.Some? && At(next, r).Returned? then None else r;
            OneRestart(next, r') && Accounted(next, r')
  {
    assert Typed(t, s.pc[t]);
    assert r.Some? ==> !At(s, r).Returned?;
    if InFinish(s.pc[t]) || s.pc[t].Entering? {
      FinishKeeps(s, t, r);
    } else if s.pc[t].Returned? {
    } else {
      match t
      case Supervisor(g) =>
        WaitKeeps(s, g, r);
        WaitMoves(s, g);
      case Restarter(i) =>
        if InRestart(s.pc[t]) {
          RestartKeeps(s, i, c, r);
        } else {
          LaunchKeeps(s, i, c, r);
          LaunchStays(s, i, c);
        }
      case Stopper(i) =>
        StopKeeps(s, i, r);
    }
    hide OneRestart;
    hide Accounted;
    hide FinishStep;
    hide LaunchStep;
    hide RestartStep;
    hide StopStep;
    hide WaitStep;
  }

  lemma LaunchStays(s: State, i: nat, c: Choice)
    requires Restarter(i) in s.pc && InLaunch(s.pc[Restarter(i)])
    ensures var next := LaunchStep(s, Restarter(i), s.pc[Restarter(i)], c);
            Restarter(i) in next.pc && !next.pc[Restarter(i)].Returned?
  {
  }

  lemma StopKeeps(s: State, i: nat, r: Option<nat>)
    requires OneRestart(s, r) && Accounted(s, r) && Stopper(i) in s.pc
    ensures var next := StopStep(s, Stopper(i), s.pc[Stopper(i)]);
            OneRestart(next, r) && Accounted(next, r) && At(next, r) == At(s, r)
  {
    var next := StopStep(s, Stopper(i), s.pc[Stopper(i)]);
    assert forall j: nat :: InFlight(next, j) == InFlight(s, j);
  }

  lemma CallRestartKeeps(s: State, i: nat, r: Option<nat>)
    requires OneRestart(s, r) && Accounted(s, r) && Serial(s, CallRestart(i))
    ensures var a := CallRestart(i);
            OneRestart(Next(s, a), InFlightAfter(s, a, r)) && Accounted(Next(s, a), InFlightAfter(s, a, r))
  {
    hide Stepped;
    var next := Next(s, CallRestart(i));
    assert r == None;
    assert forall j: nat :: InFlight(next, j) ==> InFlight(s, j) || (j == i && Restarter(i) !in s.pc);
  }

  lemma OtherCallKeeps(s: State, a: Action, r: Option<nat>)
    requires OneRestart(s, r) && Accounted(s, r) && !a.Step? && !a.CallRestart?
    ensures OneRestart(Next(s, a), r) && Accounted(Next(s, a), r) && At(Next(s, a), r) == At(s, r)
  {
    hide Stepped;
    var next := Next(s, a);
    assert forall i: nat :: InFlight(next, i) == InFlight(s, i);
  }

  lemma CallKeeps(s: State, a: Action, r: Option<nat>)
    requires OneRestart(s, r) && Accounted(s, r) && !a.Step? && Serial(s, a)
    ensures OneRestart(Next(s, a), InFlightAfter(s, a, r)) && Accounted(Next(s, a), InFlightAfter(s, a, r))
  {
    if a.CallRestart? {
      CallRestartKeeps(s, a.i, r);
    } else {
      OtherCallKeeps(s, a, r);
      assert r.Some? ==> InFlight(s, r.value);
    }
    hide OneRestart;
    hide Accounted;
    hide Next;
  }

  lemma NextKeeps(s: State, a: Action, r: Option<nat>)
    requires OneRestart(s, r) && Accounted(s, r) && Safe(s) && Serial(s, a)
    ensures OneRestart(Next(s, a), InFlightAfter(s, a, r)) && Accounted(Next(s, a), InFlightAfter(s, a, r))
  {
    if a.Step? {
      if a.t in s.pc {
        StepKeeps(s, a.t, a.choice, r);
      }
      hide Stepped;
    } else {
      CallKeeps(s, a, r);
    }
    hide OneRestart;
    hide Accounted;
    hide Safe;
  }

  /** The Restart in flight after a run. */
  function InFlightAfterRun(s: State, actions: seq<Action>): Option<nat> {
    if actions == [] then None
    else
      var init := actions[..|actions| - 1];
      InFlightAfter(Run(s, init), actions[|actions| - 1], InFlightAfterRun(s, init))
  }

  lemma {:induction false} RunKeeps(isBroad: bool, cleanup: bool, source: bool, actions: seq<Action>)
    requires SerialRun(Start(isBroad, cleanup, source), actions)
    ensures var start := Start(isBroad, cleanup, source);
            var s, r := Run(start, actions), InFlightAfterRun(start, actions);
            Safe(s) && OneRestart(s, r) && Accounted(s, r)
  {
    var start := Start(isBroad, cleanup, source);
    StartIsSafe(isBroad, cleanup, source);
    RunIsSafe(start, actions);
    if actions != [] {
      var init := actions[..|actions| - 1];
      RunKeeps(isBroad, cleanup, source, init);
      hide *;
      NextStep(start, actions);
    } else {
      assert forall i: nat :: !InFlight(start, i);
    }
  }

  lemma NextStep(start: State, actions: seq<Action>)
    requires actions != [] && SerialRun(start, actions)
    requires var init := actions[..|actions| - 1];
             var s, r := Run(start, init), InFlightAfterRun(start, init);
             Safe(s) && OneRestart(s, r) && Accounted(s, r)
    ensures var s, r := Run(start, actions), InFlightAfterRun(start, actions);
            OneRestart(s, r) && Accounted(s, r)
  {
    var init := actions[..|actions| - 1];
    NextKeeps(Run(start, init), actions[|actions| - 1], InFlightAfterRun(start, init));
    hide OneRestart;
    hide Accounted;
    hide Safe;
    hide Next;
    hide InFlightAfter;
  }

  // ----- the results -----

  /** The encoder is gone and nobody is replacing it: no Restart is in flight and the supervisor of
      the current generation has returned. */
  ghost predicate EncoderGone(s: State) {
    && (forall i: nat :: !InFlight(s, i))
    && s.f.gen.Some? && Supervisor(s.f.gen.value) in s.pc && s.pc[Supervisor(s.f.gen.value)].Returned?
  }

  /** Such a session is unfinished only when that supervisor made its check after the Restart that attached
      it did so and before that Restart cleared restarting. */
  lemma UnfinishedMeansLost(isBroad: bool, cleanup: bool, source: bool, actions: seq<Action>)
    requires SerialRun(Start(isBroad, cleanup, source), actions)
    ensures var s := Run(Start(isBroad, cleanup, source), actions);
            EncoderGone(s) && !s.f.finished ==> s.f.gen.value in s.lost
  {
    var start := Start(isBroad, cleanup, source);
    RunKeeps(isBroad, cleanup, source, actions);
    var s, r := Run(start, actions), InFlightAfterRun(start, actions);
    assert r.Some? ==> InFlight(s, r.value);
  }

  /** What being lost means: the check that found the supervisor's own generation current, but its
      Restart not done. */
  lemma LostMeansOwnWindow(s: State, a: Action, g: Gen, r: Option<nat>)
    requires OneRestart(s, r) && g !in s.lost && g in Next(s, a).lost
    ensures a.Step? && a.t == Supervisor(g) && a.t in s.pc && s.pc[a.t].Checking?
    ensures s.f.gen == Some(g) && s.f.restarting && r.Some? && At(s, r) == Clearing(Some(g))
  {
    if a.Step? && a.t in s.pc {
      LostOnlyInWait(s, a.t, a.choice);
    }
  }

  lemma LostOnlyInWait(s: State, t: Thread, c: Choice)
    requires t in s.pc
    ensures !InWait(s.pc[t]) ==> Stepped(s, t, s.pc[t], c).lost == s.lost
  {
  }
}
