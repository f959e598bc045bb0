/** The locked sections of a screen share session, one method each. What happens between two
    sections of one goroutine, and in the others meanwhile, is in SessionRuns. */
module Session {
  import opened Options

  type Gen = nat
  type Release = nat

  /** The fields that the mutex guards. cleanup and source name the functions to call. */
  datatype Fields = Fields(stopped: bool, restarting: bool, finished: bool, isBroad: bool,
                           gen: Option<Gen>, cleanup: Option<Release>)

  predicate Superseded(f: Fields, g: Gen) {
    f.gen != Some(g) || f.restarting
  }

  /** finish goes on past its lock only the first time. */
  function AfterFinish(f: Fields): Fields {
    if f.finished then f else f.(finished := true, stopped := true, cleanup := None)
  }

  predicate MayRestart(f: Fields) {
    !f.stopped && f.isBroad && f.gen.Some?
  }

  function AfterRestart(f: Fields): Fields {
    if MayRestart(f) then f.(restarting := true) else f
  }

  function AfterStop(f: Fields): Fields {
    if f.stopped then f else f.(stopped := true, cleanup := None)
  }

  class Session {
    var stopped: bool
    var restarting: bool
    var finished: bool
    const isBroad: bool
    var gen: Option<Gen>
    var cleanupFunc: Option<Release>

    constructor (isBroad: bool)
      ensures View() == Fields(false, false, false, isBroad, None, None)
    {
      this.isBroad := isBroad;
      stopped, restarting, finished := false, false, false;
      gen, cleanupFunc := None, None;
    }

    ghost function View(): Fields
      reads this
    {
      Fields(stopped, restarting, finished, isBroad, gen, cleanupFunc)
    }

    /** attach: g is the current generation from here on. */
    method Attach(g: Gen)
      modifies this
      ensures View() == old(View()).(gen := Some(g))
    {
      gen := Some(g);
    }

    /** wait: whether the exit of g concerns a generation already replaced or being replaced. */
    method IsSuperseded(g: Gen) returns (superseded: bool)
      ensures superseded <==> Superseded(View(), g)
    {
      superseded := gen != Some(g) || restarting;
    }

    /** finish, its lock: the first to come takes the cleanup. */
    method BeginFinish() returns (first: bool, cleanup: Option<Release>)
      modifies this
      ensures View() == AfterFinish(old(View()))
      ensures first <==> !old(finished)
      ensures cleanup == if first then old(cleanupFunc) else None
    {
      if finished {
        return false, None;
      }
      finished := true;
      stopped := true;
      cleanup := cleanupFunc;
      cleanupFunc := None;
      first := true;
    }

    /** Restart, its first lock: the generation to replace, if it goes on. */
    method BeginRestart() returns (replaced: Option<Gen>)
      modifies this
      ensures View() == AfterRestart(old(View()))
      ensures replaced == if MayRestart(old(View())) then old(gen) else None
    {
      if stopped || !isBroad || gen == None {
        return None;
      }
      restarting := true;
      replaced := gen;
    }

    /** Restart, after the old generation is gone. */
    method IsStopped() returns (isStopped: bool)
      ensures isStopped == stopped
    {
      isStopped := stopped;
    }

    /** launchBroadcast: the capture source the session keeps until it ends. */
    method KeepCleanup(cleanup: Release)
      modifies this
      ensures View() == old(View()).(cleanup := Some(cleanup))
    {
      cleanupFunc := Some(cleanup);
    }

    /** Restart, its last lock. */
    method EndRestart()
      modifies this
      ensures View() == old(View()).(restarting := false)
    {
      restarting := false;
    }

    /** Stop, its lock. */
    method BeginStop() returns (first: bool, cleanup: Option<Release>)
      modifies this
      ensures View() == AfterStop(old(View()))
      ensures first <==> !old(stopped)
      ensures cleanup == if first then old(cleanupFunc) else None
    {
      if stopped {
        return false, None;
      }
      stopped := true;
      cleanup := cleanupFunc;
      cleanupFunc := None;
      first := true;
    }
  }
}
