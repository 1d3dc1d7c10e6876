/** The poll loop as the runtime's closure writes it, its variables assigned as the callbacks run. */
module PollRuntime {
  import opened Text
  import opened PollLoop

  class Runtime {
    var stopped: bool
    var timer: Option<nat>
    var activePoll: Option<nat>
    var supervisorFailureActive: bool
    var brainstormFailureActive: bool

    // Kept by the event loop on the closure's behalf.
    var polls: map<nat, Phase>
    var pending: set<nat>
    var pollCount: nat
    var timerCount: nat
    ghost var log: seq<Note>

    ghost function AsLoop(): Loop
      reads this
    {
      Loop(stopped, timer, activePoll, supervisorFailureActive, brainstormFailureActive, polls, pending, pollCount,
           timerCount, log)
    }

    constructor ()
      ensures AsLoop() == Init()
    {
      stopped, timer, activePoll := false, None, None;
      supervisorFailureActive, brainstormFailureActive := false, false;
      polls, pending, pollCount, timerCount, log := map[], {}, 0, 0, [];
      new;
      StartPoll();
    }

    /** `poll` up to its first await, and the promise of the rest. */
    method StartPoll()
      modifies this
      ensures AsLoop() == PollLoop.StartPoll(old(AsLoop()))
    {
      var k := pollCount;
      pollCount := pollCount + 1;
      if stopped {
        polls := polls[k := Finishing];
      } else {
        log := log + [Started(k)];
        polls := polls[k := AwaitingSupervisor];
      }
      activePoll := Some(k);
    }

    method SupervisorSettled(k: nat, threw: bool, store: Option<seq<Brainstorm>>)
      requires Enabled(AsLoop(), SupervisorSettles(k, threw, store))
      modifies this
      ensures AsLoop() == Step(old(AsLoop()), SupervisorSettles(k, threw, store))
    {
      hide Advanceable;
      log := log + [SupervisorRan(k, threw)];
      if !threw {
        supervisorFailureActive := false;
      } else if !supervisorFailureActive {
        supervisorFailureActive := true;
        log := log + [IncidentAttempted(Supervisor)];
      }
      var brainstormFailed := store.None?;
      var advanceable := Advanceable(store);
      NextTick(k, store, advanceable, brainstormFailed);
    }

    method TickSettled(k: nat, threw: bool)
      requires Enabled(AsLoop(), TickSettles(k, threw))
      modifies this
      ensures AsLoop() == Step(old(AsLoop()), TickSettles(k, threw))
    {
      var p := polls[k];
      log := log + [Ticked(k, p.todo[0], threw)];
      NextTick(k, p.store, p.todo[1..], p.failed || threw);
    }

    /** The head of the loop over the brainstorms, and what follows the loop. */
    method NextTick(k: nat, store: Option<seq<Brainstorm>>, todo: seq<string>, brainstormFailed: bool)
      modifies this
      ensures AsLoop() == Continue(old(AsLoop()), k, store, todo, brainstormFailed)
    {
      if todo != [] {
        polls := polls[k := AwaitingTick(store, todo, brainstormFailed)];
        return;
      }
      log := log + [Ended(k, store, brainstormFailed)];
      if brainstormFailed {
        if !brainstormFailureActive {
          brainstormFailureActive := true;
          log := log + [IncidentAttempted(Brainstorms)];
        }
      } else {
        brainstormFailureActive := false;
      }
      if !stopped {
        timer := Some(timerCount);
        pending := pending + {timerCount};
        timerCount := timerCount + 1;
      }
      polls := polls[k := Finishing];
    }

    method FinallyRan(k: nat)
      requires Enabled(AsLoop(), FinallyRuns(k))
      modifies this
      ensures AsLoop() == Step(old(AsLoop()), FinallyRuns(k))
    {
      activePoll := None;
      polls := polls - {k};
    }

    method TimerFired(t: nat)
      requires Enabled(AsLoop(), TimerFires(t))
      modifies this
      ensures AsLoop() == Step(old(AsLoop()), TimerFires(t))
    {
      pending := pending - {t};
      StartPoll();
    }

    /** Stopping waits, within a time limit, for the poll this returns. */
    method Stop() returns (drain: Option<nat>)
      modifies this
      ensures AsLoop() == Step(old(AsLoop()), StopCalled)
      ensures drain == if old(stopped) then None else old(activePoll)
    {
      if stopped {
        return None;
      }
      stopped := true;
      log := log + [Stopped];
      if timer.Some? {
        pending := pending - {timer.value};
      }
      drain := activePoll;
    }
  }
}
