/** One period of the real-time build's watchdog task, and a run of such
    periods. While the driver is paused the watchdog reads one command per
    period and resumes the driver when that command is not `Pause`; it never
    pauses the driver. */
module Watchdog {
  import opened PlotterTypes
  import opened Coordinator

  /** One watchdog period. `poll` is the command the source would return;
      it is only read, and only counts as read, while the driver is paused. */
  function WatchStep(paused: bool, poll: CommandCode): (r: Transition)
    ensures r.paused ==> paused
    ensures r.polled == (if paused then 1 else 0)
    ensures r.paused <==> paused && poll == Pause
    ensures r.events != [] <==> paused && poll != Pause
    ensures StatusPaused !in r.events && TaskSuspend !in r.events
  {
    if paused then
      var cmd := poll;
      if cmd != Pause then
        var res := Resume(Pi, true);
        Transition(res.paused, res.events, 1)
      else Transition(paused, [], 1)
    else Transition(paused, [], 0)
  }

  /** Consecutive watchdog periods, one command per period while paused. */
  function WatchRun(paused: bool, polls: seq<CommandCode>): (r: Transition)
    ensures r.paused ==> paused
    ensures r.polled <= |polls|
    ensures !paused ==> r.events == [] && r.polled == 0
    ensures StatusPaused !in r.events && TaskSuspend !in r.events
    decreases |polls|
  {
    if polls == [] then Transition(paused, [], 0)
    else
      var s := WatchStep(paused, polls[0]);
      var rest := WatchRun(s.paused, polls[1..]);
      Transition(rest.paused, s.events + rest.events, s.polled + rest.polled)
  }

  /** A watchdog that finds the driver running does nothing, period after
      period. */
  lemma {:induction false} WatchRunWhileRunning(polls: seq<CommandCode>)
    ensures WatchRun(false, polls) == Transition(false, [], 0)
    decreases |polls|
  {
    if polls != [] {
      WatchRunWhileRunning(polls[1..]);
    }
  }

  /** Starting paused, a run of watchdog periods resumes the driver exactly
      once if some period reads a command other than `Pause`, and then in
      the first such period, having read exactly the commands up to it;
      otherwise it stays paused and emits nothing. It never reports paused
      and never suspends the task. */
  lemma {:induction false} WatchRunResumesOnce(polls: seq<CommandCode>)
    ensures var r := WatchRun(true, polls);
      && (r.paused <==> FirstNonPause(polls).None?)
      && Count(r.events, ModelResume) == (if r.paused then 0 else 1)
      && Count(r.events, StatusBusy) == (if r.paused then 0 else 1)
      && Count(r.events, StatusPaused) == 0
      && Count(r.events, TaskSuspend) == 0
      && (r.paused ==> r.events == [] && r.polled == |polls|)
      && (!r.paused ==> r.polled == FirstNonPause(polls).value + 1)
    decreases |polls|
  {
    if polls != [] {
      if polls[0] == Pause {
        WatchRunSkipsPause(polls);
        WatchRunResumesOnce(polls[1..]);
      } else {
        var s := WatchStep(true, polls[0]);
        var rest := WatchRun(s.paused, polls[1..]);
        assert WatchRun(true, polls) == Transition(rest.paused, s.events + rest.events, s.polled + rest.polled);
        WatchRunWhileRunning(polls[1..]);
        ResumeEventsFacts(Pi);
        assert s.events + rest.events == ResumeEvents(Pi);
      }
    }
  }

  /** A paused period that reads `Pause` only counts the read. */
  lemma WatchRunSkipsPause(polls: seq<CommandCode>)
    requires polls != [] && polls[0] == Pause
    ensures var r := WatchRun(true, polls);
      var rest := WatchRun(true, polls[1..]);
      r == Transition(rest.paused, rest.events, rest.polled + 1)
    ensures FirstNonPause(polls).None? == FirstNonPause(polls[1..]).None?
    ensures FirstNonPause(polls).Some? ==> FirstNonPause(polls).value == FirstNonPause(polls[1..]).value + 1
  {
  }

  /** The scenario of five periods reading `Pause` and then one reading
      another command: the sixth period resumes the driver, and only it. */
  lemma FivePausesThenStop(stop: CommandCode)
    requires stop != Pause
    ensures var polls := [Pause, Pause, Pause, Pause, Pause, stop];
      && WatchRun(true, polls[..5]) == Transition(true, [], 5)
      && !WatchRun(true, polls).paused
      && Count(WatchRun(true, polls).events, ModelResume) == 1
  {
    var polls := [Pause, Pause, Pause, Pause, Pause, stop];
    assert polls[5] != Pause;
    WatchRunResumesOnce(polls[..5]);
    WatchRunResumesOnce(polls);
  }
}
