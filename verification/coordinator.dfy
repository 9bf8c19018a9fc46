/** The process-wide pause/resume state machine of the driver (`paused` with
    `sketchy_suspend` and `sketchy_resume`). Each call returns the new value
    of the flag and the ordered events it caused: status reports to the IPC
    sink, the motion model's resume notification, console notices and, on
    the real-time build, suspension or resumption of the actuation task. */
module Coordinator {
  import opened PlotterTypes

  /** The two builds: the real-time Raspberry Pi build and the desktop
      simulation build. */
  datatype Build = Pi | Sim

  datatype Event =
    | StatusPaused        // driver status reported as paused
    | StatusBusy          // driver status reported as busy
    | ModelResume         // the motion model recomputes its cached timing
    | PreviewSpeedUpdate  // the preview raster is told the speed bounds again
    | TaskSuspend         // the actuation task is suspended by the scheduler
    | TaskResume          // the actuation task is resumed by the scheduler
    | PauseNotice         // console notice of the pause
    | ResumeNotice        // console notice of the resume

  /** New value of `paused`, the events emitted, and how many commands were
      read from the command source. */
  datatype Transition = Transition(paused: bool, events: seq<Event>, polled: nat)

  /** The status reports among some events, in order. */
  function Statuses(events: seq<Event>): (r: seq<Event>)
    ensures |r| <= |events|
    ensures forall i :: 0 <= i < |r| ==> r[i] == StatusPaused || r[i] == StatusBusy
  {
    if events == [] then []
    else
      var rest := Statuses(events[1..]);
      if events[0] == StatusPaused || events[0] == StatusBusy then [events[0]] + rest else rest
  }

  /** Events of a resume that actually resumes. */
  function ResumeEvents(build: Build): seq<Event>
  {
    match build
    case Pi => [ModelResume, StatusBusy, ResumeNotice, TaskResume]
    case Sim => [ModelResume, PreviewSpeedUpdate, StatusBusy, ResumeNotice]
  }

  /** `resume`: whatever the flag was, the driver ends up running; it acts,
      starting with the model notification and including a busy report, only
      when it was paused. */
  function Resume(build: Build, paused: bool): (r: Transition)
    ensures !r.paused
    ensures r.polled == 0
    ensures r.events == [] <==> !paused
    ensures paused ==> r.events[0] == ModelResume && StatusBusy in r.events
                       && StatusPaused !in r.events && TaskSuspend !in r.events
  {
    if !paused then Transition(paused, [], 0)
    else Transition(false, ResumeEvents(build), 0)
  }

  /** `suspend`. On the real-time build the task is suspended and the
      watchdog is the wake source. On the simulation build the call polls the
      command source until a command other than `Pause` arrives and then
      resumes; `polls` are the answers the source would give, and when they
      run out without such a command the driver is still paused. */
  function Suspend(build: Build, paused: bool, polls: seq<CommandCode>): (r: Transition)
    ensures paused ==> r == Transition(true, [], 0)
    ensures !paused ==> |r.events| >= 2 && r.events[0] == StatusPaused
    ensures r.polled <= |polls|
    ensures build == Pi ==> r.paused && r.polled == 0
    ensures !r.paused ==> build == Sim && !paused && StatusBusy in r.events
                          && 0 < r.polled && polls[r.polled - 1] != Pause
    ensures r.paused && build == Sim && !paused ==> r.polled == |polls| && StatusBusy !in r.events
  {
    if paused then Transition(paused, [], 0)
    else match build
      case Pi => Transition(true, [StatusPaused, PauseNotice, TaskSuspend], 0)
      case Sim =>
        match FirstNonPause(polls)
        case None => Transition(true, [StatusPaused, PauseNotice], |polls|)
        case Some(k) =>
          var r := Resume(Sim, true);
          Transition(r.paused, [StatusPaused, PauseNotice] + r.events, k + 1)
  }

  /** Every busy report comes after a notification of the motion model. */
  predicate NotifiedBeforeBusy(events: seq<Event>)
  {
    forall i :: 0 <= i < |events| && events[i] == StatusBusy ==> ModelResume in events[..i]
  }

  /** Status reports and model notifications of a resume that resumes. */
  lemma ResumeEventsFacts(build: Build)
    ensures var e := ResumeEvents(build);
      && e[0] == ModelResume
      && Count(e, ModelResume) == 1
      && Count(e, StatusBusy) == 1
      && Count(e, StatusPaused) == 0
      && Count(e, TaskSuspend) == 0
      && Statuses(e) == [StatusBusy]
      && NotifiedBeforeBusy(e)
  {
    ResumeEventsCounts(build);
    ResumeEventsStatuses(build);
    var e := ResumeEvents(build);
    forall i | 0 <= i < |e| && e[i] == StatusBusy
      ensures ModelResume in e[..i]
    {
      assert e[..i][0] == ModelResume;
    }
  }

  lemma ResumeEventsCounts(build: Build)
    ensures var e := ResumeEvents(build);
      && Count(e, ModelResume) == 1
      && Count(e, StatusBusy) == 1
      && Count(e, StatusPaused) == 0
      && Count(e, TaskSuspend) == 0
  {
    var head: seq<Event> := [ModelResume];
    var tail := ResumeEvents(build)[1..];
    assert ResumeEvents(build) == head + tail;
    CountAppend(head, tail, ModelResume);
    CountAppend(head, tail, StatusBusy);
    CountAppend(head, tail, StatusPaused);
    CountAppend(head, tail, TaskSuspend);
  }

  lemma ResumeEventsStatuses(build: Build)
    ensures Statuses(ResumeEvents(build)) == [StatusBusy]
  {
    var e := ResumeEvents(build);
    if build == Pi {
      assert e == [ModelResume, StatusBusy] + [ResumeNotice, TaskResume];
      StatusesAppend([ModelResume, StatusBusy], [ResumeNotice, TaskResume]);
    } else {
      assert e == [ModelResume, PreviewSpeedUpdate] + [StatusBusy, ResumeNotice];
      StatusesAppend([ModelResume, PreviewSpeedUpdate], [StatusBusy, ResumeNotice]);
    }
  }

  /** `resume` is a no-op while running. Otherwise it first notifies the
      model, reports busy exactly once, and clears the flag; on the real-time
      build its last act is to resume the actuation task. */
  lemma ResumeContract(build: Build, paused: bool)
    ensures var r := Resume(build, paused);
      && !r.paused
      && r.polled == 0
      && (!paused ==> r.events == [])
      && (paused ==> r.events[0] == ModelResume && Count(r.events, ModelResume) == 1
                     && Statuses(r.events) == [StatusBusy] && NotifiedBeforeBusy(r.events))
      && (paused && build == Pi ==> r.events[|r.events| - 1] == TaskResume)
  {
    ResumeEventsFacts(build);
  }

  /** `suspend` while paused does nothing, on either build. */
  lemma SuspendWhilePaused(build: Build, polls: seq<CommandCode>)
    ensures Suspend(build, true, polls) == Transition(true, [], 0)
  {
  }

  /** On the real-time build, `suspend` while running reports paused exactly
      once, as its first event, sets the flag and ends by suspending the
      actuation task; it reads no command. */
  lemma SuspendPi(polls: seq<CommandCode>)
    ensures var r := Suspend(Pi, false, polls);
      && r.paused
      && r.polled == 0
      && r.events[0] == StatusPaused
      && r.events[|r.events| - 1] == TaskSuspend
      && Count(r.events, StatusPaused) == 1
      && Count(r.events, ModelResume) == 0
      && Statuses(r.events) == [StatusPaused]
  {
  }

  /** On the simulation build, `suspend` while running that only ever reads
      `Pause` reports paused once, reads every command and stays paused. */
  lemma SuspendSimStays(polls: seq<CommandCode>)
    requires forall i :: 0 <= i < |polls| ==> polls[i] == Pause
    ensures var r := Suspend(Sim, false, polls);
      && r.paused
      && r.polled == |polls|
      && r.events[0] == StatusPaused
      && Count(r.events, StatusPaused) == 1
      && Count(r.events, ModelResume) == 0
      && Statuses(r.events) == [StatusPaused]
  {
  }

  /** On the simulation build, `suspend` while running reports paused first
      and once, reads commands up to and including the first one that is not
      `Pause`, then resumes exactly once and is left running. */
  lemma SuspendSimResumes(polls: seq<CommandCode>, k: nat)
    requires k < |polls| && polls[k] != Pause
    requires forall i :: 0 <= i < k ==> polls[i] == Pause
    ensures var r := Suspend(Sim, false, polls);
      && !r.paused
      && r.polled == k + 1
      && r.events[0] == StatusPaused
      && Count(r.events, StatusPaused) == 1
      && Count(r.events, ModelResume) == 1
      && Statuses(r.events) == [StatusPaused, StatusBusy]
      && NotifiedBeforeBusy(r.events)
  {
    var f := FirstNonPause(polls);
    assert f.Some? by {
      assert polls[k] != Pause;
    }
    assert f.value == k;
    SimResumeEventsFacts();
    SimNotifiedBeforeBusy();
  }

  /** Events of a simulation-build suspend that is released by a command. */
  const SimSuspendResumeEvents := [StatusPaused, PauseNotice] + ResumeEvents(Sim)

  lemma SimResumeEventsFacts()
    ensures var e := SimSuspendResumeEvents;
      && e[0] == StatusPaused
      && Count(e, StatusPaused) == 1
      && Count(e, ModelResume) == 1
      && Statuses(e) == [StatusPaused, StatusBusy]
  {
    SimResumeEventsCounts();
    SimResumeEventsStatuses();
  }

  lemma SimResumeEventsCounts()
    ensures Count(SimSuspendResumeEvents, StatusPaused) == 1
    ensures Count(SimSuspendResumeEvents, ModelResume) == 1
  {
    var pre: seq<Event> := [StatusPaused, PauseNotice];
    var tail := ResumeEvents(Sim);
    ResumeEventsCounts(Sim);
    assert Count(pre, StatusPaused) == 1 && Count(pre, ModelResume) == 0;
    CountAppend(pre, tail, StatusPaused);
    CountAppend(pre, tail, ModelResume);
  }

  lemma SimResumeEventsStatuses()
    ensures Statuses(SimSuspendResumeEvents) == [StatusPaused, StatusBusy]
  {
    var pre: seq<Event> := [StatusPaused, PauseNotice];
    var tail := ResumeEvents(Sim);
    ResumeEventsStatuses(Sim);
    assert Statuses(pre) == [StatusPaused];
    StatusesAppend(pre, tail);
  }

  lemma SimNotifiedBeforeBusy()
    ensures NotifiedBeforeBusy(SimSuspendResumeEvents)
  {
    var e := SimSuspendResumeEvents;
    assert e == [StatusPaused, PauseNotice, ModelResume, PreviewSpeedUpdate, StatusBusy, ResumeNotice];
    forall i | 0 <= i < |e| && e[i] == StatusBusy
      ensures ModelResume in e[..i]
    {
      assert i == 4;
      assert e[..i][2] == ModelResume;
    }
  }

  lemma {:induction false} StatusesAppend(a: seq<Event>, b: seq<Event>)
    ensures Statuses(a + b) == Statuses(a) + Statuses(b)
    decreases |a|
  {
    if a == [] {
      assert a + b == b;
    } else {
      assert (a + b)[1..] == a[1..] + b;
      StatusesAppend(a[1..], b);
    }
  }

  /** Calling `resume` twice has the effect of calling it once: the second
      call emits nothing and leaves the flag as the first call left it. */
  lemma ResumeIdempotent(build: Build, paused: bool)
    ensures var r1 := Resume(build, paused);
      var r2 := Resume(build, r1.paused);
      r2.paused == r1.paused && r2.events == []
  {
  }

  /** Calling `suspend` twice has the effect of calling it once when the
      first call leaves the driver paused (always on the real-time build; on
      the simulation build, when no polled command released it). */
  lemma SuspendIdempotent(build: Build, paused: bool, polls1: seq<CommandCode>, polls2: seq<CommandCode>)
    ensures var r1 := Suspend(build, paused, polls1);
      var r2 := Suspend(build, r1.paused, polls2);
      r1.paused ==> r2.paused && r2.events == [] && r2.polled == 0
    ensures build == Pi ==> Suspend(build, paused, polls1).paused
  {
  }
}
