# Sketchy plotter driver: actuation core in Dafny

This project models the motion-execution core of the blackstripes drawing
robot's driver (`sketchy_driver/sketchy.c`): the per-tick actuation decision of
`executeStep` on the real-time Raspberry Pi build (direction pins, pen
solenoid, stepper clock pulses, with redundant writes suppressed), the same
callback on the desktop simulation build (tick counter, preview rasters and
their periodic checkpoint), the pause/resume state machine
(`sketchy_suspend` / `sketchy_resume`), one period of the watchdog task, and
the pen-up writes that `run` issues before starting and after stopping the
actuation task.

Everything is pure: a tick is a function from the last-applied state, the
commanded step and the pen mode to a new state and an ordered trace of
actions; suspend, resume and the watchdog return the new `paused` flag and the
ordered events they cause.

Modules:

- `PlotterTypes` (`types.dfy`): directions, solenoid, pen mode, steps, command
  codes, GPIO levels and pins, the action trace and its per-pin projection
  `Levels` / `LastLevel`, and `FirstNonPause` over polled commands.
- `Hardware` (`hardware.dfy`): the hardware branch of `executeStep` as `Tick`,
  the hardware profile (left direction pin inverted or not, the compile-time
  V-plotter switch of the source, here a parameter), runs of ticks and the
  whole hardware `run` with its two pen-up writes.
- `Coordinator` (`coordinator.dfy`): `Suspend` and `Resume` for both builds.
  On the simulation build the busy loop of `sketchy_suspend` reads a finite
  sequence of polled commands.
- `Watchdog` (`watchdog.dfy`): one watchdog period and a run of periods.
- `Simulation` (`simulation.dfy`): the simulation branch of `executeStep` and
  the simulation `run`.

The central invariant is `Hardware.Consistent`. The stored state agrees with
the level each pin was last driven to: the solenoid, and each direction pin
whose stored direction is not `DirNone`. Between ticks no clock pin is HIGH.
Every tick preserves this invariant, so skipping a "redundant" write never
leaves a pin at a level other than the one the state claims.

Shutdown deletes the actuation task wherever it happens to be, so
`Hardware.RunHardware` takes a cut point: the number of the task's actions
that happened before the task was deleted. The pen is up after the final
write whatever the cut. No clock pin is left HIGH when the cut falls between
two ticks (`Hardware.SafeShutdownBetweenTicks`). A cut during the pulse hold
can leave one HIGH, as `Hardware.ShutdownMidPulse` shows.

Three behaviours of the code worth knowing:

- An idle tick (`DirNone`) stores `DirNone` as the last direction. The next
  tick that moves the axis therefore writes its direction pin again, even
  when the pin already holds that level (`Hardware.IdleTickForgetsDirection`).
  This is harmless, since the pin never changes to a wrong level.
- The per-tick order is directions, then solenoid, then rising edges, the hold,
  then falling edges (sketchy.c:135-200).
- The simulation build has no watchdog. Its `suspend` resumes by itself as
  soon as a polled command is not `Pause`.

## Model

| member | source | states |
|---|---|---|
| Hardware.Tick | sketchy_driver/sketchy.c:117-202 | a tick stores the commanded directions of both axes, None included, and stores the pen as Down exactly in manual pen-down mode; it performs between one and eight actions |
| Hardware.TickDirections | sketchy_driver/sketchy.c:135-171 | each direction pin is written at most once per tick, only when the command is not None and differs from the last applied direction; left Up is HIGH (LOW on the inverted profile) and right Up is LOW, Down the other level; the stored direction becomes the command, None included |
| Hardware.TickSolenoid | sketchy_driver/sketchy.c:173-183 | the solenoid target is Down exactly in manual pen-down mode (lines 120, 129-133); the pin is written only on change, Up as HIGH and Down as LOW; the stored position becomes the target |
| Hardware.TickClockPulses | sketchy_driver/sketchy.c:185-200 | a moving axis gets exactly one HIGH then exactly one LOW on its clock pin; an idle axis gets no clock write |
| Hardware.TickOrder | sketchy_driver/sketchy.c:135-200 | every action of a tick is in the order direction writes, solenoid write, rising edges, the pulse hold, falling edges; the hold happens exactly once |
| Hardware.TickRepeatQuiet | sketchy_driver/sketchy.c:135-200 | a second identical tick writes no direction or solenoid pin, keeps the stored state, and pulses the clocks exactly like the first |
| Hardware.TickPreservesConsistency | sketchy_driver/sketchy.c:135-200 | if the stored state agrees with the pins' last written levels before a tick, the new state agrees with them after it |
| Hardware.RunTicks | sketchy_driver/sketchy.c:117-202 | after a sequence of ticks the stored state is the last step's directions and pen target (the start state when there were none), and every tick acted at least once |
| Hardware.RunPreservesConsistency | sketchy_driver/sketchy.c:135-200 | the agreement of stored state and pin levels holds across any number of ticks |
| Hardware.RunHardware | sketchy_driver/sketchy.c:251-277 | a hardware run is the pen-up write, at most every action of the ticks (the task may be deleted part-way), and the pen-up write again |
| Hardware.SafeShutdown | sketchy_driver/sketchy.c:251-277 | wherever shutdown deletes the actuation task, the pen is up at the end; when it deletes it after the last tick, no clock pin is left HIGH |
| Hardware.RunTicksAppend | sketchy_driver/sketchy.c:117-202 | the actions of two batches of ticks are those of the first batch followed by those of the second, run from the state the first left |
| Hardware.SafeShutdownBetweenTicks | sketchy_driver/sketchy.c:272-277 | a shutdown between any two ticks leaves the pen up and no clock pin HIGH |
| Hardware.ShutdownMidPulse | sketchy_driver/sketchy.c:186-193 | a shutdown during the pulse hold of a left-axis step leaves the pen up but the left clock pin HIGH |
| Hardware.PenDownScenario | sketchy_driver/sketchy.c:117-200 | from start-up, a left-Up step in manual pen-down mode writes the solenoid LOW once, the left direction once at the profile's level, pulses only the left clock |
| Hardware.IdleTickForgetsDirection | sketchy_driver/sketchy.c:135-159 | an idle left axis writes nothing but stores None, so a following Up writes the left direction pin again at the Up level |
| PlotterTypes.FirstNonPause | sketchy_driver/sketchy.c:67-73 | the index found is the first polled command that is not Pause, and none is found exactly when every polled command is Pause |
| Coordinator.Resume | sketchy_driver/sketchy.c:79-96 | resume always leaves the driver running and reads no command; it emits something exactly when paused, and then the model notification comes first, busy is reported, and it never reports Paused or suspends the task |
| Coordinator.Suspend | sketchy_driver/sketchy.c:56-77 | suspend while paused does nothing; otherwise it reports Paused first; on the real-time build it always ends paused without reading commands; on the simulation build it ends running only after reading a non-Pause command last and reporting busy, and otherwise reads every command and reports no busy |
| Coordinator.ResumeEventsFacts | sketchy_driver/sketchy.c:82-93 | an effective resume notifies the model first, reports Busy exactly once, never reports Paused and never suspends the task |
| Coordinator.ResumeContract | sketchy_driver/sketchy.c:79-96 | resume always leaves the driver running; while running it emits nothing; while paused it notifies the model first, reports Busy once, and on the real-time build resumes the task last |
| Coordinator.SuspendWhilePaused | sketchy_driver/sketchy.c:56-58 | suspend while paused emits nothing, reads nothing and stays paused |
| Coordinator.SuspendPi | sketchy_driver/sketchy.c:56-64 | on the real-time build suspend while running reports Paused exactly once and first, sets the flag and ends by suspending the task |
| Coordinator.SuspendSimStays | sketchy_driver/sketchy.c:56-73 | on the simulation build, suspend while running that only reads Pause reports Paused first and once, reads every command and stays paused without resuming |
| Coordinator.SuspendSimResumes | sketchy_driver/sketchy.c:56-77 | on the simulation build, suspend while running reports Paused first and once, reads exactly up to the first non-Pause command, then resumes once (exactly one model notification, which precedes Busy) and ends running |
| Coordinator.ResumeIdempotent | sketchy_driver/sketchy.c:79-87 | a second resume emits nothing and leaves the flag as the first left it |
| Coordinator.SuspendIdempotent | sketchy_driver/sketchy.c:56-61 | a second suspend after one that left the driver paused emits nothing and reads nothing; on the real-time build suspend always leaves it paused |
| Watchdog.WatchStep | sketchy_driver/sketchy.c:102-110 | one period never sets paused; it reads a command only while paused; it resumes exactly when paused and the command is not Pause; it never reports Paused or suspends |
| Watchdog.WatchRun | sketchy_driver/sketchy.c:102-113 | a run of periods never pauses the driver, never reports Paused or suspends the task, reads at most the commands offered, and reads and emits nothing if the driver is running |
| Watchdog.WatchRunSkipsPause | sketchy_driver/sketchy.c:105-110 | while paused, a period that reads Pause only consumes that command and leaves the rest of the run unchanged |
| Watchdog.WatchRunWhileRunning | sketchy_driver/sketchy.c:102-113 | periods that find the driver running read nothing and emit nothing |
| Watchdog.WatchRunResumesOnce | sketchy_driver/sketchy.c:102-113 | starting paused, a run of periods resumes exactly once, in the period of the first non-Pause command, having read exactly up to it; with only Pause it stays paused and silent |
| Watchdog.FivePausesThenStop | sketchy_driver/sketchy.c:102-113 | five Pause periods leave the driver paused and silent; the sixth, reading another command, resumes it exactly once |
| Simulation.SimTick | sketchy_driver/sketchy.c:206-213 | the counter grows by exactly one; the drawing raster gets the pixel with active = pen-down and the pen-move raster with active = not pen-down; the drawing raster is saved, once, exactly when the new counter is a multiple of 10000; nothing else is called |
| Simulation.SimRun | sketchy_driver/sketchy.c:206-213 | n ticks advance the counter by exactly n and make exactly two pixel calls per tick plus the drawing saves, without saving the pen-move raster or releasing either raster |
| Simulation.RunSim | sketchy_driver/sketchy.c:282-290 | a simulated run of n ticks leaves the counter at n, makes 2n + n/10000 + 4 raster calls, and its last call releases the pen-move raster |
| Simulation.SaveCadence | sketchy_driver/sketchy.c:210-213 | over any run the drawing raster is saved once per multiple of 10000 the counter passes |
| Simulation.FinalFlush | sketchy_driver/sketchy.c:282-290 | a simulated run of n ticks saves the drawing raster n/10000 + 1 times, the last after every tick, saves the pen-move raster once, and ends by saving and releasing both |

## Left out

- Real-time scheduling: task creation and start, periodic waits and period changes (`rt_task_wait_period`, `rt_task_set_periodic` with the model's delay), because they order execution in time and do not change what is written. The pulse sleep is kept as the `Hold` action.
- Signal handlers, `mlockall`, `pause()`, `bcm2835_init` and pin function selection in `run`, because they are operating-system and hardware set-up; the failed-initialisation message is not modelled.
- The concurrency between the actuation task and the watchdog: each is modelled as a sequential step over the shared `paused` flag.
- `Point_allocWithSteps` and the flooring of floating-point coordinates: the pixel is an input of the simulation tick.
- The motion model, the IPC command source and the status sink: the model's pen mode and delay and the polled commands are inputs; the model's resume, the preview speed update and the status reports are output events.
- Console output other than the pause and resume notices.
- Hardware.RunHardware: the cut counts actions, so a shutdown inside a tick keeps only the writes issued before it; what the deleted task's pending sleep does to the hardware is not modelled.
- Simulation.SimTick: the tick counter is a C `long` in the source; the model's counter is unbounded, so wrap-around after 2^63 ticks is not modelled.
- Coordinator.SuspendSimStays: the busy loop of the simulation build spins forever while the command source keeps answering Pause; the model reads a finite sequence of answers and reports the driver still paused when they run out.
- The simulation build's preview rasters are allocated with file names and speed bounds in `run`; allocation is not modelled, only the pixel, save and release calls.
- Coordinator.SuspendIdempotent: on the simulation build a second suspend is a no-op only when the first left the driver paused; a first suspend that was released by a polled command leaves it running, and the source then pauses again on the second call.
