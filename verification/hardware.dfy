/** The hardware branch of `executeStep`: one actuation tick turns the
    last-applied state and one commanded step into a new state and an ordered
    trace of GPIO writes (direction pins, pen solenoid, then the clock pulse
    with its hold interval). Also the start-up and shut-down solenoid writes
    of `run`, and a whole run as a fold of ticks. */
module Hardware {
  import opened PlotterTypes

  /** The hardware profile chosen at build time. The V-plotter drives the
      left direction pin with Up as HIGH; the mini machine has its left
      gearbox mirrored and inverts that pin. The right pin is never inverted. */
  datatype Profile = Profile(leftInverted: bool)

  const VPlotter := Profile(false)
  const Mini := Profile(true)

  /** Width of a step pulse: the real-time sleep between the rising and the
      falling clock edges, in the real-time clock's units. */
  const PulseHold: nat := 100

  /** The last hardware state actually applied: directions of both axes and
      the solenoid position. */
  datatype ActState = ActState(leftdir: Dir, rightdir: Dir, solenoid: Solenoid)

  /** The process-start values of the last-applied state. */
  const Initial := ActState(DirNone, DirNone, SolUp)

  /** Output of one tick: the new last-applied state and the actions taken. */
  datatype TickResult = TickResult(state: ActState, trace: seq<Action>)

  /** One input of the motion model per tick: the step and the pen mode. */
  datatype TickInput = TickInput(step: Step, pen: PenMode)

  function SolenoidTarget(pen: PenMode): Solenoid
  {
    if ShouldDraw(pen) then SolDown else SolUp
  }

  function SolenoidLevel(s: Solenoid): Level
  {
    match s
    case SolUp => High
    case SolDown => Low
  }

  function Flip(l: Level): Level
  {
    if l == High then Low else High
  }

  /** Level that drives the left axis Up; Down is the other level. */
  function LeftUpLevel(profile: Profile): Level
  {
    if profile.leftInverted then Low else High
  }

  /** Level that drives the right axis Up, on every profile. */
  const RightUpLevel := Low

  /** Level of a direction pin for a moving axis, given the level meaning Up. */
  function DirLevel(upLevel: Level, d: Dir): Level
    requires d != DirNone
  {
    if d == DirUp then upLevel else Flip(upLevel)
  }

  /** Direction writes for one axis: only when the command differs from the
      last applied direction, and never for `DirNone`. */
  function AxisDirWrite(pin: Pin, cmd: Dir, last: Dir, upLevel: Level): seq<Action>
  {
    if cmd != last && cmd != DirNone then [Write(pin, DirLevel(upLevel, cmd))] else []
  }

  function DirectionWrites(profile: Profile, st: ActState, step: Step): seq<Action>
  {
    AxisDirWrite(LeftDir, step.leftengine, st.leftdir, LeftUpLevel(profile))
    + AxisDirWrite(RightDir, step.rightengine, st.rightdir, RightUpLevel)
  }

  function SolenoidWrites(last: Solenoid, target: Solenoid): seq<Action>
  {
    if last != target then [Write(SolenoidPin, SolenoidLevel(target))] else []
  }

  /** One edge on the clock pin of every axis that moves this tick. */
  function ClockEdges(step: Step, level: Level): seq<Action>
  {
    (if step.leftengine != DirNone then [Write(LeftClock, level)] else [])
    + (if step.rightengine != DirNone then [Write(RightClock, level)] else [])
  }

  /** One actuation tick of the hardware build. */
  function Tick(profile: Profile, st: ActState, step: Step, pen: PenMode): (r: TickResult)
    ensures r.state.leftdir == step.leftengine && r.state.rightdir == step.rightengine
    ensures r.state.solenoid == SolDown <==> pen == ManualDown
    ensures 1 <= |r.trace| <= 8
  {
    var target := SolenoidTarget(pen);
    TickResult(
      ActState(step.leftengine, step.rightengine, target),
      DirectionWrites(profile, st, step)
      + SolenoidWrites(st.solenoid, target)
      + ClockEdges(step, High)
      + [Hold(PulseHold)]
      + ClockEdges(step, Low))
  }

  lemma SingleLevels(a: Action, pin: Pin)
    ensures Levels([a], pin) == if a.Write? && a.pin == pin then [a.level] else []
  {
  }

  lemma AxisDirLevels(pin: Pin, cmd: Dir, last: Dir, upLevel: Level, q: Pin)
    ensures Levels(AxisDirWrite(pin, cmd, last, upLevel), q)
         == if q == pin && cmd != last && cmd != DirNone then [DirLevel(upLevel, cmd)] else []
  {
  }

  lemma DirectionLevels(profile: Profile, st: ActState, step: Step, q: Pin)
    ensures Levels(DirectionWrites(profile, st, step), q)
         == if q == LeftDir then Levels(AxisDirWrite(LeftDir, step.leftengine, st.leftdir, LeftUpLevel(profile)), q)
            else if q == RightDir then Levels(AxisDirWrite(RightDir, step.rightengine, st.rightdir, RightUpLevel), q)
            else []
  {
  }

  lemma SolenoidLevels(last: Solenoid, target: Solenoid, q: Pin)
    ensures Levels(SolenoidWrites(last, target), q)
         == if q == SolenoidPin && last != target then [SolenoidLevel(target)] else []
  {
  }

  lemma ClockLevels(step: Step, level: Level, q: Pin)
    ensures Levels(ClockEdges(step, level), q)
         == if q == LeftClock && step.leftengine != DirNone then [level]
            else if q == RightClock && step.rightengine != DirNone then [level]
            else []
  {
  }

  /** Per-pin view of a tick: the levels written to `pin` are those of each
      segment of the tick in turn. */
  lemma TickLevels(profile: Profile, st: ActState, step: Step, pen: PenMode, pin: Pin)
    ensures Levels(Tick(profile, st, step, pen).trace, pin)
         == Levels(DirectionWrites(profile, st, step), pin)
          + Levels(SolenoidWrites(st.solenoid, SolenoidTarget(pen)), pin)
          + Levels(ClockEdges(step, High), pin)
          + Levels(ClockEdges(step, Low), pin)
  {
    var d := DirectionWrites(profile, st, step);
    var s := SolenoidWrites(st.solenoid, SolenoidTarget(pen));
    var up := ClockEdges(step, High);
    var dn := ClockEdges(step, Low);
    var h: seq<Action> := [Hold(PulseHold)];
    assert Tick(profile, st, step, pen).trace == d + s + up + h + dn;
    LevelsAppend(d, s, pin);
    LevelsAppend(d + s, up, pin);
    LevelsAppend(d + s + up, h, pin);
    LevelsAppend(d + s + up + h, dn, pin);
    SingleLevels(Hold(PulseHold), pin);
  }

  /** Direction pins: each is written at most once, only when the command is
      not `DirNone` and differs from the last applied direction, with the
      profile's level; afterwards the stored direction is the command, even
      when it is `DirNone`. */
  lemma TickDirections(profile: Profile, st: ActState, step: Step, pen: PenMode)
    ensures var r := Tick(profile, st, step, pen);
      && r.state.leftdir == step.leftengine
      && r.state.rightdir == step.rightengine
      && Levels(r.trace, LeftDir)
         == (if step.leftengine == st.leftdir || step.leftengine == DirNone then []
             else if step.leftengine == DirUp then [if profile.leftInverted then Low else High]
             else [if profile.leftInverted then High else Low])
      && Levels(r.trace, RightDir)
         == (if step.rightengine == st.rightdir || step.rightengine == DirNone then []
             else if step.rightengine == DirUp then [Low]
             else [High])
  {
    TickLevels(profile, st, step, pen, LeftDir);
    TickLevels(profile, st, step, pen, RightDir);
    DirectionLevels(profile, st, step, LeftDir);
    DirectionLevels(profile, st, step, RightDir);
    AxisDirLevels(LeftDir, step.leftengine, st.leftdir, LeftUpLevel(profile), LeftDir);
    AxisDirLevels(RightDir, step.rightengine, st.rightdir, RightUpLevel, RightDir);
    SolenoidLevels(st.solenoid, SolenoidTarget(pen), LeftDir);
    SolenoidLevels(st.solenoid, SolenoidTarget(pen), RightDir);
    ClockLevels(step, High, LeftDir);
    ClockLevels(step, High, RightDir);
    ClockLevels(step, Low, LeftDir);
    ClockLevels(step, Low, RightDir);
  }

  /** Solenoid pin: the target is Down exactly in manual pen-down mode; the
      pin is written once, Up as HIGH and Down as LOW, only when the target
      differs from the stored position, which then becomes the target. */
  lemma TickSolenoid(profile: Profile, st: ActState, step: Step, pen: PenMode)
    ensures var r := Tick(profile, st, step, pen);
      && (r.state.solenoid == SolDown <==> pen == ManualDown)
      && Levels(r.trace, SolenoidPin)
         == (if st.solenoid == r.state.solenoid then []
             else if r.state.solenoid == SolUp then [High] else [Low])
  {
    TickLevels(profile, st, step, pen, SolenoidPin);
    DirectionLevels(profile, st, step, SolenoidPin);
    SolenoidLevels(st.solenoid, SolenoidTarget(pen), SolenoidPin);
    ClockLevels(step, High, SolenoidPin);
    ClockLevels(step, Low, SolenoidPin);
  }

  /** One clock pin over a tick: a HIGH then a LOW when its axis moves. */
  lemma ClockPinLevels(profile: Profile, st: ActState, step: Step, pen: PenMode, q: Pin)
    requires q == LeftClock || q == RightClock
    ensures Levels(Tick(profile, st, step, pen).trace, q)
         == if (q == LeftClock && step.leftengine != DirNone)
               || (q == RightClock && step.rightengine != DirNone)
            then [High, Low] else []
  {
    TickLevels(profile, st, step, pen, q);
    DirectionLevels(profile, st, step, q);
    SolenoidLevels(st.solenoid, SolenoidTarget(pen), q);
    ClockLevels(step, High, q);
    ClockLevels(step, Low, q);
  }

  /** Clock pins: an axis that moves gets exactly one HIGH write followed by
      exactly one LOW write on its clock pin; an idle axis gets none. */
  lemma TickClockPulses(profile: Profile, st: ActState, step: Step, pen: PenMode)
    ensures var r := Tick(profile, st, step, pen);
      && Levels(r.trace, LeftClock) == (if step.leftengine != DirNone then [High, Low] else [])
      && Levels(r.trace, RightClock) == (if step.rightengine != DirNone then [High, Low] else [])
  {
    ClockPinLevels(profile, st, step, pen, LeftClock);
    ClockPinLevels(profile, st, step, pen, RightClock);
  }

  /** Position of an action in the fixed per-tick order: direction writes,
      then the solenoid write, then rising clock edges, then the pulse hold,
      then falling clock edges. */
  function Phase(a: Action): nat
  {
    match a
    case Write(p, l) =>
      if p == LeftDir || p == RightDir then 0
      else if p == SolenoidPin then 1
      else if l == High then 2
      else 4
    case Hold(_) => 3
  }

  predicate PhaseOrdered(t: seq<Action>)
  {
    forall i, j :: 0 <= i < j < |t| ==> Phase(t[i]) <= Phase(t[j])
  }

  predicate InPhase(t: seq<Action>, k: nat)
  {
    forall i :: 0 <= i < |t| ==> Phase(t[i]) == k
  }

  lemma OrderedAppend(a: seq<Action>, b: seq<Action>, k: nat)
    requires PhaseOrdered(a) && InPhase(b, k)
    requires forall i :: 0 <= i < |a| ==> Phase(a[i]) <= k
    ensures PhaseOrdered(a + b)
    ensures forall i :: 0 <= i < |a + b| ==> Phase((a + b)[i]) <= k
  {
  }

  /** The segments of a tick, each in a single phase. */
  lemma TickSegments(profile: Profile, st: ActState, step: Step, pen: PenMode)
    ensures InPhase(DirectionWrites(profile, st, step), 0)
    ensures InPhase(SolenoidWrites(st.solenoid, SolenoidTarget(pen)), 1)
    ensures InPhase(ClockEdges(step, High), 2)
    ensures InPhase(ClockEdges(step, Low), 4)
  {
  }

  lemma InPhaseWithoutHold(t: seq<Action>, k: nat)
    requires InPhase(t, k) && k != 3
    ensures Count(t, Hold(PulseHold)) == 0
  {
  }

  /** Every tick acts in the fixed order, and sleeps for the pulse width
      exactly once, so every rising clock edge precedes the hold and every
      falling edge follows it. */
  lemma TickOrder(profile: Profile, st: ActState, step: Step, pen: PenMode)
    ensures var r := Tick(profile, st, step, pen);
      && PhaseOrdered(r.trace)
      && Count(r.trace, Hold(PulseHold)) == 1
  {
    TickPhaseOrdered(profile, st, step, pen);
    TickHoldOnce(profile, st, step, pen);
  }

  lemma TickPhaseOrdered(profile: Profile, st: ActState, step: Step, pen: PenMode)
    ensures PhaseOrdered(Tick(profile, st, step, pen).trace)
  {
    var d := DirectionWrites(profile, st, step);
    var s := SolenoidWrites(st.solenoid, SolenoidTarget(pen));
    var up := ClockEdges(step, High);
    var h: seq<Action> := [Hold(PulseHold)];
    var dn := ClockEdges(step, Low);
    TickSegments(profile, st, step, pen);
    OrderedAppend(d, s, 1);
    var ds := d + s;
    OrderedAppend(ds, up, 2);
    var dsu := ds + up;
    OrderedAppend(dsu, h, 3);
    var dsuh := dsu + h;
    OrderedAppend(dsuh, dn, 4);
    assert Tick(profile, st, step, pen).trace == dsuh + dn;
  }

  lemma TickHoldOnce(profile: Profile, st: ActState, step: Step, pen: PenMode)
    ensures Count(Tick(profile, st, step, pen).trace, Hold(PulseHold)) == 1
  {
    var d := DirectionWrites(profile, st, step);
    var s := SolenoidWrites(st.solenoid, SolenoidTarget(pen));
    var up := ClockEdges(step, High);
    var h: seq<Action> := [Hold(PulseHold)];
    var dn := ClockEdges(step, Low);
    TickSegments(profile, st, step, pen);
    InPhaseWithoutHold(d, 0);
    InPhaseWithoutHold(s, 1);
    InPhaseWithoutHold(up, 2);
    InPhaseWithoutHold(dn, 4);
    CountAppend(d, s, Hold(PulseHold));
    var ds := d + s;
    CountAppend(ds, up, Hold(PulseHold));
    var dsu := ds + up;
    CountAppend(dsu, h, Hold(PulseHold));
    var dsuh := dsu + h;
    CountAppend(dsuh, dn, Hold(PulseHold));
    assert Tick(profile, st, step, pen).trace == dsuh + dn;
  }

  /** Repeating a tick with the same step and pen mode writes nothing to the
      direction and solenoid pins, keeps the stored state, and pulses the
      clocks exactly as the first tick did. */
  lemma TickRepeatQuiet(profile: Profile, st: ActState, step: Step, pen: PenMode)
    ensures var r1 := Tick(profile, st, step, pen);
      var r2 := Tick(profile, r1.state, step, pen);
      && r2.state == r1.state
      && Levels(r2.trace, LeftDir) == []
      && Levels(r2.trace, RightDir) == []
      && Levels(r2.trace, SolenoidPin) == []
      && Levels(r2.trace, LeftClock) == Levels(r1.trace, LeftClock)
      && Levels(r2.trace, RightClock) == Levels(r1.trace, RightClock)
  {
    var r1 := Tick(profile, st, step, pen);
    TickDirections(profile, r1.state, step, pen);
    TickSolenoid(profile, r1.state, step, pen);
    TickClockPulses(profile, st, step, pen);
    TickClockPulses(profile, r1.state, step, pen);
  }

  /** The stored state agrees with what the pins were last driven to: the
      solenoid pin with the stored position, each direction pin with its
      stored direction unless that is `DirNone`, and no clock pin is left
      HIGH. */
  predicate Consistent(profile: Profile, st: ActState, trace: seq<Action>)
  {
    && LastLevel(trace, SolenoidPin) == Some(SolenoidLevel(st.solenoid))
    && (st.leftdir != DirNone ==> LastLevel(trace, LeftDir) == Some(DirLevel(LeftUpLevel(profile), st.leftdir)))
    && (st.rightdir != DirNone ==> LastLevel(trace, RightDir) == Some(DirLevel(RightUpLevel, st.rightdir)))
    && LastLevel(trace, LeftClock) != Some(High)
    && LastLevel(trace, RightClock) != Some(High)
  }

  /** Suppressing redundant writes is sound: a tick applied after a trace the
      stored state agrees with leaves a trace the new state agrees with. */
  lemma TickPreservesConsistency(profile: Profile, st: ActState, trace: seq<Action>, step: Step, pen: PenMode)
    requires Consistent(profile, st, trace)
    ensures var r := Tick(profile, st, step, pen);
      Consistent(profile, r.state, trace + r.trace)
  {
    TickKeepsSolenoid(profile, st, trace, step, pen);
    TickKeepsDirections(profile, st, trace, step, pen);
    TickKeepsClocksLow(profile, st, trace, step, pen);
  }

  lemma TickKeepsSolenoid(profile: Profile, st: ActState, trace: seq<Action>, step: Step, pen: PenMode)
    requires LastLevel(trace, SolenoidPin) == Some(SolenoidLevel(st.solenoid))
    ensures var r := Tick(profile, st, step, pen);
      LastLevel(trace + r.trace, SolenoidPin) == Some(SolenoidLevel(r.state.solenoid))
  {
    var r := Tick(profile, st, step, pen);
    TickSolenoid(profile, st, step, pen);
    LastLevelAppend(trace, r.trace, SolenoidPin);
  }

  lemma TickKeepsDirections(profile: Profile, st: ActState, trace: seq<Action>, step: Step, pen: PenMode)
    requires st.leftdir != DirNone ==> LastLevel(trace, LeftDir) == Some(DirLevel(LeftUpLevel(profile), st.leftdir))
    requires st.rightdir != DirNone ==> LastLevel(trace, RightDir) == Some(DirLevel(RightUpLevel, st.rightdir))
    ensures var r := Tick(profile, st, step, pen);
      && (r.state.leftdir != DirNone ==>
            LastLevel(trace + r.trace, LeftDir) == Some(DirLevel(LeftUpLevel(profile), r.state.leftdir)))
      && (r.state.rightdir != DirNone ==>
            LastLevel(trace + r.trace, RightDir) == Some(DirLevel(RightUpLevel, r.state.rightdir)))
  {
    var r := Tick(profile, st, step, pen);
    TickDirections(profile, st, step, pen);
    LastLevelAppend(trace, r.trace, LeftDir);
    LastLevelAppend(trace, r.trace, RightDir);
  }

  lemma TickKeepsClocksLow(profile: Profile, st: ActState, trace: seq<Action>, step: Step, pen: PenMode)
    requires LastLevel(trace, LeftClock) != Some(High) && LastLevel(trace, RightClock) != Some(High)
    ensures var r := Tick(profile, st, step, pen);
      LastLevel(trace + r.trace, LeftClock) != Some(High) && LastLevel(trace + r.trace, RightClock) != Some(High)
  {
    var r := Tick(profile, st, step, pen);
    TickClockPulses(profile, st, step, pen);
    LastLevelAppend(trace, r.trace, LeftClock);
    LastLevelAppend(trace, r.trace, RightClock);
  }

  /** A sequence of ticks, as the motion model drives them one after another. */
  function RunTicks(profile: Profile, st: ActState, inputs: seq<TickInput>): (r: TickResult)
    ensures |r.trace| >= |inputs|
    ensures inputs == [] ==> r.state == st
    ensures inputs != [] ==>
      var last := inputs[|inputs| - 1];
      r.state == ActState(last.step.leftengine, last.step.rightengine, SolenoidTarget(last.pen))
    decreases |inputs|
  {
    if inputs == [] then TickResult(st, [])
    else
      var t := Tick(profile, st, inputs[0].step, inputs[0].pen);
      var rest := RunTicks(profile, t.state, inputs[1..]);
      TickResult(rest.state, t.trace + rest.trace)
  }

  lemma ConsistentRegroup(profile: Profile, st: ActState, a: seq<Action>, b: seq<Action>, c: seq<Action>)
    requires Consistent(profile, st, (a + b) + c)
    ensures Consistent(profile, st, a + (b + c))
  {
    assert (a + b) + c == a + (b + c);
  }

  lemma {:induction false} RunPreservesConsistency(profile: Profile, st: ActState, trace: seq<Action>, inputs: seq<TickInput>)
    requires Consistent(profile, st, trace)
    ensures var r := RunTicks(profile, st, inputs);
      Consistent(profile, r.state, trace + r.trace)
    decreases |inputs|
  {
    if inputs == [] {
      assert trace + [] == trace;
    } else {
      var t := Tick(profile, st, inputs[0].step, inputs[0].pen);
      var rest := RunTicks(profile, t.state, inputs[1..]);
      assert RunTicks(profile, st, inputs) == TickResult(rest.state, t.trace + rest.trace);
      TickPreservesConsistency(profile, st, trace, inputs[0].step, inputs[0].pen);
      RunPreservesConsistency(profile, t.state, trace + t.trace, inputs[1..]);
      ConsistentRegroup(profile, rest.state, trace, t.trace, rest.trace);
    }
  }

  /** The solenoid write that `run` issues before starting and after stopping
      the actuation task: pen up. */
  const SafeSolenoid := Write(SolenoidPin, High)

  /** A hardware run of `run`: pen up, then the actuation task's actions
      until shutdown deletes the task after `cut` of them (a signal may
      arrive at any point, also between two edges of a pulse), then pen up. */
  function RunHardware(profile: Profile, inputs: seq<TickInput>, cut: nat): (t: seq<Action>)
    ensures 2 <= |t| <= |RunTicks(profile, Initial, inputs).trace| + 2
    ensures t[0] == SafeSolenoid && t[|t| - 1] == SafeSolenoid
  {
    var body := RunTicks(profile, Initial, inputs).trace;
    var stop := if cut < |body| then cut else |body|;
    [SafeSolenoid] + body[..stop] + [SafeSolenoid]
  }

  /** Wherever shutdown interrupts the actuation task, the pen ends up. When
      it interrupts it between whole ticks (every tick of `inputs` done), the
      stored state agrees with the pins before the final write and no clock
      pin is left HIGH. */
  lemma {:induction false} SafeShutdown(profile: Profile, inputs: seq<TickInput>, cut: nat)
    ensures var t := RunHardware(profile, inputs, cut);
      && LastLevel(t, SolenoidPin) == Some(High)
      && (cut >= |RunTicks(profile, Initial, inputs).trace| ==>
            && LastLevel(t, LeftClock) != Some(High)
            && LastLevel(t, RightClock) != Some(High))
  {
    var body := RunTicks(profile, Initial, inputs);
    var t := RunHardware(profile, inputs, cut);
    var start: seq<Action> := [SafeSolenoid];
    var stop := if cut < |body.trace| then cut else |body.trace|;
    assert t == start + body.trace[..stop] + [SafeSolenoid];
    LastLevelAppend(start + body.trace[..stop], [SafeSolenoid], SolenoidPin);
    SingleLevels(SafeSolenoid, SolenoidPin);
    if cut >= |body.trace| {
      assert body.trace[..stop] == body.trace;
      SingleLevels(SafeSolenoid, LeftClock);
      SingleLevels(SafeSolenoid, RightClock);
      assert Consistent(profile, Initial, start);
      RunPreservesConsistency(profile, Initial, start, inputs);
      LastLevelAppend(start + body.trace, [SafeSolenoid], LeftClock);
      LastLevelAppend(start + body.trace, [SafeSolenoid], RightClock);
    }
  }

  /** Running two batches of ticks is running the first, then the second
      from the state the first left. */
  lemma {:induction false} RunTicksAppend(profile: Profile, st: ActState, a: seq<TickInput>, b: seq<TickInput>)
    ensures var first := RunTicks(profile, st, a);
      RunTicks(profile, st, a + b).trace == first.trace + RunTicks(profile, first.state, b).trace
    decreases |a|
  {
    if a == [] {
      assert a + b == b;
    } else {
      var t := Tick(profile, st, a[0].step, a[0].pen);
      assert (a + b)[0] == a[0];
      assert (a + b)[1..] == a[1..] + b;
      RunTicksAppend(profile, t.state, a[1..], b);
    }
  }

  /** A shutdown between any two ticks, after the first `k` of them, leaves
      no clock pin HIGH. */
  lemma SafeShutdownBetweenTicks(profile: Profile, inputs: seq<TickInput>, k: nat)
    requires k <= |inputs|
    ensures var t := RunHardware(profile, inputs, |RunTicks(profile, Initial, inputs[..k]).trace|);
      && LastLevel(t, SolenoidPin) == Some(High)
      && LastLevel(t, LeftClock) != Some(High)
      && LastLevel(t, RightClock) != Some(High)
  {
    var done := inputs[..k];
    var pre := RunTicks(profile, Initial, done).trace;
    var body := RunTicks(profile, Initial, inputs).trace;
    assert inputs == done + inputs[k..];
    RunTicksAppend(profile, Initial, done, inputs[k..]);
    assert body[..|pre|] == pre;
    assert RunHardware(profile, inputs, |pre|) == RunHardware(profile, done, |pre|);
    SafeShutdown(profile, done, |pre|);
  }

  /** A shutdown that deletes the actuation task during the pulse hold, after
      the rising edge, leaves that clock pin HIGH: the final write only
      raises the pen. */
  lemma ShutdownMidPulse()
    ensures var t := RunHardware(VPlotter, [TickInput(Step(DirUp, DirNone), OtherMode(0))], 2);
      && LastLevel(t, SolenoidPin) == Some(High)
      && LastLevel(t, LeftClock) == Some(High)
  {
    var inputs := [TickInput(Step(DirUp, DirNone), OtherMode(0))];
    var tick := Tick(VPlotter, Initial, Step(DirUp, DirNone), OtherMode(0));
    assert tick.trace == [Write(LeftDir, High), Write(LeftClock, High), Hold(PulseHold), Write(LeftClock, Low)];
    assert RunTicks(VPlotter, Initial, inputs).trace == tick.trace + RunTicks(VPlotter, tick.state, inputs[1..]).trace;
    assert inputs[1..] == [];
    var t := RunHardware(VPlotter, inputs, 2);
    var pre: seq<Action> := [SafeSolenoid, Write(LeftDir, High)];
    var edge: seq<Action> := [Write(LeftClock, High)];
    assert t == pre + edge + [SafeSolenoid];
    LastLevelAppend(pre + edge, [SafeSolenoid], SolenoidPin);
    LastLevelAppend(pre + edge, [SafeSolenoid], LeftClock);
    LastLevelAppend(pre, edge, LeftClock);
    SingleLevels(SafeSolenoid, SolenoidPin);
    SingleLevels(SafeSolenoid, LeftClock);
    SingleLevels(Write(LeftClock, High), LeftClock);
  }

  /** From the start-up state, a step moving only the left axis Up in manual
      pen-down mode lowers the pen with one write, sets the left direction
      once with the profile's level, pulses the left clock, and leaves the
      right axis untouched. */
  lemma PenDownScenario(profile: Profile)
    ensures var r := Tick(profile, Initial, Step(DirUp, DirNone), ManualDown);
      && Levels(r.trace, SolenoidPin) == [Low]
      && Levels(r.trace, LeftDir) == [if profile.leftInverted then Low else High]
      && Levels(r.trace, LeftClock) == [High, Low]
      && Levels(r.trace, RightDir) == []
      && Levels(r.trace, RightClock) == []
  {
    TickDirections(profile, Initial, Step(DirUp, DirNone), ManualDown);
    TickSolenoid(profile, Initial, Step(DirUp, DirNone), ManualDown);
    TickClockPulses(profile, Initial, Step(DirUp, DirNone), ManualDown);
  }

  /** An idle tick forgets an axis's direction: after Up, an idle tick and
      Up again, the direction pin is written a second time with the level it
      already holds. */
  lemma IdleTickForgetsDirection(profile: Profile, st: ActState, pen: PenMode)
    requires st.leftdir == DirUp
    ensures var r1 := Tick(profile, st, Step(DirNone, st.rightdir), pen);
      var r2 := Tick(profile, r1.state, Step(DirUp, st.rightdir), pen);
      && Levels(r1.trace, LeftDir) == []
      && r1.state.leftdir == DirNone
      && Levels(r2.trace, LeftDir) == [LeftUpLevel(profile)]
  {
    var r1 := Tick(profile, st, Step(DirNone, st.rightdir), pen);
    TickDirections(profile, st, Step(DirNone, st.rightdir), pen);
    TickDirections(profile, r1.state, Step(DirUp, st.rightdir), pen);
  }
}
