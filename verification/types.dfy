/** Values shared by every part of the plotter driver: the per-axis stepper
    direction, the pen solenoid, the pen mode read from the motion model, the
    commands polled from the IPC layer, and the trace of GPIO actions that the
    hardware backend produces. */
module PlotterTypes {

  datatype Option<T> = None | Some(value: T)

  /** Commanded direction of one stepper for one tick; `None` means the axis
      is not pulsed this tick. */
  datatype Dir = DirNone | DirUp | DirDown

  /** Pen-lift actuator: `Up` is travel, `Down` is drawing. */
  datatype Solenoid = SolUp | SolDown

  /** The motion model's pen mode. Only `ManualDown` matters to the driver;
      every other mode of the model is carried opaquely by its code. */
  datatype PenMode = ManualDown | OtherMode(code: int)

  /** One step produced by the motion model. */
  datatype Step = Step(leftengine: Dir, rightengine: Dir)

  /** Command code returned by the IPC command source. */
  datatype CommandCode = Pause | OtherCommand(code: int)

  /** The two logic levels of a GPIO output. */
  datatype Level = Low | High

  /** The five GPIO outputs the driver configures. */
  datatype Pin = RightClock | RightDir | LeftClock | LeftDir | SolenoidPin

  /** One thing the hardware backend does to the outside world: a GPIO write,
      or a real-time sleep of the given duration. */
  datatype Action = Write(pin: Pin, level: Level) | Hold(duration: nat)

  /** The pen is lowered exactly in manual pen-down mode. */
  predicate ShouldDraw(pen: PenMode)
  {
    pen == ManualDown
  }

  /** The sequence of levels written to `pin`, in trace order. */
  function Levels(trace: seq<Action>, pin: Pin): (ls: seq<Level>)
    ensures |ls| <= |trace|
  {
    if trace == [] then []
    else
      var rest := Levels(trace[1..], pin);
      match trace[0]
      case Write(p, l) => if p == pin then [l] + rest else rest
      case Hold(_) => rest
  }

  /** The level the pin was last driven to by the trace, if any. */
  function LastLevel(trace: seq<Action>, pin: Pin): Option<Level>
  {
    var ls := Levels(trace, pin);
    if ls == [] then None else Some(ls[|ls| - 1])
  }

  /** Projecting a concatenation onto one pin concatenates the projections. */
  lemma {:induction false} LevelsAppend(a: seq<Action>, b: seq<Action>, pin: Pin)
    ensures Levels(a + b, pin) == Levels(a, pin) + Levels(b, pin)
    decreases |a|
  {
    if a == [] {
      assert a + b == b;
    } else {
      assert (a + b)[1..] == a[1..] + b;
      LevelsAppend(a[1..], b, pin);
    }
  }

  /** After `a + b` a pin holds the level `b` last wrote to it, or else the
      level it held after `a`. */
  lemma LastLevelAppend(a: seq<Action>, b: seq<Action>, pin: Pin)
    ensures LastLevel(a + b, pin)
         == if Levels(b, pin) == [] then LastLevel(a, pin) else LastLevel(b, pin)
  {
    LevelsAppend(a, b, pin);
  }

  /** Number of occurrences of `x` in `s`. */
  function Count<T(==)>(s: seq<T>, x: T): (n: nat)
    ensures n <= |s|
    ensures n == 0 <==> x !in s
  {
    if s == [] then 0 else (if s[0] == x then 1 else 0) + Count(s[1..], x)
  }

  lemma {:induction false} CountAppend<T>(a: seq<T>, b: seq<T>, x: T)
    ensures Count(a + b, x) == Count(a, x) + Count(b, x)
    decreases |a|
  {
    if a == [] {
      assert a + b == b;
    } else {
      assert (a + b)[1..] == a[1..] + b;
      CountAppend(a[1..], b, x);
    }
  }

  /** Index of the first polled command that is not `Pause`, if any. */
  function FirstNonPause(polls: seq<CommandCode>): (r: Option<nat>)
    ensures r.None? <==> forall i :: 0 <= i < |polls| ==> polls[i] == Pause
    ensures r.Some? ==> r.value < |polls| && polls[r.value] != Pause
    ensures r.Some? ==> forall i :: 0 <= i < r.value ==> polls[i] == Pause
    decreases |polls|
  {
    if polls == [] then None
    else if polls[0] != Pause then Some(0)
    else match FirstNonPause(polls[1..])
      case None => None
      case Some(k) => Some(k + 1)
  }
}
