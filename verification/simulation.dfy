/** The simulation branch of `executeStep` and the simulation build of
    `run`: each tick marks the current pixel in the drawing raster and in
    the pen-move raster, counts the tick, and checkpoints the drawing raster
    every ten thousand ticks; the run ends by saving and releasing both. */
module Simulation {
  import opened PlotterTypes

  datatype Raster = Drawing | PenMove

  /** Calls into the preview rasters, in order. */
  datatype RasterOp =
    | SetPixel(raster: Raster, x: int, y: int, weight: int, active: bool)
    | Save(raster: Raster)
    | Release(raster: Raster)

  /** Ticks between two checkpoints of the drawing raster. */
  const SaveInterval: nat := 10000

  /** What one tick reads from the motion model: the pixel the pen is over
      (already floored from the model's position), the commanded delay, which
      the raster uses as a weight, and the pen mode. */
  datatype SimInput = SimInput(x: int, y: int, delay: int, pen: PenMode)

  datatype SimResult = SimResult(counter: nat, ops: seq<RasterOp>)

  /** One tick of the simulation build, from the current tick counter. */
  function SimTick(counter: nat, input: SimInput): (r: SimResult)
    ensures r.counter == counter + 1
    ensures |r.ops| == 2 + Count(r.ops, Save(Drawing))
    ensures r.ops[0] == SetPixel(Drawing, input.x, input.y, input.delay, input.pen == ManualDown)
    ensures r.ops[1] == SetPixel(PenMove, input.x, input.y, input.delay, input.pen != ManualDown)
    ensures Save(Drawing) in r.ops <==> r.counter % SaveInterval == 0
    ensures Count(r.ops, Save(Drawing)) == (if r.counter % SaveInterval == 0 then 1 else 0)
    ensures Save(PenMove) !in r.ops && Release(Drawing) !in r.ops && Release(PenMove) !in r.ops
  {
    var draw := ShouldDraw(input.pen);
    var next := counter + 1;
    var pixels := [SetPixel(Drawing, input.x, input.y, input.delay, draw),
                   SetPixel(PenMove, input.x, input.y, input.delay, !draw)];
    var ops := pixels + (if next % SaveInterval == 0 then [Save(Drawing)] else []);
    assert Count(pixels, Save(Drawing)) == 0;
    CountAppend(pixels, if next % SaveInterval == 0 then [Save(Drawing)] else [], Save(Drawing));
    SimResult(next, ops)
  }

  /** Consecutive simulation ticks. */
  function SimRun(counter: nat, inputs: seq<SimInput>): (r: SimResult)
    ensures r.counter == counter + |inputs|
    ensures |r.ops| == 2 * |inputs| + Count(r.ops, Save(Drawing))
    ensures Save(PenMove) !in r.ops && Release(Drawing) !in r.ops && Release(PenMove) !in r.ops
    decreases |inputs|
  {
    if inputs == [] then SimResult(counter, [])
    else
      var t := SimTick(counter, inputs[0]);
      var rest := SimRun(t.counter, inputs[1..]);
      CountAppend(t.ops, rest.ops, Save(Drawing));
      SimResult(rest.counter, t.ops + rest.ops)
  }

  /** Counting one more tick crosses a multiple of the interval exactly when
      the new count is such a multiple. */
  lemma DivStep(c: nat)
    ensures (c + 1) / SaveInterval - c / SaveInterval == if (c + 1) % SaveInterval == 0 then 1 else 0
  {
  }

  /** Over any run of ticks the drawing raster is checkpointed once for every
      multiple of the interval the tick counter passes. */
  lemma {:induction false} SaveCadence(counter: nat, inputs: seq<SimInput>)
    ensures Count(SimRun(counter, inputs).ops, Save(Drawing))
         == (counter + |inputs|) / SaveInterval - counter / SaveInterval
    decreases |inputs|
  {
    if inputs != [] {
      var t := SimTick(counter, inputs[0]);
      var rest := SimRun(t.counter, inputs[1..]);
      CountAppend(t.ops, rest.ops, Save(Drawing));
      SaveCadence(t.counter, inputs[1..]);
      DivStep(counter);
    }
  }

  /** The four calls that end a simulated run. */
  const Teardown: seq<RasterOp> := [Save(Drawing), Release(Drawing), Save(PenMove), Release(PenMove)]

  lemma TeardownCounts()
    ensures Count(Teardown, Save(Drawing)) == 1
    ensures Count(Teardown, Save(PenMove)) == 1
  {
  }

  /** The simulation build of `run`: the ticks from a zero counter, then the
      final save and release of the drawing raster and of the pen-move raster. */
  function RunSim(inputs: seq<SimInput>): (r: SimResult)
    ensures r.counter == |inputs|
    ensures |r.ops| == 2 * |inputs| + |inputs| / SaveInterval + 4
    ensures r.ops[|r.ops| - 1] == Release(PenMove)
  {
    var body := SimRun(0, inputs);
    SaveCadence(0, inputs);
    SimResult(body.counter, body.ops + Teardown)
  }

  /** A whole simulated run saves the drawing raster once per full interval
      of ticks plus once at the end whatever the count, saves the pen-move
      raster only at the end, and releases both rasters last. */
  lemma FinalFlush(inputs: seq<SimInput>)
    ensures var r := RunSim(inputs);
      var n := |r.ops|;
      && n >= 4
      && Count(r.ops, Save(Drawing)) == |inputs| / SaveInterval + 1
      && Count(r.ops, Save(PenMove)) == 1
      && r.ops[n - 4..] == [Save(Drawing), Release(Drawing), Save(PenMove), Release(PenMove)]
  {
    RunSimSaves(inputs);
    RunSimEnds(inputs);
  }

  lemma RunSimSaves(inputs: seq<SimInput>)
    ensures Count(RunSim(inputs).ops, Save(Drawing)) == |inputs| / SaveInterval + 1
    ensures Count(RunSim(inputs).ops, Save(PenMove)) == 1
  {
    var body := SimRun(0, inputs).ops;
    assert RunSim(inputs).ops == body + Teardown;
    SaveCadence(0, inputs);
    TeardownCounts();
    CountAppend(body, Teardown, Save(Drawing));
    CountAppend(body, Teardown, Save(PenMove));
  }

  lemma RunSimEnds(inputs: seq<SimInput>)
    ensures var ops := RunSim(inputs).ops;
      |ops| >= 4 && ops[|ops| - 4..] == Teardown
  {
  }
}
