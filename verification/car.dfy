/** The player car's per-frame physics step. Motion is along -z; steering is
    direct lateral displacement; speed is a scalar. */
module CarPhysics {
  import opened Base
  import opened Controls
  import opened GameStore

  /** Ratings used when no car is selected. */
  const DefaultSpecs: CarSpecs := CarSpecs(100.0, 100.0, 100.0, 100.0)

  /** The `trackHalfWidth` prop default; the race scene passes 14. */
  const DefaultTrackHalfWidth: real := 13.0

  const NitroDuration: real := 2.0
  const FrictionFactor: real := 0.98
  const BrakeFactor: real := 0.9
  const NitroFactor: real := 1.5
  const ReverseFactor: real := 0.4

  function SpecsOf(selected: Option<CarSpecs>): CarSpecs {
    selected.GetOr(DefaultSpecs)
  }

  function MaxSpeed(sp: CarSpecs): real { sp.speed / 100.0 * 40.0 }

  function AccelRate(sp: CarSpecs): real { sp.acceleration / 100.0 * 30.0 }

  function TurnSpeed(sp: CarSpecs): real { sp.handling / 100.0 * 12.0 }

  /** Ratings convert linearly; the default car has top speed 40, acceleration
      30 and turn speed 12. */
  lemma DefaultConstants()
    ensures MaxSpeed(SpecsOf(None)) == 40.0
    ensures AccelRate(SpecsOf(None)) == 30.0
    ensures TurnSpeed(SpecsOf(None)) == 12.0
  {
  }

  /** Per-instance state kept between frames (refs in the source). */
  datatype CarState = CarState(pos: Vec3, speed: real, nitroActive: bool, nitroTimer: real)

  /** What the frame reads from the store and props. */
  datatype FrameInput = FrameInput(
    mounted: bool,
    isPlayer: bool,
    gamePaused: bool,
    gameOver: bool,
    controlsLocked: bool,
    controls: ControlVector,
    nitroCount: int,
    specs: CarSpecs,
    trackHalfWidth: real)

  /** The next state, and whether the frame called `useNitro` (at most once). */
  datatype FrameOutput = FrameOutput(car: CarState, nitroUsed: bool)

  /** The frame returns early. */
  predicate Skipped(inp: FrameInput) {
    !inp.mounted || !inp.isPlayer || inp.gamePaused || inp.gameOver || inp.controlsLocked
  }

  // ---------------------------------------------------------------- stages

  datatype NitroState = NitroState(active: bool, timer: real, used: bool)

  /** Nitro arbitration: a press with charges left and no active boost starts a
      2-second boost; an active boost then burns `delta` and ends once its timer
      is used up. */
  function ArbitrateNitro(pressed: bool, charges: int, active: bool, timer: real, delta: real): (n: NitroState)
    ensures n.used <==> pressed && charges > 0 && !active
    ensures !active && !n.used ==> !n.active && n.timer == timer
    ensures n.used ==> n.timer == NitroDuration - delta && (n.active <==> NitroDuration - delta > 0.0)
    ensures active ==> n.timer == timer - delta && (n.active <==> timer - delta > 0.0)
  {
    var starts := pressed && charges > 0 && !active;
    var active1 := active || starts;
    var timer1 := if starts then NitroDuration else timer;
    if active1 then
      NitroState(timer1 - delta > 0.0, timer1 - delta, starts)
    else
      NitroState(false, timer1, starts)
  }

  /** Forward accelerates toward `maxSpeed`, backward toward `-0.4 * maxSpeed`,
      neither applies per-frame friction (not scaled by `delta`). */
  function Accelerate(speed: real, c: ControlVector, maxSpeed: real, accelRate: real, delta: real): real {
    if c.forward then Min(speed + accelRate * delta, maxSpeed)
    else if c.backward then Max(speed - accelRate * delta, -maxSpeed * ReverseFactor)
    else speed * FrictionFactor
  }

  /** Left and right each shift the car by `turnSpeed * delta`. */
  function Steer(x: real, c: ControlVector, turnSpeed: real, delta: real): real {
    var afterLeft := if c.left then x - turnSpeed * delta else x;
    if c.right then afterLeft + turnSpeed * delta else afterLeft
  }

  /** The speed at the end of a frame: acceleration, then the nitro override,
      then the brake. */
  function FinalSpeed(speed: real, c: ControlVector, nitroOn: bool, sp: CarSpecs, delta: real): real {
    var accelerated := Accelerate(speed, c, MaxSpeed(sp), AccelRate(sp), delta);
    var boosted := if nitroOn then MaxSpeed(sp) * NitroFactor else accelerated;
    if c.brake then boosted * BrakeFactor else boosted
  }

  /** One `useFrame` step of the player car. */
  function Frame(inp: FrameInput, car: CarState, delta: real): (out: FrameOutput)
    ensures Skipped(inp) ==> out == FrameOutput(car, false)
    ensures out.nitroUsed <==> !Skipped(inp) && inp.controls.nitro && inp.nitroCount > 0 && !car.nitroActive
    ensures !Skipped(inp) ==> out.car.pos.y == car.pos.y
    ensures !Skipped(inp) ==> out.car.pos.z == car.pos.z - out.car.speed * delta
    ensures !Skipped(inp) && inp.trackHalfWidth >= 0.0 ==> Abs(out.car.pos.x) <= inp.trackHalfWidth
  {
    if Skipped(inp) then FrameOutput(car, false)
    else
      var sp := inp.specs;
      var n := ArbitrateNitro(inp.controls.nitro, inp.nitroCount, car.nitroActive, car.nitroTimer, delta);
      var speed := FinalSpeed(car.speed, inp.controls, n.active, sp, delta);
      var x := Steer(car.pos.x, inp.controls, TurnSpeed(sp), delta);
      var z := car.pos.z + (-1.0 * speed) * delta;
      var x' := Clamp(-inp.trackHalfWidth, inp.trackHalfWidth, x);
      FrameOutput(CarState(Vec3(x', car.pos.y, z), speed, n.active, n.timer), n.used)
  }

  // ---------------------------------------------------------------- properties

  /** The speed interval the step keeps: full reverse to the nitro ceiling. */
  predicate InBand(speed: real, maxSpeed: real) {
    -maxSpeed * ReverseFactor <= speed <= maxSpeed * NitroFactor
  }

  predicate NonNegativeSpecs(sp: CarSpecs) {
    sp.speed >= 0.0 && sp.acceleration >= 0.0 && sp.handling >= 0.0
  }

  lemma ProductNonNegative(a: real, b: real)
    requires a >= 0.0 && b >= 0.0
    ensures a * b >= 0.0
  {
  }

  /** One frame keeps a speed inside the band. */
  lemma FrameKeepsBand(inp: FrameInput, car: CarState, delta: real)
    requires NonNegativeSpecs(inp.specs) && delta >= 0.0
    requires InBand(car.speed, MaxSpeed(inp.specs))
    ensures InBand(Frame(inp, car, delta).car.speed, MaxSpeed(inp.specs))
  {
    if !Skipped(inp) {
      var n := ArbitrateNitro(inp.controls.nitro, inp.nitroCount, car.nitroActive, car.nitroTimer, delta);
      FinalSpeedInBand(car.speed, inp.controls, n.active, inp.specs, delta);
    }
  }

  /** The three speed stages each keep the band. */
  lemma FinalSpeedInBand(speed: real, c: ControlVector, nitroOn: bool, sp: CarSpecs, delta: real)
    requires NonNegativeSpecs(sp) && delta >= 0.0
    requires InBand(speed, MaxSpeed(sp))
    ensures InBand(FinalSpeed(speed, c, nitroOn, sp, delta), MaxSpeed(sp))
  {
    var m := MaxSpeed(sp);
    ProductNonNegative(AccelRate(sp), delta);
    var a := Accelerate(speed, c, m, AccelRate(sp), delta);
    assert InBand(a, m);
    var b := if nitroOn then m * NitroFactor else a;
    assert InBand(b, m);
  }

  /** A run of frames, each with its own input and delta; the store's nitro
      count is threaded through `useNitro`. */
  function Run(inputs: seq<FrameInput>, deltas: seq<real>, car: CarState): (r: CarState)
    requires |inputs| == |deltas|
  {
    if |inputs| == 0 then car
    else Run(inputs[1..], deltas[1..], Frame(inputs[0], car, deltas[0]).car)
  }

  /** However the controls are held, and whatever frame timing, a speed that
      starts inside the band never leaves it while the car keeps its ratings. */
  lemma {:induction false} RunKeepsBand(inputs: seq<FrameInput>, deltas: seq<real>, car: CarState, sp: CarSpecs)
    requires |inputs| == |deltas|
    requires NonNegativeSpecs(sp)
    requires forall i :: 0 <= i < |inputs| ==> inputs[i].specs == sp
    requires forall i :: 0 <= i < |deltas| ==> deltas[i] >= 0.0
    requires InBand(car.speed, MaxSpeed(sp))
    ensures InBand(Run(inputs, deltas, car).speed, MaxSpeed(sp))
  {
    if |inputs| > 0 {
      FrameKeepsBand(inputs[0], car, deltas[0]);
      RunKeepsBand(inputs[1..], deltas[1..], Frame(inputs[0], car, deltas[0]).car, sp);
    }
  }

  /** With a non-negative half width, the lateral clamp holds after any run
      that starts on the track, skipped frames included. */
  lemma {:induction false} RunStaysOnTrack(inputs: seq<FrameInput>, deltas: seq<real>, car: CarState, w: real)
    requires |inputs| == |deltas|
    requires w >= 0.0
    requires forall i :: 0 <= i < |inputs| ==> inputs[i].trackHalfWidth == w
    requires Abs(car.pos.x) <= w
    ensures Abs(Run(inputs, deltas, car).pos.x) <= w
  {
    if |inputs| > 0 {
      RunStaysOnTrack(inputs[1..], deltas[1..], Frame(inputs[0], car, deltas[0]).car, w);
    }
  }

  function Indicator(b: bool): real { if b then 1.0 else 0.0 }

  /** Steering is a displacement of `(right - left) * turnSpeed * delta`
      followed by the clamp, so holding both cancels. */
  lemma FrameLateral(inp: FrameInput, car: CarState, delta: real)
    requires !Skipped(inp)
    ensures Frame(inp, car, delta).car.pos.x
         == Clamp(-inp.trackHalfWidth, inp.trackHalfWidth,
                  car.pos.x + (Indicator(inp.controls.right) - Indicator(inp.controls.left)) * TurnSpeed(inp.specs) * delta)
  {
  }

  /** While the boost is on, the final speed is the nitro ceiling, reduced
      by the brake when it is held: the brake comes after the override. */
  lemma NitroOverridesSpeed(inp: FrameInput, car: CarState, delta: real)
    requires !Skipped(inp)
    requires Frame(inp, car, delta).car.nitroActive
    ensures !inp.controls.brake ==> Frame(inp, car, delta).car.speed == MaxSpeed(inp.specs) * 1.5
    ensures inp.controls.brake ==> Frame(inp, car, delta).car.speed == 0.9 * (MaxSpeed(inp.specs) * 1.5)
  {
  }

  /** Nitro starts a boost that spends one charge and lasts 2 seconds of frame
      time: the frame that starts it with `delta < 2` leaves it on with
      `2 - delta` seconds left. */
  lemma NitroActivation(inp: FrameInput, car: CarState, delta: real)
    requires !Skipped(inp)
    requires inp.controls.nitro && inp.nitroCount > 0 && !car.nitroActive
    requires delta < 2.0
    ensures Frame(inp, car, delta).nitroUsed
    ensures Frame(inp, car, delta).car.nitroActive
    ensures Frame(inp, car, delta).car.nitroTimer == 2.0 - delta
  {
  }

  /** An active boost ends in the frame where its remaining time minus delta
      reaches zero, and not before. */
  lemma NitroExpiry(inp: FrameInput, car: CarState, delta: real)
    requires !Skipped(inp) && car.nitroActive
    ensures !Frame(inp, car, delta).nitroUsed
    ensures !Frame(inp, car, delta).car.nitroActive <==> car.nitroTimer - delta <= 0.0
  {
  }

  /** With no pedal, no brake and no boost, speed decays by 0.98 per frame no
      matter how long the frame is. */
  lemma FrictionIgnoresDelta(inp: FrameInput, car: CarState, d1: real, d2: real)
    requires !Skipped(inp)
    requires !inp.controls.forward && !inp.controls.backward && !inp.controls.brake
    requires !inp.controls.nitro && !car.nitroActive
    ensures Frame(inp, car, d1).car.speed == car.speed * 0.98
    ensures Frame(inp, car, d1).car.speed == Frame(inp, car, d2).car.speed
  {
  }

  /** Holding forward (no boost, no brake) saturates at top speed: once one
      frame's acceleration would pass it, the speed is exactly `maxSpeed`. */
  lemma ForwardSaturates(inp: FrameInput, car: CarState, delta: real)
    requires !Skipped(inp)
    requires inp.controls.forward && !inp.controls.brake && !inp.controls.nitro && !car.nitroActive
    requires car.speed + AccelRate(inp.specs) * delta >= MaxSpeed(inp.specs)
    ensures Frame(inp, car, delta).car.speed == MaxSpeed(inp.specs)
  {
  }
}
