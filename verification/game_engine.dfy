/** The alternate imperative engine: one `GameEngine` object whose animation
    loop steps the player's car, moves the opponents along the track and
    checks the win and lose conditions. Wall-clock readings (`Date.now()`)
    are the parameter `now` in milliseconds, `Math.sin` is the parameter
    `sin`, and the asynchronous half of `endGame` is replaced by returning
    the list of `endGame(won)` calls a frame makes. */
module GameEngine {
  import opened Base

  const MaxSpeed: real := 300.0
  const AccelerationRate: real := 50.0
  const BrakeRate: real := 80.0
  const TurnRate: real := 2.0
  const Friction: real := 0.98
  const NitroBoost: real := 2.0
  const NitroDrainRate: real := 20.0
  const NitroRechargeRate: real := 5.0
  const NitroFull: real := 100.0
  /** Steering without input decays the angular velocity by this factor. */
  const AngularDecay: real := 0.9
  /** `MAX_SPEED / 3.6`: the forward velocity cap in world units per second. */
  const MaxForwardVelocity: real := MaxSpeed / 3.6
  const KmhPerUnit: real := 3.6

  datatype Keys = Keys(up: bool, down: bool, left: bool, right: bool, space: bool)

  const NoKeys := Keys(false, false, false, false, false)

  datatype GameState = GameState(
    speed: real,
    position: int,
    distance: real,
    nitro: real,
    health: real,
    score: real,
    time: real,
    isRunning: bool,
    isPaused: bool)

  /** The `gameState` the constructor and `restart` install. */
  const InitialState := GameState(0.0, 1, 0.0, 100.0, 100.0, 0.0, 0.0, false, false)

  const Zero := Vec3(0.0, 0.0, 0.0)

  datatype Engine = Engine(
    position: Vec3,
    velocity: Vec3,
    rotation: real,
    angularVelocity: real,
    keys: Keys,
    state: GameState,
    opponents: seq<Vec3>,
    trackWidth: real,
    trackLength: real,
    startTime: real,
    lastFrameTime: real)

  /** `trackData.width / 2 - 2`: how far from the centre the car may go. */
  function HalfWidth(e: Engine): real {
    e.trackWidth / 2.0 - 2.0
  }

  /** `Math.max(-h, Math.min(h, v))`. */
  function ClampSym(h: real, v: real): (r: real)
    ensures h >= 0.0 ==> -h <= r <= h
    ensures h >= 0.0 && -h <= v <= h ==> r == v
  {
    Max(-h, Min(h, v))
  }

  // ---------------------------------------------------------------- player

  /** Up adds `ACCELERATION_RATE * dt` and down removes `BRAKE_RATE * dt`
      from the forward velocity; both held apply both. */
  function Throttle(k: Keys, vz: real, dt: real): (r: real)
    ensures r == vz + (if k.up then AccelerationRate * dt else 0.0) - (if k.down then BrakeRate * dt else 0.0)
  {
    var a := if k.up then vz + AccelerationRate * dt else vz;
    if k.down then a - BrakeRate * dt else a
  }

  /** The lateral velocity and angular velocity after the steering keys. */
  datatype Steering = Steering(vx: real, angularVelocity: real)

  function Steer(k: Keys, vx: real, vz: real, av: real, dt: real): (r: Steering)
    ensures vz <= 0.0 ==> r.vx == vx
    ensures k.left ==> r.angularVelocity == TurnRate
    ensures !k.left && k.right ==> r.angularVelocity == -TurnRate
    ensures !k.left && !k.right ==> r == Steering(vx, AngularDecay * av)
    ensures k.left && vz > 0.0 ==> r.vx == vx - TurnRate * dt * 10.0
    ensures !k.left && k.right && vz > 0.0 ==> r.vx == vx + TurnRate * dt * 10.0
  {
    if k.left then
      Steering(if vz > 0.0 then vx - TurnRate * dt * 10.0 else vx, TurnRate)
    else if k.right then
      Steering(if vz > 0.0 then vx + TurnRate * dt * 10.0 else vx, -TurnRate)
    else
      Steering(vx, AngularDecay * av)
  }

  /** The forward velocity and the gauge after the nitro step. */
  datatype NitroStep = NitroStep(vz: real, nitro: real)

  function Nitro(k: Keys, vz: real, nitro: real, dt: real): (r: NitroStep)
    ensures k.space && nitro > 0.0 ==> r == NitroStep(NitroBoost * vz, Max(0.0, nitro - NitroDrainRate * dt))
    ensures !(k.space && nitro > 0.0) ==> r.vz == vz
    ensures !(k.space && nitro > 0.0) && nitro < NitroFull ==> r.nitro == Min(NitroFull, nitro + NitroRechargeRate * dt)
    ensures !(k.space && nitro > 0.0) && nitro >= NitroFull ==> r.nitro == nitro
    ensures 0.0 <= nitro <= NitroFull && dt >= 0.0 ==> 0.0 <= r.nitro <= NitroFull
  {
    if k.space && nitro > 0.0 then
      NitroStep(vz * NitroBoost, Max(0.0, nitro - NitroDrainRate * dt))
    else if nitro < NitroFull then
      NitroStep(vz, Min(NitroFull, nitro + NitroRechargeRate * dt))
    else
      NitroStep(vz, nitro)
  }

  /** `updatePlayerCar(dt)`: throttle, steering, nitro, friction, the speed
      clamp, the lateral clamp, the position step and the rotation step. */
  function UpdatePlayerCar(e: Engine, dt: real): (r: Engine)
    ensures 0.0 <= r.velocity.z <= MaxForwardVelocity
    ensures e.trackWidth >= 4.0 ==> -HalfWidth(e) <= r.velocity.x <= HalfWidth(e)
    ensures e.trackWidth >= 4.0 ==> -HalfWidth(e) <= r.position.x <= HalfWidth(e)
    ensures 0.0 <= e.state.nitro <= NitroFull && dt >= 0.0 ==> 0.0 <= r.state.nitro <= NitroFull
    ensures r.velocity.y == Friction * e.velocity.y
    ensures r.position.y == e.position.y + r.velocity.y * dt
    ensures r.position.z == e.position.z + r.velocity.z * dt
    ensures r.rotation == e.rotation + r.angularVelocity * dt
    ensures r.state == e.state.(nitro := r.state.nitro)
    ensures r.(position := e.position, velocity := e.velocity, rotation := e.rotation,
               angularVelocity := e.angularVelocity, state := e.state) == e
  {
    var h := HalfWidth(e);
    var vz1 := Throttle(e.keys, e.velocity.z, dt);
    var st := Steer(e.keys, e.velocity.x, vz1, e.angularVelocity, dt);
    var ns := Nitro(e.keys, vz1, e.state.nitro, dt);
    var vel := Vec3(ClampSym(h, Friction * st.vx), Friction * e.velocity.y,
                    Max(0.0, Min(MaxForwardVelocity, Friction * ns.vz)));
    var moved := Vec3(e.position.x + vel.x * dt, e.position.y + vel.y * dt, e.position.z + vel.z * dt);
    var pos := Vec3(ClampSym(h, moved.x), moved.y, moved.z);
    Engine(pos, vel, e.rotation + st.angularVelocity * dt, st.angularVelocity, e.keys,
           e.state.(nitro := ns.nitro), e.opponents, e.trackWidth, e.trackLength,
           e.startTime, e.lastFrameTime)
  }

  /** Steering acts on the lateral velocity only while the car moves forward. */
  lemma NoSteerWhenStopped(k: Keys, vx: real, vz: real, av: real, dt: real)
    requires vz <= 0.0
    ensures Steer(k, vx, vz, av, dt).vx == vx
  {
  }

  /** Left wins over right when both are held. */
  lemma LeftBeatsRight(k: Keys, vx: real, vz: real, av: real, dt: real)
    requires k.left
    ensures Steer(k, vx, vz, av, dt) == Steer(k.(right := false), vx, vz, av, dt)
  {
  }

  /** Holding space drains the gauge at 20 per second and leaves it at 0 once
      spent; a full gauge with space released stays full. */
  lemma NitroDrainAndRecharge(k: Keys, vz: real, dt: real)
    requires dt >= 0.0
    ensures k.space ==> Nitro(k, vz, 100.0, dt).nitro == Max(0.0, 100.0 - 20.0 * dt)
    ensures k.space ==> Nitro(k, vz, 0.0, dt) == NitroStep(vz, Min(100.0, 5.0 * dt))
    ensures !k.space ==> Nitro(k, vz, 100.0, dt) == NitroStep(vz, 100.0)
  {
  }

  /** The gauge over many frames of nonnegative duration. */
  function NitroRun(ks: seq<Keys>, vzs: seq<real>, dts: seq<real>, nitro: real): real
    requires |ks| == |vzs| == |dts|
  {
    if |ks| == 0 then nitro
    else NitroRun(ks[1..], vzs[1..], dts[1..], Nitro(ks[0], vzs[0], nitro, dts[0]).nitro)
  }

  /** Starting in [0, 100], the gauge never leaves [0, 100]. */
  lemma {:induction false} NitroStaysInGauge(ks: seq<Keys>, vzs: seq<real>, dts: seq<real>, nitro: real)
    requires |ks| == |vzs| == |dts|
    requires forall i :: 0 <= i < |dts| ==> dts[i] >= 0.0
    requires 0.0 <= nitro <= NitroFull
    ensures 0.0 <= NitroRun(ks, vzs, dts, nitro) <= NitroFull
  {
    if |ks| > 0 {
      NitroStaysInGauge(ks[1..], vzs[1..], dts[1..], Nitro(ks[0], vzs[0], nitro, dts[0]).nitro);
    }
  }

  // ---------------------------------------------------------------- opponents

  /** Opponent i's forward speed: 30 plus 5 per index. */
  function OpponentSpeed(i: nat): real {
    30.0 + 5.0 * (i as real)
  }

  /** `updateOpponents(dt)`: each opponent advances and weaves on a sine of its z. */
  function UpdateOpponents(opps: seq<Vec3>, dt: real, sin: real -> real): (r: seq<Vec3>)
    ensures |r| == |opps|
    ensures forall i :: 0 <= i < |r| ==> r[i].z == opps[i].z + OpponentSpeed(i) * dt
    ensures forall i :: 0 <= i < |r| ==> r[i].y == opps[i].y
    ensures forall i :: 0 <= i < |r| ==> r[i].x == sin(r[i].z * 0.01) * 5.0
  {
    seq(|opps|, i requires 0 <= i < |opps| =>
      var z := opps[i].z + OpponentSpeed(i) * dt;
      Vec3(sin(z * 0.01) * 5.0, opps[i].y, z))
  }

  /** Opponents never leave the band |x| <= 5. */
  lemma OpponentsOnTrack(opps: seq<Vec3>, dt: real, sin: real -> real)
    requires SineBounded(sin)
    ensures forall i :: 0 <= i < |opps| ==> -5.0 <= UpdateOpponents(opps, dt, sin)[i].x <= 5.0
  {
    var r := UpdateOpponents(opps, dt, sin);
    forall i | 0 <= i < |opps|
      ensures -5.0 <= r[i].x <= 5.0
    {
      assert -1.0 <= sin(r[i].z * 0.01) <= 1.0;
    }
  }

  /** A later opponent is faster, so with nonnegative time it gains ground. */
  lemma LaterOpponentsFaster(opps: seq<Vec3>, dt: real, sin: real -> real, i: nat, j: nat)
    requires i < j < |opps| && dt >= 0.0
    ensures UpdateOpponents(opps, dt, sin)[j].z - opps[j].z >= UpdateOpponents(opps, dt, sin)[i].z - opps[i].z
  {
    assert (j as real) * dt >= (i as real) * dt;
  }

  // ---------------------------------------------------------------- frame

  /** The engine after one `update` and the `endGame(won)` calls it made. */
  datatype Tick = Tick(engine: Engine, ends: seq<bool>)

  /** `endGame(won)`'s synchronous effect: the loop stops running. */
  function EndGame(e: Engine): (r: Engine)
    ensures !r.state.isRunning
    ensures r.(state := e.state) == e && r.state.(isRunning := e.state.isRunning) == e.state
  {
    e.(state := e.state.(isRunning := false))
  }

  /** `update(dt)` at wall-clock `now`. */
  function Update(e: Engine, dt: real, now: real, sin: real -> real): (t: Tick)
    ensures t.engine.state.distance == t.engine.position.z
    ensures t.engine.state.speed == Abs(t.engine.velocity.z) * KmhPerUnit
    ensures t.engine.state.time == (now - e.startTime) / 1000.0
    ensures (true in t.ends) <==> t.engine.position.z >= e.trackLength
    ensures (false in t.ends) <==> e.state.health <= 0.0
    ensures |t.ends| == 2 ==> t.ends == [true, false]
    ensures t.engine.state.isRunning <==> e.state.isRunning && t.ends == []
    ensures t.engine.opponents == UpdateOpponents(e.opponents, dt, sin)
    ensures t.engine.state.health == e.state.health
  {
    var p := UpdatePlayerCar(e, dt);
    var m := p.(opponents := UpdateOpponents(p.opponents, dt, sin));
    var s := m.state.(time := (now - m.startTime) / 1000.0, distance := m.position.z,
                      speed := Abs(m.velocity.z) * KmhPerUnit);
    var e1 := m.(state := s);
    var won := s.distance >= e1.trackLength;
    var e2 := if won then EndGame(e1) else e1;
    var lost := e2.state.health <= 0.0;
    var e3 := if lost then EndGame(e2) else e2;
    Tick(e3, (if won then [true] else []) + (if lost then [false] else []))
  }

  /** `animate()` at wall-clock `now`: nothing while stopped or paused,
      otherwise a step over the time since the previous frame. */
  function Animate(e: Engine, now: real, sin: real -> real): (t: Tick)
    ensures !e.state.isRunning || e.state.isPaused ==> t == Tick(e, [])
    ensures e.state.isRunning && !e.state.isPaused ==>
              t.engine.lastFrameTime == now
              && t.engine.state.time == (now - e.startTime) / 1000.0
  {
    if !e.state.isRunning || e.state.isPaused then Tick(e, [])
    else
      var dt := (now - e.lastFrameTime) / 1000.0;
      Update(e.(lastFrameTime := now), dt, now, sin)
  }

  /** A frame that ends the game stops the loop: the next frame does nothing,
      so `endGame` is called by one frame only. */
  lemma EndedGameStaysEnded(e: Engine, now: real, later: real, sin: real -> real)
    requires Animate(e, now, sin).ends != []
    ensures Animate(Animate(e, now, sin).engine, later, sin) == Tick(Animate(e, now, sin).engine, [])
  {
  }

  /** Crossing the track length ends the game with a win. */
  lemma WinAtTrackLength(e: Engine, now: real, sin: real -> real)
    requires e.state.isRunning && !e.state.isPaused && e.state.health > 0.0
    requires Animate(e, now, sin).engine.state.distance >= e.trackLength
    ensures Animate(e, now, sin).ends == [true]
  {
  }

  /** `togglePause()`. */
  function TogglePause(e: Engine): (r: Engine)
    ensures r.state.isPaused != e.state.isPaused
    ensures r.(state := e.state) == e && r.state.(isPaused := e.state.isPaused) == e.state
  {
    e.(state := e.state.(isPaused := !e.state.isPaused))
  }

  /** Pausing twice is no change at all. */
  lemma TogglePauseTwice(e: Engine)
    ensures TogglePause(TogglePause(e)) == e
  {
  }

  /** A paused engine's frames leave it untouched. */
  lemma PausedFramesIdle(e: Engine, now: real, sin: real -> real)
    ensures TogglePause(e).state.isPaused ==> Animate(TogglePause(e), now, sin) == Tick(TogglePause(e), [])
  {
  }

  // ---------------------------------------------------------------- keys

  datatype KeyFlag = Up | Down | LeftKey | RightKey | Space

  /** The flag a `KeyboardEvent.key` drives; keys are matched exactly. */
  function FlagOf(key: string): Option<KeyFlag> {
    if key == "ArrowUp" then Some(Up)
    else if key == "ArrowDown" then Some(Down)
    else if key == "ArrowLeft" then Some(LeftKey)
    else if key == "ArrowRight" then Some(RightKey)
    else if key == " " then Some(Space)
    else None
  }

  function Held(k: Keys, f: KeyFlag): bool {
    match f
    case Up => k.up
    case Down => k.down
    case LeftKey => k.left
    case RightKey => k.right
    case Space => k.space
  }

  function SetFlag(k: Keys, f: KeyFlag, v: bool): (r: Keys)
    ensures Held(r, f) == v
    ensures forall g :: g != f ==> Held(r, g) == Held(k, g)
  {
    match f
    case Up => k.(up := v)
    case Down => k.(down := v)
    case LeftKey => k.(left := v)
    case RightKey => k.(right := v)
    case Space => k.(space := v)
  }

  /** `handleKeyDown` (`down`) and `handleKeyUp` (`!down`). */
  function HandleKey(k: Keys, key: string, down: bool): (r: Keys)
    ensures FlagOf(key).None? ==> r == k
    ensures FlagOf(key).Some? ==> Held(r, FlagOf(key).value) == down
    ensures forall g :: FlagOf(key) != Some(g) ==> Held(r, g) == Held(k, g)
  {
    match FlagOf(key)
    case None => k
    case Some(f) => SetFlag(k, f, down)
  }

  /** Setting one flag twice keeps only the second value. */
  lemma SetFlagTwice(k: Keys, f: KeyFlag, a: bool, b: bool)
    ensures SetFlag(SetFlag(k, f, a), f, b) == SetFlag(k, f, b)
  {
  }

  /** Releasing a key undoes pressing it whatever the key was. */
  lemma KeyUpUndoesKeyDown(k: Keys, key: string)
    ensures HandleKey(HandleKey(k, key, true), key, false) == HandleKey(k, key, false)
  {
    match FlagOf(key)
    case None =>
    case Some(f) => SetFlagTwice(k, f, true, false);
  }

  /** Each arrow drives its own flag; the names are case-sensitive. */
  lemma KeyNames()
    ensures FlagOf("ArrowUp") == Some(Up) && FlagOf("ArrowDown") == Some(Down)
    ensures FlagOf("ArrowLeft") == Some(LeftKey) && FlagOf("ArrowRight") == Some(RightKey)
    ensures FlagOf(" ") == Some(Space)
    ensures FlagOf("arrowup") == None && FlagOf("w") == None
  {
  }

  // ---------------------------------------------------------------- restart

  /** `start()` at wall-clock `now`: mark running, set both clocks, run the
      first frame. */
  function Start(e: Engine, now: real, sin: real -> real): (t: Tick)
    ensures !e.state.isPaused ==> t.engine.lastFrameTime == now && t.engine.startTime == now
    ensures !e.state.isPaused ==> t.engine.state.time == 0.0
  {
    Animate(e.(state := e.state.(isRunning := true), startTime := now, lastFrameTime := now), now, sin)
  }

  /** `restart()`: the initial game state, the car back at the origin at
      rest and facing forward, then `start()`. The steering rate, held keys
      and opponents are kept. */
  function Restart(e: Engine, now: real, sin: real -> real): (t: Tick)
    ensures e.trackWidth >= 4.0 && e.trackLength > 0.0 ==>
              t.engine.state == InitialState.(isRunning := true)
              && t.engine.position == Zero && t.engine.velocity == Zero
    ensures t.engine.keys == e.keys
    ensures t.engine.opponents == UpdateOpponents(e.opponents, 0.0, sin)
  {
    Start(e.(state := InitialState, position := Zero, velocity := Zero, rotation := 0.0), now, sin)
  }
}
