/** AI opponents: a constant-speed advance along -z, a sine weave around a
    lane, recycling to behind the player, and a per-opponent proximity test.
    `Math.sin` is the parameter `sin`; `Math.random()` draws are parameters. */
module OpponentCars {
  import opened Base

  const DefaultSpeed: real := 6.0
  const DefaultCollisionRadius: real := 1.6
  const DefaultCount: nat := 5
  const DefaultTrackHalfWidth: real := 14.0

  /** An opponent that passes `playerZ + RespawnAhead` is moved behind the
      player, between `RespawnNear` and `RespawnNear + RespawnSpread` back. */
  const RespawnAhead: real := 30.0
  const RespawnNear: real := 80.0
  const RespawnSpread: real := 200.0
  /** Without a player, passing z = 50 sends an opponent to z = -500. */
  const LoneLimit: real := 50.0
  const LoneReset: real := -500.0

  const WeaveRate: real := 0.5
  const WeaveAmplitude: real := 1.5

  /** The props one `OpponentCar` is rendered with. */
  datatype OpponentProps = OpponentProps(
    speed: real,
    laneOffset: real,
    active: bool,
    collisionRadius: real,
    reportsCollisions: bool)

  /** The opponent's next position and whether it called `onCollision`. */
  datatype OpponentOutput = OpponentOutput(pos: Vec3, collided: bool)

  /** Squared distance in the ground plane (ride height ignored). */
  function PlanarDistSq(a: Vec3, b: Vec3): real {
    (a.x - b.x) * (a.x - b.x) + (a.z - b.z) * (a.z - b.z)
  }

  /** The respawn point for a draw `r` behind a player at `playerZ`. */
  function RespawnZ(playerZ: real, r: real): real {
    playerZ - (RespawnNear + r * RespawnSpread)
  }

  /** One `useFrame` step of an opponent. `elapsed` is the scene clock,
      `draw` the `Math.random()` value a respawn would use. */
  function OpponentFrame(p: OpponentProps, mounted: bool, pos: Vec3, delta: real, elapsed: real,
                         sin: real -> real, player: Option<Vec3>, draw: real): (out: OpponentOutput)
    ensures !mounted || !p.active ==> out == OpponentOutput(pos, false)
    ensures mounted && p.active ==> out.pos.y == pos.y
    ensures mounted && p.active ==> out.pos.x == p.laneOffset + sin(elapsed * WeaveRate) * WeaveAmplitude
    ensures mounted && p.active && player.Some? && IsUnitDraw(draw) ==> out.pos.z <= player.value.z + RespawnAhead
    ensures mounted && p.active && player.Some? && pos.z - p.speed * delta <= player.value.z + RespawnAhead
            ==> out.pos.z == pos.z - p.speed * delta
    ensures mounted && p.active && player.Some? && pos.z - p.speed * delta > player.value.z + RespawnAhead
            && IsUnitDraw(draw)
            ==> player.value.z - 280.0 < out.pos.z <= player.value.z - 80.0
    ensures mounted && p.active && player.None?
            ==> out.pos.z == (if pos.z - p.speed * delta > LoneLimit then LoneReset else pos.z - p.speed * delta)
    ensures out.collided <==> mounted && p.active && player.Some? && p.reportsCollisions
                              && PlanarDistSq(out.pos, player.value) <= p.collisionRadius * p.collisionRadius
  {
    if !mounted || !p.active then OpponentOutput(pos, false)
    else
      var z := pos.z - p.speed * delta;
      var x := p.laneOffset + sin(elapsed * WeaveRate) * WeaveAmplitude;
      match player
      case Some(pl) =>
        var z' := if z > pl.z + RespawnAhead then RespawnZ(pl.z, draw) else z;
        var moved := Vec3(x, pos.y, z');
        var hit := p.reportsCollisions && PlanarDistSq(moved, pl) <= p.collisionRadius * p.collisionRadius;
        OpponentOutput(moved, hit)
      case None =>
        var z' := if z > LoneLimit then LoneReset else z;
        OpponentOutput(Vec3(x, pos.y, z'), false)
  }

  /** The weave never takes an opponent more than 1.5 from its lane. */
  lemma WeaveStaysNearLane(p: OpponentProps, pos: Vec3, delta: real, elapsed: real,
                           sin: real -> real, player: Option<Vec3>, draw: real)
    requires SineBounded(sin)
    ensures var out := OpponentFrame(p, true, pos, delta, elapsed, sin, player, draw);
            p.active ==> p.laneOffset - 1.5 <= out.pos.x <= p.laneOffset + 1.5
  {
    assert -1.0 <= sin(elapsed * WeaveRate) <= 1.0;
  }

  // ---------------------------------------------------------------- layout

  const BaseLanes: seq<real> := [-10.0, -5.0, 0.0, 5.0, 10.0]

  predicate StrictlyIncreasing(s: seq<real>) {
    forall i, j :: 0 <= i < j < |s| ==> s[i] < s[j]
  }

  /** `base.filter(lane => Math.abs(lane) <= trackHalfWidth)`. */
  function FilterLanes(base: seq<real>, w: real): (r: seq<real>)
    ensures |r| <= |base|
    ensures forall l :: l in r <==> l in base && Abs(l) <= w
    ensures StrictlyIncreasing(base) ==> StrictlyIncreasing(r)
  {
    if |base| == 0 then []
    else
      var rest := FilterLanes(base[1..], w);
      assert forall l :: l in base <==> l == base[0] || l in base[1..];
      if Abs(base[0]) <= w then
        assert StrictlyIncreasing(base) ==> forall k :: 0 <= k < |rest| ==> base[0] < rest[k] by {
          if StrictlyIncreasing(base) {
            forall k | 0 <= k < |rest| ensures base[0] < rest[k] {
              assert rest[k] in base[1..];
              var j :| 0 <= j < |base[1..]| && base[1..][j] == rest[k];
              assert base[j + 1] == rest[k];
            }
          }
        }
        [base[0]] + rest
      else rest
  }

  /** The lane table for a track half width. */
  function Lanes(w: real): (r: seq<real>)
    ensures StrictlyIncreasing(r)
    ensures forall l :: l in r <==> l in BaseLanes && Abs(l) <= w
  {
    FilterLanes(BaseLanes, w)
  }

  /** A table whose lanes all fit is kept whole, in order. */
  lemma {:induction false} FilterKeepsFitting(base: seq<real>, w: real)
    requires forall i :: 0 <= i < |base| ==> Abs(base[i]) <= w
    ensures FilterLanes(base, w) == base
  {
    if |base| > 0 {
      FilterKeepsFitting(base[1..], w);
      assert [base[0]] + base[1..] == base;
    }
  }

  /** The race track's half width of 14 keeps all five lanes. */
  lemma LaneTableFull()
    ensures Lanes(DefaultTrackHalfWidth) == BaseLanes
  {
    FilterKeepsFitting(BaseLanes, DefaultTrackHalfWidth);
  }

  /** A half width of 7 keeps the inner three lanes. */
  lemma LaneTableNarrow()
    ensures Lanes(7.0) == [-5.0, 0.0, 5.0]
  {
    assert FilterLanes([], 7.0) == [];
    assert FilterLanes([10.0], 7.0) == [];
    assert FilterLanes([5.0, 10.0], 7.0) == [5.0];
    assert FilterLanes([0.0, 5.0, 10.0], 7.0) == [0.0, 5.0];
    assert FilterLanes([-5.0, 0.0, 5.0, 10.0], 7.0) == [-5.0, 0.0, 5.0];
  }

  /** `lanes[i % lanes.length] ?? 0`. */
  function LaneFor(lanes: seq<real>, i: nat): (l: real)
    ensures |lanes| == 0 ==> l == 0.0
    ensures |lanes| > 0 ==> l in lanes
  {
    if |lanes| == 0 then 0.0 else lanes[i % |lanes|]
  }

  /** Opponent `i` and opponent `i + |lanes|` share a lane: the lanes
      cycle through the table. */
  lemma LaneForCycles(lanes: seq<real>, i: nat)
    ensures LaneFor(lanes, i + |lanes|) == LaneFor(lanes, i)
  {
    var n := |lanes|;
    if n > 0 {
      ModUnique(i + n, n, i / n + 1, i % n);
    }
  }

  /** Euclidean remainders are unique. */
  lemma ModUnique(a: int, n: int, k: int, r: int)
    requires n > 0 && 0 <= r < n && a == k * n + r
    ensures a % n == r
  {
    var q := a / n;
    assert (k - q) * n == a % n - r;
    if k > q {
      MulAtLeast(k - q, n);
    }
    if q > k {
      MulAtLeast(q - k, n);
    }
  }

  lemma MulAtLeast(d: int, n: int)
    requires d >= 1 && n > 0
    ensures d * n >= n
  {
    assert d * n == (d - 1) * n + n;
  }

  function StartZ(i: nat): real { -50.0 - 35.0 * (i as real) }

  function SpawnSpeed(draw: real): real { DefaultSpeed + draw * 3.0 }

  datatype Spawn = Spawn(laneOffset: real, startZ: real, speed: real)

  /** The opponents `OpponentCars` renders, one per `Math.random()` draw. */
  function SpawnLayout(w: real, draws: seq<real>): (r: seq<Spawn>)
    ensures |r| == |draws|
    ensures forall i :: 0 <= i < |r| ==> r[i].laneOffset == LaneFor(Lanes(w), i)
    ensures forall i :: 0 <= i < |r| ==> Abs(r[i].laneOffset) <= Max(w, 0.0)
    ensures forall i, j :: 0 <= i < j < |r| ==> r[j].startZ < r[i].startZ
    ensures forall i :: 0 <= i < |r| && IsUnitDraw(draws[i]) ==> 6.0 <= r[i].speed < 9.0
    ensures forall i :: 0 <= i < |r| ==> r[i].startZ <= -50.0
  {
    seq(|draws|, i requires 0 <= i < |draws| => Spawn(LaneFor(Lanes(w), i), StartZ(i), SpawnSpeed(draws[i])))
  }
}
