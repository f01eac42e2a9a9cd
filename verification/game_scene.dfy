/** Race orchestration: level fallback, the finish threshold, the per-frame
    watchers (finish, stats, collision), the one-shot finish and crash
    handlers, and the start countdown as discrete timer events. */
module GameScene {
  import opened Base
  import opened Controls
  import opened GameStore

  const DefaultTrackLength: real := 5000.0
  const DefaultOpponents: int := 5
  const DefaultObstacles: seq<string> := ["trees", "buildings"]
  /** The finish line sits this far short of half the track length. */
  const FinishMargin: real := 30.0
  const SceneCollisionRadius: real := 2.2
  const CountdownStart: int := 3
  const CrashCountdownStart: int := 10
  const MinDelta: real := 0.0001
  const KmhPerUnit: real := 3.6
  const RunningScoreRate: real := 0.2
  const FinishBonus: int := 10000
  const FinishPenaltyPerSecond: int := 100

  // ---------------------------------------------------------------- level

  /** The index of the first level whose number is `n` (`levels.find`). */
  function FindLevel(levels: seq<Level>, n: int): (r: Option<nat>)
    ensures r.Some? ==> r.value < |levels| && levels[r.value].levelNumber == Some(n)
    ensures r.Some? ==> forall j :: 0 <= j < r.value ==> levels[j].levelNumber != Some(n)
    ensures r.None? <==> forall j :: 0 <= j < |levels| ==> levels[j].levelNumber != Some(n)
  {
    if |levels| == 0 then None
    else if levels[0].levelNumber == Some(n) then Some(0)
    else match FindLevel(levels[1..], n)
      case None => None
      case Some(i) => Some(i + 1)
  }

  /** The level used when the store has no record for the current number. */
  function FallbackLevel(n: int): Level {
    Level(Some(n), Some(DefaultTrackLength), Some(DefaultOpponents), Some("Track"),
          Some(Environment(Some(DefaultObstacles))))
  }

  /** The level the scene races on: the stored record, with a default
      environment filled in when it has none, or the fallback level. */
  function SceneLevel(s: Store): (l: Level)
    ensures l.environment.Some?
    ensures FindLevel(s.levels, s.currentLevel).None? ==> l == FallbackLevel(s.currentLevel)
    ensures FindLevel(s.levels, s.currentLevel).Some? ==>
              l.(environment := None) == s.levels[FindLevel(s.levels, s.currentLevel).value].(environment := None)
  {
    match FindLevel(s.levels, s.currentLevel)
    case None => FallbackLevel(s.currentLevel)
    case Some(i) =>
      var l := s.levels[i];
      if l.environment.None? then l.(environment := Some(Environment(Some(DefaultObstacles)))) else l
  }

  /** `track_length || 5000`: a missing or zero length means 5000. */
  function TrackLength(l: Level): (len: real)
    ensures l.trackLength.None? || l.trackLength == Some(0.0) ==> len == DefaultTrackLength
    ensures l.trackLength.Some? && l.trackLength.value != 0.0 ==> len == l.trackLength.value
  {
    match l.trackLength
    case None => DefaultTrackLength
    case Some(v) => if v == 0.0 then DefaultTrackLength else v
  }

  /** `opponents || 5`, as an array length (negative lengths give none). */
  function OpponentCount(l: Level): (n: nat)
    ensures l.opponents.None? || l.opponents == Some(0) ==> n == DefaultOpponents
    ensures l.opponents.Some? && l.opponents.value > 0 ==> n == l.opponents.value
  {
    match l.opponents
    case None => DefaultOpponents
    case Some(k) => if k == 0 then DefaultOpponents else if k < 0 then 0 else k
  }

  /** The finish line, on the -z side of the start. */
  function FinishZ(trackLength: real): real {
    -(trackLength / 2.0 - FinishMargin)
  }

  /** Without a stored level the race is 5000 long with 5 opponents and ends at z = -2470. */
  lemma FallbackRace(s: Store)
    requires FindLevel(s.levels, s.currentLevel).None?
    ensures TrackLength(SceneLevel(s)) == 5000.0
    ensures OpponentCount(SceneLevel(s)) == 5
    ensures FinishZ(TrackLength(SceneLevel(s))) == -2470.0
  {
  }

  // ---------------------------------------------------------------- watchers

  /** `FinishWatcher`: `onFinish` is called this frame. */
  predicate FinishReached(active: bool, player: Option<Vec3>, finishZ: real) {
    active && player.Some? && player.value.z <= finishZ
  }

  /** On any track longer than twice the margin the finish watcher fires
      exactly when the distance the stats report reaches half the track
      length less the margin: a race ends about halfway along its nominal
      length. */
  lemma FinishLineDistance(trackLength: real, p: Vec3)
    requires trackLength > 2.0 * FinishMargin
    ensures FinishReached(true, Some(p), FinishZ(trackLength))
            <==> Max(0.0, -p.z) >= trackLength / 2.0 - FinishMargin
    ensures FinishZ(trackLength) < 0.0
  {
  }

  /** Mounted opponents strictly ahead of the player (smaller z). */
  function CountAhead(opponents: seq<Option<Vec3>>, playerZ: real): (n: nat)
    ensures n <= |opponents|
    ensures n == 0 <==> forall i :: 0 <= i < |opponents| ==> !IsAhead(opponents[i], playerZ)
    ensures n == |opponents| <==> forall i :: 0 <= i < |opponents| ==> IsAhead(opponents[i], playerZ)
  {
    if |opponents| == 0 then 0
    else
      var rest := CountAhead(opponents[1..], playerZ);
      assert forall i :: 1 <= i < |opponents| ==> opponents[i] == opponents[1..][i - 1];
      (if IsAhead(opponents[0], playerZ) then 1 else 0) + rest
  }

  predicate IsAhead(o: Option<Vec3>, playerZ: real) {
    o.Some? && o.value.z < playerZ
  }

  /** The speed `StatsUpdater` reports, in km/h. */
  function ReportedSpeed(playerZ: real, lastZ: real, delta: real): (v: real)
    ensures v >= 0.0
    ensures playerZ == lastZ ==> v == 0.0
  {
    Abs((playerZ - lastZ) / Max(delta, MinDelta)) * KmhPerUnit
  }

  /** The in-race score: a fifth of the distance, rounded down. */
  function RunningScore(distance: real): (score: int)
    ensures score >= 0
    ensures distance >= 0.0 ==> score as real <= distance * RunningScoreRate < score as real + 1.0
  {
    MaxInt(0, (distance * RunningScoreRate).Floor)
  }

  /** `StatsUpdater`: nothing when the race is inactive or the player is not
      mounted; otherwise the stats to merge and the z to remember. */
  function Stats(active: bool, player: Option<Vec3>, lastZ: real, delta: real,
                 opponents: seq<Option<Vec3>>): (r: Option<(StatsPatch, real)>)
    ensures r.None? <==> !active || player.None?
    ensures r.Some? ==> r.value.1 == player.value.z
    ensures r.Some? ==> r.value.0.raceDistance.Some? && r.value.0.raceDistance.value >= 0.0
    ensures r.Some? ==> r.value.0.raceDistance.value == Max(0.0, -player.value.z)
    ensures r.Some? ==> r.value.0.racePosition.Some?
                        && 1 <= r.value.0.racePosition.value <= 1 + |opponents|
    ensures r.Some? ==> (r.value.0.racePosition.value == 1
                         <==> forall i :: 0 <= i < |opponents| ==> !IsAhead(opponents[i], player.value.z))
    ensures r.Some? ==> r.value.0.raceSpeed.Some? && r.value.0.raceSpeed.value >= 0.0
    ensures r.Some? ==> r.value.0.raceScore.Some? && r.value.0.raceScore.value >= 0
    ensures r.Some? ==> r.value.0.raceTime.None?
    ensures r.Some? ==> r.value.0.racePosition
                        == Some(if |opponents| > 0 then 1 + CountAhead(opponents, player.value.z) else 1)
    ensures r.Some? ==> r.value.0.raceScore == Some(RunningScore(Max(0.0, -player.value.z)))
    ensures r.Some? ==> r.value.0.raceSpeed == Some(ReportedSpeed(player.value.z, lastZ, delta))
  {
    if !active || player.None? then None
    else
      var pz := player.value.z;
      var distance := Max(0.0, -pz);
      var rank := if |opponents| > 0 then 1 + CountAhead(opponents, pz) else 1;
      Some((StatsPatch(Some(distance), Some(ReportedSpeed(pz, lastZ, delta)), Some(rank),
                       Some(RunningScore(distance)), None), pz))
  }

  /** An opponent is within the crash radius of the player (planar, squared). */
  predicate Touches(o: Option<Vec3>, player: Vec3, radius: real) {
    o.Some? && (o.value.x - player.x) * (o.value.x - player.x)
               + (o.value.z - player.z) * (o.value.z - player.z) <= radius * radius
  }

  /** The scan of `CollisionWatcher`: the first mounted opponent in range, if any. */
  function FirstTouch(opponents: seq<Option<Vec3>>, player: Vec3, radius: real): (r: Option<nat>)
    ensures r.Some? ==> r.value < |opponents| && Touches(opponents[r.value], player, radius)
    ensures r.Some? ==> forall j :: 0 <= j < r.value ==> !Touches(opponents[j], player, radius)
    ensures r.None? <==> forall j :: 0 <= j < |opponents| ==> !Touches(opponents[j], player, radius)
  {
    if |opponents| == 0 then None
    else if Touches(opponents[0], player, radius) then Some(0)
    else match FirstTouch(opponents[1..], player, radius)
      case None => None
      case Some(i) => Some(i + 1)
  }

  /** `CollisionWatcher` calls `onCrash` this frame (at most once: the scan
      stops at the first hit). */
  predicate CrashDetected(active: bool, player: Option<Vec3>, opponents: seq<Option<Vec3>>) {
    active && player.Some? && |opponents| > 0
    && FirstTouch(opponents, player.value, SceneCollisionRadius).Some?
  }

  lemma CrashDetectedIff(active: bool, player: Option<Vec3>, opponents: seq<Option<Vec3>>)
    ensures CrashDetected(active, player, opponents)
            <==> active && player.Some?
                 && exists i :: 0 <= i < |opponents| && Touches(opponents[i], player.value, SceneCollisionRadius)
  {
    if active && player.Some? {
      var r := FirstTouch(opponents, player.value, SceneCollisionRadius);
      if r.Some? {
        assert Touches(opponents[r.value], player.value, SceneCollisionRadius);
      }
    }
  }

  // ---------------------------------------------------------------- session

  /** The interval/timeout pair driving the start countdown. */
  datatype CountdownTimer = NoTimer | Ticking(current: int) | Settling

  /** The scene's own state next to the store. */
  datatype Scene = Scene(
    countdown: Option<int>,
    raceActive: bool,
    finishTriggered: bool,
    crashTriggered: bool,
    timer: CountdownTimer)

  const InitialScene: Scene := Scene(None, false, false, false, NoTimer)

  datatype World = World(scene: Scene, store: Store)

  /** The start effect, run whenever `gameStarted` changes. When the race
      starts: both latches cleared, controls released and locked, race
      inactive, countdown at 3 with its interval running. When it stops: the
      interval is cleared (a pending settle timeout is not). */
  function GameStartedChanged(w: World): (r: World)
    ensures w.store.gameStarted ==>
              && !r.scene.finishTriggered && !r.scene.crashTriggered
              && !r.scene.raceActive && r.scene.countdown == Some(CountdownStart)
              && r.scene.timer == Ticking(CountdownStart)
              && r.store.controlsLocked && r.store.controls == Released
              && r.store.(controls := w.store.controls, controlsLocked := w.store.controlsLocked) == w.store
    ensures !w.store.gameStarted ==> r.store == w.store && !r.scene.timer.Ticking?
  {
    if w.store.gameStarted then
      World(w.scene.(finishTriggered := false, crashTriggered := false, raceActive := false,
                     countdown := Some(CountdownStart), timer := Ticking(CountdownStart)),
            SetControlsLocked(ResetControls(w.store), true))
    else if w.scene.timer.Ticking? then w.(scene := w.scene.(timer := NoTimer))
    else w
  }

  /** One second of the countdown interval. */
  function CountdownTick(w: World): (r: World)
    ensures r.store == w.store
    ensures !w.scene.timer.Ticking? ==> r == w
    ensures w.scene.timer.Ticking? ==> r.scene.countdown == Some(w.scene.timer.current - 1)
    ensures w.scene.timer.Ticking? ==>
              r.scene.timer == (if w.scene.timer.current - 1 <= 0 then Settling else Ticking(w.scene.timer.current - 1))
    ensures r.scene.raceActive == w.scene.raceActive
  {
    match w.scene.timer
    case Ticking(c) =>
      var next := c - 1;
      w.(scene := w.scene.(countdown := Some(next), timer := if next <= 0 then Settling else Ticking(next)))
    case _ => w
  }

  /** The settle timeout after "GO": the race becomes active and the
      controls unlock. */
  function Settle(w: World): (r: World)
    ensures !w.scene.timer.Settling? ==> r == w
    ensures w.scene.timer.Settling? ==>
              r.scene.raceActive && r.scene.countdown == None && r.scene.timer == NoTimer
              && !r.store.controlsLocked && r.store.(controlsLocked := true) == w.store.(controlsLocked := true)
  {
    if w.scene.timer.Settling? then
      World(w.scene.(countdown := None, raceActive := true, timer := NoTimer), SetControlsLocked(w.store, false))
    else w
  }

  /** From a start request, three ticks and the settle delay make the race
      controllable; after only two ticks the controls are still locked. */
  lemma CountdownSequence(w: World)
    requires w.store.gameStarted
    ensures var w0 := GameStartedChanged(w);
            var w2 := CountdownTick(CountdownTick(w0));
            !w2.scene.raceActive && w2.store.controlsLocked && Settle(w2) == w2
    ensures var w0 := GameStartedChanged(w);
            var w3 := CountdownTick(CountdownTick(CountdownTick(w0)));
            w3.scene.countdown == Some(0) && w3.store.controlsLocked
            && Settle(w3).scene.raceActive && !Settle(w3).store.controlsLocked
            && Settle(w3).scene.countdown == None
  {
  }

  /** The time-bonus score awarded on finishing. */
  function FinishScore(raceTime: int): (score: int)
    ensures score >= 0
    ensures raceTime <= 100 ==> score == FinishBonus - FinishPenaltyPerSecond * raceTime
    ensures raceTime >= 100 ==> score == 0
  {
    MaxInt(0, FinishBonus - FinishPenaltyPerSecond * raceTime)
  }

  /** `handleFinish`: once per race, while active and not crashed, latch the
      finish and end the race in first place with the time-bonus score. */
  function HandleFinish(w: World): (r: World)
    ensures !w.scene.raceActive || w.scene.finishTriggered || w.scene.crashTriggered ==> r == w
    ensures w.scene.raceActive && !w.scene.finishTriggered && !w.scene.crashTriggered ==>
              && r.scene == w.scene.(finishTriggered := true)
              && r.store == EndGame(w.store, 1, FinishScore(w.store.raceTime))
  {
    if !w.scene.raceActive || w.scene.finishTriggered || w.scene.crashTriggered then w
    else
      var score := FinishScore(w.store.raceTime);
      var s1 := UpdateRaceStats(w.store, Patch(EmptyPatch.(raceScore := Some(score))));
      World(w.scene.(finishTriggered := true), EndGame(s1, 1, score))
  }

  /** `handleCollision`: once per race, while active, latch the crash, count
      it, end the race unplaced with no score and open the crash popup. The
      finish latch is not consulted. */
  function HandleCollision(w: World): (r: World)
    ensures !w.scene.raceActive || w.scene.crashTriggered ==> r == w
    ensures w.scene.raceActive && !w.scene.crashTriggered ==>
              && r.scene == w.scene.(crashTriggered := true)
              && r.store.collisions == w.store.collisions + 1
              && r.store.gameOver && !r.store.gameStarted
              && r.store.racePosition == 0 && r.store.raceScore == 0
              && r.store.showCrashPopup && r.store.crashCountdown == CrashCountdownStart
              && r.store.nitroCount == w.store.nitroCount && r.store.controls == w.store.controls
              && r.store.(collisions := w.store.collisions, gameOver := w.store.gameOver,
                          gameStarted := w.store.gameStarted, racePosition := w.store.racePosition,
                          raceScore := w.store.raceScore, showCrashPopup := w.store.showCrashPopup,
                          crashCountdown := w.store.crashCountdown) == w.store
  {
    if !w.scene.raceActive || w.scene.crashTriggered then w
    else
      var s1 := IncrementCollisions(w.store);
      var s2 := UpdateRaceStats(s1, Patch(EmptyPatch.(raceScore := Some(0))));
      var s3 := EndGame(s2, 0, 0);
      World(w.scene.(crashTriggered := true), SetCrashCountdown(SetShowCrashPopup(s3, true), CrashCountdownStart))
  }

  /** The crash latch: a second collision report in the same race changes nothing. */
  lemma CrashLatch(w: World)
    ensures HandleCollision(HandleCollision(w)) == HandleCollision(w)
  {
  }

  /** The finish latch: a second finish report changes nothing, and a finish
      after a crash changes nothing. */
  lemma FinishLatch(w: World)
    ensures HandleFinish(HandleFinish(w)) == HandleFinish(w)
    ensures HandleFinish(HandleCollision(w)) == HandleCollision(w) || !w.scene.raceActive
  {
  }

  /** `handleCollision` as evidently intended: like `handleFinish`, it also
      honours the other latch, so a race ends exactly once. */
  function HandleCollisionLatched(w: World): (r: World)
    ensures !w.scene.raceActive || w.scene.finishTriggered || w.scene.crashTriggered ==> r == w
    ensures w.scene.raceActive && !w.scene.finishTriggered && !w.scene.crashTriggered ==>
              && r.scene == w.scene.(crashTriggered := true)
              && r.store.gameOver && r.store.racePosition == 0 && r.store.raceScore == 0
              && r.store.collisions == w.store.collisions + 1 && r.store.showCrashPopup
  {
    if w.scene.finishTriggered then w else HandleCollision(w)
  }

  /** With the latched handler a crash after a finish changes nothing: the
      first place and the time bonus stand. */
  lemma FinishBeatsLaterCrash(w: World)
    requires w.scene.raceActive && !w.scene.finishTriggered && !w.scene.crashTriggered
    ensures HandleCollisionLatched(HandleFinish(w)) == HandleFinish(w)
    ensures var r := HandleCollisionLatched(HandleFinish(w));
            r.store.racePosition == 1 && r.store.raceScore == FinishScore(w.store.raceTime)
            && r.store.collisions == w.store.collisions && r.store.showCrashPopup == w.store.showCrashPopup
  {
  }

  /** Repeated collision reports in one race count one collision at most. */
  function CollisionReports(w: World, k: nat): World {
    if k == 0 then w else HandleCollision(CollisionReports(w, k - 1))
  }

  lemma {:induction false} AtMostOneCrash(w: World, k: nat)
    requires k > 0
    ensures CollisionReports(w, k) == HandleCollision(w)
  {
    if k > 1 {
      AtMostOneCrash(w, k - 1);
      CrashLatch(w);
    }
  }

  /** A crash reported after a finish in the same race still goes through:
      it overwrites the first-place result with an unplaced, scoreless one. */
  lemma CrashAfterFinishOverridesWin(w: World)
    requires w.scene.raceActive && !w.scene.finishTriggered && !w.scene.crashTriggered
    ensures HandleFinish(w).store.racePosition == 1
    ensures var r := HandleCollision(HandleFinish(w));
            r.store.racePosition == 0 && r.store.raceScore == 0
            && r.scene.finishTriggered && r.scene.crashTriggered
            && r.store.collisions == w.store.collisions + 1
  {
  }

  // ---------------------------------------------------------------- frame

  /** What the scene's watchers see in one frame. */
  datatype FrameView = FrameView(
    player: Option<Vec3>,
    opponents: seq<Option<Vec3>>,
    delta: real)

  /** The stats watcher's step: merge the stats, if any, and remember z. */
  function StatsStep(w: World, lastZ: real, active: bool, v: FrameView): (r: (World, real))
    ensures r.0.scene == w.scene && r.0.store.collisions == w.store.collisions
    ensures r.0.store.gameOver == w.store.gameOver
    ensures !active ==> r == (w, lastZ)
  {
    match Stats(active, v.player, lastZ, v.delta, v.opponents)
    case None => (w, lastZ)
    case Some((patch, z)) => (w.(store := UpdateRaceStats(w.store, Patch(patch))), z)
  }

  /** The watchers of one frame in mount order: finish, stats, collision.
      All read the `raceActive` of the last render; `lastZ` is the stats
      watcher's remembered z. */
  function WatchersFrame(w: World, lastZ: real, v: FrameView): (r: (World, real))
    ensures !w.scene.raceActive ==> r == (w, lastZ)
    ensures r.0.store.collisions <= w.store.collisions + 1
  {
    var finishZ := FinishZ(TrackLength(SceneLevel(w.store)));
    var active := w.scene.raceActive;
    var w1 := if FinishReached(active, v.player, finishZ) then HandleFinish(w) else w;
    var (w2, z2) := StatsStep(w1, lastZ, active, v);
    var w3 := if CrashDetected(active, v.player, v.opponents) then HandleCollision(w2) else w2;
    (w3, z2)
  }

  /** In the frame the player crosses the finish line without touching
      anyone, the stats watcher runs after the finish watcher, still sees
      the race as active, and overwrites the first place and the time
      bonus with the running position and the running score. */
  lemma CleanFinishOverwritten(w: World, lastZ: real, v: FrameView)
    requires w.scene.raceActive && !w.scene.finishTriggered && !w.scene.crashTriggered
    requires FinishReached(true, v.player, FinishZ(TrackLength(SceneLevel(w.store))))
    requires !CrashDetected(true, v.player, v.opponents)
    ensures var r := WatchersFrame(w, lastZ, v).0;
            var d := Max(0.0, -v.player.value.z);
            && r.scene.finishTriggered && r.store.gameOver
            && r.store.raceScore == RunningScore(d)
            && r.store.racePosition
               == (if |v.opponents| > 0 then 1 + CountAhead(v.opponents, v.player.value.z) else 1)
    ensures var r := WatchersFrame(w, lastZ, v).0;
            (exists i :: 0 <= i < |v.opponents| && IsAhead(v.opponents[i], v.player.value.z))
            ==> r.store.racePosition > 1
    ensures var r := WatchersFrame(w, lastZ, v).0;
            w.store.raceTime <= 90 && -v.player.value.z < 5000.0
            ==> r.store.raceScore < FinishScore(w.store.raceTime)
  {
    var r := WatchersFrame(w, lastZ, v).0;
    var pz := v.player.value.z;
    if exists i :: 0 <= i < |v.opponents| && IsAhead(v.opponents[i], pz) {
      assert CountAhead(v.opponents, pz) != 0;
    }
  }

  /** The frame as evidently intended: the stats watcher and the collision
      handler also honour the finish latch, so a finished race keeps its
      result. */
  function WatchersFrameGated(w: World, lastZ: real, v: FrameView): (r: (World, real))
    ensures !w.scene.raceActive ==> r == (w, lastZ)
    ensures r.0.store.collisions <= w.store.collisions + 1
    ensures w.scene.raceActive && !w.scene.finishTriggered && !w.scene.crashTriggered
            && FinishReached(true, v.player, FinishZ(TrackLength(SceneLevel(w.store))))
            ==> r.0.store.gameOver && r.0.store.racePosition == 1
                && r.0.store.raceScore == FinishScore(w.store.raceTime)
                && r.0.store.collisions == w.store.collisions
  {
    var finishZ := FinishZ(TrackLength(SceneLevel(w.store)));
    var active := w.scene.raceActive;
    var w1 := if FinishReached(active, v.player, finishZ) then HandleFinish(w) else w;
    var (w2, z2) := StatsStep(w1, lastZ, active && !w1.scene.finishTriggered, v);
    var w3 := if CrashDetected(active, v.player, v.opponents) then HandleCollisionLatched(w2) else w2;
    (w3, z2)
  }

  /** Until the finish line is reached the gated frame is the frame as
      written. */
  lemma GatedAgreesBeforeFinish(w: World, lastZ: real, v: FrameView)
    requires !w.scene.finishTriggered
    requires !FinishReached(w.scene.raceActive, v.player, FinishZ(TrackLength(SceneLevel(w.store))))
    ensures WatchersFrameGated(w, lastZ, v) == WatchersFrame(w, lastZ, v)
  {
  }

  /** When the player crosses the finish line while touching an opponent in
      the same frame, the race as written ends crashed: unplaced, scoreless,
      with one more collision. With the finish latch honoured, it ends in
      first place with the time bonus. */
  lemma FinishAndCrashInOneFrame(w: World, lastZ: real, v: FrameView)
    requires w.scene.raceActive && !w.scene.finishTriggered && !w.scene.crashTriggered
    requires FinishReached(true, v.player, FinishZ(TrackLength(SceneLevel(w.store))))
    requires CrashDetected(true, v.player, v.opponents)
    ensures var r := WatchersFrame(w, lastZ, v).0;
            r.scene.finishTriggered && r.scene.crashTriggered
            && r.store.gameOver && r.store.racePosition == 0 && r.store.raceScore == 0
            && r.store.collisions == w.store.collisions + 1
    ensures var r := WatchersFrameGated(w, lastZ, v).0;
            r.store.gameOver && r.store.racePosition == 1 && r.store.raceScore == FinishScore(w.store.raceTime)
            && !r.scene.crashTriggered
  {
  }
}
