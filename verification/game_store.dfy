/** The race-session store (a Zustand store in the source): one immutable
    record and one pure function per action. Every action returns the whole
    next state, so "which fields an action touches" is stated by comparing the
    result with the input. */
module GameStore {
  import opened Base
  import opened Controls

  /** A player or session as the backend hands it over; only its identity matters here. */
  type PlayerId = nat
  type SessionId = nat

  /** The selected car's ratings (0-100 scale each). */
  datatype CarSpecs = CarSpecs(speed: real, acceleration: real, handling: real, nitroPower: real)

  datatype Environment = Environment(obstacles: Option<seq<string>>)

  /** A level record as delivered by the backend; any field may be missing. */
  datatype Level = Level(
    levelNumber: Option<int>,
    trackLength: Option<real>,
    opponents: Option<int>,
    name: Option<string>,
    environment: Option<Environment>)

  datatype Store = Store(
    // player, car and level selection
    player: Option<PlayerId>,
    selectedCar: Option<CarSpecs>,
    playerCars: seq<CarSpecs>,
    currentLevel: int,
    levels: seq<Level>,
    // race session
    currentSession: Option<SessionId>,
    gameStarted: bool,
    gamePaused: bool,
    gameOver: bool,
    controlsLocked: bool,
    racePosition: int,
    raceScore: int,
    raceTime: int,
    raceSpeed: real,
    raceDistance: real,
    collisions: int,
    nitroCount: int,
    showCrashPopup: bool,
    crashCountdown: int,
    // panels
    showMenu: bool,
    showCustomization: bool,
    showLeaderboard: bool,
    showVoiceAgent: bool,
    // held controls
    controls: ControlVector)

  const InitialNitro: int := 3
  const InitialCrashCountdown: int := 10

  /** The store as created, before any action. */
  const Initial: Store := Store(
    None, None, [], 1, [],
    None, false, false, false, true, 0, 0, 0, 0.0, 0.0, 0, InitialNitro, false, InitialCrashCountdown,
    true, false, false, false,
    Released)

  /** Every race-session field holds the value it has in `Initial`. */
  predicate SessionIsFresh(s: Store) {
    && s.currentSession == None
    && !s.gameStarted && !s.gamePaused && !s.gameOver && s.controlsLocked
    && s.racePosition == 0 && s.raceScore == 0 && s.raceTime == 0
    && s.raceSpeed == 0.0 && s.raceDistance == 0.0
    && s.collisions == 0 && s.nitroCount == InitialNitro
    && !s.showCrashPopup && s.crashCountdown == InitialCrashCountdown
  }

  /** `a` and `b` agree on everything outside the race session: selection,
      levels, panels and controls. */
  predicate SameSelection(a: Store, b: Store) {
    && a.player == b.player && a.selectedCar == b.selectedCar && a.playerCars == b.playerCars
    && a.currentLevel == b.currentLevel && a.levels == b.levels
    && a.showMenu == b.showMenu && a.showCustomization == b.showCustomization
    && a.showLeaderboard == b.showLeaderboard && a.showVoiceAgent == b.showVoiceAgent
    && a.controls == b.controls
  }

  lemma InitialIsFresh()
    ensures SessionIsFresh(Initial)
    ensures Initial.controls == Released && Initial.showMenu
  {
  }

  // ---------------------------------------------------------------- lifecycle

  /** `startGame`: the race is running, unpaused, not over, controls locked
      until the countdown ends; nothing else moves. */
  function StartGame(s: Store): (r: Store)
    ensures r.gameStarted && !r.gamePaused && !r.gameOver && r.controlsLocked
    ensures r.(gameStarted := s.gameStarted, gamePaused := s.gamePaused,
               gameOver := s.gameOver, controlsLocked := s.controlsLocked) == s
  {
    s.(gameStarted := true, gamePaused := false, gameOver := false, controlsLocked := true)
  }

  datatype StartError = NoPlayerOrCar

  /** The menu's start button: without a player and a selected car the request
      is refused and the store is left as it was; otherwise the menu closes and
      the race starts. */
  function RequestStart(s: Store): (r: Result<Store, StartError>)
    ensures r.Err? <==> s.player == None || s.selectedCar == None
    ensures r.Ok? ==> r.value == StartGame(s).(showMenu := false)
  {
    if s.player == None || s.selectedCar == None then Err(NoPlayerOrCar)
    else Ok(StartGame(s.(showMenu := false)))
  }

  function PauseGame(s: Store): Store { s.(gamePaused := true) }

  function ResumeGame(s: Store): Store { s.(gamePaused := false) }

  function SetControlsLocked(s: Store, locked: bool): Store { s.(controlsLocked := locked) }

  function SetShowMenu(s: Store, show: bool): Store { s.(showMenu := show) }

  function SetShowCrashPopup(s: Store, show: bool): Store { s.(showCrashPopup := show) }

  function SetCrashCountdown(s: Store, n: int): Store { s.(crashCountdown := n) }

  /** `endGame(position, score)`: the race is over with that result; the
      collision count, the nitro charges and the controls survive. */
  function EndGame(s: Store, position: int, score: int): (r: Store)
    ensures r.gameOver && !r.gameStarted
    ensures r.racePosition == position && r.raceScore == score
    ensures r.collisions == s.collisions && r.nitroCount == s.nitroCount && r.controls == s.controls
    ensures r.(gameOver := s.gameOver, gameStarted := s.gameStarted,
               racePosition := s.racePosition, raceScore := s.raceScore) == s
  {
    s.(gameOver := true, gameStarted := false, racePosition := position, raceScore := score)
  }

  /** `resetGame`: every race-session field goes back to its initial value;
      selection, levels, panels and controls are untouched. */
  function ResetGame(s: Store): (r: Store)
    ensures SessionIsFresh(r)
    ensures SameSelection(s, r)
  {
    s.(gameStarted := false, gamePaused := false, gameOver := false, controlsLocked := true,
       racePosition := 0, raceScore := 0, raceTime := 0, raceSpeed := 0.0, raceDistance := 0.0,
       collisions := 0, nitroCount := InitialNitro, currentSession := None,
       showCrashPopup := false, crashCountdown := InitialCrashCountdown)
  }

  /** `resetGame()` then `setShowMenu(true)`: the way back to the menu after a
      finish, a quit or an expired crash popup. */
  function ReturnToMenu(s: Store): (r: Store)
    ensures SessionIsFresh(r) && r.showMenu
    ensures SameSelection(s, r.(showMenu := s.showMenu))
  {
    SetShowMenu(ResetGame(s), true)
  }

  /** Two stores that share their selection and both have a fresh session are
      the same store. */
  lemma FreshAndSameSelectionDetermine(a: Store, b: Store)
    requires SessionIsFresh(a) && SessionIsFresh(b) && SameSelection(a, b)
    ensures a == b
  {
  }

  /** Resetting twice is resetting once. */
  lemma ResetIdempotent(s: Store)
    ensures ResetGame(ResetGame(s)) == ResetGame(s)
  {
    FreshAndSameSelectionDetermine(ResetGame(ResetGame(s)), ResetGame(s));
  }

  /** Resetting the initial store changes nothing. */
  lemma ResetInitial()
    ensures ResetGame(Initial) == Initial
  {
    FreshAndSameSelectionDetermine(ResetGame(Initial), Initial);
  }

  /** Whatever happened in a race, resetting after starting it forgets the start. */
  lemma ResetForgetsStart(s: Store)
    ensures ResetGame(StartGame(s)) == ResetGame(s)
  {
    FreshAndSameSelectionDetermine(ResetGame(StartGame(s)), ResetGame(s));
  }

  // ---------------------------------------------------------------- counters

  /** `incrementCollisions`: exactly one more collision, nothing else moves. */
  function IncrementCollisions(s: Store): (r: Store)
    ensures r.collisions == s.collisions + 1
    ensures r.(collisions := s.collisions) == s
  {
    s.(collisions := s.collisions + 1)
  }

  /** `useNitro`: one charge fewer, never below zero; nothing else moves. */
  function UseNitro(s: Store): (r: Store)
    ensures r.nitroCount >= 0
    ensures s.nitroCount > 0 ==> r.nitroCount == s.nitroCount - 1
    ensures s.nitroCount <= 0 ==> r.nitroCount == 0
    ensures r.(nitroCount := s.nitroCount) == s
  {
    s.(nitroCount := MaxInt(0, s.nitroCount - 1))
  }

  /** `useNitro` called `k` times in a row. */
  function UseNitroTimes(s: Store, k: nat): Store {
    if k == 0 then s else UseNitro(UseNitroTimes(s, k - 1))
  }

  /** After `k` uses a non-negative charge count has dropped by `k`, stopping at zero. */
  lemma {:induction false} UseNitroTimesCount(s: Store, k: nat)
    requires s.nitroCount >= 0
    ensures UseNitroTimes(s, k).nitroCount == MaxInt(0, s.nitroCount - k)
    ensures UseNitroTimes(s, k).(nitroCount := s.nitroCount) == s
  {
    if k > 0 {
      UseNitroTimesCount(s, k - 1);
    }
  }

  /** From the initial three charges a fourth use leaves none. */
  lemma FourthNitroLeavesZero(s: Store)
    requires s.nitroCount == InitialNitro
    ensures UseNitroTimes(s, 3).nitroCount == 0
    ensures UseNitroTimes(s, 4).nitroCount == 0
  {
    UseNitroTimesCount(s, 3);
    UseNitroTimesCount(s, 4);
  }

  // ---------------------------------------------------------------- stats

  /** The object handed to `updateRaceStats`: each present field is merged. */
  datatype StatsPatch = StatsPatch(
    raceDistance: Option<real>,
    raceSpeed: Option<real>,
    racePosition: Option<int>,
    raceScore: Option<int>,
    raceTime: Option<int>)

  const EmptyPatch: StatsPatch := StatsPatch(None, None, None, None, None)

  /** `updateRaceStats` accepts either an object or a function of the state. */
  datatype StatsUpdate = Patch(patch: StatsPatch) | FromState(f: Store -> StatsPatch)

  /** Shallow merge of a patch into the store. */
  function Merge(s: Store, p: StatsPatch): (r: Store)
    ensures r.raceDistance == p.raceDistance.GetOr(s.raceDistance)
    ensures r.raceSpeed == p.raceSpeed.GetOr(s.raceSpeed)
    ensures r.racePosition == p.racePosition.GetOr(s.racePosition)
    ensures r.raceScore == p.raceScore.GetOr(s.raceScore)
    ensures r.raceTime == p.raceTime.GetOr(s.raceTime)
    ensures r.(raceDistance := s.raceDistance, raceSpeed := s.raceSpeed, racePosition := s.racePosition,
               raceScore := s.raceScore, raceTime := s.raceTime) == s
  {
    s.(raceDistance := p.raceDistance.GetOr(s.raceDistance),
       raceSpeed := p.raceSpeed.GetOr(s.raceSpeed),
       racePosition := p.racePosition.GetOr(s.racePosition),
       raceScore := p.raceScore.GetOr(s.raceScore),
       raceTime := p.raceTime.GetOr(s.raceTime))
  }

  /** `updateRaceStats(stats)`: a function argument is applied to the current
      state first, and its result is merged like an object argument. */
  function UpdateRaceStats(s: Store, u: StatsUpdate): (r: Store)
    ensures u.Patch? ==> r == Merge(s, u.patch)
    ensures u.FromState? ==> r == Merge(s, u.f(s))
  {
    match u
    case Patch(p) => Merge(s, p)
    case FromState(f) => Merge(s, f(s))
  }

  /** Merging the empty patch is the identity. */
  lemma MergeEmpty(s: Store)
    ensures Merge(s, EmptyPatch) == s
  {
  }

  // ---------------------------------------------------------------- controls

  /** `updateControls(key, value)`: only `controls[key]` changes. */
  function UpdateControls(s: Store, c: Control, v: bool): (r: Store)
    ensures r.controls.Get(c) == v
    ensures forall d :: d != c ==> r.controls.Get(d) == s.controls.Get(d)
    ensures r.(controls := s.controls) == s
  {
    s.(controls := s.controls.Set(c, v))
  }

  /** Writing back the value a control already has changes nothing. */
  lemma UpdateControlsSameValue(s: Store, c: Control)
    ensures UpdateControls(s, c, s.controls.Get(c)) == s
  {
    ExtensionalEquality(UpdateControls(s, c, s.controls.Get(c)).controls, s.controls);
  }

  /** `resetControls`: all six controls released, nothing else moves. */
  function ResetControls(s: Store): (r: Store)
    ensures forall c :: !r.controls.Get(c)
    ensures r.(controls := s.controls) == s
  {
    s.(controls := Released)
  }
}
