# Car racing frontend: a Dafny model of the race core

This project models the race logic of a browser car-racing game written in
JavaScript (React, react-three-fiber and a Zustand store). The model covers:

- the global game store;
- the player car's per-frame physics;
- the AI opponents;
- the scene's watchers for finish, stats and collisions;
- the start countdown;
- the keyboard and touch control hooks;
- the HUD's derived values;
- the track's classification and scenery layout;
- the alternate imperative engine class;
- the API base-URL normalisation.

Each source file becomes one Dafny module:

| module | source file |
|---|---|
| `GameStore` | `src/store/gameStore.js`, plus the start guard of `src/components/Menu.js` |
| `CarPhysics` | `src/game/Car.js` |
| `OpponentCars` | `src/game/OpponentCars.js` |
| `GameScene` | `src/game/GameScene.js` |
| `KeyboardControls` | `src/hooks/useKeyboardControls.js` |
| `TouchControls` | `src/hooks/useMobileTouchControls.js` |
| `Hud` | `src/components/HUD.js` |
| `Track` | `src/game/Track.js` |
| `GameEngine` | `src/game/GameEngine.js` |
| `ApiConfig` | `src/services/apiConfig.js` |

Three helper modules support them:

- `Base`: `Option`, `Result`, `Vec3`, min, max and clamp;
- `Controls`: the six-flag control vector;
- `Text`: lower-casing, substring search and decimal digits.

Modelling conventions:

- **Store state.** The store is an immutable `Store` record. Each store action is a pure function from store to store.
- **"Nothing else changes."** Contracts state this with record updates, e.g. `r.(collisions := s.collisions) == s`.
- **React refs and component state.** The refs and component state of a `useFrame` callback are explicit inputs and outputs: `CarState`, `Scene`, `lastZ`.
- **Timers.** Every timer becomes a discrete event function that the caller applies when the timer fires:
  - `setInterval` / `setTimeout` for the countdown, the settle delay, the crash popup and the brake release;
  - `requestAnimationFrame`.
- **Function parameters.** `Math.sin` is a parameter `sin: real -> real`, and lemmas that need its range require `SineBounded(sin)`.
- **Random draws.** Each `Math.random()` draw is a `real` parameter, restricted by `IsUnitDraw` (0 ≤ r < 1) where a bound depends on it.
- **Other inputs.** The wall clock, window size and user agent are also parameters.
- **Numbers.** JavaScript numbers are modelled as mathematical reals. The only integer-valued quantities are the store's counters (`raceTime`, `collisions`, `nitroCount`, scores, positions), which are `int`.

Where the evident design intent and the code disagree, the model follows the
code. The one disagreement about how a race ends:

- **Evident intent.** `handleFinish` refuses to run after a crash (`src/game/GameScene.js:273`), so a race appears meant to end exactly once, and a finished race to stay finished.
- **What the code does.** `handleCollision` (`src/game/GameScene.js:284-292`) tests only the crash latch, not the finish latch. A crash reported after a finish therefore still runs `endGame(0, 0)` and opens the crash popup.
- **Where the model shows it.** `GameScene.CrashAfterFinishOverridesWin` and `GameScene.FinishAndCrashInOneFrame` state this behaviour. `GameScene.HandleCollisionLatched` is the handler with both latches, and `GameScene.FinishBeatsLaterCrash` proves that with it a finish stands.

A clean finish does not keep its result either. Both discrepancies are rows of "## Findings".

## Model

| member | source | states |
|---|---|---|
| GameStore.InitialIsFresh | src/store/gameStore.js:8-37 | The store's initial values form a fresh session (not started, unpaused, controls locked, 3 nitro charges, crash countdown 10, zero stats), with all controls released and the menu shown |
| GameStore.StartGame | src/store/gameStore.js:40 | Starting sets started, unpaused, not over and controls locked, and changes no other field |
| GameStore.RequestStart | src/components/Menu.js:107-115 | The menu's start is refused exactly when the player or the selected car is missing; otherwise it hides the menu and starts the game |
| GameStore.EndGame | src/store/gameStore.js:44-49 | Ending sets over and not started and records the given position and score; collisions, nitro, controls and every other field are kept |
| GameStore.ResetGame | src/store/gameStore.js:53-68 | A reset yields a fresh session and keeps the player, car, levels, menu flags and controls |
| GameStore.ReturnToMenu | src/game/GameScene.js:278-281 | The reset-and-show-menu pair yields a fresh session with the menu shown and everything else selected kept |
| GameStore.FreshAndSameSelectionDetermine | src/store/gameStore.js:53-68 | Two stores that are both fresh sessions and agree on the kept fields are equal, so a reset is fully determined |
| GameStore.ResetIdempotent | src/store/gameStore.js:53-68 | Resetting twice is the same as resetting once |
| GameStore.ResetInitial | src/store/gameStore.js:8-37 | Resetting the initial store changes nothing |
| GameStore.ResetForgetsStart | src/store/gameStore.js:40-68 | A reset after a start is the same as a reset without it |
| GameStore.IncrementCollisions | src/store/gameStore.js:70 | The collision count goes up by exactly one and nothing else changes |
| GameStore.UseNitro | src/store/gameStore.js:71-73 | One charge is taken when any are left; the count never goes below zero; nothing else changes |
| GameStore.UseNitroTimesCount | src/store/gameStore.js:71-73 | k uses leave max(0, count − k) charges and change nothing else |
| GameStore.FourthNitroLeavesZero | src/store/gameStore.js:71-73 | From the initial 3 charges, the third use empties the gauge and a fourth keeps it at 0 |
| GameStore.Merge | src/store/gameStore.js:51-52 | A stats patch overwrites exactly the race fields it carries and keeps every other field |
| GameStore.UpdateRaceStats | src/store/gameStore.js:51-52 | A plain patch is merged as given; a patch function is applied to the current state first |
| GameStore.MergeEmpty | src/store/gameStore.js:51-52 | An empty patch changes nothing |
| GameStore.UpdateControls | src/store/gameStore.js:98-100 | The named control takes the value, every other control is kept, and no other store field changes |
| GameStore.UpdateControlsSameValue | src/store/gameStore.js:98-100 | Setting a control to its current value changes nothing |
| GameStore.ResetControls | src/store/gameStore.js:102-111 | All six controls are released and nothing else changes |
| CarPhysics.DefaultConstants | src/game/Car.js:20-39 | Without a selected car, top speed is 40, acceleration 30 and turn speed 12 |
| CarPhysics.ArbitrateNitro | src/game/Car.js:42-53 | A boost starts (and one charge is used) exactly when nitro is pressed, charges remain and no boost is active. A new boost runs 2 s minus this frame; an active boost burns delta and ends when its timer reaches 0 |
| CarPhysics.Frame | src/game/Car.js:33-88 | A skipped frame (unmounted, not the player, paused, over or locked) is a no-op. Otherwise a charge is used exactly under the nitro conditions, height is kept, z moves back by speed·delta, and x ends inside ±trackHalfWidth |
| CarPhysics.FrameKeepsBand | src/game/Car.js:55-81 | With nonnegative ratings and delta, a speed in [−0.4·max, 1.5·max] stays in that band |
| CarPhysics.FinalSpeedInBand | src/game/Car.js:55-81 | The acceleration, nitro-override and brake stages together keep the speed band |
| CarPhysics.RunKeepsBand | src/game/Car.js:33-93 | Over any sequence of frames with one car's ratings, the speed never leaves the band |
| CarPhysics.RunStaysOnTrack | src/game/Car.js:87-88 | Over any sequence of frames, the car never leaves ±trackHalfWidth |
| CarPhysics.FrameLateral | src/game/Car.js:71-88 | x moves by turnSpeed·delta times (right − left), so holding both cancels, and is then clamped |
| CarPhysics.NitroOverridesSpeed | src/game/Car.js:66-81 | While a boost is on, the speed is 1.5·max, or 0.9 of that when braking |
| CarPhysics.NitroActivation | src/game/Car.js:42-53 | A valid press with a frame shorter than 2 s uses a charge and leaves the boost on with 2 − delta left |
| CarPhysics.NitroExpiry | src/game/Car.js:48-53 | An active boost uses no charge and switches off exactly when its timer runs out this frame |
| CarPhysics.FrictionIgnoresDelta | src/game/Car.js:60-63 | With no throttle, brake or boost, the speed is multiplied by 0.98 whatever the frame length |
| CarPhysics.ForwardSaturates | src/game/Car.js:56-57 | Holding forward saturates at the top speed |
| OpponentCars.OpponentFrame | src/game/OpponentCars.js:22-52 | An inactive or unmounted opponent stays put. An active one keeps its height, weaves to lane + 1.5·sin(t/2), and moves −speed·delta in z. Past playerZ + 30 it respawns in (playerZ − 280, playerZ − 80]; with no player, past z = 50 it goes to −500. It reports a collision exactly when the planar squared distance is ≤ r² |
| OpponentCars.WeaveStaysNearLane | src/game/OpponentCars.js:31-32 | The weave never takes an opponent more than 1.5 from its lane |
| OpponentCars.FilterLanes | src/game/OpponentCars.js:136-139 | The filtered lanes are exactly the base lanes with abs ≤ half width, in the same strictly increasing order |
| OpponentCars.Lanes | src/game/OpponentCars.js:136-139 | The lane table is strictly increasing and holds exactly the base lanes that fit |
| OpponentCars.FilterKeepsFitting | src/game/OpponentCars.js:136-139 | When every lane fits, the filter returns the table unchanged |
| OpponentCars.LaneTableFull | src/game/OpponentCars.js:126-139 | Half width 14 keeps all five lanes |
| OpponentCars.LaneTableNarrow | src/game/OpponentCars.js:136-139 | Half width 7 keeps [−5, 0, 5] |
| OpponentCars.LaneFor | src/game/OpponentCars.js:150 | An empty lane table yields lane 0; otherwise the lane is one of the table's |
| OpponentCars.LaneForCycles | src/game/OpponentCars.js:150 | Opponents i and i + (table length) get the same lane: lanes cycle through the table |
| OpponentCars.SpawnLayout | src/game/OpponentCars.js:149-152 | The layout of one render: one opponent per draw, lane i taken from the table, every lane fitting the track, start z strictly decreasing from −50, and speeds in [6, 9). The layout, and with it every opponent's speed, is recomputed on each render |
| GameScene.FindLevel | src/game/GameScene.js:172 | The found index is the first level with the current number, and none is found exactly when no level has it |
| GameScene.SceneLevel | src/game/GameScene.js:172-191 | The scene uses the first matching level, with a default environment added when it has none, or the default 5000-long level |
| GameScene.TrackLength | src/game/GameScene.js:213 | A missing or zero length means 5000; any other length is used as given |
| GameScene.OpponentCount | src/game/GameScene.js:393 | A missing or zero count means 5; a positive count is used as given |
| GameScene.FinishLineDistance | src/game/GameScene.js:213-214 | On a track longer than 60 the finish line lies ahead of the start, and the finish watcher fires exactly when the distance the stats report reaches half the track length less 30 |
| GameScene.FallbackRace | src/game/GameScene.js:172-214 | Without a stored level the race is 5000 long with 5 opponents and ends at z = −2470 |
| GameScene.CountAhead | src/game/GameScene.js:111-115 | The count is 0 exactly when no mounted opponent is ahead, and the full length exactly when all are |
| GameScene.ReportedSpeed | src/game/GameScene.js:107-109 | The reported speed is never negative, and is 0 when the player did not move |
| GameScene.RunningScore | src/game/GameScene.js:117 | The in-race score is ⌊distance · 0.2⌋ and never negative |
| GameScene.Stats | src/game/GameScene.js:99-125 | Stats are produced exactly when the race is active and the player is mounted, and the watcher then remembers the player's z. Distance is max(0, −z), speed is the reported |dz/dt|·3.6 and score the running score of that distance. Position is 1 plus the mounted opponents ahead when there are opponent refs, else 1, and so is 1 exactly when nobody is ahead. The race time is untouched |
| GameScene.FirstTouch | src/game/GameScene.js:130-146 | The scan returns the first mounted opponent within 2.2 of the player, and none exactly when no opponent is in range |
| GameScene.CrashDetectedIff | src/game/GameScene.js:130-146 | The crash watcher fires exactly when the race is active, the player is mounted and some opponent is in range |
| GameScene.GameStartedChanged | src/game/GameScene.js:244-270 | On start, the latches clear, the controls are released and locked, the race goes inactive and the countdown shows 3; when not started, the store is untouched |
| GameScene.CountdownTick | src/game/GameScene.js:253-264 | Each tick lowers the shown number by one, and the tick that reaches 0 hands over to the settle delay |
| GameScene.Settle | src/game/GameScene.js:259-263 | The settle delay hides the countdown, activates the race and unlocks the controls |
| GameScene.CountdownSequence | src/game/GameScene.js:244-270 | From a start, three ticks and the settle delay give an active race with unlocked controls and no countdown |
| GameScene.FinishScore | src/game/GameScene.js:275 | The finish score is 10000 − 100·raceTime, floored at 0 from 100 s on |
| GameScene.HandleFinish | src/game/GameScene.js:272-282 | Finishing does nothing when inactive or already finished or crashed; otherwise it latches and ends the game in position 1 with the time score |
| GameScene.HandleCollision | src/game/GameScene.js:284-292 | A collision does nothing when inactive or already crashed. Otherwise it latches, counts one collision, zeroes the score, ends the game in position 0 and opens the popup at 10. Every other store field is kept |
| GameScene.HandleCollisionLatched | src/game/GameScene.js:284-292 | The collision handler as evidently intended: nothing happens when inactive or when either latch is set; otherwise the same crash outcome as the handler as written |
| GameScene.FinishBeatsLaterCrash | src/game/GameScene.js:272-292 | With the latched handler, a crash after a finish is a no-op: position 1, the time-bonus score and the collision count stand |
| GameScene.CrashLatch | src/game/GameScene.js:285-286 | A second collision report in the same race changes nothing |
| GameScene.FinishLatch | src/game/GameScene.js:273-274 | A second finish report changes nothing, and a finish after a crash changes nothing |
| GameScene.AtMostOneCrash | src/game/GameScene.js:284-292 | Any number of collision reports in one race have the effect of one |
| GameScene.CrashAfterFinishOverridesWin | src/game/GameScene.js:272-292 | A crash reported after a finish still ends the game in position 0 with score 0, replacing the win |
| GameScene.WatchersFrame | src/game/GameScene.js:363-381 | An inactive race is untouched by the watchers, and one frame adds at most one collision |
| GameScene.CleanFinishOverwritten | src/game/GameScene.js:99-125 | In the frame the player finishes without touching anyone, the stats watcher's patch replaces the finish outcome: the store ends over with the running score and 1 + opponents ahead as position, which is worse than first with anyone ahead and below the time bonus for a quick race |
| GameScene.WatchersFrameGated | src/game/GameScene.js:363-381 | With the stats watcher and the collision handler also honouring the finish latch, a finish frame keeps position 1, the time-bonus score and the collision count, whether or not an opponent is in range; an inactive race is untouched, and one frame adds at most one collision |
| GameScene.GatedAgreesBeforeFinish | src/game/GameScene.js:363-381 | Until the finish line is reached, the gated frame and the frame as written are the same |
| GameScene.FinishAndCrashInOneFrame | src/game/GameScene.js:363-381 | When the player crosses the finish line while touching an opponent, the frame as written ends with the crash outcome, and the gated frame with first place and the time bonus |
| KeyboardControls.KeyDown | src/hooks/useKeyboardControls.js:11-58 | Before the start nothing happens. Escape toggles pause. While paused, other keys do nothing. Otherwise a bound key presses its control, and unbound keys do nothing |
| KeyboardControls.KeyUp | src/hooks/useKeyboardControls.js:60-89 | Before the start or while paused nothing happens; otherwise a bound key releases its control |
| KeyboardControls.CaseInsensitive | src/hooks/useKeyboardControls.js:26-63 | Apart from Escape, a key and its lower-cased form have the same effect |
| KeyboardControls.ArrowBindings | src/hooks/useKeyboardControls.js:27-46 | The arrow keys drive forward, backward, left and right |
| KeyboardControls.LetterBindings | src/hooks/useKeyboardControls.js:26-57 | W/S/A/D in either case, space and Shift drive their controls; Escape and other letters are unbound |
| KeyboardControls.PressRelease | src/hooks/useKeyboardControls.js:11-89 | Pressing then releasing a bound key leaves that control released and the store otherwise as it was |
| KeyboardControls.ReleaseLostWhilePaused | src/hooks/useKeyboardControls.js:15-61 | A key released while paused stays pressed after the unpause |
| KeyboardControls.EscapeTwice | src/hooks/useKeyboardControls.js:15-22 | Escape twice restores the store |
| TouchControls.TouchStart | src/hooks/useMobileTouchControls.js:27-54 | Ignored off mobile, before the start or while paused. Otherwise it presses forward in the top half, left in the left third and right in the right third, keeping the other controls and store fields |
| TouchControls.TouchStartOneSide | src/hooks/useMobileTouchControls.js:45-53 | On a positive-width screen one touch never presses both left and right |
| TouchControls.TouchMove | src/hooks/useMobileTouchControls.js:56-84 | A move recomputes forward (top 60%), left (left 35%) or else right (right 35%) from scratch |
| TouchControls.TouchEnd | src/hooks/useMobileTouchControls.js:86-96 | Lifting the finger releases forward, left and right and presses the brake |
| TouchControls.BrakeRelease | src/hooks/useMobileTouchControls.js:98-100 | The delayed release clears only the brake |
| TouchControls.TouchEndThenRelease | src/hooks/useMobileTouchControls.js:86-100 | After the end and its delayed brake release, forward, left, right and brake are all released |
| Hud.FormatTime | src/components/HUD.js:74-78 | The clock text is the whole minutes in decimal, a colon, and exactly two characters for the seconds |
| Hud.FormatTimeRoundTrip | src/components/HUD.js:74-78 | Reading the clock text back gives the original number of seconds |
| Hud.ClockTick | src/components/HUD.js:64-72 | While the race runs (started, unpaused, not over, unlocked) a tick adds one second and changes nothing else; otherwise it does nothing |
| Hud.ClockTicksCount | src/components/HUD.js:64-72 | k ticks of a running clock add exactly k seconds |
| Hud.HudAgreesWithScene | src/components/HUD.js:80-81 | The HUD's track length equals the one the scene races on |
| Hud.Progress | src/components/HUD.js:82 | Progress is at most 1, nonnegative for nonnegative distance, and 1 exactly when the distance reaches the track length |
| Hud.ProgressAtFinishLine | src/components/HUD.js:80-82 | At the finish line the progress bar reads 1/2 − 30/length, below a half |
| Hud.NeedleAngle | src/components/HUD.js:201 | The needle stays within ±120°, and tracks speed − 120 on 0..240 km/h |
| Hud.NeedleMonotone | src/components/HUD.js:201 | A higher speed never moves the needle back |
| Hud.NitroBars | src/components/HUD.js:220-224 | Three bars, bar i lit exactly when i < nitroCount |
| Hud.UseNitroDarkensOneBar | src/components/HUD.js:220-224 | Using one charge darkens exactly the highest lit bar |
| Hud.ShownPosition | src/components/HUD.js:184 | The HUD position reads 1 for an unplaced race and the position otherwise |
| Hud.PositionLabel | src/components/HUD.js:141 | The popup shows "DNF" exactly for position 0 |
| Hud.CrashPopupStep | src/components/HUD.js:97-111 | A hidden popup does nothing. At 0 or below it closes and returns to a fresh menu; otherwise one second comes off |
| Hud.CrashPopupExpires | src/components/HUD.js:97-111 | A popup showing n seconds closes, back at the menu with a fresh session, after n + 1 steps |
| Hud.TryAgainHide | src/components/HUD.js:113-114 | The immediate half of "try again" hides the popup and changes nothing else |
| Hud.TryAgainTimer | src/components/HUD.js:115-118 | The 300 ms half resets and starts: a fresh session apart from being started, with the same selection |
| Hud.TryAgain | src/components/HUD.js:113-119 | Both halves in order: the popup is hidden and a race starts from a fresh session (zero distance, speed, position, score, time and collisions, full nitro, no session record) with the same player and car |
| Hud.HandlePause | src/components/HUD.js:84-90 | The pause button flips the pause flag and nothing else |
| Hud.HandleQuit | src/components/HUD.js:92-95 | Quitting gives a fresh session with the menu shown |
| Track.HillySubsumed | src/game/Track.js:14-20 | The mountain test is unchanged without the redundant "hilly" clause |
| Track.MountainByName | src/game/Track.js:11-17 | Name matching ignores case: "Mountain Pass" is a mountain road |
| Track.CityEasyLevels | src/game/Track.js:12-25 | The easy city is a city road with level number missing, 0 or 1 |
| Track.FallbackLevelRoad | src/game/Track.js:14-25 | The scene's default level is a city road and no mountain road, and gets the generic road unless its number is 0 or 1 |
| Track.LevelSegments | src/game/Track.js:9-28 | A level without a length has 50 segments; one at least 100 long has at least one |
| Track.DefaultSegments | src/game/Track.js:9-29 | The default track has 50 segments and starts at z = −250 |
| Track.ZOffsetBounds | src/game/Track.js:28-29 | The start offset is within 5 of −length/20 |
| Track.PseudoRandom | src/game/Track.js:43-46 | The pseudo-random value lies in [0, 1) |
| Track.TreePositions | src/game/Track.js:48-55 | 50 trees, even ones within 2.5 of x = −20 and odd ones within 2.5 of +20, spread along the track |
| Track.TreesOrdered | src/game/Track.js:51 | On a positive-length track the trees run strictly forward from the start offset |
| Track.BuildingPositions | src/game/Track.js:57-64 | 30 buildings at x = ∓25 by parity with heights in [5, 15), spread along the track |
| GameEngine.Steer | src/game/GameEngine.js:463-476 | Left takes precedence over right, the lateral velocity changes only while moving forward, and no steering input decays the angular velocity by 0.9 |
| GameEngine.Nitro | src/game/GameEngine.js:478-486 | Space with charge left doubles the forward velocity and drains 20/s, floored at 0; otherwise a gauge under 100 recharges 5/s, capped at 100. The gauge stays in [0, 100] |
| GameEngine.UpdatePlayerCar | src/game/GameEngine.js:450-505 | The forward velocity ends in [0, 300/3.6]; for width ≥ 4 the lateral velocity and position end within width/2 − 2; the gauge stays in [0, 100]; only the car and the gauge change |
| GameEngine.NoSteerWhenStopped | src/game/GameEngine.js:466-471 | Steering does not change the lateral velocity unless moving forward |
| GameEngine.LeftBeatsRight | src/game/GameEngine.js:464-473 | With left held, right is ignored |
| GameEngine.NitroDrainAndRecharge | src/game/GameEngine.js:479-486 | Concrete drain and recharge from a full and an empty gauge |
| GameEngine.NitroStaysInGauge | src/game/GameEngine.js:479-486 | Over any sequence of frames with nonnegative durations, the gauge never leaves [0, 100] |
| GameEngine.UpdateOpponents | src/game/GameEngine.js:507-516 | Opponent i advances (30 + 5i)·dt and sits at x = 5·sin(z/100) |
| GameEngine.OpponentsOnTrack | src/game/GameEngine.js:514 | Opponents stay within |x| ≤ 5 |
| GameEngine.LaterOpponentsFaster | src/game/GameEngine.js:510-511 | A later opponent advances at least as far in the same time |
| GameEngine.Update | src/game/GameEngine.js:419-448 | Distance is the car's z, speed is abs(vz)·3.6 and time runs from the start. It ends with a win exactly when the distance reaches the track length, and with a loss exactly when health is gone; either one stops the loop |
| GameEngine.Animate | src/game/GameEngine.js:402-417 | A stopped or paused engine is untouched; otherwise the frame time moves to now |
| GameEngine.EndedGameStaysEnded | src/game/GameEngine.js:402-448 | After a frame ends the game, the next frame does nothing, so the game ends once |
| GameEngine.WinAtTrackLength | src/game/GameEngine.js:435-437 | A healthy running engine that reaches the track length reports exactly one win |
| GameEngine.TogglePause | src/game/GameEngine.js:574-576 | Toggling flips the pause flag and nothing else |
| GameEngine.TogglePauseTwice | src/game/GameEngine.js:574-576 | Toggling twice is the identity |
| GameEngine.PausedFramesIdle | src/game/GameEngine.js:407-409 | Frames of a paused engine change nothing |
| GameEngine.HandleKey | src/game/GameEngine.js:530-572 | A mapped key sets its flag to pressed or released and keeps the others; other keys change nothing |
| GameEngine.KeyUpUndoesKeyDown | src/game/GameEngine.js:530-572 | Key-up after key-down equals key-up alone |
| GameEngine.KeyNames | src/game/GameEngine.js:531-546 | The four arrows and space are mapped, and matching is case-sensitive |
| GameEngine.Start | src/game/GameEngine.js:395-400 | Starting sets both clocks to now and runs a first frame at time 0 |
| GameEngine.Restart | src/game/GameEngine.js:609-630 | For width ≥ 4 and positive length, restart leaves the initial game state running with the car at rest at the origin. Held keys are kept and opponents take a zero-length step |
| ApiConfig.Trim | src/services/apiConfig.js:7 | The trimmed string has no whitespace at either end |
| ApiConfig.TrimIsTrimOf | src/services/apiConfig.js:7 | The trimmed string is a slice of the input with only whitespace cut from before and after it |
| ApiConfig.TrimIff | src/services/apiConfig.js:7 | A string is the trim of another exactly when it is a slice of it with only whitespace around it and none at its own ends: that description determines the trim |
| ApiConfig.TrimIgnoresLeadingSpace | src/services/apiConfig.js:7 | Leading whitespace does not affect the trimmed result |
| ApiConfig.TrimIgnoresTrailingNewline | src/services/apiConfig.js:7 | Trailing whitespace does not affect the trimmed result |
| ApiConfig.StripTrailingSlashes | src/services/apiConfig.js:8 | The result is a prefix that does not end in '/', and everything removed was '/' |
| ApiConfig.NormalizeBaseUrl | src/services/apiConfig.js:6-12 | The base URL always ends with "/api", never in a slash and never starts with whitespace |
| ApiConfig.ApiSuffixOptional | src/services/apiConfig.js:6-12 | A clean host normalises to the same base URL whether or not it is given with its "/api" suffix |
| ApiConfig.DefaultUrl | src/services/apiConfig.js:4-7 | No URL, or an empty one, gives http://localhost:8000/api |
| ApiConfig.TrailingSlashesAfterApi | src/services/apiConfig.js:8-11 | http://h/api/// becomes http://h/api |
| ApiConfig.NormalizeIdempotent | src/services/apiConfig.js:6-12 | Normalising twice is the same as normalising once |
| Text.ContainsIff | src/game/Track.js:17-24 | The recursive substring test holds exactly when the substring occurs at some index |
| Text.LowerIdempotent | src/game/Track.js:11 | Lower-casing twice is the same as once |

## Left out

- **Rendering.** All Three.js and JSX rendering is left out: meshes, lights, fog, the sky, the finish banner texture, the camera follow and `RoadFollower`. Rendering does not affect the race state.
- **Visual lerps.** The cosmetic tilt and rotation lerps are left out (`src/game/Car.js:90-92`, and the rotation copy in `src/game/GameEngine.js:504`). The engine's `rotation` value itself is modelled.
- **Network and persistence.** `src/services/api.js`, `src/services/apiService.js`, the engine's `loadGameData` and `createSession`, and the session-completion half of `endGame` are left out. They are network I/O. `GameEngine.EndGame` keeps only the synchronous `isRunning = false`, and `Update` returns the `endGame(won)` calls instead of running them.
- **Device detection.** Device detection by user agent and screen size is a boolean parameter (`isMobile`).
- **JavaScript numbers.** IEEE doubles are modelled as exact reals. Rounding, NaN and infinities are not modelled. An `int` counter stands for an integral JavaScript number.
- **Math.sin and Math.random.** These are parameters. The only assumption made about `sin` is |sin t| ≤ 1, and a random draw is assumed only to lie in [0, 1).
- **Character handling.** `toLowerCase` maps only A–Z. `trim` removes the ECMAScript whitespace and line-terminator code points, listed explicitly. There is no other Unicode case mapping.
- **Timers.** Timers are discrete events that the caller applies in order. Overlapping or cancelled timers are not modelled. In particular, a pending 1.5 s finish return (`GameStore.ReturnToMenu`) or 300 ms try-again (`Hud.TryAgainTimer`) is not cancelled by the model. `Hud.TryAgain` composes the hide step and the try-again timer without other events in between.
- **Stats patches.** A stats patch (`GameStore.StatsPatch`) carries only the five race fields that the source's callers pass. A JavaScript callback could return an object with any keys.
- **Watcher order.** `GameScene.WatchersFrame` runs the watchers in their mount order: finish, then stats, then collision. It assumes react-three-fiber runs `useFrame` callbacks in subscription order. The player car's and opponents' own frames are separate functions, applied by the caller.
- **Other store setters.** The setters `setPlayer`, `setSelectedCar`, `setPlayerCars`, `setCurrentLevel`, `setLevels`, `setCurrentSession`, `setShowCustomization`, `setShowLeaderboard` and `setShowVoiceAgent` are plain single-field writes, and no core logic depends on them. `GameStore.PauseGame`, `ResumeGame`, `SetControlsLocked`, `SetShowMenu`, `SetShowCrashPopup` and `SetCrashCountdown` are modelled as single-field updates without rows of their own; they are used by the rows above.
- **Opponent speeds.** `OpponentCars` draws each opponent's speed inside its render (`src/game/OpponentCars.js:152`), and the scene re-renders whenever the store changes, which the stats watcher does every active frame. Each opponent therefore moves at a freshly drawn speed in most frames. `OpponentCars.SpawnLayout` models one render, and `OpponentCars.OpponentFrame` takes the speed of the latest render as its `p.speed`; no sequence of renders is modelled.
- **Clock reads.** `GameEngine.Animate` and `GameEngine.Update` take one `now` for a frame, while the source reads `Date.now()` twice in a frame (`src/game/GameEngine.js:411` and `src/game/GameEngine.js:430`). The gap between the two reads is not modelled.
- **Overlapping animation loops.** If `restart` runs while an `animate` callback is still pending, the source ends up with two animation loops (`src/game/GameEngine.js:402-405` and `src/game/GameEngine.js:609-629`). `GameEngine.Restart` models one loop.
- **Scene look.** The colours and sky presets chosen by time of day and weather are left out, as is Track's hill-road geometry (sine heights of road pieces). They are purely visual.

## Findings

| source | as written | input that shows it | evidently intended | confidence | as-written member | corrected member |
|---|---|---|---|---|---|---|
| src/game/GameScene.js:363-374 | The stats watcher is mounted after the finish watcher and is gated only by the `raceActive` of the last render, so in the finish frame it merges the running position and score over the `endGame(1, score)` that `handleFinish` just wrote | an active race at raceTime 40 where the player reaches the finish line with one opponent ahead and nobody in range: the store ends with position 2 and score ⌊0.2·distance⌋ instead of 1 and 6000 | the stats watcher also stops at the finish latch, so the finish keeps position 1 and the time bonus | medium, not executed | GameScene.WatchersFrame, GameScene.CleanFinishOverwritten | GameScene.WatchersFrameGated |
| src/game/GameScene.js:284-292 | `handleCollision` tests only the crash latch, so a crash reported after `handleFinish` has ended the race still runs `endGame(0, 0)`, counts a collision and opens the crash popup | an active race in which the player reaches the finish line while an opponent is within 2.2 in the same frame: the store ends with position 0 and score 0 instead of 1 and the time bonus | like `handleFinish`, the collision handler also stops at the other latch, so the first terminal transition stands | medium, not executed | GameScene.HandleCollision, GameScene.CrashAfterFinishOverridesWin | GameScene.HandleCollisionLatched, GameScene.FinishBeatsLaterCrash |
