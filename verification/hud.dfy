/** The heads-up display's derivations: the clock text, the race clock tick,
    the progress bar, the speedometer needle, the nitro bars, and the crash
    popup's countdown and retry. */
module Hud {
  import opened Base
  import opened Text
  import opened GameStore
  import GameScene

  // ---------------------------------------------------------------- clock

  /** `formatTime`: whole minutes, a colon, seconds padded to two digits. */
  function FormatTime(seconds: nat): (t: string)
    ensures exists i :: TimeSplitsAt(t, i) && t[..i] == NatToString(seconds / 60)
    ensures |t| >= 4 && t[|t| - 3] == ':'
  {
    var m := NatToString(seconds / 60);
    var sec := PadStart2(NatToString(seconds % 60));
    var t := m + ":" + sec;
    assert TimeSplitsAt(t, |m|) && t[..|m|] == m;
    t
  }

  /** The first colon of `t` is at index `i`. */
  predicate TimeSplitsAt(t: string, i: int) {
    0 <= i < |t| && t[i] == ':' && forall j :: 0 <= j < i ==> t[j] != ':'
  }

  function FirstColon(t: string): (r: Option<nat>)
    ensures r.Some? ==> TimeSplitsAt(t, r.value)
    ensures r.None? ==> forall j :: 0 <= j < |t| ==> t[j] != ':'
  {
    if |t| == 0 then None
    else if t[0] == ':' then Some(0)
    else match FirstColon(t[1..])
      case None => None
      case Some(i) => Some(i + 1)
  }

  /** The colon `TimeSplitsAt` names is the one `FirstColon` finds. */
  lemma FirstColonAt(t: string, i: nat)
    requires TimeSplitsAt(t, i)
    ensures FirstColon(t) == Some(i)
  {
  }

  /** Reads an "m:ss" clock back into seconds: digits, a colon, two digits
      below 60. */
  function ParseTime(t: string): Option<nat> {
    match FirstColon(t)
    case None => None
    case Some(i) =>
      var m := t[..i];
      var sec := t[i + 1..];
      if |m| > 0 && AllDigits(m) && |sec| == 2 && AllDigits(sec) && ParseDigits(sec) < 60
      then Some(ParseDigits(m) * 60 + ParseDigits(sec))
      else None
  }

  /** The clock text reads back as the number of seconds it was made from. */
  lemma FormatTimeRoundTrip(seconds: nat)
    ensures ParseTime(FormatTime(seconds)) == Some(seconds)
  {
    var m := NatToString(seconds / 60);
    var s := NatToString(seconds % 60);
    var sec := PadStart2(s);
    var t := m + ":" + sec;
    assert t == FormatTime(seconds);
    assert TimeSplitsAt(t, |m|);
    FirstColonAt(t, |m|);
    assert t[..|m|] == m;
    assert t[|m| + 1..] == sec;
    ParseNatToString(seconds / 60);
    ParseNatToString(seconds % 60);
    PadKeepsValue(s);
  }

  /** The race clock is counting: started, unpaused, not over, unlocked. */
  predicate ClockRuns(s: Store) {
    s.gameStarted && !s.gamePaused && !s.gameOver && !s.controlsLocked
  }

  /** One second of the race-clock interval: exactly one more second of race
      time while the clock runs, nothing otherwise. */
  function ClockTick(s: Store): (r: Store)
    ensures ClockRuns(s) ==> r.raceTime == s.raceTime + 1
    ensures !ClockRuns(s) ==> r == s
    ensures r.(raceTime := s.raceTime) == s
  {
    if !ClockRuns(s) then s
    else UpdateRaceStats(s, FromState((st: Store) => EmptyPatch.(raceTime := Some(st.raceTime + 1))))
  }

  function ClockTicks(s: Store, k: nat): Store {
    if k == 0 then s else ClockTick(ClockTicks(s, k - 1))
  }

  /** `k` ticks of a running clock add exactly `k` seconds and nothing else. */
  lemma {:induction false} ClockTicksCount(s: Store, k: nat)
    requires ClockRuns(s)
    ensures ClockTicks(s, k).raceTime == s.raceTime + k
    ensures ClockTicks(s, k).(raceTime := s.raceTime) == s
  {
    if k > 0 {
      ClockTicksCount(s, k - 1);
    }
  }

  // ---------------------------------------------------------------- gauges

  /** The track length the HUD divides by: the stored level's, else 5000. */
  function HudTrackLength(s: Store): (len: real)
    ensures len != 0.0
  {
    match GameScene.FindLevel(s.levels, s.currentLevel)
    case None => GameScene.DefaultTrackLength
    case Some(i) => GameScene.TrackLength(s.levels[i])
  }

  /** The HUD and the race scene agree on the track length. */
  lemma HudAgreesWithScene(s: Store)
    ensures HudTrackLength(s) == GameScene.TrackLength(GameScene.SceneLevel(s))
  {
  }

  /** `progress`: the fraction of the track covered, capped at 1. */
  function Progress(distance: real, trackLength: real): (p: real)
    requires trackLength != 0.0
    ensures p <= 1.0
    ensures distance >= 0.0 && trackLength > 0.0 ==> 0.0 <= p
    ensures trackLength > 0.0 ==> (p == 1.0 <==> distance >= trackLength)
  {
    DivideAtLeastOne(distance, trackLength);
    Min(1.0, distance / trackLength)
  }

  /** The bar reads a little under a half when the race ends: the finish
      line is crossed at half the track length less the margin. */
  lemma ProgressAtFinishLine(trackLength: real)
    requires trackLength > 2.0 * GameScene.FinishMargin
    ensures Progress(-GameScene.FinishZ(trackLength), trackLength)
            == 0.5 - GameScene.FinishMargin / trackLength
    ensures Progress(-GameScene.FinishZ(trackLength), trackLength) < 0.5
  {
    var d := -GameScene.FinishZ(trackLength);
    assert d / trackLength == 0.5 - GameScene.FinishMargin / trackLength;
    assert GameScene.FinishMargin / trackLength > 0.0;
  }

  lemma DivideAtLeastOne(a: real, b: real)
    requires b != 0.0
    ensures b > 0.0 ==> (a / b >= 1.0 <==> a >= b)
  {
    if b > 0.0 {
      var q := a / b;
      assert a - b == (q - 1.0) * b;
      if q >= 1.0 {
        assert (q - 1.0) * b >= 0.0;
      } else {
        assert (1.0 - q) * b > 0.0;
      }
    }
  }

  /** The speedometer needle's rotation in degrees. */
  function NeedleAngle(speed: real): (deg: real)
    ensures -120.0 <= deg <= 120.0
    ensures 0.0 <= speed <= 240.0 ==> deg == speed - 120.0
  {
    Min(240.0, Max(0.0, speed / 240.0 * 240.0)) - 120.0
  }

  /** A faster car never shows a lower needle. */
  lemma NeedleMonotone(a: real, b: real)
    requires a <= b
    ensures NeedleAngle(a) <= NeedleAngle(b)
  {
  }

  const NitroBarCount: nat := 3

  /** The three nitro bars: bar `i` is lit while more than `i` charges remain. */
  function NitroBars(nitroCount: int): (bars: seq<bool>)
    ensures |bars| == NitroBarCount
    ensures forall i :: 0 <= i < NitroBarCount ==> (bars[i] <==> i < nitroCount)
  {
    seq(NitroBarCount, i requires 0 <= i < NitroBarCount => i < nitroCount)
  }

  /** Spending a charge darkens exactly the highest lit bar. */
  lemma UseNitroDarkensOneBar(s: Store)
    requires 0 < s.nitroCount <= NitroBarCount
    ensures var before := NitroBars(s.nitroCount);
            var after := NitroBars(UseNitro(s).nitroCount);
            before[s.nitroCount - 1] && !after[s.nitroCount - 1]
            && forall i :: 0 <= i < NitroBarCount && i != s.nitroCount - 1 ==> before[i] == after[i]
  {
  }

  /** The HUD's position readout, `racePosition || 1`: an unplaced race
      shows as first. */
  function ShownPosition(racePosition: int): (p: int)
    ensures p != 0
    ensures racePosition != 0 ==> p == racePosition
    ensures racePosition == 0 ==> p == 1
  {
    if racePosition == 0 then 1 else racePosition
  }

  /** The crash popup's position line: "DNF" for an unplaced race. */
  function PositionLabel(racePosition: int): (text: string)
    ensures text == "DNF" <==> racePosition == 0
  {
    if racePosition == 0 then "DNF" else IntToString(racePosition)
  }

  // ---------------------------------------------------------------- crash popup

  /** One step of the crash popup: at zero or below it closes and returns to
      the menu with a reset session; otherwise one second comes off. The popup
      does nothing while hidden. */
  function CrashPopupStep(s: Store): (r: Store)
    ensures !s.showCrashPopup ==> r == s
    ensures s.showCrashPopup && s.crashCountdown <= 0 ==> !r.showCrashPopup && r.showMenu && SessionIsFresh(r)
    ensures s.showCrashPopup && s.crashCountdown > 0 ==>
              r.crashCountdown == s.crashCountdown - 1 && r.(crashCountdown := s.crashCountdown) == s
  {
    if !s.showCrashPopup then s
    else if s.crashCountdown <= 0 then ReturnToMenu(SetShowCrashPopup(s, false))
    else SetCrashCountdown(s, s.crashCountdown - 1)
  }

  function CrashPopupSteps(s: Store, k: nat): Store
    decreases k
  {
    if k == 0 then s else CrashPopupSteps(CrashPopupStep(s), k - 1)
  }

  /** A popup showing `n` seconds closes, back at the menu with a fresh
      session, after `n + 1` steps. */
  lemma {:induction false} CrashPopupExpires(s: Store)
    requires s.showCrashPopup && s.crashCountdown >= 0
    ensures var r := CrashPopupSteps(s, s.crashCountdown + 1);
            !r.showCrashPopup && r.showMenu && SessionIsFresh(r)
    decreases s.crashCountdown
  {
    if s.crashCountdown > 0 {
      CrashPopupExpires(CrashPopupStep(s));
    }
  }

  /** The immediate half of "try again": the popup is hidden and nothing
      else changes. */
  function TryAgainHide(s: Store): (r: Store)
    ensures !r.showCrashPopup
    ensures r.(showCrashPopup := s.showCrashPopup) == s
  {
    SetShowCrashPopup(s, false)
  }

  /** The 300 ms half of "try again": reset the session and start a new
      race, which is a fresh session apart from having started. */
  function TryAgainTimer(s: Store): (r: Store)
    ensures SessionIsFresh(r.(gameStarted := false)) && r.gameStarted
    ensures SameSelection(s, r)
  {
    StartGame(ResetGame(s))
  }

  /** "Try again" with its timer fired: hide the popup, reset the session
      and start a new race. */
  function TryAgain(s: Store): (r: Store)
    ensures !r.showCrashPopup && r.gameStarted && !r.gameOver && !r.gamePaused && r.controlsLocked
    ensures r.collisions == 0 && r.nitroCount == InitialNitro && r.raceTime == 0 && r.raceScore == 0
    ensures SessionIsFresh(r.(gameStarted := false))
    ensures SameSelection(s, r)
  {
    TryAgainTimer(TryAgainHide(s))
  }

  /** The pause button. */
  function HandlePause(s: Store): (r: Store)
    ensures r.gamePaused == !s.gamePaused
    ensures r.(gamePaused := s.gamePaused) == s
  {
    if s.gamePaused then ResumeGame(s) else PauseGame(s)
  }

  /** The quit button. */
  function HandleQuit(s: Store): (r: Store)
    ensures SessionIsFresh(r) && r.showMenu
  {
    ReturnToMenu(s)
  }
}
