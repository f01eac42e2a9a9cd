/** The keyboard hook: key events become control updates, gated on the race
    having started and not being paused; Escape toggles pause. */
module KeyboardControls {
  import opened Base
  import opened Controls
  import opened Text
  import opened GameStore

  const EscapeKey: string := "Escape"

  /** The control a lower-cased key name drives, if any. */
  function Binding(lowered: string): Option<Control> {
    if lowered == "w" || lowered == "arrowup" then Some(Forward)
    else if lowered == "s" || lowered == "arrowdown" then Some(Backward)
    else if lowered == "a" || lowered == "arrowleft" then Some(Left)
    else if lowered == "d" || lowered == "arrowright" then Some(Right)
    else if lowered == " " then Some(Nitro)
    else if lowered == "shift" then Some(Brake)
    else None
  }

  /** The control a key event drives, compared case-insensitively. */
  function KeyControl(key: string): Option<Control> {
    Binding(Lower(key))
  }

  /** `handleKeyDown`. */
  function KeyDown(s: Store, key: string): (r: Store)
    ensures !s.gameStarted ==> r == s
    ensures s.gameStarted && key == EscapeKey ==> r == s.(gamePaused := !s.gamePaused)
    ensures s.gameStarted && key != EscapeKey && s.gamePaused ==> r == s
    ensures s.gameStarted && key != EscapeKey && !s.gamePaused && KeyControl(key).Some? ==>
              r.controls.Get(KeyControl(key).value)
              && (forall d :: d != KeyControl(key).value ==> r.controls.Get(d) == s.controls.Get(d))
              && r.(controls := s.controls) == s
    ensures KeyControl(key).None? && key != EscapeKey ==> r == s
  {
    if !s.gameStarted then s
    else if key == EscapeKey then (if s.gamePaused then ResumeGame(s) else PauseGame(s))
    else if s.gamePaused then s
    else match KeyControl(key)
      case Some(c) => UpdateControls(s, c, true)
      case None => s
  }

  /** `handleKeyUp`: dropped entirely while paused or before the start. */
  function KeyUp(s: Store, key: string): (r: Store)
    ensures !s.gameStarted || s.gamePaused ==> r == s
    ensures s.gameStarted && !s.gamePaused && KeyControl(key).Some? ==>
              !r.controls.Get(KeyControl(key).value)
              && (forall d :: d != KeyControl(key).value ==> r.controls.Get(d) == s.controls.Get(d))
              && r.(controls := s.controls) == s
    ensures KeyControl(key).None? ==> r == s
  {
    if !s.gameStarted || s.gamePaused then s
    else match KeyControl(key)
      case Some(c) => UpdateControls(s, c, false)
      case None => s
  }

  /** Key names are compared case-insensitively, except that pause answers
      only to the exact name "Escape". */
  lemma CaseInsensitive(s: Store, key: string)
    requires key != EscapeKey
    ensures KeyDown(s, key) == KeyDown(s, Lower(key))
    ensures KeyUp(s, key) == KeyUp(s, Lower(key))
  {
    LowerIdempotent(key);
    assert |Lower(key)| == 0 || Lower(key)[0] != EscapeKey[0];
  }

  /** The documented bindings, in the case the browser reports them. */
  lemma ArrowBindings()
    ensures KeyControl("ArrowUp") == Some(Forward) && KeyControl("ArrowDown") == Some(Backward)
    ensures KeyControl("ArrowLeft") == Some(Left) && KeyControl("ArrowRight") == Some(Right)
  {
    assert Lower("ArrowUp") == "arrowup";
    assert Lower("ArrowDown") == "arrowdown";
    assert Lower("ArrowLeft") == "arrowleft";
    assert Lower("ArrowRight") == "arrowright";
  }

  lemma LetterBindings()
    ensures KeyControl("W") == Some(Forward) && KeyControl("s") == Some(Backward)
    ensures KeyControl("A") == Some(Left) && KeyControl("d") == Some(Right)
    ensures KeyControl(" ") == Some(Nitro) && KeyControl("Shift") == Some(Brake)
    ensures KeyControl("Escape") == None && KeyControl("q") == None
  {
    assert Lower("W") == "w";
    assert Lower("s") == "s";
    assert Lower("A") == "a";
    assert Lower("d") == "d";
    assert Lower(" ") == " ";
    assert Lower("q") == "q";
    assert Lower("Shift") == "shift";
    assert Lower("Escape") == "escape";
  }

  /** Pressing then releasing a bound key in a running race leaves that control
      released and every other control as it was; if it was released before,
      the store is back where it started. */
  lemma PressRelease(s: Store, key: string)
    requires s.gameStarted && !s.gamePaused && key != EscapeKey && KeyControl(key).Some?
    ensures KeyUp(KeyDown(s, key), key) == UpdateControls(s, KeyControl(key).value, false)
    ensures !s.controls.Get(KeyControl(key).value) ==> KeyUp(KeyDown(s, key), key) == s
  {
    var c := KeyControl(key).value;
    ExtensionalEquality(KeyUp(KeyDown(s, key), key).controls, UpdateControls(s, c, false).controls);
    if !s.controls.Get(c) {
      UpdateControlsSameValue(s, c);
    }
  }

  /** A key released while the game is paused stays held: pressing a key,
      pausing, releasing it and resuming leaves the control on. */
  lemma ReleaseLostWhilePaused(s: Store, key: string)
    requires s.gameStarted && !s.gamePaused && key != EscapeKey && KeyControl(key).Some?
    ensures var s3 := KeyDown(KeyUp(KeyDown(KeyDown(s, key), EscapeKey), key), EscapeKey);
            s3.controls.Get(KeyControl(key).value) && !s3.gamePaused
  {
  }

  /** Escape pressed twice in a running race restores the pause flag. */
  lemma EscapeTwice(s: Store)
    requires s.gameStarted
    ensures KeyDown(KeyDown(s, EscapeKey), EscapeKey) == s
  {
  }
}
