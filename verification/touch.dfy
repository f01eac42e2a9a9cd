/** The mobile touch hook: screen zones become control updates. Touches only
    count on a mobile device (a parameter here) while the race runs unpaused. */
module TouchControls {
  import opened Base
  import opened Controls
  import opened GameStore

  datatype Touch = Touch(x: real, y: real)
  datatype Screen = Screen(width: real, height: real)

  predicate Ignored(s: Store, isMobile: bool) {
    !isMobile || !s.gameStarted || s.gamePaused
  }

  /** `handleTouchStart`: top half presses forward, left third presses left,
      right third presses right; nothing is released. */
  function TouchStart(s: Store, isMobile: bool, t: Touch, scr: Screen): (r: Store)
    ensures Ignored(s, isMobile) ==> r == s
    ensures !Ignored(s, isMobile) ==>
              && r.controls.forward == (s.controls.forward || t.y < scr.height / 2.0)
              && r.controls.left == (s.controls.left || t.x < scr.width / 3.0)
              && r.controls.right == (s.controls.right || t.x > scr.width * 2.0 / 3.0)
    ensures r.controls.backward == s.controls.backward && r.controls.brake == s.controls.brake
            && r.controls.nitro == s.controls.nitro
    ensures r.(controls := s.controls) == s
  {
    if Ignored(s, isMobile) then s
    else
      var c := s.controls;
      var forward := c.forward || t.y < scr.height / 2.0;
      var left := c.left || t.x < scr.width / 3.0;
      var right := c.right || t.x > scr.width * 2.0 / 3.0;
      s.(controls := ControlVector(forward, c.backward, left, right, c.brake, c.nitro))
  }

  /** On a screen of positive width one touch start never presses both sides. */
  lemma TouchStartOneSide(s: Store, isMobile: bool, t: Touch, scr: Screen)
    requires scr.width > 0.0 && !s.controls.left && !s.controls.right
    ensures var r := TouchStart(s, isMobile, t, scr);
            !(r.controls.left && r.controls.right)
  {
  }

  /** `handleTouchMove`: forward, left and right are recomputed from the
      current point with wider zones; left wins over right. */
  function TouchMove(s: Store, isMobile: bool, t: Touch, scr: Screen): (r: Store)
    ensures Ignored(s, isMobile) ==> r == s
    ensures !Ignored(s, isMobile) ==>
              && r.controls.forward == (t.y < scr.height * 0.6)
              && r.controls.left == (t.x < scr.width * 0.35)
              && r.controls.right == (!(t.x < scr.width * 0.35) && t.x > scr.width * 0.65)
              && !(r.controls.left && r.controls.right)
    ensures r.controls.backward == s.controls.backward && r.controls.brake == s.controls.brake
            && r.controls.nitro == s.controls.nitro
    ensures r.(controls := s.controls) == s
  {
    if Ignored(s, isMobile) then s
    else
      var s1 := UpdateControls(UpdateControls(UpdateControls(s, Forward, false), Left, false), Right, false);
      var s2 := if t.y < scr.height * 0.6 then UpdateControls(s1, Forward, true) else s1;
      if t.x < scr.width * 0.35 then UpdateControls(s2, Left, true)
      else if t.x > scr.width * 0.65 then UpdateControls(s2, Right, true)
      else s2
  }

  /** `handleTouchEnd`: steering and throttle released, brake pressed. */
  function TouchEnd(s: Store, isMobile: bool): (r: Store)
    ensures Ignored(s, isMobile) ==> r == s
    ensures !Ignored(s, isMobile) ==>
              !r.controls.forward && !r.controls.left && !r.controls.right && r.controls.brake
    ensures r.controls.backward == s.controls.backward && r.controls.nitro == s.controls.nitro
    ensures r.(controls := s.controls) == s
  {
    if Ignored(s, isMobile) then s
    else
      UpdateControls(UpdateControls(UpdateControls(UpdateControls(s, Forward, false), Left, false), Right, false),
                     Brake, true)
  }

  /** The 150 ms timeout after a touch end: the brake is released, whatever
      the race state is by then. */
  function BrakeRelease(s: Store): (r: Store)
    ensures !r.controls.brake
    ensures forall c :: c != Brake ==> r.controls.Get(c) == s.controls.Get(c)
    ensures r.(controls := s.controls) == s
  {
    UpdateControls(s, Brake, false)
  }

  /** A touch end followed by its brake release leaves forward, left, right
      and brake released, and backward and nitro as they were. */
  lemma TouchEndThenRelease(s: Store, isMobile: bool)
    requires !Ignored(s, isMobile)
    ensures var r := BrakeRelease(TouchEnd(s, isMobile));
            && !r.controls.forward && !r.controls.left && !r.controls.right && !r.controls.brake
            && r.controls.backward == s.controls.backward && r.controls.nitro == s.controls.nitro
            && r.(controls := s.controls) == s
  {
  }
}
