/** The six-boolean control vector shared by the store, the input hooks and
    the player car. */
module Controls {

  /** The names a control can be addressed by in `updateControls(key, value)`. */
  datatype Control = Forward | Backward | Left | Right | Brake | Nitro

  datatype ControlVector = ControlVector(
    forward: bool,
    backward: bool,
    left: bool,
    right: bool,
    brake: bool,
    nitro: bool)
  {
    function Get(c: Control): bool {
      match c
      case Forward => forward
      case Backward => backward
      case Left => left
      case Right => right
      case Brake => brake
      case Nitro => nitro
    }

    /** `{ ...controls, [key]: value }`: one control overwritten. */
    function Set(c: Control, v: bool): (r: ControlVector)
      ensures r.Get(c) == v
      ensures forall d :: d != c ==> r.Get(d) == Get(d)
    {
      match c
      case Forward => this.(forward := v)
      case Backward => this.(backward := v)
      case Left => this.(left := v)
      case Right => this.(right := v)
      case Brake => this.(brake := v)
      case Nitro => this.(nitro := v)
    }
  }

  /** The vector with every control released. */
  const Released: ControlVector :=
    ControlVector(false, false, false, false, false, false)

  /** Two vectors agree on every control exactly when they are equal. */
  lemma ExtensionalEquality(a: ControlVector, b: ControlVector)
    requires forall c :: a.Get(c) == b.Get(c)
    ensures a == b
  {
    assert a.forward == b.forward by { assert a.Get(Forward) == b.Get(Forward); }
    assert a.backward == b.backward by { assert a.Get(Backward) == b.Get(Backward); }
    assert a.left == b.left by { assert a.Get(Left) == b.Get(Left); }
    assert a.right == b.right by { assert a.Get(Right) == b.Get(Right); }
    assert a.brake == b.brake by { assert a.Get(Brake) == b.Get(Brake); }
    assert a.nitro == b.nitro by { assert a.Get(Nitro) == b.Get(Nitro); }
  }
}
