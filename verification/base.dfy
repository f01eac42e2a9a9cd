/** Small shared vocabulary: optional values, results, and the real-number
    helpers (`Math.min`, `Math.max`, `Math.abs`) that every per-frame step uses. */
module Base {

  /** A value that may be missing: JavaScript's `null` / `undefined`. */
  datatype Option<+T> = None | Some(value: T) {
    function GetOr(default: T): T {
      match this
      case Some(v) => v
      case None => default
    }
  }

  /** The outcome of an operation that can be refused. */
  datatype Result<+T, +E> = Ok(value: T) | Err(error: E)

  /** A point in the scene: x is lateral, y is ride height, z is longitudinal. */
  datatype Vec3 = Vec3(x: real, y: real, z: real)

  const Origin: Vec3 := Vec3(0.0, 0.0, 0.0)

  function Min(a: real, b: real): real { if a <= b then a else b }

  function Max(a: real, b: real): real { if a >= b then a else b }

  function Abs(a: real): real { if a >= 0.0 then a else -a }

  function MaxInt(a: int, b: int): int { if a >= b then a else b }

  /** `Math.max(lo, Math.min(hi, v))`, the clamp idiom of the source. */
  function Clamp(lo: real, hi: real, v: real): real { Max(lo, Min(hi, v)) }

  /** A sine function handed in from outside: only its range is known. */
  ghost predicate SineBounded(sin: real -> real) {
    forall t :: -1.0 <= sin(t) <= 1.0
  }

  /** A `Math.random()` draw. */
  predicate IsUnitDraw(r: real) { 0.0 <= r < 1.0 }
}
