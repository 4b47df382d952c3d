/** Integer helpers with the exact semantics of the C# and engine primitives the mod calls. */
module GameMath {

  /** The engine's integer clamp. The lower bound is tested first, so when
      `min > max` the result is `min` for small values and `max` otherwise. */
  function Clamp(val: int, min: int, max: int): (r: int)
    ensures r == val || r == min || r == max
    ensures min <= max ==> min <= r <= max
    ensures min <= val <= max ==> r == val
    ensures val < min ==> r == min
  {
    if val < min then min else if val > max then max else val
  }

  function Min(a: int, b: int): (r: int)
    ensures r <= a && r <= b && (r == a || r == b)
  {
    if a <= b then a else b
  }

  function Max(a: int, b: int): (r: int)
    ensures r >= a && r >= b && (r == a || r == b)
  {
    if a >= b then a else b
  }

  /** C# integer division, which truncates toward zero (Dafny's `/` is Euclidean). */
  function TruncDiv(a: int, b: int): (q: int)
    requires b > 0
    ensures a >= 0 ==> q * b <= a < q * b + b
    ensures a < 0 ==> q * b - b < a <= q * b
  {
    if a >= 0 then a / b else -((-a) / b)
  }

  /** Clamp is monotone in the clamped value when the bounds are ordered
      (with `min > max` it is not: small values give `min`, large ones `max`). */
  lemma ClampMonotone(v1: int, v2: int, min: int, max: int)
    requires v1 <= v2 && min <= max
    ensures Clamp(v1, min, max) <= Clamp(v2, min, max)
  {
  }
}
