/** Small arithmetic on naturals, and the few facts about products and quotients the models need. */
module Arith {

  function Max(a: nat, b: nat): nat {
    if a >= b then a else b
  }

  function Min(a: nat, b: nat): nat {
    if a <= b then a else b
  }

  function SaturatingSub(a: nat, b: nat): nat {
    if a >= b then a - b else 0
  }

  function AbsDiff(a: nat, b: nat): nat {
    if a >= b then a - b else b - a
  }

  function DivCeil(a: nat, b: nat): nat
    requires b > 0
  {
    (a + b - 1) / b
  }

  lemma ProductIsNat(a: nat, b: nat)
    ensures a * b >= 0
  {
  }

  lemma IntScaleOrder(q: int, r: int, a: int)
    requires a > 0
    ensures q * a < r * a <==> q < r
  {
  }

  lemma ScaleOrder(q: real, r: real, z: real)
    requires z > 0.0
    ensures q * z < r * z <==> q < r
    ensures q * z == r * z <==> q == r
  {
  }

  /** `x / z` is the one number that times `z` is `x`. */
  lemma QuotientIs(x: real, z: real, q: real)
    requires z > 0.0
    ensures (x / z) * z == x
    ensures x / z == q <==> q * z == x
  {
  }

  lemma QuotientOrder(x: real, y: real, z: real)
    requires z > 0.0
    ensures x < y <==> x / z < y / z
    ensures x == y <==> x / z == y / z
  {
  }

  /** A share of a positive total lies in the unit interval. */
  lemma ShareInUnit(x: real, z: real)
    requires z > 0.0 && 0.0 <= x <= z
    ensures 0.0 <= x / z <= 1.0
    ensures x == 0.0 ==> x / z == 0.0
    ensures x == z ==> x / z == 1.0
  {
  }
}
