/**
 * The simulator's 2-D vector (`Vec2` in utls/math.rs). The source's `f32`
 * components are modelled as reals. Square roots are never computed: a
 * distance is compared through its square, and where the source divides by
 * a length, that length is passed in together with the fact that it is the
 * square root of the squared length.
 */
module Geometry {

  datatype Vec2 = Vec2(x: real, y: real)

  const Origin := Vec2(0.0, 0.0)

  /** `r` is the non-negative square root of `x` (what `f32::sqrt` returns). */
  predicate IsSqrt(r: real, x: real) {
    r >= 0.0 && r * r == x
  }

  /** Square of `distance(a, b)`. */
  function DistSq(a: Vec2, b: Vec2): real {
    (a.x - b.x) * (a.x - b.x) + (a.y - b.y) * (a.y - b.y)
  }

  /** Square of `length(v)`. */
  function LengthSq(v: Vec2): real {
    v.x * v.x + v.y * v.y
  }

  /** `add_assign`: the new value of `self` after `self += other`. */
  function Add(a: Vec2, b: Vec2): Vec2 {
    Vec2(a.x + b.x, a.y + b.y)
  }

  /** The `sub` method; the `Sub` operator has the same body. */
  function Sub(a: Vec2, b: Vec2): (r: Vec2)
    ensures Add(r, b) == a
  {
    Vec2(a.x - b.x, a.y - b.y)
  }

  /** `Mul<f32>`: scale both components. */
  function Scale(v: Vec2, s: real): (r: Vec2)
    ensures LengthSq(r) == s * s * LengthSq(v)
  {
    Vec2(v.x * s, v.y * s)
  }

  /** `Mul<Vec2>`: the componentwise (Hadamard) product, not a dot product. */
  function Hadamard(a: Vec2, b: Vec2): (r: Vec2)
    ensures b.x == b.y ==> r == Scale(a, b.x)
    ensures b == Vec2(1.0, 1.0) ==> r == a
    ensures a == Origin || b == Origin ==> r == Origin
  {
    Vec2(a.x * b.x, a.y * b.y)
  }

  /**
   * `normalized`, given `len`, the value `length()` computes. The zero vector
   * normalizes to itself; every other vector to one of unit length in the
   * same direction.
   */
  function Normalized(v: Vec2, len: real): (r: Vec2)
    requires IsSqrt(len, LengthSq(v))
    ensures len == 0.0 ==> r == Origin
    ensures len != 0.0 ==> LengthSq(r) == 1.0 && Scale(r, len) == v
  {
    if len == 0.0 then Origin
    else
      UnitAfterDivision(v.x, v.y, len);
      Vec2(v.x / len, v.y / len)
  }

  /** Dividing both components by the vector's (non-zero) length gives a unit vector. */
  lemma UnitAfterDivision(x: real, y: real, len: real)
    requires IsSqrt(len, x * x + y * y) && len != 0.0
    ensures (x / len) * (x / len) + (y / len) * (y / len) == 1.0
  {
    var a, b := x / len, y / len;
    assert x == a * len && y == b * len;
    calc {
      (a * a + b * b) * (len * len);
      (a * len) * (a * len) + (b * len) * (b * len);
      x * x + y * y;
      len * len;
    }
  }

  /** For a distance `d`, `d > 1.0` holds exactly when its square exceeds 1.0. */
  lemma FartherThanOneBySquares(d: real, a: Vec2, b: Vec2)
    requires IsSqrt(d, DistSq(a, b))
    ensures d > 1.0 <==> DistSq(a, b) > 1.0
  {
    if d > 1.0 {
      assert d * d > 1.0 * d;
    } else {
      assert d * d <= 1.0 * d;
    }
  }

  /** `distance` is symmetric, zero from a point to itself, and `length` is the distance from the origin. */
  lemma DistanceFacts(a: Vec2, b: Vec2)
    ensures DistSq(a, b) == DistSq(b, a)
    ensures DistSq(a, a) == 0.0
    ensures DistSq(a, b) >= 0.0
    ensures LengthSq(a) == DistSq(a, Origin)
  {
  }

  /** `+=` and `sub` undo each other: subtracting either summand from the sum gives the other. */
  lemma AddUndoneBySub(a: Vec2, d: Vec2)
    ensures Sub(Add(a, d), a) == d && Sub(Add(a, d), d) == a
  {
  }
}
