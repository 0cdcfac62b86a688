/** The slice of Unity's vector and Mathf API that the rope, the flight
    controller and the deflection hook use, over exact reals.

    Square roots are not computed: every member that needs one takes a
    function `sqrt` and requires only the law `IsSqrt` (non-negative, and its
    square is its argument). */
module UnityMath {

  datatype Vec2 = Vec2(x: real, y: real) {
    function Plus(o: Vec2): Vec2 { Vec2(x + o.x, y + o.y) }
    function Minus(o: Vec2): Vec2 { Vec2(x - o.x, y - o.y) }
    function Times(k: real): Vec2 { Vec2(x * k, y * k) }
    function Dot(o: Vec2): real { x * o.x + y * o.y }
    function SqrMagnitude(): real { x * x + y * y }
  }

  datatype Vec3 = Vec3(x: real, y: real, z: real) {
    function Plus(o: Vec3): Vec3 { Vec3(x + o.x, y + o.y, z + o.z) }
    function Minus(o: Vec3): Vec3 { Vec3(x - o.x, y - o.y, z - o.z) }
    function Times(k: real): Vec3 { Vec3(x * k, y * k, z * k) }
    function Dot(o: Vec3): real { x * o.x + y * o.y + z * o.z }
    function SqrMagnitude(): real { x * x + y * y + z * z }
    function Negated(): Vec3 { Vec3(-x, -y, -z) }
    /** RimWorld's Yto0: the same vector with its vertical component dropped. */
    function Yto0(): Vec3 { Vec3(x, 0.0, z) }
  }

  /** A map cell (RimWorld's IntVec3). */
  datatype IntVec3 = IntVec3(x: int, y: int, z: int)

  const ZERO2: Vec2 := Vec2(0.0, 0.0)
  const ZERO3: Vec3 := Vec3(0.0, 0.0, 0.0)

  /** Unity's kEpsilon: `.normalized` returns the zero vector at or below it. */
  const EPSILON: real := 0.00001

  /** The only law of Mathf.Sqrt the model relies on. */
  ghost predicate IsSqrt(sqrt: real -> real) {
    forall x :: 0.0 <= x ==> 0.0 <= sqrt(x) && sqrt(x) * sqrt(x) == x
  }

  lemma SqrtUnique(sqrt: real -> real, x: real, s: real)
    requires IsSqrt(sqrt) && 0.0 <= s && s * s == x
    ensures sqrt(x) == s
  {
    var t := sqrt(x);
    assert 0.0 <= t && t * t == x;
    if t > s {
      MulPositive(t - s, t + s);
    } else if t < s {
      MulPositive(s - t, t + s);
    }
  }

  lemma MulPositive(a: real, b: real)
    requires 0.0 < a && 0.0 < b
    ensures 0.0 < a * b
  {
  }

  lemma SqrtPositive(sqrt: real -> real, x: real)
    requires IsSqrt(sqrt) && 0.0 < x
    ensures 0.0 < sqrt(x)
  {
    assert 0.0 <= sqrt(x) && sqrt(x) * sqrt(x) == x;
  }

  /** Mathf.Min(a, b) = a < b ? a : b. */
  function Min(a: real, b: real): (r: real)
    ensures r <= a && r <= b && (r == a || r == b)
  {
    if a < b then a else b
  }

  /** Mathf.Abs. */
  function Abs(f: real): (r: real)
    ensures r >= 0.0 && (r == f || r == -f)
  {
    if f >= 0.0 then f else -f
  }

  /** Mathf.Sign: 1 for zero and positive arguments, -1 otherwise. */
  function Sign(f: real): (r: real)
    ensures r * r == 1.0 && r * f >= 0.0
    ensures r == 1.0 <==> f >= 0.0
  {
    if f >= 0.0 then 1.0 else -1.0
  }

  /** Vector lengths, through the square-root oracle. */
  function Magnitude2(v: Vec2, sqrt: real -> real): real {
    sqrt(v.SqrMagnitude())
  }

  function Magnitude3(v: Vec3, sqrt: real -> real): real {
    sqrt(v.SqrMagnitude())
  }

  /** Vector3.MagnitudeHorizontal: the length of the (x, z) part. */
  function MagnitudeHorizontal(v: Vec3, sqrt: real -> real): real {
    Magnitude2(Vec2(v.x, v.z), sqrt)
  }

  lemma MagnitudeLaw2(v: Vec2, sqrt: real -> real)
    requires IsSqrt(sqrt)
    ensures 0.0 <= Magnitude2(v, sqrt) && Magnitude2(v, sqrt) * Magnitude2(v, sqrt) == v.SqrMagnitude()
  {
    assert 0.0 <= v.SqrMagnitude();
  }

  lemma MagnitudeLaw3(v: Vec3, sqrt: real -> real)
    requires IsSqrt(sqrt)
    ensures 0.0 <= Magnitude3(v, sqrt) && Magnitude3(v, sqrt) * Magnitude3(v, sqrt) == v.SqrMagnitude()
  {
    assert 0.0 <= v.SqrMagnitude();
  }

  lemma ScaledSqrMagnitude2(v: Vec2, k: real)
    ensures v.Times(k).SqrMagnitude() == (k * k) * v.SqrMagnitude()
  {
  }

  lemma ScaledSqrMagnitude3(v: Vec3, k: real)
    ensures v.Times(k).SqrMagnitude() == (k * k) * v.SqrMagnitude()
  {
  }

  /** A product with a non-zero factor vanishes only through the other factor. */
  lemma ZeroProduct(a: real, b: real)
    requires a != 0.0 && a * b == 0.0
    ensures b == 0.0
  {
  }

  lemma SquareNonNegative(a: real)
    ensures a * a >= 0.0
  {
    if a > 0.0 {
      MulPositive(a, a);
    } else if a < 0.0 {
      MulPositive(-a, -a);
    }
  }

  /** A sum of two squares vanishes only when both terms do. */
  lemma ZeroSquares(a: real, b: real)
    requires a * a + b * b == 0.0
    ensures a == 0.0 && b == 0.0
  {
    SquareNonNegative(a);
    SquareNonNegative(b);
    if a != 0.0 {
      ZeroProduct(a, a);
    }
    if b != 0.0 {
      ZeroProduct(b, b);
    }
  }

  /** Only the zero vector has zero length. */
  lemma MagnitudePositive2(v: Vec2, sqrt: real -> real)
    requires IsSqrt(sqrt) && v != ZERO2
    ensures Magnitude2(v, sqrt) > 0.0
  {
    MagnitudeLaw2(v, sqrt);
    if Magnitude2(v, sqrt) == 0.0 {
      ZeroSquares(v.x, v.y);
    }
  }

  /** Scaling by a non-negative factor scales the length by that factor. */
  lemma ScaledMagnitude2(v: Vec2, k: real, sqrt: real -> real)
    requires IsSqrt(sqrt) && 0.0 <= k
    ensures Magnitude2(v.Times(k), sqrt) == k * Magnitude2(v, sqrt)
  {
    var m := Magnitude2(v, sqrt);
    MagnitudeLaw2(v, sqrt);
    ScaledSqrMagnitude2(v, k);
    assert (k * m) * (k * m) == (k * k) * (m * m);
    SquareNonNegative(k);
    assert 0.0 <= k * m by {
      if 0.0 < k && 0.0 < m {
        MulPositive(k, m);
      }
    }
    SqrtUnique(sqrt, v.Times(k).SqrMagnitude(), k * m);
  }

  lemma InverseSquare(m: real)
    requires 0.0 < m
    ensures ((1.0 / m) * (1.0 / m)) * (m * m) == 1.0
  {
  }

  /** Vector2.normalized: v scaled by the inverse of its length, or zero
      when the length is at most EPSILON (Unity's `this / magnitude`). */
  function Normalized2(v: Vec2, sqrt: real -> real): Vec2 {
    var m := Magnitude2(v, sqrt);
    if m > EPSILON then v.Times(1.0 / m) else ZERO2
  }

  /** Vector3.normalized, with the same threshold. */
  function Normalized3(v: Vec3, sqrt: real -> real): Vec3 {
    var m := Magnitude3(v, sqrt);
    if m > EPSILON then v.Times(1.0 / m) else ZERO3
  }

  /** A normalized vector has length 1, or is zero when v was too short. */
  lemma NormalizedLaw2(v: Vec2, sqrt: real -> real)
    requires IsSqrt(sqrt)
    ensures Magnitude2(v, sqrt) > EPSILON ==> Normalized2(v, sqrt).SqrMagnitude() == 1.0
    ensures Magnitude2(v, sqrt) <= EPSILON ==> Normalized2(v, sqrt) == ZERO2
  {
    var m := Magnitude2(v, sqrt);
    MagnitudeLaw2(v, sqrt);
    if m > EPSILON {
      ScaledSqrMagnitude2(v, 1.0 / m);
      InverseSquare(m);
    }
  }

  lemma NormalizedLaw3(v: Vec3, sqrt: real -> real)
    requires IsSqrt(sqrt)
    ensures Magnitude3(v, sqrt) > EPSILON ==> Normalized3(v, sqrt).SqrMagnitude() == 1.0
    ensures Magnitude3(v, sqrt) <= EPSILON ==> Normalized3(v, sqrt) == ZERO3
  {
    var m := Magnitude3(v, sqrt);
    MagnitudeLaw3(v, sqrt);
    if m > EPSILON {
      ScaledSqrMagnitude3(v, 1.0 / m);
      InverseSquare(m);
    }
  }

  /** Normalizing a vector that already has length 1 gives it back. */
  lemma NormalizeUnit3(v: Vec3, sqrt: real -> real)
    requires IsSqrt(sqrt) && v.SqrMagnitude() == 1.0
    ensures Normalized3(v, sqrt) == v
  {
    SqrtUnique(sqrt, 1.0, 1.0);
  }

  lemma NormalizeUnit2(v: Vec2, sqrt: real -> real)
    requires IsSqrt(sqrt) && v.SqrMagnitude() == 1.0
    ensures Normalized2(v, sqrt) == v
  {
    SqrtUnique(sqrt, 1.0, 1.0);
  }
}
