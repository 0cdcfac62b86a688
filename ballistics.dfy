/** The line charge's flight arithmetic: the closed-form launch-angle solve,
    the launch geometry derived from the launcher and the target, the
    semi-implicit Euler rocket step and the boost-phase test.

    Horizontal positions use RimWorld's convention: a world Vec3 keeps the
    ground plane in (x, z). The rocket's own state is a Vec3 whose (x, y)
    is the ground plane and whose z is the height above the ground. */
module Ballistics {
  import opened UnityMath

  /** Per-tick gravity of the rocket. */
  const GRAVITY: real := 0.0055
  /** Height of the launcher rail, where the rocket and the rope start. */
  const LAUNCHER_HEIGHT: real := 0.55
  /** Fraction of the total horizontal distance flown under boost. */
  const BURNOUT_PROG: real := 0.15
  /** The range is stretched by this factor to offset the Euler step's error. */
  const RANGE_FACTOR: real := 1.015
  /** How far behind the origin, along the firing direction, the launcher sits. */
  const ANCHOR_BACK: real := 0.9
  /** Mathf.Deg2Rad as a single-precision constant. */
  const DEG2RAD: real := 0.0174532924
  /** Below this total distance the boost-phase ratio is not evaluated. */
  const MIN_TOTAL_DIST: real := 0.001

  // ---------------------------------------------------------------------
  // The launch-angle solve

  /** The outcome of the solve: the 45 degree fallback, or the tangent of the high root. */
  datatype Elevation = Fallback45 | HighRoot(tanTheta: real)

  /** v2^2 - g (g R^2 + 2 h v2), with v2 the squared launch speed, exactly as
      the solver groups it. */
  function Discriminant(v2: real, g: real, h: real, range: real): real {
    v2 * v2 - g * (g * range * range + 2.0 * h * v2)
  }

  /** The quadratic in t = tan(theta) whose roots the solver looks for. */
  function Quadratic(g: real, range: real, h: real, v2: real, t: real): real {
    g * range * range * t * t - 2.0 * v2 * range * t + (g * range * range + 2.0 * h * v2)
  }

  /** A negative discriminant falls back to 45 degrees; otherwise the high
      root (v^2 + sqrt D) / (g R) is taken. */
  function SolveElevation(v: real, g: real, h: real, range: real, sqrt: real -> real): (e: Elevation)
    requires 0.0 < g && 0.0 < range
    ensures e.Fallback45? <==> Discriminant(v * v, g, h, range) < 0.0
  {
    var v2 := v * v;
    var d := Discriminant(v2, g, h, range);
    if d < 0.0 then Fallback45 else HighRoot((v2 + sqrt(d)) / (g * range))
  }

  /** The firing angle in radians, given Mathf.Atan as an oracle. */
  function ElevationAngle(e: Elevation, atan: real -> real): real {
    match e
    case Fallback45 => 45.0 * DEG2RAD
    case HighRoot(t) => atan(t)
  }

  /** Multiplying the quadratic by g completes the square in u = g R t:
      g Q(t) = (g R t - v2)^2 - D. */
  lemma CompletedSquare(g: real, range: real, h: real, v2: real, t: real)
    ensures g * Quadratic(g, range, h, v2, t)
         == (g * range * t - v2) * (g * range * t - v2) - Discriminant(v2, g, h, range)
  {
    var u := g * range * t;
    assert g * (g * range * range * t * t) == u * u;
    assert g * (2.0 * v2 * range * t) == 2.0 * v2 * u;
    assert (u - v2) * (u - v2) == u * u - 2.0 * v2 * u + v2 * v2;
  }

  /** With s a square root of a non-negative discriminant, the high root
      solves the quadratic exactly. */
  lemma HighRootSolves(v2: real, g: real, h: real, range: real, s: real)
    requires 0.0 < g && 0.0 < range && 0.0 <= s && s * s == Discriminant(v2, g, h, range)
    ensures Quadratic(g, range, h, v2, (v2 + s) / (g * range)) == 0.0
  {
    var t := (v2 + s) / (g * range);
    assert g * range * t == v2 + s;
    CompletedSquare(g, range, h, v2, t);
    ZeroProduct(g, Quadratic(g, range, h, v2, t));
  }

  /** The solver's high root is a root of the quadratic and lies at or above
      the vertex v^2 / (g R), so it is never the lower of the two roots. */
  lemma SolvedElevationIsHighRoot(v: real, g: real, h: real, range: real, sqrt: real -> real)
    requires IsSqrt(sqrt) && 0.0 < g && 0.0 < range
    requires Discriminant(v * v, g, h, range) >= 0.0
    ensures var e := SolveElevation(v, g, h, range, sqrt);
      e.HighRoot?
      && Quadratic(g, range, h, v * v, e.tanTheta) == 0.0
      && e.tanTheta * (g * range) >= v * v
  {
    var d := Discriminant(v * v, g, h, range);
    var s := sqrt(d);
    assert 0.0 <= s && s * s == d;
    HighRootSolves(v * v, g, h, range, s);
    var t := (v * v + s) / (g * range);
    assert t * (g * range) == v * v + s;
  }

  /** With a negative discriminant the quadratic has no real root at all:
      it is positive everywhere, which is why the solver falls back. */
  lemma NoRootWhenNegative(v2: real, g: real, h: real, range: real, t: real)
    requires 0.0 < g && Discriminant(v2, g, h, range) < 0.0
    ensures Quadratic(g, range, h, v2, t) > 0.0
  {
    CompletedSquare(g, range, h, v2, t);
    SquareNonNegative(g * range * t - v2);
    assert g * Quadratic(g, range, h, v2, t) > 0.0;
  }

  /** x^2 = s^2 with s >= 0 holds exactly for x = s and x = -s. */
  lemma SquareRoots(x: real, s: real)
    requires 0.0 <= s
    ensures x * x == s * s <==> x == s || x == -s
  {
    assert x * x - s * s == (x - s) * (x + s);
    if x * x == s * s && x != s {
      ZeroProduct(x - s, x + s);
    }
  }

  /** With a non-negative discriminant the roots of the quadratic are
      exactly the high root and the low root (v2 - s) / (g R). */
  lemma RootsOfQuadratic(v2: real, g: real, h: real, range: real, s: real, t: real)
    requires 0.0 < g && 0.0 < range && 0.0 <= s && s * s == Discriminant(v2, g, h, range)
    ensures Quadratic(g, range, h, v2, t) == 0.0
        <==> t == (v2 + s) / (g * range) || t == (v2 - s) / (g * range)
  {
    var x := g * range * t - v2;
    CompletedSquare(g, range, h, v2, t);
    SquareRoots(x, s);
    var q := Quadratic(g, range, h, v2, t);
    assert q == 0.0 <==> g * q == 0.0 by {
      if g * q == 0.0 {
        ZeroProduct(g, q);
      }
    }
    assert x == s <==> t == (v2 + s) / (g * range);
    assert x == -s <==> t == (v2 - s) / (g * range);
  }

  /** Every root of the quadratic is at most the solver's high root. */
  lemma HighRootIsLargest(v: real, g: real, h: real, range: real, sqrt: real -> real, t: real)
    requires IsSqrt(sqrt) && 0.0 < g && 0.0 < range
    requires Quadratic(g, range, h, v * v, t) == 0.0
    ensures var e := SolveElevation(v, g, h, range, sqrt);
      e.HighRoot? && t <= e.tanTheta
  {
    var d := Discriminant(v * v, g, h, range);
    if d < 0.0 {
      NoRootWhenNegative(v * v, g, h, range, t);
      assert false;
    }
    var s := sqrt(d);
    assert 0.0 <= s && s * s == d;
    RootsOfQuadratic(v * v, g, h, range, s, t);
    DivideMonotone(v * v - s, v * v + s, g * range);
  }

  lemma DivideMonotone(a: real, b: real, c: real)
    requires a <= b && 0.0 < c
    ensures a / c <= b / c
  {
    assert a / c * c == a && b / c * c == b;
  }

  /** The ideal drag-free trajectory at firing tangent t and squared launch
      speed v2 reaches this height above the launcher at horizontal distance R. */
  function TrajectoryHeight(range: real, t: real, v2: real, g: real): real
    requires 0.0 < v2
  {
    range * t - g * range * range * (1.0 + t * t) / (2.0 * v2)
  }

  /** What the quadratic means: its roots are the firing tangents whose ideal
      trajectory passes through height +h at range R, a target h ABOVE the
      launcher. The solver passes the launcher height as h. */
  lemma QuadraticMeansHeight(g: real, range: real, h: real, v2: real, t: real)
    requires 0.0 < v2
    ensures Quadratic(g, range, h, v2, t) == 0.0 <==> TrajectoryHeight(range, t, v2, g) == h
  {
    var w := 2.0 * v2;
    var a := g * range * range * (1.0 + t * t);
    var y := TrajectoryHeight(range, t, v2, g);
    assert a / w * w == a;
    assert y * w == range * t * w - a;
    assert a == g * range * range + g * range * range * t * t;
    assert Quadratic(g, range, h, v2, t) == (h - y) * w;
    if Quadratic(g, range, h, v2, t) == 0.0 {
      ZeroProduct(w, h - y);
    }
  }

  // ---------------------------------------------------------------------
  // Launch geometry

  /** The horizontal offset from one world point to another, as a plane vector. */
  function PlaneOffset(from: Vec3, to: Vec3): Vec2 {
    Vec2(to.x - from.x, to.z - from.z)
  }

  /** The unit firing direction in the plane (zero if origin and destination
      are horizontally within Unity's epsilon of each other). */
  function LaunchDirection(origin: Vec3, destination: Vec3, sqrt: real -> real): Vec2 {
    Normalized2(PlaneOffset(origin, destination), sqrt)
  }

  /** The launcher's plane position: the origin moved back ANCHOR_BACK along
      the firing direction. */
  function LauncherAnchor(origin: Vec3, dir: Vec2): Vec2 {
    Vec2(origin.x + dir.x * -ANCHOR_BACK, origin.z + dir.y * -ANCHOR_BACK)
  }

  /** The horizontal distance from the origin to the destination. */
  function TotalDistance(origin: Vec3, destination: Vec3, sqrt: real -> real): real {
    MagnitudeHorizontal(destination.Minus(origin), sqrt)
  }

  /** The range the solver aims for: from the launcher to the destination,
      stretched by RANGE_FACTOR. */
  function LaunchRange(origin: Vec3, destination: Vec3, sqrt: real -> real): real {
    var anchor := LauncherAnchor(origin, LaunchDirection(origin, destination, sqrt));
    Magnitude2(Vec2(destination.x, destination.z).Minus(anchor), sqrt) * RANGE_FACTOR
  }

  /** The launch speed split along the firing direction and the vertical. */
  function LaunchVelocity(dir: Vec2, speed: real, sinA: real, cosA: real): Vec3 {
    Vec3(dir.x * speed * cosA, dir.y * speed * cosA, speed * sinA)
  }

  /** With a unit direction and sin^2 + cos^2 = 1 the launch velocity has
      exactly the launch speed, and its plane part points along dir. */
  lemma LaunchSpeed(dir: Vec2, speed: real, sinA: real, cosA: real)
    requires dir.SqrMagnitude() == 1.0 && sinA * sinA + cosA * cosA == 1.0
    ensures LaunchVelocity(dir, speed, sinA, cosA).SqrMagnitude() == speed * speed
    ensures Vec2(LaunchVelocity(dir, speed, sinA, cosA).x, LaunchVelocity(dir, speed, sinA, cosA).y)
         == dir.Times(speed * cosA)
  {
    var k := speed * cosA;
    var vel := LaunchVelocity(dir, speed, sinA, cosA);
    assert vel.x == dir.x * k && vel.y == dir.y * k;
    assert vel.x * vel.x + vel.y * vel.y == (dir.x * dir.x + dir.y * dir.y) * (k * k);
    assert k * k + (speed * sinA) * (speed * sinA) == (speed * speed) * (cosA * cosA + sinA * sinA);
  }

  /** With the target further than EPSILON the launcher sits ANCHOR_BACK
      behind the origin on the line to the target, so the solver's range is
      the total distance plus ANCHOR_BACK, stretched by RANGE_FACTOR. */
  lemma LaunchRangeFar(origin: Vec3, destination: Vec3, sqrt: real -> real)
    requires IsSqrt(sqrt) && TotalDistance(origin, destination, sqrt) > EPSILON
    ensures LaunchRange(origin, destination, sqrt)
         == (TotalDistance(origin, destination, sqrt) + ANCHOR_BACK) * RANGE_FACTOR
  {
    TotalDistanceIsOffsetLength(origin, destination, sqrt);
    LauncherGap(origin, destination, LaunchDirection(origin, destination, sqrt));
    SetBackFar(PlaneOffset(origin, destination), sqrt);
  }

  /** Closer than EPSILON the firing direction is zero, the launcher sits on
      the origin and the range is the total distance, stretched. */
  lemma LaunchRangeNear(origin: Vec3, destination: Vec3, sqrt: real -> real)
    requires TotalDistance(origin, destination, sqrt) <= EPSILON
    ensures LaunchDirection(origin, destination, sqrt) == ZERO2
    ensures LauncherAnchor(origin, LaunchDirection(origin, destination, sqrt)) == Vec2(origin.x, origin.z)
    ensures LaunchRange(origin, destination, sqrt) == TotalDistance(origin, destination, sqrt) * RANGE_FACTOR
  {
    TotalDistanceIsOffsetLength(origin, destination, sqrt);
    assert LaunchDirection(origin, destination, sqrt) == ZERO2;
    LauncherAtOrigin(origin, destination);
  }

  lemma LauncherAtOrigin(origin: Vec3, destination: Vec3)
    ensures Vec2(destination.x, destination.z).Minus(LauncherAnchor(origin, ZERO2)) == PlaneOffset(origin, destination)
  {
  }

  /** The launcher sits exactly ANCHOR_BACK times the direction behind the origin. */
  lemma LauncherBehindOrigin(origin: Vec3, dir: Vec2)
    ensures Vec2(origin.x, origin.z).Minus(LauncherAnchor(origin, dir)) == dir.Times(ANCHOR_BACK)
  {
  }

  /** From the launcher to the target is the plane offset plus the set-back. */
  lemma LauncherGap(origin: Vec3, destination: Vec3, dir: Vec2)
    ensures Vec2(destination.x, destination.z).Minus(LauncherAnchor(origin, dir))
         == PlaneOffset(origin, destination).Plus(dir.Times(ANCHOR_BACK))
  {
  }

  lemma TotalDistanceIsOffsetLength(origin: Vec3, destination: Vec3, sqrt: real -> real)
    ensures TotalDistance(origin, destination, sqrt) == Magnitude2(PlaneOffset(origin, destination), sqrt)
  {
    var d := PlaneOffset(origin, destination);
    var e := destination.Minus(origin);
    assert Vec2(e.x, e.z) == d;
  }

  /** Setting back from the target's offset d along the normalized d adds
      exactly ANCHOR_BACK to its length. */
  lemma SetBackFar(d: Vec2, sqrt: real -> real)
    requires IsSqrt(sqrt) && Magnitude2(d, sqrt) > EPSILON
    ensures Magnitude2(d.Plus(Normalized2(d, sqrt).Times(ANCHOR_BACK)), sqrt) == Magnitude2(d, sqrt) + ANCHOR_BACK
  {
    var m := Magnitude2(d, sqrt);
    var k := 1.0 / m;
    assert k * m == 1.0;
    var f := 1.0 + ANCHOR_BACK * k;
    SetBackScaling(d, k);
    ScaledMagnitude2(d, f, sqrt);
    assert f * m == m + ANCHOR_BACK * (k * m);
  }

  lemma SetBackScaling(d: Vec2, k: real)
    ensures d.Plus(d.Times(k).Times(ANCHOR_BACK)) == d.Times(1.0 + ANCHOR_BACK * k)
  {
  }

  /** A target horizontally apart from the origin is at a positive range
      from the launcher, so the solver never divides by zero. */
  lemma RangePositive(origin: Vec3, destination: Vec3, sqrt: real -> real)
    requires IsSqrt(sqrt) && PlaneOffset(origin, destination) != ZERO2
    ensures LaunchRange(origin, destination, sqrt) > 0.0
  {
    TotalDistanceIsOffsetLength(origin, destination, sqrt);
    MagnitudePositive2(PlaneOffset(origin, destination), sqrt);
    if TotalDistance(origin, destination, sqrt) > EPSILON {
      LaunchRangeFar(origin, destination, sqrt);
    } else {
      LaunchRangeNear(origin, destination, sqrt);
    }
  }

  // ---------------------------------------------------------------------
  // The rocket

  /** One semi-implicit Euler step: gravity first, then the new velocity moves the rocket. */
  function RocketStep(pos: Vec3, vel: Vec3): (Vec3, Vec3)
  {
    var v := vel.(z := vel.z - GRAVITY);
    (pos.Plus(v), v)
  }

  /** k steps of free flight. */
  function Flown(pos: Vec3, vel: Vec3, k: nat): (Vec3, Vec3)
    decreases k
  {
    if k == 0 then (pos, vel)
    else
      var prev := Flown(pos, vel, k - 1);
      RocketStep(prev.0, prev.1)
  }

  /** Closed form of k Euler steps: constant plane velocity, vertical velocity
      losing GRAVITY per step, and a height that drops by GRAVITY k (k + 1) / 2
      against the ballistic line. */
  lemma {:induction false} FlownClosedForm(pos: Vec3, vel: Vec3, k: nat)
    ensures var r := Flown(pos, vel, k);
      var n := k as real;
      r.1 == Vec3(vel.x, vel.y, vel.z - n * GRAVITY)
      && r.0 == Vec3(pos.x + n * vel.x, pos.y + n * vel.y,
                     pos.z + n * vel.z - GRAVITY * (n * (n + 1.0)) / 2.0)
    decreases k
  {
    if k > 0 {
      FlownClosedForm(pos, vel, k - 1);
      var n := k as real;
      var m := (k - 1) as real;
      assert n == m + 1.0;
      assert m * (m + 1.0) + 2.0 * n == n * (n + 1.0);
    }
  }

  // ---------------------------------------------------------------------
  // Boost phase

  /** The exhaust signal: the total distance is large enough to divide by and
      at most BURNOUT_PROG of it has been covered. */
  function InBoostPhase(totalDist: real, currentDist: real): bool {
    totalDist > MIN_TOTAL_DIST && currentDist / totalDist <= BURNOUT_PROG
  }

  /** The ratio test is the same as comparing the covered distance against
      BURNOUT_PROG of the total. */
  lemma BoostPhaseByDistance(totalDist: real, currentDist: real)
    ensures InBoostPhase(totalDist, currentDist)
        <==> totalDist > MIN_TOTAL_DIST && currentDist <= BURNOUT_PROG * totalDist
  {
    if totalDist > MIN_TOTAL_DIST {
      assert currentDist / totalDist * totalDist == currentDist;
      if currentDist / totalDist <= BURNOUT_PROG {
        assert currentDist <= BURNOUT_PROG * totalDist;
      } else {
        assert currentDist > BURNOUT_PROG * totalDist;
      }
    }
  }
}
