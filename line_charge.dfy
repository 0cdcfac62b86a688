/** The towed line charge: a rocket that drags a 40-node rope behind it, the
    last 20 nodes of which are explosive charges.

    On its first tick the flight lazily builds the rope, lays it folded behind
    the launcher, puts the rocket on the launcher rail and solves for the
    firing angle. Every tick after that it steps the rocket (until it lands),
    raises the exhaust signal during the boost phase, moves the map position
    and steps the rope with its ends held at the launcher and at the rocket.
    45 ticks after landing every in-bounds charge node detonates and the
    flight is destroyed.

    The game clock, the map's bounds test, Mathf.RoundToInt,
    Vector3.ToIntVec3 and the random draws are parameters. */
module LineCharge {
  import opened UnityMath
  import opened Rope
  import opened Ballistics

  const TOTAL_NODES: int := 40
  /** The first explosive node; the nodes before it are the plain cable. */
  const CHARGE_START: int := 20
  const CHARGE_MASS: real := 5.0
  const CABLE_MASS: real := 0.1
  /** The rope is this many times longer than the horizontal distance. */
  const ROPE_SLACK: real := 1.28
  const SOLVER_ITERATIONS: int := 40
  /** Ticks between landing and detonation. */
  const DETONATION_DELAY: int := 45

  // ---------------------------------------------------------------------
  // The rope as first built

  function NodeMass(i: int): real {
    if i >= CHARGE_START then CHARGE_MASS else CABLE_MASS
  }

  /** A freshly allocated rope once the masses are assigned. */
  function ChargeMasses(): (s: seq<Node>)
    ensures |s| == TOTAL_NODES && PositiveMasses(s)
  {
    seq(TOTAL_NODES, i => ZERO_NODE.(mass := NodeMass(i)))
  }

  /** The length each rope segment may have. */
  function SegmentLength(origin: Vec3, destination: Vec3, sqrt: real -> real): real {
    TotalDistance(origin, destination, sqrt) * ROPE_SLACK / (TOTAL_NODES - 1) as real
  }

  /** The rope laid down folded behind the launcher, facing the target. */
  function InitialNodes(origin: Vec3, destination: Vec3, sqrt: real -> real, jitter: seq<real>): seq<Node>
    requires |jitter| == TOTAL_NODES
  {
    var dir := LaunchDirection(origin, destination, sqrt);
    var seg := SegmentLength(origin, destination, sqrt);
    Flaked(ChargeMasses(), LauncherAnchor(origin, dir), LAUNCHER_HEIGHT, Normalized2(dir, sqrt),
           FoldWidth(seg), FoldBack(seg), jitter)
  }

  /** The initial rope: 5.0 on every charge node and 0.1 on the cable, and
      every node at rest (its previous position is its position). */
  lemma InitialMasses(origin: Vec3, destination: Vec3, sqrt: real -> real, jitter: seq<real>)
    requires |jitter| == TOTAL_NODES
    ensures var s := InitialNodes(origin, destination, sqrt, jitter);
      && |s| == TOTAL_NODES && PositiveMasses(s)
      && (forall j :: CHARGE_START <= j < TOTAL_NODES ==> s[j].mass == 5.0)
      && (forall j :: 0 <= j < CHARGE_START ==> s[j].mass == 0.1)
      && (forall j :: 0 <= j < TOTAL_NODES ==> s[j].prevPlanePos == s[j].planePos && s[j].prevHeight == s[j].height)
  {
    var s := InitialNodes(origin, destination, sqrt, jitter);
    var m := ChargeMasses();
    MassesCarryOver(m, s);
    forall j | 0 <= j < TOTAL_NODES
      ensures s[j].mass == NodeMass(j)
    {
      assert m[j].mass == NodeMass(j);
    }
  }

  /** With the jitter drawn from [-0.01, 0.01], every node starts within 0.01
      of the rail height. */
  lemma InitialHeights(origin: Vec3, destination: Vec3, sqrt: real -> real, jitter: seq<real>)
    requires |jitter| == TOTAL_NODES
    requires forall j :: 0 <= j < |jitter| ==> -0.01 <= jitter[j] <= 0.01
    ensures var s := InitialNodes(origin, destination, sqrt, jitter);
      forall j :: 0 <= j < TOTAL_NODES ==> LAUNCHER_HEIGHT - 0.01 <= s[j].height <= LAUNCHER_HEIGHT + 0.01
  {
    var s := InitialNodes(origin, destination, sqrt, jitter);
    forall j | 0 <= j < TOTAL_NODES
      ensures LAUNCHER_HEIGHT - 0.01 <= s[j].height <= LAUNCHER_HEIGHT + 0.01
    {
      assert s[j].height == LAUNCHER_HEIGHT + jitter[j];
    }
  }

  // ---------------------------------------------------------------------
  // The launch

  /** The firing angle: 45 degrees or the arctangent of the high root, for
      the range measured from the launcher. */
  function LaunchAngle(origin: Vec3, destination: Vec3, speed: real, sqrt: real -> real, atan: real -> real): real
    requires IsSqrt(sqrt) && PlaneOffset(origin, destination) != ZERO2
  {
    RangePositive(origin, destination, sqrt);
    ElevationAngle(SolveElevation(speed, GRAVITY, LAUNCHER_HEIGHT, LaunchRange(origin, destination, sqrt), sqrt), atan)
  }

  /** The rocket's starting position and velocity: on the launcher at rail
      height, moving at `speed` along the firing direction and angle. */
  function LaunchKinematics(origin: Vec3, destination: Vec3, speed: real, sqrt: real -> real,
                            atan: real -> real, sin: real -> real, cos: real -> real): (Vec3, Vec3)
    requires IsSqrt(sqrt) && PlaneOffset(origin, destination) != ZERO2
  {
    var dir := LaunchDirection(origin, destination, sqrt);
    var a := LauncherAnchor(origin, dir);
    var angle := LaunchAngle(origin, destination, speed, sqrt, atan);
    (Vec3(a.x, a.y, LAUNCHER_HEIGHT), LaunchVelocity(dir, speed, sin(angle), cos(angle)))
  }

  /** The launch angle comes from the solve: 45 degrees exactly when the
      discriminant is negative, otherwise the arctangent of a root of the
      range quadratic at or above its vertex. */
  lemma LaunchAngleSolved(origin: Vec3, destination: Vec3, speed: real, sqrt: real -> real, atan: real -> real)
    requires IsSqrt(sqrt) && PlaneOffset(origin, destination) != ZERO2
    ensures var range := LaunchRange(origin, destination, sqrt);
      0.0 < range &&
      var d := Discriminant(speed * speed, GRAVITY, LAUNCHER_HEIGHT, range);
      var e := SolveElevation(speed, GRAVITY, LAUNCHER_HEIGHT, range, sqrt);
      && (d < 0.0 ==> LaunchAngle(origin, destination, speed, sqrt, atan) == 45.0 * DEG2RAD)
      && (d >= 0.0 ==>
            && e.HighRoot?
            && LaunchAngle(origin, destination, speed, sqrt, atan) == atan(e.tanTheta)
            && Quadratic(GRAVITY, range, LAUNCHER_HEIGHT, speed * speed, e.tanTheta) == 0.0
            && e.tanTheta * (GRAVITY * range) >= speed * speed)
  {
    RangePositive(origin, destination, sqrt);
    var range := LaunchRange(origin, destination, sqrt);
    if Discriminant(speed * speed, GRAVITY, LAUNCHER_HEIGHT, range) >= 0.0 {
      SolvedElevationIsHighRoot(speed, GRAVITY, LAUNCHER_HEIGHT, range, sqrt);
    }
  }

  /** The rocket starts on the launcher: ANCHOR_BACK behind the origin
      along the firing direction, at rail height. */
  lemma LaunchPosition(origin: Vec3, destination: Vec3, speed: real, sqrt: real -> real,
                       atan: real -> real, sin: real -> real, cos: real -> real)
    requires IsSqrt(sqrt) && PlaneOffset(origin, destination) != ZERO2
    ensures var p := LaunchKinematics(origin, destination, speed, sqrt, atan, sin, cos).0;
      && Vec2(origin.x, origin.z).Minus(Vec2(p.x, p.y)) == LaunchDirection(origin, destination, sqrt).Times(ANCHOR_BACK)
      && p.z == LAUNCHER_HEIGHT
  {
    LauncherBehindOrigin(origin, LaunchDirection(origin, destination, sqrt));
  }

  /** With a target further than EPSILON and sin^2 + cos^2 = 1 at the firing
      angle, the rocket starts at exactly `speed`, its plane velocity along
      the firing direction. */
  lemma LaunchVelocityMagnitude(origin: Vec3, destination: Vec3, speed: real, sqrt: real -> real,
                                atan: real -> real, sin: real -> real, cos: real -> real)
    requires IsSqrt(sqrt) && PlaneOffset(origin, destination) != ZERO2
    requires TotalDistance(origin, destination, sqrt) > EPSILON
    requires var angle := LaunchAngle(origin, destination, speed, sqrt, atan);
      sin(angle) * sin(angle) + cos(angle) * cos(angle) == 1.0
    ensures var v := LaunchKinematics(origin, destination, speed, sqrt, atan, sin, cos).1;
      var angle := LaunchAngle(origin, destination, speed, sqrt, atan);
      && v.SqrMagnitude() == speed * speed
      && Vec2(v.x, v.y) == LaunchDirection(origin, destination, sqrt).Times(speed * cos(angle))
  {
    var dir := LaunchDirection(origin, destination, sqrt);
    var angle := LaunchAngle(origin, destination, speed, sqrt, atan);
    TotalDistanceIsOffsetLength(origin, destination, sqrt);
    NormalizedLaw2(PlaneOffset(origin, destination), sqrt);
    assert dir.SqrMagnitude() == 1.0;
    LaunchSpeed(dir, speed, sin(angle), cos(angle));
  }

  // ---------------------------------------------------------------------
  // The rocket's state machine

  /** The rocket's part of the flight state. */
  datatype RocketState = RocketState(pos: Vec3, vel: Vec3, landed: bool, landingTick: int)

  /** One tick at game time `now`: a landed rocket stays put; a flying one
      takes an Euler step and lands, clamped to the ground and stamped with
      the tick, once its height is no longer positive. */
  function FlightStep(r: RocketState, now: int): RocketState {
    if r.landed then r
    else
      var step := RocketStep(r.pos, r.vel);
      if step.0.z <= 0.0 then RocketState(step.0.(z := 0.0), step.1, true, now)
      else RocketState(step.0, step.1, false, r.landingTick)
  }

  /** k ticks at the game times t, t + 1, ..., t + k - 1. */
  function FlightRun(r: RocketState, t: int, k: nat): RocketState
    decreases k
  {
    if k == 0 then r else FlightStep(FlightRun(r, t, k - 1), t + k - 1)
  }

  /** Where the rope's far end is held this tick: the landed rocket, or the
      rocket after its step but BEFORE the ground clamp. */
  function RopeEnd(r: RocketState): Vec3 {
    if r.landed then r.pos else RocketStep(r.pos, r.vel).0
  }

  /** Vector2.Distance from the origin's plane position to the rocket's. */
  function CurrentDistance(origin: Vec3, rocket: Vec3, sqrt: real -> real): real {
    Magnitude2(Vec2(origin.x, origin.z).Minus(Vec2(rocket.x, rocket.y)), sqrt)
  }

  /** The exhaust signal of a tick that starts in state r. */
  function Exhaust(r: RocketState, origin: Vec3, destination: Vec3, sqrt: real -> real): bool {
    !r.landed && InBoostPhase(TotalDistance(origin, destination, sqrt), CurrentDistance(origin, RocketStep(r.pos, r.vel).0, sqrt))
  }

  /** Whether a tick at `now` starting in state r detonates the charges. */
  function DetonationDue(r: RocketState, now: int): bool {
    r.landed && now >= r.landingTick + DETONATION_DELAY
  }

  /** Once landed, the rocket never moves again and keeps its landing tick. */
  lemma {:induction false} LandedStaysPut(r: RocketState, t: int, k: nat)
    requires r.landed
    ensures FlightRun(r, t, k) == r
    decreases k
  {
    if k > 0 {
      LandedStaysPut(r, t, k - 1);
    }
  }

  /** Until it lands the rocket is exactly k Euler steps along: the closed
      form of the free flight. */
  lemma {:induction false} FreeFlight(r: RocketState, t: int, k: nat)
    requires !r.landed
    requires forall j :: 1 <= j <= k ==> Flown(r.pos, r.vel, j).0.z > 0.0
    ensures var f := Flown(r.pos, r.vel, k);
      FlightRun(r, t, k) == RocketState(f.0, f.1, false, r.landingTick)
    decreases k
  {
    if k > 0 {
      FreeFlight(r, t, k - 1);
    }
  }

  /** A run never takes the rocket below the ground, and a landed rocket is on it. */
  lemma {:induction false} StaysAboveGround(r: RocketState, t: int, k: nat)
    requires r.pos.z >= 0.0 && (r.landed ==> r.pos.z == 0.0)
    ensures var q := FlightRun(r, t, k);
      q.pos.z >= 0.0 && (q.landed ==> q.pos.z == 0.0)
    decreases k
  {
    if k > 0 {
      StaysAboveGround(r, t, k - 1);
    }
  }

  /** The landing tick is stamped once, during the run in which the rocket
      lands, and never again. */
  lemma {:induction false} LandingStampedOnce(r: RocketState, t: int, k: nat)
    requires !r.landed
    ensures var q := FlightRun(r, t, k);
      q.landed ==> t <= q.landingTick < t + k
    ensures var q := FlightRun(r, t, k);
      !q.landed ==> q.landingTick == r.landingTick
    decreases k
  {
    if k > 0 {
      LandingStampedOnce(r, t, k - 1);
    }
  }

  /** The exhaust burns only in flight, over a meaningful total distance, and
      while at most BURNOUT_PROG of it is covered. */
  lemma ExhaustOnlyInBoost(r: RocketState, origin: Vec3, destination: Vec3, sqrt: real -> real)
    ensures Exhaust(r, origin, destination, sqrt)
        <==> !r.landed && TotalDistance(origin, destination, sqrt) > MIN_TOTAL_DIST
             && CurrentDistance(origin, RocketStep(r.pos, r.vel).0, sqrt) <= BURNOUT_PROG * TotalDistance(origin, destination, sqrt)
  {
    BoostPhaseByDistance(TotalDistance(origin, destination, sqrt), CurrentDistance(origin, RocketStep(r.pos, r.vel).0, sqrt));
  }

  // ---------------------------------------------------------------------
  // Detonation

  /** The cell of a rope node: its plane position rounded. */
  function NodeCell(nd: Node, round: real -> int): IntVec3 {
    IntVec3(round(nd.planePos.x), 0, round(nd.planePos.y))
  }

  /** Whether node nd's explosion goes off: there is a map and its cell is in it. */
  predicate Detonates(nd: Node, hasMap: bool, inBounds: IntVec3 -> bool, round: real -> int) {
    hasMap && inBounds(NodeCell(nd, round))
  }

  /** The explosions of the nodes of s, in index order. */
  function Detonations(s: seq<Node>, hasMap: bool, inBounds: IntVec3 -> bool, round: real -> int): seq<IntVec3>
    decreases |s|
  {
    if s == [] then []
    else
      var last := s[|s| - 1];
      Detonations(s[..|s| - 1], hasMap, inBounds, round)
      + (if Detonates(last, hasMap, inBounds, round) then [NodeCell(last, round)] else [])
  }

  /** A cell explodes exactly when some node rounds to it and it is on the
      map: out-of-bounds nodes are skipped, the rest are still visited. */
  lemma {:induction false} DetonationCells(s: seq<Node>, hasMap: bool, inBounds: IntVec3 -> bool,
                                           round: real -> int, c: IntVec3)
    ensures c in Detonations(s, hasMap, inBounds, round)
        <==> hasMap && inBounds(c) && exists j :: 0 <= j < |s| && NodeCell(s[j], round) == c
    decreases |s|
  {
    if s != [] {
      var init := s[..|s| - 1];
      DetonationCells(init, hasMap, inBounds, round, c);
      if exists j :: 0 <= j < |init| && NodeCell(init[j], round) == c {
        var j :| 0 <= j < |init| && NodeCell(init[j], round) == c;
        assert NodeCell(s[j], round) == c;
      }
      if exists j :: 0 <= j < |s| && NodeCell(s[j], round) == c {
        var j :| 0 <= j < |s| && NodeCell(s[j], round) == c;
        if j < |init| {
          assert NodeCell(init[j], round) == c;
        }
      }
    }
  }

  /** At most one explosion per node, exactly one each when every node is on
      the map, and none at all without a map. */
  lemma {:induction false} DetonationCount(s: seq<Node>, hasMap: bool, inBounds: IntVec3 -> bool, round: real -> int)
    ensures |Detonations(s, hasMap, inBounds, round)| <= |s|
    ensures (forall j :: 0 <= j < |s| ==> Detonates(s[j], hasMap, inBounds, round))
        ==> |Detonations(s, hasMap, inBounds, round)| == |s|
    ensures !hasMap ==> Detonations(s, hasMap, inBounds, round) == []
    decreases |s|
  {
    if s != [] {
      var init := s[..|s| - 1];
      DetonationCount(init, hasMap, inBounds, round);
      if forall j :: 0 <= j < |s| ==> Detonates(s[j], hasMap, inBounds, round) {
        forall j | 0 <= j < |init|
          ensures Detonates(init[j], hasMap, inBounds, round)
        {
          assert init[j] == s[j];
        }
      }
    }
  }

  // ---------------------------------------------------------------------
  // The flight

  /** A new rope of TOTAL_NODES nodes, TOTAL_NODES - 1 segments sharing the
      slack length, with the cable and charge masses assigned. */
  method NewChargeRope(totalDist: real, sqrt: real -> real) returns (r: VerletRope)
    requires 0.0 <= totalDist
    ensures fresh(r) && fresh(r.nodes) && r.Valid()
    ensures r.nodeCount == TOTAL_NODES && r.gravity == GRAVITY && r.solverIterations == SOLVER_ITERATIONS
    ensures r.maxSegLen == totalDist * ROPE_SLACK / (TOTAL_NODES - 1) as real
    ensures r.nodes[..] == ChargeMasses() && r.lateralAxis == ZERO2
  {
    r := new VerletRope(TOTAL_NODES, totalDist * ROPE_SLACK, GRAVITY, SOLVER_ITERATIONS);
    var i := 0;
    while i < TOTAL_NODES
      modifies r.nodes
      invariant 0 <= i <= TOTAL_NODES
      invariant forall j :: 0 <= j < i ==> r.nodes[j] == ZERO_NODE.(mass := NodeMass(j))
      invariant forall j :: i <= j < TOTAL_NODES ==> r.nodes[j] == ZERO_NODE
    {
      r.nodes[i] := r.nodes[i].(mass := NodeMass(i));
      i := i + 1;
    }
    assert r.nodes[..] == ChargeMasses();
  }

  /** The flight's rope, built and laid down folded behind the launcher. */
  method LaidRope(origin: Vec3, destination: Vec3, jitter: seq<real>, sqrt: real -> real) returns (r: VerletRope)
    requires IsSqrt(sqrt) && |jitter| == TOTAL_NODES
    ensures fresh(r) && fresh(r.nodes) && r.Valid()
    ensures r.nodeCount == TOTAL_NODES && r.gravity == GRAVITY && r.solverIterations == SOLVER_ITERATIONS
    ensures r.maxSegLen == SegmentLength(origin, destination, sqrt)
    ensures r.nodes[..] == InitialNodes(origin, destination, sqrt, jitter) && PositiveMasses(r.nodes[..])
    ensures r.lateralAxis == Lateral(Normalized2(LaunchDirection(origin, destination, sqrt), sqrt))
  {
    var totalDist := TotalDistance(origin, destination, sqrt);
    assert 0.0 <= totalDist by {
      TotalDistanceIsOffsetLength(origin, destination, sqrt);
      MagnitudeLaw2(PlaneOffset(origin, destination), sqrt);
    }
    r := NewChargeRope(totalDist, sqrt);
    var dir := LaunchDirection(origin, destination, sqrt);
    r.InitFlaked(LauncherAnchor(origin, dir), LAUNCHER_HEIGHT, dir, jitter, sqrt);
    assert PositiveMasses(r.nodes[..]) by {
      InitialMasses(origin, destination, sqrt, jitter);
    }
  }

  /** One rope step with the ends held at `start` (at rail height) and at `anchor`. */
  method SimulateRope(r: VerletRope, start: Vec2, anchor: Vec3, waves: seq<real>, scatter: seq<real>, sqrt: real -> real)
    requires r.Valid() && PositiveMasses(r.nodes[..]) && |waves| == r.nodeCount && |scatter| == r.nodeCount
    modifies r.nodes
    ensures PositiveMasses(r.nodes[..])
    ensures r.nodes[..] == Stepped(old(r.nodes[..]), Anchors(start, LAUNCHER_HEIGHT, Vec2(anchor.x, anchor.y), anchor.z),
                                  r.lateralAxis, r.gravity, r.solverIterations, r.maxSegLen, waves, scatter, sqrt)
  {
    ghost var s0 := r.nodes[..];
    r.Simulate(start, LAUNCHER_HEIGHT, Vec2(anchor.x, anchor.y), anchor.z, waves, scatter, sqrt);
    MassesCarryOver(s0, r.nodes[..]);
  }

  class Flight {
    const origin: Vec3
    const destination: Vec3
    /** The projectile's speed in tiles per tick. */
    const speed: real
    var rope: VerletRope?
    var isLanded: bool
    var landingTick: int
    var launcherPlane: Vec2
    var launcherCached: bool
    var launchSin: real
    var launchCos: real
    var rocketPos: Vec3
    var rocketVel: Vec3
    /** The map cell the projectile occupies. */
    var position: IntVec3
    /** False once the flight has been destroyed. */
    var spawned: bool
    /** The cells exploded so far, in order. */
    var explosions: seq<IntVec3>

    ghost function Footprint(): set<object>
      reads this
    {
      if rope == null then {this} else {this, rope, rope.nodes}
    }

    ghost predicate Valid()
      reads this, rope, if rope == null then {} else {rope.nodes}
    {
      && PlaneOffset(origin, destination) != ZERO2
      && launcherCached == (rope != null)
      && (rope != null ==>
            && rope.Valid() && rope.nodeCount == TOTAL_NODES
            && rope.gravity == GRAVITY
            && PositiveMasses(rope.nodes[..]))
    }

    function Rocket(): RocketState
      reads this
    {
      RocketState(rocketPos, rocketVel, isLanded, landingTick)
    }

    /** The projectile's exact position: the rocket's plane position at the origin's altitude. */
    function ExactPosition(): Vec3
      reads this
    {
      Vec3(rocketPos.x, origin.y, rocketPos.y)
    }

    /** The rocket state a tick starts from once the rope exists. */
    ghost function StartOfTick(sqrt: real -> real, atan: real -> real, sin: real -> real, cos: real -> real): RocketState
      requires IsSqrt(sqrt) && PlaneOffset(origin, destination) != ZERO2
      reads this
    {
      if rope != null then Rocket()
      else
        var k := LaunchKinematics(origin, destination, speed, sqrt, atan, sin, cos);
        RocketState(k.0, k.1, isLanded, landingTick)
    }

    /** The rope nodes a tick starts from once the rope exists. */
    ghost function NodesAtStart(sqrt: real -> real, jitter: seq<real>): (r: seq<Node>)
      requires Valid() && |jitter| == TOTAL_NODES
      reads this, rope, if rope == null then {} else {rope.nodes}
      ensures |r| == TOTAL_NODES && PositiveMasses(r)
    {
      if rope != null then rope.nodes[..]
      else
        InitialMasses(origin, destination, sqrt, jitter);
        InitialNodes(origin, destination, sqrt, jitter)
    }

    constructor (o: Vec3, d: Vec3, v: real, cell: IntVec3)
      requires PlaneOffset(o, d) != ZERO2
      ensures Valid()
      ensures origin == o && destination == d && speed == v && position == cell
      ensures rope == null && !isLanded && landingTick == -1 && !launcherCached
      ensures spawned && explosions == []
    {
      origin := o;
      destination := d;
      speed := v;
      rope := null;
      isLanded := false;
      landingTick := -1;
      launcherPlane := ZERO2;
      launcherCached := false;
      launchSin := 0.0;
      launchCos := 0.0;
      rocketPos := ZERO3;
      rocketVel := ZERO3;
      position := cell;
      spawned := true;
      explosions := [];
    }

    /** Builds the rope and the launch state on the first call; later calls change nothing. */
    method EnsureRopeInit(jitter: seq<real>, sqrt: real -> real, atan: real -> real, sin: real -> real, cos: real -> real)
      requires Valid() && IsSqrt(sqrt) && |jitter| == TOTAL_NODES
      modifies this
      ensures Valid() && rope != null
      ensures Rocket() == old(StartOfTick(sqrt, atan, sin, cos))
      ensures rope.nodes[..] == old(NodesAtStart(sqrt, jitter))
      ensures old(rope) != null ==>
        (rope == old(rope) && launcherPlane == old(launcherPlane)
         && launchSin == old(launchSin) && launchCos == old(launchCos))
      ensures old(rope) == null ==>
        && fresh(rope) && fresh(rope.nodes)
        && rope.maxSegLen == SegmentLength(origin, destination, sqrt)
        && rope.solverIterations == SOLVER_ITERATIONS
        && rope.lateralAxis == Lateral(Normalized2(LaunchDirection(origin, destination, sqrt), sqrt))
        && launcherPlane == LauncherAnchor(origin, LaunchDirection(origin, destination, sqrt))
        && launchSin == sin(LaunchAngle(origin, destination, speed, sqrt, atan))
        && launchCos == cos(LaunchAngle(origin, destination, speed, sqrt, atan))
      ensures isLanded == old(isLanded) && landingTick == old(landingTick)
      ensures position == old(position) && spawned == old(spawned) && explosions == old(explosions)
    {
      if rope != null {
        return;
      }
      var r := LaidRope(origin, destination, jitter, sqrt);
      launchSin := 0.0;
      launchCos := 0.0;
      var dir := LaunchDirection(origin, destination, sqrt);
      var start := LauncherAnchor(origin, dir);
      launcherPlane := start;
      launcherCached := true;
      Launch(start, dir, sqrt, atan, sin, cos);
      rope := r;
    }

    /** Puts the rocket on the launcher rail and aims it. */
    method Launch(start: Vec2, dir: Vec2, sqrt: real -> real, atan: real -> real, sin: real -> real, cos: real -> real)
      requires IsSqrt(sqrt) && PlaneOffset(origin, destination) != ZERO2
      requires dir == LaunchDirection(origin, destination, sqrt) && start == LauncherAnchor(origin, dir)
      modifies this`rocketPos, this`rocketVel, this`launchSin, this`launchCos
      ensures (rocketPos, rocketVel) == LaunchKinematics(origin, destination, speed, sqrt, atan, sin, cos)
      ensures launchSin == sin(LaunchAngle(origin, destination, speed, sqrt, atan))
      ensures launchCos == cos(LaunchAngle(origin, destination, speed, sqrt, atan))
    {
      rocketPos := Vec3(start.x, start.y, LAUNCHER_HEIGHT);
      RangePositive(origin, destination, sqrt);
      var range := LaunchRange(origin, destination, sqrt);
      var angle := ElevationAngle(SolveElevation(speed, GRAVITY, LAUNCHER_HEIGHT, range, sqrt), atan);
      launchSin := sin(angle);
      launchCos := cos(angle);
      rocketVel := LaunchVelocity(dir, speed, launchSin, launchCos);
    }

    /** The semi-implicit Euler step: gravity into the velocity, then the velocity into the position. */
    method SimulateRocketPhysics()
      modifies this`rocketPos, this`rocketVel
      ensures (rocketPos, rocketVel) == RocketStep(old(rocketPos), old(rocketVel))
    {
      rocketVel := rocketVel.(z := rocketVel.z - GRAVITY);
      rocketPos := rocketPos.Plus(rocketVel);
    }

    /** Marks the landing at game time `now`; a second landing changes nothing. */
    method OnPhysicsLanded(now: int)
      modifies this`isLanded, this`landingTick
      ensures isLanded
      ensures landingTick == if old(isLanded) then old(landingTick) else now
    {
      if isLanded {
        return;
      }
      isLanded := true;
      landingTick := now;
    }

    /** Explodes the cell of every charge node that is on the map, then destroys the flight. */
    method SyncExplodeAll(hasMap: bool, inBounds: IntVec3 -> bool, round: real -> int)
      requires Valid()
      modifies this`explosions, this`spawned
      ensures !spawned
      ensures rope == null ==> explosions == old(explosions)
      ensures rope != null ==>
        explosions == old(explosions) + Detonations(rope.nodes[CHARGE_START..], hasMap, inBounds, round)
    {
      if rope == null {
        spawned := false;
        return;
      }
      var i := CHARGE_START;
      while i < rope.nodeCount
        invariant CHARGE_START <= i <= TOTAL_NODES
        invariant explosions == old(explosions) + Detonations(rope.nodes[CHARGE_START..i], hasMap, inBounds, round)
      {
        assert rope.nodes[CHARGE_START..i + 1][..i - CHARGE_START] == rope.nodes[CHARGE_START..i];
        var cell := NodeCell(rope.nodes[i], round);
        if hasMap && inBounds(cell) {
          explosions := explosions + [cell];
        }
        i := i + 1;
      }
      assert rope.nodes[CHARGE_START..i] == rope.nodes[CHARGE_START..];
      spawned := false;
    }

    /** The flying branch of a tick: step, boost test, ground clamp and landing.
        Returns where the rope's end is held and the exhaust signal. */
    method Fly(now: int, sqrt: real -> real) returns (anchor: Vec3, exhaust: bool)
      requires !isLanded
      modifies this`rocketPos, this`rocketVel, this`isLanded, this`landingTick
      ensures anchor == RopeEnd(old(Rocket()))
      ensures Rocket() == FlightStep(old(Rocket()), now)
      ensures exhaust == Exhaust(old(Rocket()), origin, destination, sqrt)
    {
      SimulateRocketPhysics();
      anchor := rocketPos;
      var totalDist := TotalDistance(origin, destination, sqrt);
      var currentDist := CurrentDistance(origin, rocketPos, sqrt);
      exhaust := InBoostPhase(totalDist, currentDist);
      if rocketPos.z <= 0.0 {
        rocketPos := rocketPos.(z := 0.0);
        OnPhysicsLanded(now);
      }
    }

    /** The landed branch of a tick: the rocket stays put and, once the
        delay is over, the charges go off. Returns where the rope's end is held. */
    method Landed(now: int, hasMap: bool, inBounds: IntVec3 -> bool, round: real -> int) returns (anchor: Vec3)
      requires Valid() && isLanded
      modifies this`explosions, this`spawned
      ensures anchor == RopeEnd(Rocket())
      ensures if DetonationDue(Rocket(), now)
        then !spawned && (rope != null ==>
               explosions == old(explosions) + Detonations(rope.nodes[CHARGE_START..], hasMap, inBounds, round))
        else explosions == old(explosions) && spawned == old(spawned)
    {
      anchor := rocketPos;
      if now >= landingTick + DETONATION_DELAY {
        SyncExplodeAll(hasMap, inBounds, round);
      }
    }

    /** Steps the rope with its ends held at the launcher and at `anchor`. */
    method StepRope(anchor: Vec3, waves: seq<real>, scatter: seq<real>, sqrt: real -> real)
      requires Valid() && rope != null
      requires |waves| == TOTAL_NODES && |scatter| == TOTAL_NODES
      modifies rope.nodes
      ensures Valid()
      ensures rope.nodes[..] == Stepped(old(rope.nodes[..]), Anchors(launcherPlane, LAUNCHER_HEIGHT, Vec2(anchor.x, anchor.y), anchor.z),
                                        rope.lateralAxis, GRAVITY, rope.solverIterations, rope.maxSegLen, waves, scatter, sqrt)
    {
      SimulateRope(rope, launcherPlane, anchor, waves, scatter, sqrt);
    }

    /** The rocket's part of a tick once the rope exists: the landed or
        flying branch and the map position. Returns where the rope's end is
        held and the exhaust signal. */
    method MoveRocket(now: int, hasMap: bool, inBounds: IntVec3 -> bool, round: real -> int, toCell: Vec3 -> IntVec3,
                      sqrt: real -> real)
      returns (anchor: Vec3, exhaust: bool)
      requires Valid() && rope != null && spawned
      modifies this
      ensures Valid() && rope == old(rope) && launcherPlane == old(launcherPlane)
      ensures launchSin == old(launchSin) && launchCos == old(launchCos)
      ensures anchor == RopeEnd(old(Rocket()))
      ensures Rocket() == FlightStep(old(Rocket()), now)
      ensures exhaust == Exhaust(old(Rocket()), origin, destination, sqrt)
      ensures position == toCell(ExactPosition())
      ensures if DetonationDue(old(Rocket()), now)
        then explosions == old(explosions) + Detonations(rope.nodes[CHARGE_START..], hasMap, inBounds, round) && !spawned
        else explosions == old(explosions) && spawned
    {
      if isLanded {
        anchor := Landed(now, hasMap, inBounds, round);
        exhaust := false;
      } else {
        anchor, exhaust := Fly(now, sqrt);
      }
      position := toCell(ExactPosition());
    }

    /** The rest of a tick once the rope exists: the rocket's part, then the rope step. */
    method Advance(now: int, hasMap: bool, inBounds: IntVec3 -> bool, round: real -> int, toCell: Vec3 -> IntVec3,
                   waves: seq<real>, scatter: seq<real>, sqrt: real -> real)
      returns (exhaust: bool)
      requires Valid() && rope != null && spawned
      requires |waves| == TOTAL_NODES && |scatter| == TOTAL_NODES
      modifies this, rope.nodes
      ensures Valid() && rope == old(rope) && launcherPlane == old(launcherPlane)
      ensures launchSin == old(launchSin) && launchCos == old(launchCos)
      ensures rope.lateralAxis == old(rope.lateralAxis) && rope.maxSegLen == old(rope.maxSegLen)
      ensures rope.solverIterations == old(rope.solverIterations)
      ensures Rocket() == FlightStep(old(Rocket()), now)
      ensures exhaust == Exhaust(old(Rocket()), origin, destination, sqrt)
      ensures position == toCell(ExactPosition())
      ensures if DetonationDue(old(Rocket()), now)
        then explosions == old(explosions) + Detonations(old(rope.nodes[..])[CHARGE_START..], hasMap, inBounds, round) && !spawned
        else explosions == old(explosions) && spawned
      ensures var e := RopeEnd(old(Rocket()));
        rope.nodes[..] == Stepped(old(rope.nodes[..]), Anchors(launcherPlane, LAUNCHER_HEIGHT, Vec2(e.x, e.y), e.z),
                                  rope.lateralAxis, GRAVITY, rope.solverIterations, rope.maxSegLen, waves, scatter, sqrt)
    {
      var anchor: Vec3;
      anchor, exhaust := MoveRocket(now, hasMap, inBounds, round, toCell, sqrt);
      StepRope(anchor, waves, scatter, sqrt);
    }

    /** One game tick at time `now`. Returns whether the exhaust is thrown. */
    method Tick(now: int, hasMap: bool, inBounds: IntVec3 -> bool, round: real -> int, toCell: Vec3 -> IntVec3,
                jitter: seq<real>, waves: seq<real>, scatter: seq<real>,
                sqrt: real -> real, atan: real -> real, sin: real -> real, cos: real -> real)
      returns (exhaust: bool)
      requires Valid() && IsSqrt(sqrt)
      requires |jitter| == TOTAL_NODES && |waves| == TOTAL_NODES && |scatter| == TOTAL_NODES
      modifies Footprint()
      ensures Valid()
      ensures !old(spawned) ==> !exhaust && unchanged(this) && (rope != null ==> unchanged(rope.nodes))
      ensures old(rope) != null ==>
        && rope == old(rope) && launcherPlane == old(launcherPlane)
        && launchSin == old(launchSin) && launchCos == old(launchCos)
        && rope.lateralAxis == old(rope.lateralAxis) && rope.maxSegLen == old(rope.maxSegLen)
        && rope.solverIterations == old(rope.solverIterations)
      ensures old(spawned) && old(rope) == null ==>
        && rope != null && fresh(rope)
        && rope.maxSegLen == SegmentLength(origin, destination, sqrt)
        && rope.solverIterations == SOLVER_ITERATIONS
        && rope.lateralAxis == Lateral(Normalized2(LaunchDirection(origin, destination, sqrt), sqrt))
        && launcherPlane == LauncherAnchor(origin, LaunchDirection(origin, destination, sqrt))
        && launchSin == sin(LaunchAngle(origin, destination, speed, sqrt, atan))
        && launchCos == cos(LaunchAngle(origin, destination, speed, sqrt, atan))
      ensures old(spawned) ==>
        && rope != null
        && Rocket() == FlightStep(old(StartOfTick(sqrt, atan, sin, cos)), now)
        && exhaust == Exhaust(old(StartOfTick(sqrt, atan, sin, cos)), origin, destination, sqrt)
        && position == toCell(ExactPosition())
      ensures old(spawned) ==>
        var r0 := old(StartOfTick(sqrt, atan, sin, cos));
        if DetonationDue(r0, now) then
          && explosions == old(explosions) + Detonations(old(NodesAtStart(sqrt, jitter))[CHARGE_START..], hasMap, inBounds, round)
          && !spawned
        else explosions == old(explosions) && spawned
      ensures old(spawned) ==>
        var e := RopeEnd(old(StartOfTick(sqrt, atan, sin, cos)));
        rope != null &&
        rope.nodes[..] == Stepped(old(NodesAtStart(sqrt, jitter)), Anchors(launcherPlane, LAUNCHER_HEIGHT, Vec2(e.x, e.y), e.z),
                                  rope.lateralAxis, GRAVITY, rope.solverIterations, rope.maxSegLen, waves, scatter, sqrt)
    {
      if !spawned {
        return false;
      }
      EnsureRopeInit(jitter, sqrt, atan, sin, cos);
      exhaust := Advance(now, hasMap, inBounds, round, toCell, waves, scatter, sqrt);
    }
  }
}
