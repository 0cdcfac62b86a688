/** The heavy-cable simulator behind the line charge: a chain of point masses
    advanced by position Verlet integration, held together by mass-weighted
    distance constraints relaxed in sequence (Gauss-Seidel), pinned at both
    ends, and stopped by ground contact with friction.

    Each step is specified by a function on the sequence of nodes
    (`Integrated`, `Pin`, `RelaxPass`, `Relaxed`, `Grounded`, `Stepped`,
    `Flaked`); the methods of `VerletRope` update the node array in place and
    promise that its new contents are that function of the old ones. */
module Rope {
  import opened UnityMath

  /** One point mass: where it is, where it was one step ago, and its weight. */
  datatype Node = Node(planePos: Vec2, height: real, prevPlanePos: Vec2, prevHeight: real, mass: real)

  /** A default-initialised node: every field zero. */
  const ZERO_NODE: Node := Node(ZERO2, 0.0, ZERO2, 0.0, 0.0)

  /** Velocity kept per step in the air and on the ground. */
  const DRAG_AIR: real := 0.985
  const DRAG_GROUND: real := 0.60
  /** Heights at or below this count as lying on the ground. */
  const GROUND_LEVEL: real := 0.01
  /** Only nodes above this height feel the turbulence term. */
  const TURBULENCE_LEVEL: real := 0.1
  /** A grounded node whose previous height was above this landed hard and scatters sideways. */
  const IMPACT_LEVEL: real := 0.05
  /** Bounds of the folded starting layout. */
  const MAX_FOLD_WIDTH: real := 0.2
  const MAX_FOLD_BACK: real := 0.02

  /** Where the two ends of the rope are held during a step. */
  datatype Anchors = Anchors(startPlane: Vec2, startH: real, endPlane: Vec2, endH: real)

  predicate PositiveMasses(s: seq<Node>) {
    forall j :: 0 <= j < |s| ==> s[j].mass > 0.0
  }

  predicate SameMasses(s: seq<Node>, t: seq<Node>) {
    |s| == |t| && forall j :: 0 <= j < |s| ==> s[j].mass == t[j].mass
  }

  lemma MassesCarryOver(s: seq<Node>, t: seq<Node>)
    requires PositiveMasses(s) && SameMasses(s, t)
    ensures PositiveMasses(t)
  {
    forall j | 0 <= j < |t|
      ensures t[j].mass > 0.0
    {
      assert s[j].mass == t[j].mass;
    }
  }

  /** Both ends sit exactly where the anchors say. */
  predicate PinnedAt(s: seq<Node>, a: Anchors) {
    2 <= |s|
    && s[0].planePos == a.startPlane && s[0].height == a.startH
    && s[|s| - 1].planePos == a.endPlane && s[|s| - 1].height == a.endH
  }

  /** The implicit velocity of a node: how far it moved in the last step. */
  function PlaneVelocity(nd: Node): Vec2 {
    nd.planePos.Minus(nd.prevPlanePos)
  }

  function VerticalVelocity(nd: Node): real {
    nd.height - nd.prevHeight
  }

  // ---------------------------------------------------------------------
  // Verlet integration

  /** The fraction of its velocity a node keeps: less on the ground. */
  function Drag(height: real): (d: real)
    ensures 0.0 < d < 1.0
    ensures d == DRAG_GROUND <==> height <= GROUND_LEVEL
  {
    if height <= GROUND_LEVEL then DRAG_GROUND else DRAG_AIR
  }

  /** One Verlet step of one interior node; `wave` is the turbulence
      amplitude for this node, applied along `lateral` only in the air. */
  function IntegrateNode(nd: Node, lateral: Vec2, wave: real, gravity: real): (r: Node)
    ensures r.prevPlanePos == nd.planePos && r.prevHeight == nd.height && r.mass == nd.mass
  {
    var drag := Drag(nd.height);
    var velP0 := nd.planePos.Minus(nd.prevPlanePos).Times(drag);
    var velH := (nd.height - nd.prevHeight) * drag;
    var velP := if nd.height > TURBULENCE_LEVEL then velP0.Plus(lateral.Times(wave)) else velP0;
    Node(nd.planePos.Plus(velP), nd.height + (velH - gravity), nd.planePos, nd.height, nd.mass)
  }

  /** After a Verlet step a node's implicit velocity is its old one damped
      by Drag, less gravity vertically, plus the turbulence sideways in the air. */
  lemma IntegratedVelocity(nd: Node, lateral: Vec2, wave: real, gravity: real)
    ensures var r := IntegrateNode(nd, lateral, wave, gravity);
      VerticalVelocity(r) == VerticalVelocity(nd) * Drag(nd.height) - gravity
      && (nd.height > TURBULENCE_LEVEL ==>
            PlaneVelocity(r) == PlaneVelocity(nd).Times(Drag(nd.height)).Plus(lateral.Times(wave)))
      && (nd.height <= TURBULENCE_LEVEL ==>
            PlaneVelocity(r) == PlaneVelocity(nd).Times(Drag(nd.height)))
  {
  }

  /** The integration pass: every interior node is stepped; the two ends are not touched. */
  function Integrated(s: seq<Node>, lateral: Vec2, waves: seq<real>, gravity: real): (r: seq<Node>)
    requires |waves| == |s|
    ensures SameMasses(s, r)
    ensures forall j :: 0 <= j < |s| && (j == 0 || j == |s| - 1) ==> r[j] == s[j]
  {
    seq(|s|, j requires 0 <= j < |s| =>
      if 0 < j < |s| - 1 then IntegrateNode(s[j], lateral, waves[j], gravity) else s[j])
  }

  /** Puts both ends at the anchors, leaving their history and mass alone. */
  function Pin(s: seq<Node>, a: Anchors): (r: seq<Node>)
    requires 2 <= |s|
    ensures PinnedAt(r, a) && SameMasses(s, r)
    ensures forall j :: 0 < j < |s| - 1 ==> r[j] == s[j]
    ensures r[0].prevPlanePos == s[0].prevPlanePos && r[0].prevHeight == s[0].prevHeight
    ensures r[|s| - 1].prevPlanePos == s[|s| - 1].prevPlanePos && r[|s| - 1].prevHeight == s[|s| - 1].prevHeight
  {
    var n := |s|;
    s[0 := s[0].(planePos := a.startPlane, height := a.startH)]
     [n - 1 := s[n - 1].(planePos := a.endPlane, height := a.endH)]
  }

  // ---------------------------------------------------------------------
  // Distance constraints

  /** The distance from node a to node b, through the square-root oracle:
      the root of the squared plane offset plus the squared height difference. */
  function Distance(a: Node, b: Node, sqrt: real -> real): real {
    Magnitude3(Offset(a, b), sqrt)
  }

  /** The distance between the nodes of pair i. */
  function PairGap(s: seq<Node>, i: int, sqrt: real -> real): real
    requires 0 <= i < |s| - 1
  {
    Distance(s[i], s[i + 1], sqrt)
  }

  /** The fraction of a pair's length that exceeds maxSegLen. */
  function Excess(dist: real, maxSegLen: real): real
    requires 0.0 < dist
  {
    (dist - maxSegLen) / dist
  }

  /** The full correction of a pair: the offset from a to b scaled by the
      excess fraction `diff`, in the plane and in height. */
  function Push(a: Node, b: Node, diff: real): (Vec2, real) {
    (b.planePos.Minus(a.planePos).Times(diff), (b.height - a.height) * diff)
  }

  /** The vector from node a to node b, height as the third component. */
  function Offset(a: Node, b: Node): Vec3 {
    Vec3(b.planePos.x - a.planePos.x, b.planePos.y - a.planePos.y, b.height - a.height)
  }

  /** The vector from node i to node i + 1. */
  function PairOffset(s: seq<Node>, i: int): Vec3
    requires 0 <= i < |s| - 1
  {
    Offset(s[i], s[i + 1])
  }

  /** The shares of a correction taken by the first and the second node of a
      pair: they add up to one, and the heavier node takes the smaller share. */
  function PairShares(massA: real, massB: real): (r: (real, real))
    requires 0.0 < massA && 0.0 < massB
    ensures r.0 + r.1 == 1.0
    ensures 0.0 < r.0 < 1.0 && 0.0 < r.1 < 1.0
    ensures r.0 < r.1 <==> massA > massB
    ensures r.0 == r.1 <==> massA == massB
  {
    var totalM := massA + massB;
    DivideOrder(massB, massA, totalM);
    DivideOrder(massA, massB, totalM);
    (massB / totalM, massA / totalM)
  }

  lemma DivideOrder(a: real, b: real, t: real)
    requires 0.0 < t
    ensures a / t < b / t <==> a < b
    ensures a / t == b / t <==> a == b
  {
    assert a / t * t == a && b / t * t == b;
    if a / t < b / t {
      assert a / t * t < b / t * t;
    }
  }

  /** Node moved forward along a push by its share. */
  function Advance(nd: Node, pushP: Vec2, pushH: real, share: real): Node {
    nd.(planePos := nd.planePos.Plus(pushP.Times(share)), height := nd.height + pushH * share)
  }

  /** Node moved backward along a push by its share. */
  function Retreat(nd: Node, pushP: Vec2, pushH: real, share: real): Node {
    nd.(planePos := nd.planePos.Minus(pushP.Times(share)), height := nd.height - pushH * share)
  }

  /** Relaxes pair (i, i + 1): when the pair is longer than maxSegLen, both
      nodes move along the segment, each by its share of the excess, except
      that a rope end never moves. */
  function RelaxPair(s: seq<Node>, i: int, maxSegLen: real, sqrt: real -> real): (r: seq<Node>)
    requires PositiveMasses(s) && 0 <= i < |s| - 1 && 0.0 <= maxSegLen
    ensures SameMasses(s, r)
    ensures forall j :: 0 <= j < |s| && j != i && j != i + 1 ==> r[j] == s[j]
    ensures r[0] == s[0] && r[|s| - 1] == s[|s| - 1]
    ensures PairGap(s, i, sqrt) <= maxSegLen ==> r == s
  {
    var a := s[i];
    var b := s[i + 1];
    var dist := Distance(a, b, sqrt);
    if dist <= maxSegLen then s
    else
      var push := Push(a, b, Excess(dist, maxSegLen));
      var shares := PairShares(a.mass, b.mass);
      var s1 := if i != 0 then s[i := Advance(a, push.0, push.1, shares.0)] else s;
      if i + 1 != |s| - 1 then s1[i + 1 := Retreat(b, push.0, push.1, shares.1)] else s1
  }

  /** Pairs 0 .. k - 1 relaxed in order, each seeing the result of the previous one. */
  function RelaxUpTo(s: seq<Node>, k: int, maxSegLen: real, sqrt: real -> real): (r: seq<Node>)
    requires PositiveMasses(s) && 0 <= k <= |s| - 1 && 0.0 <= maxSegLen
    ensures SameMasses(s, r)
    ensures r[0] == s[0] && r[|s| - 1] == s[|s| - 1]
    decreases k
  {
    if k == 0 then s
    else
      var prev := RelaxUpTo(s, k - 1, maxSegLen, sqrt);
      RelaxPair(prev, k - 1, maxSegLen, sqrt)
  }

  /** One full constraint pass over every pair of the rope. */
  function RelaxPass(s: seq<Node>, maxSegLen: real, sqrt: real -> real): (r: seq<Node>)
    requires PositiveMasses(s) && 2 <= |s| && 0.0 <= maxSegLen
    ensures SameMasses(s, r)
    ensures r[0] == s[0] && r[|s| - 1] == s[|s| - 1]
  {
    RelaxUpTo(s, |s| - 1, maxSegLen, sqrt)
  }

  /** Two ropes of the same length with the same two end nodes, history included. */
  predicate SameEnds(s: seq<Node>, t: seq<Node>) {
    2 <= |s| == |t| && t[0] == s[0] && t[|t| - 1] == s[|s| - 1]
  }

  /** One iteration of the solver: a constraint pass, then both ends re-pinned.
      Ends that were already at the anchors come out exactly as they went in. */
  function SolverPass(s: seq<Node>, a: Anchors, maxSegLen: real, sqrt: real -> real): (r: seq<Node>)
    requires PositiveMasses(s) && 2 <= |s| && 0.0 <= maxSegLen
    ensures SameMasses(s, r) && PinnedAt(r, a)
    ensures PinnedAt(s, a) ==> SameEnds(s, r)
  {
    Pin(RelaxPass(s, maxSegLen, sqrt), a)
  }

  /** `iterations` solver passes. A rope whose ends are at the anchors keeps
      both end nodes exactly as they were, however many passes run. */
  function Relaxed(s: seq<Node>, iterations: int, a: Anchors, maxSegLen: real, sqrt: real -> real): (r: seq<Node>)
    requires PositiveMasses(s) && 2 <= |s| && 0.0 <= maxSegLen
    ensures SameMasses(s, r)
    ensures PinnedAt(s, a) ==> SameEnds(s, r)
    decreases iterations
  {
    if iterations <= 0 then s
    else
      var prev := Relaxed(s, iterations - 1, a, maxSegLen, sqrt);
      MassesCarryOver(s, prev);
      SolverPass(prev, a, maxSegLen, sqrt)
  }

  lemma RelaxedUnfold(s: seq<Node>, k: int, a: Anchors, maxSegLen: real, sqrt: real -> real)
    requires PositiveMasses(s) && 2 <= |s| && 0.0 <= maxSegLen && 0 <= k
    ensures PositiveMasses(Relaxed(s, k, a, maxSegLen, sqrt))
    ensures Relaxed(s, k + 1, a, maxSegLen, sqrt) == SolverPass(Relaxed(s, k, a, maxSegLen, sqrt), a, maxSegLen, sqrt)
  {
    MassesCarryOver(s, Relaxed(s, k, a, maxSegLen, sqrt));
  }

  // ---------------------------------------------------------------------
  // Ground contact

  /** The sideways kick of a landing node: the draw scaled by its fall speed. */
  function FallScatter(nd: Node, draw: real): real {
    draw * (nd.prevHeight - nd.height)
  }

  /** The kick actually applied: only a hard landing scatters. */
  function ImpactScatter(nd: Node, draw: real): real {
    if nd.prevHeight > IMPACT_LEVEL then FallScatter(nd, draw) else 0.0
  }

  /** A hard landing: the node and its history are pushed sideways, the
      history by half as much, so the node gains a sideways velocity. */
  function Scattered(nd: Node, lateral: Vec2, scatter: real): Node {
    nd.(planePos := nd.planePos.Plus(lateral.Times(scatter)),
        prevPlanePos := nd.prevPlanePos.Plus(lateral.Times(scatter).Times(0.5)))
  }

  /** A node put on the ground: height and history height zero, and ground
      friction applied to its plane velocity. */
  function Settled(nd: Node): Node {
    var nd1 := nd.(height := 0.0, prevHeight := 0.0);
    var vel := nd1.planePos.Minus(nd1.prevPlanePos);
    nd1.(prevPlanePos := nd1.planePos.Minus(vel.Times(DRAG_GROUND)))
  }

  /** Ground contact of one interior node. */
  function GroundNode(nd: Node, lateral: Vec2, draw: real): (r: Node)
    ensures r.mass == nd.mass
    ensures nd.height > GROUND_LEVEL ==> r == nd
    ensures nd.height <= GROUND_LEVEL ==> r.height == 0.0 && r.prevHeight == 0.0
  {
    if nd.height <= GROUND_LEVEL then
      var nd1 := if nd.prevHeight > IMPACT_LEVEL then Scattered(nd, lateral, FallScatter(nd, draw)) else nd;
      Settled(nd1)
    else nd
  }

  /** A grounded node keeps DRAG_GROUND of its plane velocity, after a hard
      landing has added half of its sideways kick to that velocity. */
  lemma GroundedVelocity(nd: Node, lateral: Vec2, draw: real)
    requires nd.height <= GROUND_LEVEL
    ensures var r := GroundNode(nd, lateral, draw);
      var sc := ImpactScatter(nd, draw);
      r.planePos == nd.planePos.Plus(lateral.Times(sc))
      && PlaneVelocity(r) == PlaneVelocity(nd).Plus(lateral.Times(sc * 0.5)).Times(DRAG_GROUND)
  {
  }

  /** The ground pass over the interior nodes. Afterwards no interior node is
      between the ground and GROUND_LEVEL or below the ground. */
  function Grounded(s: seq<Node>, lateral: Vec2, scatter: seq<real>): (r: seq<Node>)
    requires |scatter| == |s|
    ensures SameMasses(s, r)
    ensures forall j :: 0 <= j < |s| && (j == 0 || j == |s| - 1) ==> r[j] == s[j]
    ensures forall j :: 0 < j < |s| - 1 ==> r[j].height == 0.0 || r[j].height > GROUND_LEVEL
  {
    seq(|s|, j requires 0 <= j < |s| =>
      if 0 < j < |s| - 1 then GroundNode(s[j], lateral, scatter[j]) else s[j])
  }

  /** A whole simulation step: integrate, pin, relax `iterations` times, ground. */
  function Stepped(s: seq<Node>, a: Anchors, lateral: Vec2, gravity: real, iterations: int,
                   maxSegLen: real, waves: seq<real>, scatter: seq<real>, sqrt: real -> real): (r: seq<Node>)
    requires PositiveMasses(s) && 2 <= |s| && 0.0 <= maxSegLen
    requires |waves| == |s| && |scatter| == |s|
    ensures SameMasses(s, r)
  {
    var pinned := Pin(Integrated(s, lateral, waves, gravity), a);
    Grounded(Relaxed(pinned, iterations, a, maxSegLen, sqrt), lateral, scatter)
  }

  // ---------------------------------------------------------------------
  // Folded starting layout

  /** The axis perpendicular to a direction, a quarter turn anticlockwise. */
  function Lateral(forward: Vec2): Vec2 {
    Vec2(-forward.y, forward.x)
  }

  /** +1 on even indices, -1 on odd ones: the rope zig-zags across the launcher. */
  function SideSign(i: int): real {
    if i % 2 == 0 then 1.0 else -1.0
  }

  function FoldWidth(maxSegLen: real): real {
    Min(MAX_FOLD_WIDTH, maxSegLen * 0.4)
  }

  function FoldBack(maxSegLen: real): real {
    Min(MAX_FOLD_BACK, maxSegLen * 0.1)
  }

  /** Where node i is laid down: sideways by the fold width, backwards by one
      fold step for every two nodes. */
  function FoldPosition(i: int, plane: Vec2, forward: Vec2, width: real, back: real): Vec2 {
    plane.Plus(Lateral(forward).Times(width * SideSign(i))).Minus(forward.Times((i / 2) as real * back))
  }

  function FlakedNode(nd: Node, i: int, plane: Vec2, h: real, forward: Vec2, width: real, back: real, jitter: real): Node {
    var p := FoldPosition(i, plane, forward, width, back);
    nd.(planePos := p, prevPlanePos := p, height := h + jitter, prevHeight := h + jitter)
  }

  /** The folded layout: every node at rest on its fold position, masses kept. */
  function Flaked(s: seq<Node>, plane: Vec2, h: real, forward: Vec2, width: real, back: real, jitter: seq<real>): (r: seq<Node>)
    requires |jitter| == |s|
    ensures SameMasses(s, r)
    ensures forall j :: 0 <= j < |s| ==> r[j].prevPlanePos == r[j].planePos && r[j].prevHeight == r[j].height
  {
    seq(|s|, j requires 0 <= j < |s| => FlakedNode(s[j], j, plane, h, forward, width, back, jitter[j]))
  }

  // ---------------------------------------------------------------------
  // The simulator object

  class VerletRope {
    const nodes: array<Node>
    const nodeCount: int
    const maxSegLen: real
    const gravity: real
    const solverIterations: int
    var lateralAxis: Vec2

    ghost predicate Valid()
      reads this
    {
      nodes.Length == nodeCount && 2 <= nodeCount && 0.0 <= maxSegLen
    }

    /** A rope of n default nodes whose segments may each be totalLength / (n - 1) long. */
    constructor (n: int, totalLength: real, grav: real, iterations: int)
      requires 2 <= n && 0.0 <= totalLength
      ensures Valid() && fresh(nodes)
      ensures nodeCount == n && maxSegLen == totalLength / (n - 1) as real
      ensures gravity == grav && solverIterations == iterations
      ensures nodes[..] == seq(n, _ => ZERO_NODE) && lateralAxis == ZERO2
    {
      nodeCount := n;
      maxSegLen := totalLength / (n - 1) as real;
      gravity := grav;
      solverIterations := iterations;
      nodes := new Node[n](_ => ZERO_NODE);
      lateralAxis := ZERO2;
    }

    /** Lays the rope down folded behind `plane`, facing `direction`; jitter[i]
        is the random height offset of node i. */
    method InitFlaked(plane: Vec2, h: real, direction: Vec2, jitter: seq<real>, sqrt: real -> real)
      requires Valid() && |jitter| == nodeCount
      modifies this, nodes
      ensures Valid()
      ensures lateralAxis == Lateral(Normalized2(direction, sqrt))
      ensures nodes[..] == Flaked(old(nodes[..]), plane, h, Normalized2(direction, sqrt),
                                  FoldWidth(maxSegLen), FoldBack(maxSegLen), jitter)
    {
      var forward := Normalized2(direction, sqrt);
      lateralAxis := Lateral(forward);
      var safeWidth := FoldWidth(maxSegLen);
      var safeBack := FoldBack(maxSegLen);
      var i := 0;
      while i < nodeCount
        modifies nodes
        invariant 0 <= i <= nodeCount
        invariant forall j :: 0 <= j < i ==> nodes[j] == FlakedNode(old(nodes[j]), j, plane, h, forward, safeWidth, safeBack, jitter[j])
        invariant forall j :: i <= j < nodeCount ==> nodes[j] == old(nodes[j])
      {
        var pos := FoldPosition(i, plane, forward, safeWidth, safeBack);
        var height := h + jitter[i];
        nodes[i] := nodes[i].(planePos := pos, prevPlanePos := pos, height := height, prevHeight := height);
        i := i + 1;
      }
      assert nodes[..] == Flaked(old(nodes[..]), plane, h, forward, safeWidth, safeBack, jitter);
    }

    /** One simulation step with both ends held at the given positions.
        waves[i] is the turbulence amplitude and scatter[i] the impact draw of node i. */
    method Simulate(startPlane: Vec2, startH: real, endPlane: Vec2, endH: real,
                    waves: seq<real>, scatter: seq<real>, sqrt: real -> real)
      requires Valid() && PositiveMasses(nodes[..])
      requires |waves| == nodeCount && |scatter| == nodeCount
      modifies nodes
      ensures nodes[..] == Stepped(old(nodes[..]), Anchors(startPlane, startH, endPlane, endH), lateralAxis,
                                   gravity, solverIterations, maxSegLen, waves, scatter, sqrt)
    {
      ghost var s0 := nodes[..];
      var a := Anchors(startPlane, startH, endPlane, endH);
      VerletIntegrate(waves);
      MassesCarryOver(s0, nodes[..]);
      PinEnds(a);
      MassesCarryOver(s0, nodes[..]);
      SolveConstraints(a, sqrt);
      GroundContact(scatter);
    }

    /** The solver loop of Simulate: solverIterations constraint passes, each
        followed by re-pinning both ends. */
    method SolveConstraints(a: Anchors, sqrt: real -> real)
      requires Valid() && PositiveMasses(nodes[..])
      modifies nodes
      ensures nodes[..] == Relaxed(old(nodes[..]), solverIterations, a, maxSegLen, sqrt)
    {
      ghost var s0 := nodes[..];
      var iter := 0;
      var count := if solverIterations < 0 then 0 else solverIterations;
      assert Relaxed(s0, solverIterations, a, maxSegLen, sqrt) == Relaxed(s0, count, a, maxSegLen, sqrt);
      while iter < count
        invariant 0 <= iter <= count
        invariant nodes[..] == Relaxed(s0, iter, a, maxSegLen, sqrt)
        invariant PositiveMasses(nodes[..])
      {
        RelaxedUnfold(s0, iter, a, maxSegLen, sqrt);
        SolverIteration(a, sqrt);
        iter := iter + 1;
      }
    }

    /** One iteration of the solver loop: a constraint pass, then both ends re-pinned. */
    method SolverIteration(a: Anchors, sqrt: real -> real)
      requires Valid() && PositiveMasses(nodes[..])
      modifies nodes
      ensures nodes[..] == SolverPass(old(nodes[..]), a, maxSegLen, sqrt)
      ensures PositiveMasses(nodes[..])
    {
      ghost var before := nodes[..];
      ApplyTensionConstraints(sqrt);
      ghost var mid := nodes[..];
      MassesCarryOver(before, mid);
      PinEnds(a);
      MassesCarryOver(mid, nodes[..]);
    }

    /** The ground pass that ends Simulate: interior nodes at or below
        GROUND_LEVEL are put on the ground with friction. */
    method GroundContact(scatter: seq<real>)
      requires Valid() && |scatter| == nodeCount
      modifies nodes
      ensures nodes[..] == Grounded(old(nodes[..]), lateralAxis, scatter)
    {
      var i := 1;
      while i < nodeCount - 1
        invariant 1 <= i <= nodeCount - 1
        invariant forall j :: 0 < j < i ==> nodes[j] == GroundNode(old(nodes[j]), lateralAxis, scatter[j])
        invariant forall j :: 0 <= j < nodeCount && !(0 < j < i) ==> nodes[j] == old(nodes[j])
      {
        var nd := nodes[i];
        if nd.height <= GROUND_LEVEL {
          if nd.prevHeight > IMPACT_LEVEL {
            nd := Scattered(nd, lateralAxis, FallScatter(nd, scatter[i]));
          }
          nd := Settled(nd);
          nodes[i] := nd;
        }
        i := i + 1;
      }
      assert nodes[..] == Grounded(old(nodes[..]), lateralAxis, scatter);
    }

    /** Holds both ends at the anchors. */
    method PinEnds(a: Anchors)
      requires Valid()
      modifies nodes
      ensures nodes[..] == Pin(old(nodes[..]), a)
    {
      nodes[0] := nodes[0].(planePos := a.startPlane, height := a.startH);
      nodes[nodeCount - 1] := nodes[nodeCount - 1].(planePos := a.endPlane, height := a.endH);
    }

    method VerletIntegrate(waves: seq<real>)
      requires Valid() && |waves| == nodeCount
      modifies nodes
      ensures nodes[..] == Integrated(old(nodes[..]), lateralAxis, waves, gravity)
    {
      var i := 1;
      while i < nodeCount - 1
        invariant 1 <= i <= nodeCount - 1
        invariant forall j :: 0 <= j < nodeCount ==>
          nodes[j] == if 0 < j < i then IntegrateNode(old(nodes[j]), lateralAxis, waves[j], gravity) else old(nodes[j])
      {
        nodes[i] := IntegrateNode(nodes[i], lateralAxis, waves[i], gravity);
        i := i + 1;
      }
      assert nodes[..] == Integrated(old(nodes[..]), lateralAxis, waves, gravity);
    }

    method ApplyTensionConstraints(sqrt: real -> real)
      requires Valid() && PositiveMasses(nodes[..])
      modifies nodes
      ensures nodes[..] == RelaxPass(old(nodes[..]), maxSegLen, sqrt)
    {
      var i := 0;
      while i < nodeCount - 1
        invariant 0 <= i <= nodeCount - 1
        invariant nodes[..] == RelaxUpTo(old(nodes[..]), i, maxSegLen, sqrt)
      {
        ghost var before := nodes[..];
        var dist := Distance(nodes[i], nodes[i + 1], sqrt);
        if dist > maxSegLen {
          var diff := Excess(dist, maxSegLen);
          var push := Push(nodes[i], nodes[i + 1], diff);
          var shares := PairShares(nodes[i].mass, nodes[i + 1].mass);
          if i != 0 {
            nodes[i] := Advance(nodes[i], push.0, push.1, shares.0);
          }
          if i + 1 != nodeCount - 1 {
            nodes[i + 1] := Retreat(nodes[i + 1], push.0, push.1, shares.1);
          }
        }
        assert nodes[..] == RelaxPair(before, i, maxSegLen, sqrt);
        i := i + 1;
      }
    }

    /** The drawing position of node `index` on layer `layerY`: the plane
        position with the height folded into the depth axis. Changes nothing. */
    method GetVisualPos(index: int, layerY: real) returns (p: Vec3)
      requires Valid() && 0 <= index < nodeCount
      ensures p == Vec3(nodes[index].planePos.x, layerY, nodes[index].planePos.y + nodes[index].height)
    {
      p := Vec3(nodes[index].planePos.x, layerY, nodes[index].planePos.y + nodes[index].height);
    }
  }
}
