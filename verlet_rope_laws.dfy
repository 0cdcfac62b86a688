/** Properties of the rope simulation, stated over the specification
    functions of module Rope: what a step does to the two held ends, how far a
    constraint pass corrects a stretched segment, and what shape the folded
    starting layout has. */
module RopeLaws {
  import opened UnityMath
  import opened Rope

  // ---------------------------------------------------------------------
  // The held ends

  /** A whole step moves each end to its anchor and changes nothing else about
      it: its history and its mass are those it had before the step. */
  lemma SteppedEnds(s: seq<Node>, a: Anchors, lateral: Vec2, gravity: real, iterations: int,
                    maxSegLen: real, waves: seq<real>, scatter: seq<real>, sqrt: real -> real)
    requires PositiveMasses(s) && 2 <= |s| && 0.0 <= maxSegLen
    requires |waves| == |s| && |scatter| == |s|
    ensures var r := Stepped(s, a, lateral, gravity, iterations, maxSegLen, waves, scatter, sqrt);
      |r| == |s|
      && r[0] == s[0].(planePos := a.startPlane, height := a.startH)
      && r[|s| - 1] == s[|s| - 1].(planePos := a.endPlane, height := a.endH)
  {
    var n := |s|;
    var integrated := Integrated(s, lateral, waves, gravity);
    var pinned := Pin(integrated, a);
    MassesCarryOver(s, integrated);
    MassesCarryOver(integrated, pinned);
    assert pinned[0] == s[0].(planePos := a.startPlane, height := a.startH);
    assert pinned[n - 1] == s[n - 1].(planePos := a.endPlane, height := a.endH);
    var relaxed := Relaxed(pinned, iterations, a, maxSegLen, sqrt);
    var r := Grounded(relaxed, lateral, scatter);
    assert r[0] == relaxed[0] && r[n - 1] == relaxed[n - 1];
  }

  // ---------------------------------------------------------------------
  // Distance constraints

  /** Scaling a vector by a non-negative factor scales its length by that factor. */
  lemma ScaledLength(v: Vec3, f: real, sqrt: real -> real)
    requires IsSqrt(sqrt) && 0.0 <= f
    ensures Magnitude3(v.Times(f), sqrt) == f * Magnitude3(v, sqrt)
  {
    var m := Magnitude3(v, sqrt);
    MagnitudeLaw3(v, sqrt);
    ScaledSqrMagnitude3(v, f);
    assert (f * m) * (f * m) == (f * f) * (m * m);
    MulNonNegative(f, m);
    SqrtUnique(sqrt, v.Times(f).SqrMagnitude(), f * m);
  }

  lemma MulNonNegative(a: real, b: real)
    requires 0.0 <= a && 0.0 <= b
    ensures 0.0 <= a * b
  {
    if a > 0.0 && b > 0.0 {
      MulPositive(a, b);
    }
  }

  /** Moving a node by a zero share leaves it where it is. */
  lemma NoShareNoMove(nd: Node, pushP: Vec2, pushH: real)
    ensures Advance(nd, pushP, pushH, 0.0) == nd && Retreat(nd, pushP, pushH, 0.0) == nd
  {
    assert pushP.Times(0.0) == ZERO2;
    assert nd.planePos.Plus(ZERO2) == nd.planePos && nd.planePos.Minus(ZERO2) == nd.planePos;
  }

  /** The factor by which a pair correction scales the offset of the pair,
      when the shares of the nodes that move add up to `moved`. */
  function ShrinkFactor(moved: real, diff: real): real {
    1.0 - moved * diff
  }

  /** Node a advanced and node b retreated along the push of their pair, by
      shares sa and sb: the offset from a to b is scaled by ShrinkFactor. */
  lemma CorrectedNodes(a: Node, b: Node, diff: real, sa: real, sb: real)
    ensures var push := Push(a, b, diff);
      Offset(Advance(a, push.0, push.1, sa), Retreat(b, push.0, push.1, sb))
        == Offset(a, b).Times(ShrinkFactor(sa + sb, diff))
  {
    CorrectedX(a, b, diff, sa, sb);
    CorrectedY(a, b, diff, sa, sb);
    CorrectedHeight(a, b, diff, sa, sb);
  }

  lemma CorrectedX(a: Node, b: Node, diff: real, sa: real, sb: real)
    ensures var push := Push(a, b, diff);
      Offset(Advance(a, push.0, push.1, sa), Retreat(b, push.0, push.1, sb)).x
        == Offset(a, b).x * ShrinkFactor(sa + sb, diff)
  {
    var push := Push(a, b, diff);
    var p := push.0.x;
    assert p == (b.planePos.x - a.planePos.x) * diff;
    assert Advance(a, push.0, push.1, sa).planePos.x == a.planePos.x + p * sa;
    assert Retreat(b, push.0, push.1, sb).planePos.x == b.planePos.x - p * sb;
    ShrinkCoordinate(a.planePos.x, b.planePos.x, p, diff, sa, sb);
  }

  lemma CorrectedY(a: Node, b: Node, diff: real, sa: real, sb: real)
    ensures var push := Push(a, b, diff);
      Offset(Advance(a, push.0, push.1, sa), Retreat(b, push.0, push.1, sb)).y
        == Offset(a, b).y * ShrinkFactor(sa + sb, diff)
  {
    var push := Push(a, b, diff);
    var p := push.0.y;
    assert p == (b.planePos.y - a.planePos.y) * diff;
    assert Advance(a, push.0, push.1, sa).planePos.y == a.planePos.y + p * sa;
    assert Retreat(b, push.0, push.1, sb).planePos.y == b.planePos.y - p * sb;
    ShrinkCoordinate(a.planePos.y, b.planePos.y, p, diff, sa, sb);
  }

  lemma CorrectedHeight(a: Node, b: Node, diff: real, sa: real, sb: real)
    ensures var push := Push(a, b, diff);
      Offset(Advance(a, push.0, push.1, sa), Retreat(b, push.0, push.1, sb)).z
        == Offset(a, b).z * ShrinkFactor(sa + sb, diff)
  {
    var push := Push(a, b, diff);
    var p := push.1;
    assert p == (b.height - a.height) * diff;
    assert Advance(a, push.0, push.1, sa).height == a.height + p * sa;
    assert Retreat(b, push.0, push.1, sb).height == b.height - p * sb;
    ShrinkCoordinate(a.height, b.height, p, diff, sa, sb);
  }

  /** One coordinate of a pair correction: u and v moved towards each other
      by shares sa and sb of p, which is diff times their difference. */
  lemma ShrinkCoordinate(u: real, v: real, p: real, diff: real, sa: real, sb: real)
    requires p == (v - u) * diff
    ensures (v - p * sb) - (u + p * sa) == (v - u) * ShrinkFactor(sa + sb, diff)
  {
    assert p * sb + p * sa == p * (sa + sb);
    assert (v - u) * ShrinkFactor(sa + sb, diff) == (v - u) - p * (sa + sb);
  }

  /** The two nodes of a stretched pair after its correction: each moves by
      its share of the push unless it is an end of the rope. */
  lemma RelaxPairMoves(s: seq<Node>, i: int, maxSegLen: real, sqrt: real -> real)
    requires PositiveMasses(s) && 0 <= i < |s| - 1 && 0.0 <= maxSegLen
    requires PairGap(s, i, sqrt) > maxSegLen
    ensures var push := Push(s[i], s[i + 1], Excess(PairGap(s, i, sqrt), maxSegLen));
      var shares := PairShares(s[i].mass, s[i + 1].mass);
      var r := RelaxPair(s, i, maxSegLen, sqrt);
      r[i] == Advance(s[i], push.0, push.1, if i != 0 then shares.0 else 0.0)
      && r[i + 1] == Retreat(s[i + 1], push.0, push.1, if i + 1 != |s| - 1 then shares.1 else 0.0)
  {
    var push := Push(s[i], s[i + 1], Excess(PairGap(s, i, sqrt), maxSegLen));
    NoShareNoMove(s[i], push.0, push.1);
    NoShareNoMove(s[i + 1], push.0, push.1);
  }

  /** What one pair correction does to a stretched pair: the offset between
      its nodes is scaled by ShrinkFactor, where moved adds up the shares of
      the nodes that are not rope ends. */
  lemma CorrectedOffset(s: seq<Node>, i: int, maxSegLen: real, sqrt: real -> real)
    requires PositiveMasses(s) && 0 <= i < |s| - 1 && 0.0 <= maxSegLen
    requires PairGap(s, i, sqrt) > maxSegLen
    ensures var shares := PairShares(s[i].mass, s[i + 1].mass);
      var moved := (if i != 0 then shares.0 else 0.0) + (if i + 1 != |s| - 1 then shares.1 else 0.0);
      var r := RelaxPair(s, i, maxSegLen, sqrt);
      PairOffset(r, i) == PairOffset(s, i).Times(ShrinkFactor(moved, Excess(PairGap(s, i, sqrt), maxSegLen)))
  {
    var shares := PairShares(s[i].mass, s[i + 1].mass);
    var sa := if i != 0 then shares.0 else 0.0;
    var sb := if i + 1 != |s| - 1 then shares.1 else 0.0;
    RelaxPairMoves(s, i, maxSegLen, sqrt);
    CorrectedNodes(s[i], s[i + 1], Excess(PairGap(s, i, sqrt), maxSegLen), sa, sb);
  }

  /** When both nodes move and their shares add up to one, the offset is
      scaled by maxSegLen / dist, which brings its length down to maxSegLen. */
  lemma FullShrink(dist: real, maxSegLen: real)
    requires 0.0 <= maxSegLen < dist
    ensures ShrinkFactor(1.0, Excess(dist, maxSegLen)) == maxSegLen / dist
    ensures 0.0 <= maxSegLen / dist && maxSegLen / dist * dist == maxSegLen
  {
  }

  /** When only one node moves, by a share strictly between zero and one, the
      pair ends up strictly between maxSegLen and its old length. */
  lemma PartialShrink(dist: real, maxSegLen: real, moved: real, dist2: real)
    requires 0.0 <= maxSegLen < dist && 0.0 < moved < 1.0
    requires dist2 == ShrinkFactor(moved, Excess(dist, maxSegLen)) * dist
    ensures 0.0 <= ShrinkFactor(moved, Excess(dist, maxSegLen))
    ensures maxSegLen < dist2 < dist
  {
    var diff := Excess(dist, maxSegLen);
    assert diff * dist == dist - maxSegLen;
    var f := ShrinkFactor(moved, diff);
    assert f * dist == dist - moved * (dist - maxSegLen);
    MulPositive(moved, dist - maxSegLen);
    MulPositive(1.0 - moved, dist - maxSegLen);
    assert 0.0 < f * dist;
    if f < 0.0 {
      MulPositive(-f, dist);
    }
  }

  /** A vector scaled by the factor of a full correction is maxSegLen long. */
  lemma FullScaling(v: Vec3, maxSegLen: real, sqrt: real -> real)
    requires IsSqrt(sqrt) && 0.0 <= maxSegLen < Magnitude3(v, sqrt)
    ensures Magnitude3(v.Times(maxSegLen / Magnitude3(v, sqrt)), sqrt) == maxSegLen
  {
    var d := Magnitude3(v, sqrt);
    FullShrink(d, maxSegLen);
    ScaledLength(v, maxSegLen / d, sqrt);
  }

  /** A vector scaled by the factor of a partial correction ends up strictly
      between maxSegLen and its old length. */
  lemma PartialScaling(v: Vec3, maxSegLen: real, moved: real, sqrt: real -> real)
    requires IsSqrt(sqrt) && 0.0 <= maxSegLen < Magnitude3(v, sqrt) && 0.0 < moved < 1.0
    ensures var f := ShrinkFactor(moved, Excess(Magnitude3(v, sqrt), maxSegLen));
      maxSegLen < Magnitude3(v.Times(f), sqrt) < Magnitude3(v, sqrt)
  {
    var d := Magnitude3(v, sqrt);
    var f := ShrinkFactor(moved, Excess(d, maxSegLen));
    PartialShrink(d, maxSegLen, moved, f * d);
    ScaledLength(v, f, sqrt);
    PartialShrink(d, maxSegLen, moved, Magnitude3(v.Times(f), sqrt));
  }

  /** A stretched pair of two interior nodes is corrected in full: both nodes
      move, and afterwards they are exactly maxSegLen apart along the same line. */
  lemma InteriorPairCorrected(s: seq<Node>, i: int, maxSegLen: real, sqrt: real -> real)
    requires IsSqrt(sqrt)
    requires PositiveMasses(s) && 0 < i && i + 1 < |s| - 1 && 0.0 <= maxSegLen
    requires PairGap(s, i, sqrt) > maxSegLen
    ensures var r := RelaxPair(s, i, maxSegLen, sqrt);
      PairOffset(r, i) == PairOffset(s, i).Times(maxSegLen / PairGap(s, i, sqrt))
      && PairGap(r, i, sqrt) == maxSegLen
  {
    var r := RelaxPair(s, i, maxSegLen, sqrt);
    CorrectedOffset(s, i, maxSegLen, sqrt);
    FullShrink(PairGap(s, i, sqrt), maxSegLen);
    FullScaling(PairOffset(s, i), maxSegLen, sqrt);
  }

  /** A stretched pair that holds one end of the rope is corrected only in
      part: the end node stays put, the other takes only its share, and the
      pair stays longer than maxSegLen while getting strictly shorter. */
  lemma EndPairPartlyCorrected(s: seq<Node>, i: int, maxSegLen: real, sqrt: real -> real)
    requires IsSqrt(sqrt)
    requires PositiveMasses(s) && 3 <= |s| && (i == 0 || i == |s| - 2) && 0.0 <= maxSegLen
    requires PairGap(s, i, sqrt) > maxSegLen
    ensures var r := RelaxPair(s, i, maxSegLen, sqrt);
      maxSegLen < PairGap(r, i, sqrt) < PairGap(s, i, sqrt)
  {
    var r := RelaxPair(s, i, maxSegLen, sqrt);
    CorrectedOffset(s, i, maxSegLen, sqrt);
    var shares := PairShares(s[i].mass, s[i + 1].mass);
    if i == 0 {
      PartialScaling(PairOffset(s, i), maxSegLen, shares.1, sqrt);
    } else {
      PartialScaling(PairOffset(s, i), maxSegLen, shares.0, sqrt);
    }
  }

  /** A rope of two nodes is held at both ends: constraints never move it. */
  lemma TwoNodeRopeRigid(s: seq<Node>, maxSegLen: real, sqrt: real -> real)
    requires PositiveMasses(s) && |s| == 2 && 0.0 <= maxSegLen
    ensures RelaxPass(s, maxSegLen, sqrt) == s
  {
    assert RelaxUpTo(s, 0, maxSegLen, sqrt) == s;
  }

  // ---------------------------------------------------------------------
  // Ground contact

  /** A node lying still on the ground stays exactly where it is. */
  lemma RestingNodeStays(nd: Node, lateral: Vec2, draw: real)
    requires nd.height == 0.0 && nd.prevHeight == 0.0 && nd.prevPlanePos == nd.planePos
    ensures GroundNode(nd, lateral, draw) == nd
  {
    assert nd.(height := 0.0, prevHeight := 0.0) == nd;
    var vel := nd.planePos.Minus(nd.prevPlanePos);
    assert vel == ZERO2;
    assert vel.Times(DRAG_GROUND) == ZERO2;
    assert nd.planePos.Minus(ZERO2) == nd.planePos;
    assert Settled(nd) == nd;
  }

  // ---------------------------------------------------------------------
  // Folded starting layout

  /** The lateral axis and the facing direction are orthonormal, so a
      combination of them has the squared length of its two coefficients. */
  lemma LateralOrthonormal(f: Vec2, p: real, q: real)
    requires f.SqrMagnitude() == 1.0
    ensures Lateral(f).SqrMagnitude() == 1.0 && Lateral(f).Dot(f) == 0.0
    ensures Lateral(f).Times(p).Plus(f.Times(q)).SqrMagnitude() == p * p + q * q
  {
    var v := Lateral(f).Times(p).Plus(f.Times(q));
    assert v.x == -f.y * p + f.x * q && v.y == f.x * p + f.y * q;
    assert v.x * v.x == f.y * f.y * (p * p) - 2.0 * (f.x * f.y) * (p * q) + f.x * f.x * (q * q);
    assert v.y * v.y == f.x * f.x * (p * p) + 2.0 * (f.x * f.y) * (p * q) + f.y * f.y * (q * q);
    assert v.SqrMagnitude() == (f.x * f.x + f.y * f.y) * (p * p + q * q);
  }

  /** Fold position i relative to the launcher: width * SideSign(i) along
      the lateral axis and (i / 2) fold steps backwards. */
  lemma FoldOffset(i: int, plane: Vec2, forward: Vec2, width: real, back: real)
    ensures FoldPosition(i, plane, forward, width, back).Minus(plane)
         == Lateral(forward).Times(width * SideSign(i)).Plus(forward.Times(-((i / 2) as real * back)))
  {
  }

  /** With a unit facing direction, node j of the folded layout lies
      width * SideSign(j) to the side of `plane` and (j / 2) * back behind it. */
  lemma FlakedOffsets(s: seq<Node>, plane: Vec2, h: real, forward: Vec2, width: real, back: real,
                      jitter: seq<real>, j: int)
    requires |jitter| == |s| && 0 <= j < |s| && forward.SqrMagnitude() == 1.0
    ensures var off := Flaked(s, plane, h, forward, width, back, jitter)[j].planePos.Minus(plane);
      off.Dot(Lateral(forward)) == width * SideSign(j)
      && off.Dot(forward) == -((j / 2) as real * back)
  {
    var p := width * SideSign(j);
    var q := -((j / 2) as real * back);
    LateralOrthonormal(forward, p, q);
    FoldOffset(j, plane, forward, width, back);
    var l := Lateral(forward);
    var off := l.Times(p).Plus(forward.Times(q));
    assert off.Dot(l) == p * l.SqrMagnitude() + q * l.Dot(forward);
    assert off.Dot(forward) == p * l.Dot(forward) + q * forward.SqrMagnitude();
  }

  /** From one fold position to the next: across the launcher by twice the
      width, and one fold step back after every odd index. */
  lemma FoldStep(j: int, plane: Vec2, forward: Vec2, width: real, back: real)
    requires 0 <= j
    ensures FoldPosition(j + 1, plane, forward, width, back).Minus(FoldPosition(j, plane, forward, width, back))
         == Lateral(forward).Times(if j % 2 == 0 then -2.0 * width else 2.0 * width)
              .Plus(forward.Times(if j % 2 == 0 then 0.0 else -back))
  {
    var k := (j / 2) as real;
    var l := Lateral(forward);
    if j % 2 == 0 {
      assert (j + 1) / 2 == j / 2;
      assert l.x * (width * -1.0) - l.x * (width * 1.0) == l.x * (-2.0 * width);
      assert l.y * (width * -1.0) - l.y * (width * 1.0) == l.y * (-2.0 * width);
    } else {
      assert (j + 1) / 2 == j / 2 + 1;
      assert forward.x * ((k + 1.0) * back) - forward.x * (k * back) == forward.x * back;
      assert forward.y * ((k + 1.0) * back) - forward.y * (k * back) == forward.y * back;
      assert l.x * (width * 1.0) - l.x * (width * -1.0) == l.x * (2.0 * width);
      assert l.y * (width * 1.0) - l.y * (width * -1.0) == l.y * (2.0 * width);
    }
  }

  /** The fold width and step are non-negative and bounded by 0.4 and 0.1
      segment lengths. */
  lemma FoldBounds(maxSegLen: real)
    requires 0.0 <= maxSegLen
    ensures 0.0 <= FoldWidth(maxSegLen) <= 0.4 * maxSegLen
    ensures 0.0 <= FoldBack(maxSegLen) <= 0.1 * maxSegLen
  {
  }

  /** The squared length of a fold step, bounded through the width and step bounds. */
  lemma StepBound(p: real, q: real, w: real, b: real, maxSegLen: real)
    requires 0.0 <= w <= 0.4 * maxSegLen && 0.0 <= b <= 0.1 * maxSegLen
    requires p * p == 4.0 * (w * w) && (q == 0.0 || q * q == b * b)
    ensures p * p + q * q <= 0.65 * (maxSegLen * maxSegLen)
  {
    SquareMonotone(w, 0.4 * maxSegLen);
    SquareMonotone(b, 0.1 * maxSegLen);
  }

  /** Consecutive fold positions for a unit facing direction are at most
      sqrt(0.65) * maxSegLen apart. */
  lemma FoldSlack(j: int, plane: Vec2, forward: Vec2, maxSegLen: real)
    requires 0 <= j && forward.SqrMagnitude() == 1.0 && 0.0 <= maxSegLen
    ensures var w := FoldWidth(maxSegLen);
      var b := FoldBack(maxSegLen);
      FoldPosition(j + 1, plane, forward, w, b).Minus(FoldPosition(j, plane, forward, w, b)).SqrMagnitude()
        <= 0.65 * (maxSegLen * maxSegLen)
  {
    var w := FoldWidth(maxSegLen);
    var b := FoldBack(maxSegLen);
    var p := if j % 2 == 0 then -2.0 * w else 2.0 * w;
    var q := if j % 2 == 0 then 0.0 else -b;
    FoldStep(j, plane, forward, w, b);
    LateralOrthonormal(forward, p, q);
    FoldBounds(maxSegLen);
    StepBound(p, q, w, b, maxSegLen);
  }

  /** The fold is conservative: for a unit facing direction, neighbouring
      nodes of the folded layout are at most sqrt(0.65) * maxSegLen apart in
      the plane, so a rope laid down this way starts slack. */
  lemma FlakedSlack(s: seq<Node>, plane: Vec2, h: real, forward: Vec2, maxSegLen: real,
                    jitter: seq<real>, j: int)
    requires |jitter| == |s| && 0 <= j < |s| - 1 && forward.SqrMagnitude() == 1.0 && 0.0 <= maxSegLen
    ensures var r := Flaked(s, plane, h, forward, FoldWidth(maxSegLen), FoldBack(maxSegLen), jitter);
      r[j + 1].planePos.Minus(r[j].planePos).SqrMagnitude() <= 0.65 * (maxSegLen * maxSegLen)
  {
    FoldSlack(j, plane, forward, maxSegLen);
  }

  /** With the layout's height jitter drawn from [-0.01, 0.01], neighbouring
      nodes of the folded layout are at most 0.65 * maxSegLen^2 + 0.0004 apart
      squared in space, so from a segment length of 0.04 on no pair starts
      stretched beyond maxSegLen. */
  lemma FlakedStartsSlack(s: seq<Node>, plane: Vec2, h: real, forward: Vec2, maxSegLen: real,
                          jitter: seq<real>, j: int)
    requires |jitter| == |s| && 0 <= j < |s| - 1 && forward.SqrMagnitude() == 1.0 && 0.0 <= maxSegLen
    requires forall k :: 0 <= k < |jitter| ==> -0.01 <= jitter[k] <= 0.01
    ensures var r := Flaked(s, plane, h, forward, FoldWidth(maxSegLen), FoldBack(maxSegLen), jitter);
      Offset(r[j], r[j + 1]).SqrMagnitude() <= 0.65 * (maxSegLen * maxSegLen) + 0.0004
    ensures var r := Flaked(s, plane, h, forward, FoldWidth(maxSegLen), FoldBack(maxSegLen), jitter);
      0.04 <= maxSegLen ==> Offset(r[j], r[j + 1]).SqrMagnitude() < maxSegLen * maxSegLen
  {
    var r := Flaked(s, plane, h, forward, FoldWidth(maxSegLen), FoldBack(maxSegLen), jitter);
    FlakedSlack(s, plane, h, forward, maxSegLen, jitter, j);
    var o := Offset(r[j], r[j + 1]);
    assert o.z == jitter[j + 1] - jitter[j];
    assert Vec2(o.x, o.y) == r[j + 1].planePos.Minus(r[j].planePos);
    SlackBound(o, maxSegLen);
  }

  /** The arithmetic of FlakedStartsSlack: a plane gap within the fold bound
      plus a height difference of at most 0.02. */
  lemma SlackBound(o: Vec3, len: real)
    requires Vec2(o.x, o.y).SqrMagnitude() <= 0.65 * (len * len) && -0.02 <= o.z <= 0.02 && 0.0 <= len
    ensures o.SqrMagnitude() <= 0.65 * (len * len) + 0.0004
    ensures 0.04 <= len ==> o.SqrMagnitude() < len * len
  {
    MulNonNegative(0.02 - o.z, 0.02 + o.z);
    if 0.04 <= len {
      SquareMonotone(0.04, len);
    }
  }

  lemma SquareMonotone(x: real, y: real)
    requires 0.0 <= x <= y
    ensures x * x <= y * y
  {
    MulNonNegative(y - x, y + x);
  }
}
