/** Bullet deflection off a pawn's armour plates.

    Four hooks share one global context: a bullet aimed at a pawn that can
    deflect is marked "high" with an id-seeded even chance; high bullets (and
    the bullets a high bullet was deflected into) are drawn above pawns; at
    impact the hit is recorded and the id forgotten; and when the armour
    deflects the hit, a new bullet is spawned flying away from the hit point,
    either glancing on along the incoming direction (a high bullet) or
    reflected off the plate whose normal most opposes it.

    The game's random draws, its yaw rotation, the map's bounds test and
    Vector3.ToIntVec3 are parameters. */
module BulletDeflect {
  import opened UnityMath

  datatype Option<T> = None | Some(value: T)

  /** Vector3.forward, the incoming direction of a shot with no horizontal extent. */
  const FORWARD: Vec3 := Vec3(0.0, 0.0, 1.0)
  /** How far the deflected bullet is sent (the comp's default). */
  const DEFLECT_FLIGHT_DIST: real := 5.0

  /** The four plate normals of a pawn's armour: +X, -X, +Z and -Z. */
  const PLATE_NORMALS: seq<Vec3> := [Vec3(1.0, 0.0, 0.0), Vec3(-1.0, 0.0, 0.0), Vec3(0.0, 0.0, 1.0), Vec3(0.0, 0.0, -1.0)]

  // ---------------------------------------------------------------------
  // The geometry of a deflection

  /** The horizontal direction from the shot's origin to the hit, forward
      when it is too short to normalise. */
  function Incoming(hitPos: Vec3, origin: Vec3, sqrt: real -> real): Vec3 {
    var n := Normalized3(hitPos.Minus(origin).Yto0(), sqrt);
    if n == ZERO3 then FORWARD else n
  }

  /** The incoming direction is a horizontal unit vector: the normalised
      offset when that is longer than EPSILON, forward otherwise. */
  lemma IncomingIsUnit(hitPos: Vec3, origin: Vec3, sqrt: real -> real)
    requires IsSqrt(sqrt)
    ensures var i := Incoming(hitPos, origin, sqrt);
      i.y == 0.0 && i.SqrMagnitude() == 1.0
    ensures var v := hitPos.Minus(origin).Yto0();
      Incoming(hitPos, origin, sqrt) == if Magnitude3(v, sqrt) > EPSILON then Normalized3(v, sqrt) else FORWARD
  {
    var v := hitPos.Minus(origin).Yto0();
    NormalizedLaw3(v, sqrt);
  }

  /** The normal of the plate that is hit: along x when the incoming
      direction's x part is strictly the larger, along z otherwise (ties go
      to z), pointing back at the shooter. */
  function PlateNormal(incoming: Vec3): Vec3 {
    var negIn := incoming.Negated();
    if Abs(negIn.x) > Abs(negIn.z) then Vec3(Sign(negIn.x), 0.0, 0.0)
    else Vec3(0.0, 0.0, Sign(negIn.z))
  }

  /** The chosen plate is one of the four and faces the incoming shot at
      least as squarely as any other: its normal has the smallest dot
      product with the incoming direction. */
  lemma PlateMostOpposed(incoming: Vec3)
    ensures PlateNormal(incoming) in PLATE_NORMALS
    ensures incoming.Dot(PlateNormal(incoming)) <= 0.0
    ensures forall m :: m in PLATE_NORMALS ==> incoming.Dot(PlateNormal(incoming)) <= incoming.Dot(m)
  {
    var n := PlateNormal(incoming);
    forall m | m in PLATE_NORMALS
      ensures incoming.Dot(n) <= incoming.Dot(m)
    {
      assert incoming.Dot(n) == if Abs(incoming.x) > Abs(incoming.z) then -Abs(incoming.x) else -Abs(incoming.z);
    }
  }

  /** Reflection of v in the plane with normal n: v - 2 (v . n) n. */
  function Reflect(v: Vec3, n: Vec3): Vec3 {
    v.Minus(n.Times(2.0 * v.Dot(n)))
  }

  /** Reflecting off a unit normal along x negates the x component. */
  lemma ReflectAxisX(v: Vec3, s: real)
    requires s * s == 1.0
    ensures Reflect(v, Vec3(s, 0.0, 0.0)) == Vec3(-v.x, v.y, v.z)
  {
    var d := v.Dot(Vec3(s, 0.0, 0.0));
    assert d == v.x * s;
    assert s * (2.0 * d) == 2.0 * v.x * (s * s);
  }

  /** Reflecting off a unit normal along z negates the z component. */
  lemma ReflectAxisZ(v: Vec3, s: real)
    requires s * s == 1.0
    ensures Reflect(v, Vec3(0.0, 0.0, s)) == Vec3(v.x, v.y, -v.z)
  {
    var d := v.Dot(Vec3(0.0, 0.0, s));
    assert d == v.z * s;
    assert s * (2.0 * d) == 2.0 * v.z * (s * s);
  }

  /** Reflecting off the chosen plate negates exactly the component along its
      normal and keeps the other two, so the length is kept. */
  lemma ReflectOffPlate(incoming: Vec3)
    ensures var r := Reflect(incoming, PlateNormal(incoming));
      r == if Abs(incoming.x) > Abs(incoming.z)
           then Vec3(-incoming.x, incoming.y, incoming.z)
           else Vec3(incoming.x, incoming.y, -incoming.z)
    ensures Reflect(incoming, PlateNormal(incoming)).SqrMagnitude() == incoming.SqrMagnitude()
  {
    var negIn := incoming.Negated();
    assert Abs(negIn.x) == Abs(incoming.x) && Abs(negIn.z) == Abs(incoming.z);
    if Abs(incoming.x) > Abs(incoming.z) {
      ReflectAxisX(incoming, Sign(negIn.x));
      assert (-incoming.x) * (-incoming.x) == incoming.x * incoming.x;
    } else {
      ReflectAxisZ(incoming, Sign(negIn.z));
      assert (-incoming.z) * (-incoming.z) == incoming.z * incoming.z;
    }
  }

  /** Reflecting twice off a plate gives the original direction back. */
  lemma ReflectTwice(incoming: Vec3)
    ensures var n := PlateNormal(incoming);
      Reflect(Reflect(incoming, n), n) == incoming
  {
    var negIn := incoming.Negated();
    var r := Reflect(incoming, PlateNormal(incoming));
    ReflectOffPlate(incoming);
    if Abs(negIn.x) > Abs(negIn.z) {
      ReflectAxisX(r, Sign(negIn.x));
    } else {
      ReflectAxisZ(r, Sign(negIn.z));
    }
  }

  /** The reflected direction, flattened and normalised. */
  function Reflected(incoming: Vec3, sqrt: real -> real): Vec3 {
    Normalized3(Reflect(incoming, PlateNormal(incoming)).Yto0(), sqrt)
  }

  /** For a horizontal unit incoming direction the flattening and
      normalisation change nothing: the result is the plain reflection. */
  lemma ReflectedIsReflection(incoming: Vec3, sqrt: real -> real)
    requires IsSqrt(sqrt) && incoming.y == 0.0 && incoming.SqrMagnitude() == 1.0
    ensures Reflected(incoming, sqrt) == Reflect(incoming, PlateNormal(incoming))
  {
    var r := Reflect(incoming, PlateNormal(incoming));
    ReflectOffPlate(incoming);
    assert r.Yto0() == r;
    NormalizeUnit3(r, sqrt);
  }

  /** The law of Quaternion.Euler(0, angle, 0) * v: a rotation about the
      vertical axis keeps the height and the length of v. */
  ghost predicate IsYaw(yaw: (real, Vec3) -> Vec3) {
    forall a: real, v: Vec3 {:trigger yaw(a, v)} :: yaw(a, v).y == v.y && yaw(a, v).SqrMagnitude() == v.SqrMagnitude()
  }

  /** The yaw applied to the deflected direction, from the raw draw:
      the draw itself (in [-45, 45]) for a high bullet, a quarter turn per
      unit of the draw (in [-0.3, 0.3]) otherwise. */
  function JitterAngle(isHighY: bool, draw: real): real {
    if isHighY then draw else draw * 90.0
  }

  /** The deflected bullet's direction. */
  function Deflection(isHighY: bool, incoming: Vec3, draw: real, yaw: (real, Vec3) -> Vec3, sqrt: real -> real): Vec3 {
    if isHighY then yaw(JitterAngle(isHighY, draw), incoming)
    else yaw(JitterAngle(isHighY, draw), Reflected(incoming, sqrt))
  }

  /** The deflected bullet flies horizontally: its direction is a unit vector
      with no vertical part, whichever way it was deflected. */
  lemma DeflectionIsUnit(isHighY: bool, hitPos: Vec3, origin: Vec3, draw: real,
                         yaw: (real, Vec3) -> Vec3, sqrt: real -> real)
    requires IsSqrt(sqrt) && IsYaw(yaw)
    ensures var d := Deflection(isHighY, Incoming(hitPos, origin, sqrt), draw, yaw, sqrt);
      d.y == 0.0 && d.SqrMagnitude() == 1.0
  {
    var i := Incoming(hitPos, origin, sqrt);
    IncomingIsUnit(hitPos, origin, sqrt);
    if !isHighY {
      ReflectedIsReflection(i, sqrt);
      ReflectOffPlate(i);
      assert yaw(JitterAngle(isHighY, draw), Reflected(i, sqrt)).y == Reflected(i, sqrt).y;
    } else {
      assert yaw(JitterAngle(isHighY, draw), i).y == i.y;
    }
  }

  /** The point the deflected bullet is sent to. */
  function DeflectTarget(hitPos: Vec3, dir: Vec3): Vec3 {
    hitPos.Plus(dir.Times(DEFLECT_FLIGHT_DIST))
  }

  /** Sent along a horizontal unit direction, the target lies at the hit's
      height, exactly DEFLECT_FLIGHT_DIST away. */
  lemma DeflectTargetDistance(hitPos: Vec3, dir: Vec3)
    requires dir.y == 0.0 && dir.SqrMagnitude() == 1.0
    ensures DeflectTarget(hitPos, dir).y == hitPos.y
    ensures DeflectTarget(hitPos, dir).Minus(hitPos).SqrMagnitude() == DEFLECT_FLIGHT_DIST * DEFLECT_FLIGHT_DIST
  {
    var t := DeflectTarget(hitPos, dir);
    assert t.Minus(hitPos) == dir.Times(DEFLECT_FLIGHT_DIST);
    ScaledSqrMagnitude3(dir, DEFLECT_FLIGHT_DIST);
  }

  // ---------------------------------------------------------------------
  // The spawn decision

  /** What the impact hook recorded about the hit. */
  datatype Impact = Impact(active: bool, bulletDef: Option<string>, mapId: Option<int>,
                           position: Vec3, origin: Vec3, isHighY: bool)

  /** A spawned deflected bullet: its kind, its id, the cell it is spawned
      in, the point it is launched from and the cell it is aimed at. */
  datatype Shot = Shot(def: string, id: int, spawnCell: IntVec3, launchFrom: Vec3, target: IntVec3)

  /** The bullet the damage hook spawns, if any, for the recorded hit c;
      `deflected` and `byMetal` are the damage result's flags, `hasComp`
      whether the pawn can deflect, `newId` the id the new bullet gets. */
  function DeflectedShot(c: Impact, deflected: bool, byMetal: bool, hasComp: bool, newId: int,
                         toCell: Vec3 -> IntVec3, inBounds: (int, IntVec3) -> bool,
                         draw: real, yaw: (real, Vec3) -> Vec3, sqrt: real -> real): Option<Shot>
  {
    if !c.active || !deflected || !byMetal || !hasComp then None
    else if c.bulletDef.None? || c.mapId.None? then None
    else
      var dir := Deflection(c.isHighY, Incoming(c.position, c.origin, sqrt), draw, yaw, sqrt);
      var destCell := toCell(DeflectTarget(c.position, dir));
      var spawnCell := toCell(c.position);
      if !inBounds(c.mapId.value, destCell) || !inBounds(c.mapId.value, spawnCell) then None
      else Some(Shot(c.bulletDef.value, newId, spawnCell, c.position, destCell))
  }

  /** A bullet is spawned exactly when the context is active, the armour
      deflected the hit as metal, the pawn can deflect, a bullet kind and a
      map were recorded, and both the target cell and the hit cell are on
      the map. The spawned bullet leaves from the hit point, in the hit's
      cell, and is aimed at the cell of a point at the hit's height exactly
      DEFLECT_FLIGHT_DIST away along a horizontal unit direction; for a bullet
      that was not high, that direction is the yawed mirror image of the
      incoming one in the plate it struck. */
  lemma DeflectedShotWhen(c: Impact, deflected: bool, byMetal: bool, hasComp: bool, newId: int,
                          toCell: Vec3 -> IntVec3, inBounds: (int, IntVec3) -> bool,
                          draw: real, yaw: (real, Vec3) -> Vec3, sqrt: real -> real)
    requires IsSqrt(sqrt) && IsYaw(yaw)
    ensures var s := DeflectedShot(c, deflected, byMetal, hasComp, newId, toCell, inBounds, draw, yaw, sqrt);
      var dir := Deflection(c.isHighY, Incoming(c.position, c.origin, sqrt), draw, yaw, sqrt);
      s.Some? <==> (c.active && deflected && byMetal && hasComp && c.bulletDef.Some? && c.mapId.Some?
                    && inBounds(c.mapId.value, toCell(DeflectTarget(c.position, dir)))
                    && inBounds(c.mapId.value, toCell(c.position)))
    ensures var s := DeflectedShot(c, deflected, byMetal, hasComp, newId, toCell, inBounds, draw, yaw, sqrt);
      s.Some? ==> c.bulletDef == Some(s.value.def) && s.value.id == newId
                  && s.value.spawnCell == toCell(c.position) && s.value.launchFrom == c.position
    ensures var s := DeflectedShot(c, deflected, byMetal, hasComp, newId, toCell, inBounds, draw, yaw, sqrt);
      var dir := Deflection(c.isHighY, Incoming(c.position, c.origin, sqrt), draw, yaw, sqrt);
      var t := DeflectTarget(c.position, dir);
      s.Some? ==> s.value.target == toCell(t)
                  && dir.y == 0.0 && dir.SqrMagnitude() == 1.0
                  && t.y == c.position.y
                  && t.Minus(c.position).SqrMagnitude() == DEFLECT_FLIGHT_DIST * DEFLECT_FLIGHT_DIST
    ensures var i := Incoming(c.position, c.origin, sqrt);
      !c.isHighY ==> Deflection(c.isHighY, i, draw, yaw, sqrt) == yaw(JitterAngle(false, draw), Reflect(i, PlateNormal(i)))
  {
    var i := Incoming(c.position, c.origin, sqrt);
    var dir := Deflection(c.isHighY, i, draw, yaw, sqrt);
    DeflectionIsUnit(c.isHighY, c.position, c.origin, draw, yaw, sqrt);
    DeflectTargetDistance(c.position, dir);
    IncomingIsUnit(c.position, c.origin, sqrt);
    if !c.isHighY {
      ReflectedIsReflection(i, sqrt);
    }
  }

  // ---------------------------------------------------------------------
  // The shared context and its hooks

  class DeflectContext {
    var active: bool
    var bulletDef: Option<string>
    var mapId: Option<int>
    var position: Vec3
    var origin: Vec3
    var isHighY: bool
    /** Ids of bullets marked high at launch. */
    var highYBullets: set<int>
    /** Ids of bullets spawned by deflecting a high bullet. */
    var highYDeflected: set<int>
    /** The deflected bullets spawned so far, in order. */
    var shots: seq<Shot>

    /** An active context always knows the bullet's kind. */
    ghost predicate Valid()
      reads this
    {
      active ==> bulletDef.Some?
    }

    /** The recorded hit. */
    function Recorded(): Impact
      reads this
    {
      Impact(active, bulletDef, mapId, position, origin, isHighY)
    }

    constructor ()
      ensures Valid()
      ensures !active && bulletDef == None && mapId == None && !isHighY
      ensures highYBullets == {} && highYDeflected == {} && shots == []
    {
      active := false;
      bulletDef := None;
      mapId := None;
      position := ZERO3;
      origin := ZERO3;
      isHighY := false;
      highYBullets := {};
      highYDeflected := {};
      shots := [];
    }

    /** Forgets the recorded hit; the position and origin are left as they were. */
    method Clear()
      modifies this`active, this`bulletDef, this`mapId, this`isHighY
      ensures Valid()
      ensures !active && bulletDef == None && mapId == None && !isHighY
    {
      active := false;
      bulletDef := None;
      mapId := None;
      isHighY := false;
    }

    /** The launch hook: a bullet aimed at a pawn that can deflect is marked
        high when the chance seeded by its id comes up. */
    method MarkHighY(id: int, isBullet: bool, targetCanDeflect: bool, chance: int -> bool)
      modifies this`highYBullets
      ensures highYBullets == if isBullet && targetCanDeflect && chance(id) then old(highYBullets) + {id} else old(highYBullets)
    {
      if !isBullet {
        return;
      }
      if !targetCanDeflect {
        return;
      }
      var highY := chance(id);
      if highY {
        highYBullets := highYBullets + {id};
      }
    }

    /** The draw hook: a tracked bullet is drawn at `highAlt`, unless it is no
        longer spawned, in which case it is forgotten and drawn where it was. */
    method DrawHighY(id: int, spawned: bool, drawLoc: Vec3, highAlt: real) returns (loc: Vec3)
      modifies this`highYBullets, this`highYDeflected
      ensures var tracked := id in old(highYBullets) || id in old(highYDeflected);
        && (tracked && !spawned ==>
              loc == drawLoc && highYBullets == old(highYBullets) - {id} && highYDeflected == old(highYDeflected) - {id})
        && (tracked && spawned ==>
              loc == drawLoc.(y := highAlt) && highYBullets == old(highYBullets) && highYDeflected == old(highYDeflected))
        && (!tracked ==>
              loc == drawLoc && highYBullets == old(highYBullets) && highYDeflected == old(highYDeflected))
    {
      loc := drawLoc;
      if |highYBullets| == 0 && |highYDeflected| == 0 {
        return;
      }
      if id in highYBullets || id in highYDeflected {
        if !spawned {
          highYBullets := highYBullets - {id};
          highYDeflected := highYDeflected - {id};
          return;
        }
        loc := loc.(y := highAlt);
      }
    }

    /** The impact hook: forgets the bullet's id and records the hit when it
        is on a pawn that can deflect, remembering whether the bullet was high. */
    method RecordInfo(id: int, def: string, hitCanDeflect: bool, exactPos: Vec3, shotOrigin: Vec3, hitMap: Option<int>)
      modifies this`active, this`bulletDef, this`mapId, this`position, this`origin, this`isHighY,
               this`highYBullets, this`highYDeflected
      ensures Valid()
      ensures highYBullets == old(highYBullets) - {id} && highYDeflected == old(highYDeflected) - {id}
      ensures hitCanDeflect ==> Recorded() == Impact(true, Some(def), hitMap, exactPos, shotOrigin, id in old(highYBullets))
      ensures !hitCanDeflect ==>
        Recorded() == Impact(false, None, None, old(position), old(origin), false)
    {
      var wasHighY := id in highYBullets;
      highYBullets := highYBullets - {id};
      highYDeflected := highYDeflected - {id};
      Clear();
      if hitCanDeflect {
        active := true;
        bulletDef := Some(def);
        position := exactPos;
        origin := shotOrigin;
        mapId := hitMap;
        isHighY := wasHighY;
      }
    }

    /** The damage hook: spawns the deflected bullet when DeflectedShot says
        so, marks it high when the hit bullet was, and always ends by
        forgetting the recorded hit. */
    method SpawnDeflected(deflected: bool, byMetal: bool, hasComp: bool, newId: int,
                          toCell: Vec3 -> IntVec3, inBounds: (int, IntVec3) -> bool,
                          draw: real, yaw: (real, Vec3) -> Vec3, sqrt: real -> real)
      modifies this`active, this`bulletDef, this`mapId, this`isHighY, this`highYDeflected, this`shots
      ensures Valid()
      ensures !active && bulletDef == None && mapId == None && !isHighY
      ensures var s := old(DeflectedShot(Recorded(), deflected, byMetal, hasComp, newId, toCell, inBounds, draw, yaw, sqrt));
        && shots == old(shots) + (if s.Some? then [s.value] else [])
        && highYDeflected == if s.Some? && old(isHighY) then old(highYDeflected) + {newId} else old(highYDeflected)
    {
      if active && deflected && byMetal && hasComp {
        SpawnDeflectedBullet(newId, toCell, inBounds, draw, yaw, sqrt);
      }
      Clear();
    }

    /** Spawns the deflected bullet for the recorded hit, if the bullet kind,
        the map and both cells allow it. */
    method SpawnDeflectedBullet(newId: int, toCell: Vec3 -> IntVec3, inBounds: (int, IntVec3) -> bool,
                                draw: real, yaw: (real, Vec3) -> Vec3, sqrt: real -> real)
      requires active
      modifies this`highYDeflected, this`shots
      ensures var s := DeflectedShot(Recorded(), true, true, true, newId, toCell, inBounds, draw, yaw, sqrt);
        && shots == old(shots) + (if s.Some? then [s.value] else [])
        && highYDeflected == if s.Some? && isHighY then old(highYDeflected) + {newId} else old(highYDeflected)
    {
      if bulletDef.None? || mapId.None? {
        return;
      }
      var hitPos := position;
      var incoming := Incoming(hitPos, origin, sqrt);
      var dir := Deflection(isHighY, incoming, draw, yaw, sqrt);
      var destCell := toCell(DeflectTarget(hitPos, dir));
      if !inBounds(mapId.value, destCell) {
        return;
      }
      var spawnCell := toCell(hitPos);
      if !inBounds(mapId.value, spawnCell) {
        return;
      }
      shots := shots + [Shot(bulletDef.value, newId, spawnCell, hitPos, destCell)];
      if isHighY {
        highYDeflected := highYDeflected + {newId};
      }
    }
  }
}
