# Towed line charge and bullet deflection, modelled in Dafny

This project models three parts of the USAC RimWorld mod:

- **The Verlet rope** (`VerletRope`). A chain of nodes with masses. It is laid down folded behind a launcher. Each tick it is integrated with drag and gravity, its two ends are pinned, a fixed number of mass-weighted distance-constraint passes are run, and nodes that reach the ground are settled with scatter and friction.
- **The towed line-charge projectile** (`Projectile_MICLIC_Towed`). On its first tick it builds a 40-node rope (20 cable nodes of mass 0.1, then 20 charge nodes of mass 5.0) and puts the rocket on a launcher 0.9 behind the origin. It then solves the firing angle in closed form: the high root of the range quadratic, or 45 degrees when the discriminant is negative. After that, each tick:
  - steps the rocket by semi-implicit Euler until it lands;
  - signals the exhaust during the boost phase;
  - drags the rope's far end along.

  45 ticks after landing, every charge node that is on the map explodes and the projectile is destroyed.
- **The bullet-deflect patch** (`Patch_BulletDeflect`). Its hooks share one global context:
  - at launch, a bullet aimed at a deflecting pawn may be marked "high";
  - high bullets are drawn above pawns;
  - the impact hook records the hit and forgets the id;
  - the damage hook spawns a deflected bullet when metal armour deflects the hit. A high bullet glances on along its incoming direction. Any other bullet is reflected off the one of the four armour plates whose normal most opposes it.

## Layout

| file | module | contents |
|---|---|---|
| `unity_math.dfy` | `UnityMath` | Vectors, `Mathf.Min/Abs/Sign`, lengths and `.normalized` over a square-root oracle |
| `verlet_rope.dfy` | `Rope` | Node data, the step as specification functions, `class VerletRope` over `array<Node>` |
| `verlet_rope_laws.dfy` | `RopeLaws` | Lemmas about the rope step and the folded layout |
| `ballistics.dfy` | `Ballistics` | The angle solve, the launch geometry, the rocket step, the boost-phase test |
| `line_charge.dfy` | `LineCharge` | The flight as a state machine, detonations, `class Flight` |
| `bullet_deflect.dfy` | `BulletDeflect` | Plate selection and reflection, the spawn decision, `class DeflectContext` |

Every imperative method is proved against a specification function. For example, `VerletRope.Simulate` ensures `nodes[..] == Stepped(old(nodes[..]), …)`, and `Flight.Tick` ensures its new rocket state is `FlightStep` of the state it started from. The properties the source promises are proved as lemmas about those functions.

### Modelling conventions

- Floats are `real`.
- Square root, arctangent, sine and cosine are function parameters. Of the square root, only `IsSqrt` is assumed (non-negative, squares back to its argument).
- Random draws, the game clock, `Mathf.RoundToInt`, `ToIntVec3`, the map's bounds test and the yaw quaternion are parameters. Of the yaw, only `IsYaw` is assumed (it keeps height and length).
- The rocket's own state keeps the ground plane in (x, y) and height in z. World vectors keep the ground plane in (x, z).

### Notes on the code as written

The model follows the code in both cases.

- **The sign of the launch-height term.** The source comments the solve as a height-compensated physics solve (Projectile_MICLIC_Towed.cs:71). The code's discriminant is `v^4 - g (g R^2 + 2 h v^2)` with a plus sign. `Ballistics.QuadraticMeansHeight` proves that a root of this quadratic is a trajectory that is at height `+h` above the launch point at range R. A rocket launched from a rail of height h and landing on the ground would need `-2 h v^2`. The model keeps the coded sign.
- **The rope's end height on the landing tick.** On that tick the rope's end is held at the rocket's pre-clamp position. Its height is then at or below zero, not the clamped 0 (`LineCharge.RopeEnd`).

## Model

| member | source | states |
|---|---|---|
| `UnityMath.Sign` | _Sources/USAC/Patch/Patch_BulletDeflect.cs:193-200 | A sign is +1 or -1 and agrees with its argument: Mathf.Sign returns 1 at zero |
| `UnityMath.NormalizedLaw2` | _Sources/USAC/Ability/VerletRope.cs:46-46 | Normalising a 2-vector longer than EPSILON gives unit length; otherwise it gives the zero vector |
| `UnityMath.NormalizedLaw3` | _Sources/USAC/Patch/Patch_BulletDeflect.cs:179-179 | The same law for 3-vectors |
| `Rope.VerletRope.constructor` | _Sources/USAC/Ability/VerletRope.cs:33-40 | A rope of n zeroed nodes whose segment length is totalLength / (n - 1), with the given gravity and iteration count |
| `Rope.VerletRope.InitFlaked` | _Sources/USAC/Ability/VerletRope.cs:44-67 | Stores the lateral axis of the normalised direction and lays every node at its fold position (`Flaked`) |
| `Rope.Flaked` | _Sources/USAC/Ability/VerletRope.cs:55-66 | The folded layout keeps every mass and leaves each node at rest, its previous position equal to its position |
| `Rope.VerletRope.Simulate` | _Sources/USAC/Ability/VerletRope.cs:69-113 | One tick is `Stepped`: integrate, pin, the solver passes, then ground contact |
| `Rope.VerletRope.VerletIntegrate` | _Sources/USAC/Ability/VerletRope.cs:115-141 | The nodes become `Integrated` of the old nodes: interior nodes integrated, ends untouched |
| `Rope.IntegratedVelocity` | _Sources/USAC/Ability/VerletRope.cs:119-139 | After integration, the vertical velocity is the old one times the drag, minus gravity. The plane velocity is the old one times the drag, plus the lateral wave only above 0.1 |
| `Rope.Drag` | _Sources/USAC/Ability/VerletRope.cs:26-28 | The drag is in (0, 1), and it is the ground drag exactly at or below the ground level |
| `Rope.Integrated` | _Sources/USAC/Ability/VerletRope.cs:117-140 | Integration keeps every mass and leaves both end nodes unchanged |
| `Rope.Pin` | _Sources/USAC/Ability/VerletRope.cs:74-77 | Pinning puts both ends at their anchors, keeps their history and every mass, and leaves the interior alone |
| `Rope.VerletRope.PinEnds` | _Sources/USAC/Ability/VerletRope.cs:74-77 | The nodes become `Pin` of the old nodes |
| `Rope.PairShares` | _Sources/USAC/Ability/VerletRope.cs:157-159 | The two shares of a correction sum to 1, each lies in (0, 1), and the heavier node takes the smaller share |
| `Rope.RelaxPair` | _Sources/USAC/Ability/VerletRope.cs:147-173 | Relaxing a pair moves only its two nodes, never moves a rope end, keeps the masses, and does nothing to a pair within maxSegLen |
| `Rope.RelaxPass` | _Sources/USAC/Ability/VerletRope.cs:145-174 | A constraint pass keeps every mass and both rope ends |
| `Rope.VerletRope.ApplyTensionConstraints` | _Sources/USAC/Ability/VerletRope.cs:143-175 | The in-place sequential pair loop computes `RelaxPass` of the old nodes |
| `Rope.SolverPass` | _Sources/USAC/Ability/VerletRope.cs:81-87 | A pass followed by re-pinning ends pinned, and ends that were already at the anchors come out unchanged |
| `Rope.VerletRope.SolverIteration` | _Sources/USAC/Ability/VerletRope.cs:81-87 | The nodes become `SolverPass` of the old nodes, with the masses still positive |
| `Rope.Relaxed` | _Sources/USAC/Ability/VerletRope.cs:79-88 | Any number of solver iterations keeps the masses, and keeps ends that start at their anchors |
| `Rope.VerletRope.SolveConstraints` | _Sources/USAC/Ability/VerletRope.cs:79-88 | The fixed-count solver loop computes `Relaxed` with solverIterations passes |
| `Rope.GroundNode` | _Sources/USAC/Ability/VerletRope.cs:93-111 | A node above 0.01 is untouched; one at or below it ends at height 0 with history height 0 |
| `Rope.GroundedVelocity` | _Sources/USAC/Ability/VerletRope.cs:96-110 | A grounded node is pushed sideways by the impact scatter (zero unless it fell from above 0.05). Its new velocity is the old velocity plus half the scatter, times the ground drag |
| `Rope.Grounded` | _Sources/USAC/Ability/VerletRope.cs:91-112 | Ground contact never touches the ends, and leaves every interior node either on the ground (height 0) or above 0.01 |
| `Rope.VerletRope.GroundContact` | _Sources/USAC/Ability/VerletRope.cs:90-112 | The ground loop computes `Grounded` of the old nodes |
| `Rope.Stepped` | _Sources/USAC/Ability/VerletRope.cs:69-113 | A whole step keeps every mass |
| `Rope.VerletRope.GetVisualPos` | _Sources/USAC/Ability/VerletRope.cs:177-180 | The visual position shows the node's height as extra depth on the screen's y axis |
| `RopeLaws.SteppedEnds` | _Sources/USAC/Ability/VerletRope.cs:71-91 | After a step, each end is exactly at its anchor and keeps its history and mass |
| `RopeLaws.RelaxPairMoves` | _Sources/USAC/Ability/VerletRope.cs:154-173 | A stretched pair moves each node along the push by its share, and a rope end by nothing |
| `RopeLaws.CorrectedOffset` | _Sources/USAC/Ability/VerletRope.cs:154-173 | After the correction, the pair's offset is the old offset scaled by 1 - (moved share) * excess ratio |
| `RopeLaws.InteriorPairCorrected` | _Sources/USAC/Ability/VerletRope.cs:152-173 | A stretched interior pair comes out exactly maxSegLen long |
| `RopeLaws.EndPairPartlyCorrected` | _Sources/USAC/Ability/VerletRope.cs:164-173 | A stretched pair at a rope end gets shorter but stays longer than maxSegLen |
| `RopeLaws.TwoNodeRopeRigid` | _Sources/USAC/Ability/VerletRope.cs:164-173 | A two-node rope is never moved by a constraint pass |
| `RopeLaws.RestingNodeStays` | _Sources/USAC/Ability/VerletRope.cs:93-111 | A node resting on the ground with no velocity stays exactly where it is |
| `RopeLaws.LateralOrthonormal` | _Sources/USAC/Ability/VerletRope.cs:46-49 | For a unit forward, the lateral axis is a unit vector perpendicular to it |
| `RopeLaws.FlakedOffsets` | _Sources/USAC/Ability/VerletRope.cs:58-62 | Node j lies width * (+1 or -1 by parity) across the launcher and (j / 2) * back behind it |
| `RopeLaws.FlakedSlack` | _Sources/USAC/Ability/VerletRope.cs:52-62 | In the ground plane, neighbouring nodes of the folded layout are at most sqrt(0.65) L apart (squared gap at most 0.65 L^2) |
| `RopeLaws.FlakedStartsSlack` | _Sources/USAC/Ability/VerletRope.cs:52-64 | With the height jitter in [-0.01, 0.01], neighbouring nodes are at most 0.65 L^2 + 0.0004 apart squared in space, so from L = 0.04 on no pair starts longer than L |
| `Ballistics.SolveElevation` | _Sources/USAC/Ability/Projectile_MICLIC_Towed.cs:81-96 | The solve falls back to 45 degrees exactly when the discriminant is negative |
| `Ballistics.CompletedSquare` | _Sources/USAC/Ability/Projectile_MICLIC_Towed.cs:83-83 | g times the quadratic is the completed square (g R t - v^2)^2 minus the discriminant |
| `Ballistics.HighRootSolves` | _Sources/USAC/Ability/Projectile_MICLIC_Towed.cs:94-94 | (v^2 + sqrt D) / (g R) is a root of the range quadratic |
| `Ballistics.SolvedElevationIsHighRoot` | _Sources/USAC/Ability/Projectile_MICLIC_Towed.cs:83-95 | With D >= 0 the solve returns a root of the quadratic, at or above its vertex v^2 / (g R) |
| `Ballistics.NoRootWhenNegative` | _Sources/USAC/Ability/Projectile_MICLIC_Towed.cs:83-90 | A negative discriminant leaves the quadratic positive everywhere, so no angle hits the range |
| `Ballistics.RootsOfQuadratic` | _Sources/USAC/Ability/Projectile_MICLIC_Towed.cs:83-94 | The quadratic's roots are exactly (v^2 +- sqrt D) / (g R) |
| `Ballistics.HighRootIsLargest` | _Sources/USAC/Ability/Projectile_MICLIC_Towed.cs:93-95 | The solve returns the largest root: the lofted trajectory |
| `Ballistics.QuadraticMeansHeight` | _Sources/USAC/Ability/Projectile_MICLIC_Towed.cs:83-83 | A root is an angle whose parabola is at height h above the launch point at range R |
| `Ballistics.LaunchSpeed` | _Sources/USAC/Ability/Projectile_MICLIC_Towed.cs:101-104 | With a unit direction and sin^2 + cos^2 = 1, the launch velocity has the launch speed and points along the direction in the plane |
| `Ballistics.LaunchRangeFar` | _Sources/USAC/Ability/Projectile_MICLIC_Towed.cs:61-79 | For a target further than EPSILON, the solved range is (total distance + 0.9) * 1.015 |
| `Ballistics.LaunchRangeNear` | _Sources/USAC/Ability/Projectile_MICLIC_Towed.cs:61-79 | Within EPSILON the direction is zero, the launcher is at the origin, and the range is the distance * 1.015 |
| `Ballistics.SetBackFar` | _Sources/USAC/Ability/Projectile_MICLIC_Towed.cs:61-76 | Moving back along the unit direction lengthens the offset by exactly the setback |
| `Ballistics.RangePositive` | _Sources/USAC/Ability/Projectile_MICLIC_Towed.cs:76-94 | Whenever origin and destination differ in the plane, the range is positive, so g R > 0 in the root |
| `Ballistics.FlownClosedForm` | _Sources/USAC/Ability/Projectile_MICLIC_Towed.cs:152-156 | After k steps the velocity is v - k g and the height is z + k v_z - g k (k + 1) / 2 |
| `Ballistics.BoostPhaseByDistance` | _Sources/USAC/Ability/Projectile_MICLIC_Towed.cs:134-134 | The ratio test is "total > 0.001 and current <= 0.15 of total" |
| `LineCharge.ChargeMasses` | _Sources/USAC/Ability/Projectile_MICLIC_Towed.cs:54-55 | The new rope has 40 nodes, all with positive mass |
| `LineCharge.InitialMasses` | _Sources/USAC/Ability/Projectile_MICLIC_Towed.cs:52-66 | The laid rope weighs 5.0 on nodes 20..39 and 0.1 on nodes 0..19, and every node is at rest |
| `LineCharge.InitialHeights` | _Sources/USAC/Ability/VerletRope.cs:57-64 | With jitter drawn from [-0.01, 0.01], every node starts within 0.01 of the rail height 0.55 |
| `LineCharge.LaunchAngleSolved` | _Sources/USAC/Ability/Projectile_MICLIC_Towed.cs:76-96 | The range is positive. The angle is 45 degrees when D < 0; otherwise it is atan of a root at or above the vertex |
| `LineCharge.LaunchPosition` | _Sources/USAC/Ability/Projectile_MICLIC_Towed.cs:61-69 | The rocket starts on the launcher, 0.9 behind the origin, at rail height |
| `LineCharge.LaunchVelocityMagnitude` | _Sources/USAC/Ability/Projectile_MICLIC_Towed.cs:98-104 | Given sin^2 + cos^2 = 1 at the firing angle, the rocket starts at exactly the projectile's speed, along the firing direction |
| `LineCharge.LandedStaysPut` | _Sources/USAC/Ability/Projectile_MICLIC_Towed.cs:121-125 | Once landed, any number of ticks leaves the rocket state unchanged |
| `LineCharge.FreeFlight` | _Sources/USAC/Ability/Projectile_MICLIC_Towed.cs:126-143 | While every height stays positive, k ticks are exactly k Euler steps, still flying, with the landing tick untouched |
| `LineCharge.StaysAboveGround` | _Sources/USAC/Ability/Projectile_MICLIC_Towed.cs:139-142 | The rocket never ends a tick below ground, and a landed rocket is on the ground |
| `LineCharge.LandingStampedOnce` | _Sources/USAC/Ability/Projectile_MICLIC_Towed.cs:200-205 | The landing tick is the tick during the run on which the rocket came down; unlanded runs keep the old stamp |
| `LineCharge.ExhaustOnlyInBoost` | _Sources/USAC/Ability/Projectile_MICLIC_Towed.cs:131-137 | The exhaust burns exactly in flight, with total > 0.001 and the covered distance at most 0.15 of it |
| `LineCharge.DetonationCells` | _Sources/USAC/Ability/Projectile_MICLIC_Towed.cs:339-344 | A cell explodes exactly when there is a map, the cell is on it, and some charge node rounds to it |
| `LineCharge.DetonationCount` | _Sources/USAC/Ability/Projectile_MICLIC_Towed.cs:339-344 | At most one explosion per charge node, exactly one each when all are on the map, none without a map |
| `LineCharge.NewChargeRope` | _Sources/USAC/Ability/Projectile_MICLIC_Towed.cs:50-55 | The mass loop leaves the fresh 40-node rope with exactly `ChargeMasses`, segment length total * 1.28 / 39 |
| `LineCharge.LaidRope` | _Sources/USAC/Ability/Projectile_MICLIC_Towed.cs:50-66 | The built rope is `InitialNodes`, with positive masses and the firing direction's lateral axis |
| `LineCharge.SimulateRope` | _Sources/USAC/Ability/Projectile_MICLIC_Towed.cs:149-149 | The rope step keeps the masses positive and is `Stepped` with the launcher and the given rocket point as anchors |
| `LineCharge.Flight.constructor` | _Sources/USAC/Ability/Projectile_MICLIC_Towed.cs:22-35 | No rope, not landed, landing tick -1, launcher not cached |
| `LineCharge.Flight.EnsureRopeInit` | _Sources/USAC/Ability/Projectile_MICLIC_Towed.cs:46-105 | Idempotent. The first call builds the laid rope, caches the launcher, and sets the launch state (`LaunchKinematics`), sine and cosine; later calls change nothing |
| `LineCharge.Flight.Launch` | _Sources/USAC/Ability/Projectile_MICLIC_Towed.cs:69-104 | The rocket's position and velocity become `LaunchKinematics`, with the sine and cosine of `LaunchAngle` stored |
| `LineCharge.Flight.SimulateRocketPhysics` | _Sources/USAC/Ability/Projectile_MICLIC_Towed.cs:152-156 | The rocket's position and velocity become `RocketStep` of the old ones |
| `LineCharge.Flight.OnPhysicsLanded` | _Sources/USAC/Ability/Projectile_MICLIC_Towed.cs:200-205 | Landing is recorded once: a second call keeps the first landing tick |
| `LineCharge.Flight.SyncExplodeAll` | _Sources/USAC/Ability/Projectile_MICLIC_Towed.cs:335-346 | The index loop appends exactly `Detonations` of nodes 20..39, and the flight is destroyed, also when there is no rope |
| `LineCharge.Flight.Fly` | _Sources/USAC/Ability/Projectile_MICLIC_Towed.cs:126-144 | The flying branch computes `FlightStep`, the exhaust signal and the pre-clamp rope end |
| `LineCharge.Flight.Landed` | _Sources/USAC/Ability/Projectile_MICLIC_Towed.cs:121-125 | The landed branch holds the rope at the rocket and detonates once 45 ticks have passed since landing |
| `LineCharge.Flight.StepRope` | _Sources/USAC/Ability/Projectile_MICLIC_Towed.cs:149-149 | The rope is stepped with the cached launcher at rail height and the given anchor as its ends |
| `LineCharge.Flight.MoveRocket` | _Sources/USAC/Ability/Projectile_MICLIC_Towed.cs:114-147 | The landed or flying branch moves the rocket by `FlightStep`, raises `Exhaust`, syncs the cell and detonates when `DetonationDue`; it returns `RopeEnd` and keeps the launcher, the launch sine and cosine and the rope |
| `LineCharge.Flight.Advance` | _Sources/USAC/Ability/Projectile_MICLIC_Towed.cs:114-149 | Once the rope exists, a tick moves the rocket by `FlightStep`, raises `Exhaust`, syncs the cell, detonates when `DetonationDue`, and steps the rope to `RopeEnd`. The launcher, the launch sine and cosine, the rope, its lateral axis, segment length and iteration count stay as they were |
| `LineCharge.Flight.Tick` | _Sources/USAC/Ability/Projectile_MICLIC_Towed.cs:107-150 | An unspawned flight is left alone. Otherwise the rope is first ensured, then the tick is `Advance` from the start-of-tick state. The launcher, the launch angle's sine and cosine, the rope and its lateral axis, segment length and iteration count are set on the first spawned tick (to `LauncherAnchor`, the firing direction's lateral axis, `SegmentLength` and 40) and never change after |
| `BulletDeflect.IncomingIsUnit` | _Sources/USAC/Patch/Patch_BulletDeflect.cs:179-180 | The incoming direction is a horizontal unit vector: the normalised offset, or forward when it is too short |
| `BulletDeflect.PlateMostOpposed` | _Sources/USAC/Patch/Patch_BulletDeflect.cs:193-200 | The chosen normal is one of the four plate normals; it faces the shot, and no other plate faces it more squarely |
| `BulletDeflect.ReflectOffPlate` | _Sources/USAC/Patch/Patch_BulletDeflect.cs:193-203 | Reflection negates exactly the selected component (x when strictly dominant, else z), keeps the others, and keeps the length |
| `BulletDeflect.ReflectTwice` | _Sources/USAC/Patch/Patch_BulletDeflect.cs:202-203 | Reflecting twice off the selected plate gives back the incoming direction |
| `BulletDeflect.ReflectedIsReflection` | _Sources/USAC/Patch/Patch_BulletDeflect.cs:202-204 | For a horizontal unit incoming direction, flattening and normalising the reflection change nothing |
| `BulletDeflect.DeflectionIsUnit` | _Sources/USAC/Patch/Patch_BulletDeflect.cs:179-210 | The deflected direction is a horizontal unit vector, whether the bullet glanced on or reflected |
| `BulletDeflect.DeflectTargetDistance` | _Sources/USAC/Patch/Patch_BulletDeflect.cs:213-213 | The deflected bullet is aimed at a point at the hit's height, exactly 5 away |
| `BulletDeflect.DeflectedShotWhen` | _Sources/USAC/Patch/Patch_BulletDeflect.cs:171-228 | A bullet is spawned exactly when the context is active, the hit was deflected by metal armour, the pawn has the comp, the kind and map are recorded, and both cells are in bounds. It has the recorded kind and the new id, and it leaves from the hit point in the hit cell. It is aimed at the cell of a point at the hit's height exactly 5 away along a horizontal unit direction, which for a bullet that was not high is the yawed mirror image of the incoming direction in the struck plate |
| `BulletDeflect.DeflectContext.constructor` | _Sources/USAC/Patch/Patch_BulletDeflect.cs:14-26 | An inactive context with both id sets empty |
| `BulletDeflect.DeflectContext.Clear` | _Sources/USAC/Patch/Patch_BulletDeflect.cs:32-38 | Inactive, no bullet kind, no map, not high; position and origin untouched |
| `BulletDeflect.DeflectContext.MarkHighY` | _Sources/USAC/Patch/Patch_BulletDeflect.cs:53-66 | The id joins the high set exactly when the projectile is a bullet, its target can deflect, and the id-seeded chance succeeds |
| `BulletDeflect.DeflectContext.DrawHighY` | _Sources/USAC/Patch/Patch_BulletDeflect.cs:79-99 | A tracked unspawned id is dropped from both sets and drawn unchanged; a tracked spawned one is drawn at HighAlt; an untracked one is drawn unchanged |
| `BulletDeflect.DeflectContext.RecordInfo` | _Sources/USAC/Patch/Patch_BulletDeflect.cs:111-133 | The id leaves both sets. A deflecting pawn hit is recorded with isHighY = "was in the high set"; any other hit leaves the context cleared |
| `BulletDeflect.DeflectContext.SpawnDeflected` | _Sources/USAC/Patch/Patch_BulletDeflect.cs:141-164 | Spawns exactly `DeflectedShot` of the recorded hit. The new id, when one spawns, joins the deflected-high set iff the hit bullet was high, and the context always ends cleared |
| `BulletDeflect.DeflectContext.SpawnDeflectedBullet` | _Sources/USAC/Patch/Patch_BulletDeflect.cs:166-234 | The early returns for a missing kind or map or an out-of-bounds cell leave everything unchanged; otherwise the shot is recorded and marked when high |

## Left out

- **Rendering and effects.** `DrawAt`, the Catmull-Rom cable drawing, `ThrowExhaust`, materials, and the spark motes of the deflect hook are not modelled. The exhaust is modelled only as the boolean that `Flight.Tick` returns.
- **Save and load.** `ExposeData` is not modelled. Note that it does not save the rope. After a load, `EnsureRopeInit` therefore runs again and overwrites the saved rocket position and velocity with fresh launch values.
- **Host-game calls.**
  - `base.Tick()` and its `ticksToImpact` countdown are not modelled, nor is `Launch` (which sets `ticksToImpact` and queues the launcher's wait job).
  - `GenExplosion.DoExplosion` is recorded only as the exploded cell, without radius, damage type, instigator or angle.
  - `Impact` does nothing (collisions are ignored), so it is not modelled.
  - `Destroy` sets `spawned` false. As in the code, the rest of the tick still runs after it.
  - `ThingMaker`, `GenSpawn` and the second `Launch` are recorded as one `Shot` value; the new bullet's id is a parameter.
  - The `FieldInfo` read of the origin is an ordinary parameter.
- **Exceptions.** The `try`/`catch` and `Log.Error` in the launch and damage hooks are not modelled. No modelled step can throw, and the `finally`-clause `Clear` is modelled as always running.
- **Threading.** `[ThreadStatic]` is ignored: the context is one global record.
- **Float rounding and transcendentals.** Floats are reals. `Mathf.Sqrt`, `Atan`, `Sin` and `Cos` are parameters, so no trajectory accuracy is claimed. The segment-length bound after relaxation is proved only per pair (`InteriorPairCorrected`, `EndPairPartlyCorrected`), never for the whole rope.
- **Randomness and time.**
  - `Random.Range`, `Rand.Range`, `Rand.Chance` and `Time.time` are parameters.
  - The turbulence term is an arbitrary `waves[i]` per node.
  - The landing scatter is a `scatter[i]` draw.
  - The fold jitter is `jitter[i]`. Its range of [-0.01, 0.01] is used only by `InitialHeights`.
  - The id-seeded 50% chance is a function of the id, so it is deterministic per id, but its probability is not modelled.
- **HighAlt.** `AltitudeLayer.Pawn.AltitudeFor() + AltInc * 2` is a host constant, passed as the parameter `highAlt`.
- **Comp properties.** The deflect comp's `deflectFlightDist` and `normalJitter` are their defaults: the constant 5, and a draw whose range is not checked.
- **The yaw rotations.** `Quaternion.Euler(0, a, 0)` is the parameter `yaw`. Only `IsYaw` is assumed of it: it keeps the height and the length.
- **Unity's approximate `==`.** `incoming == Vector3.zero` is modelled as exact equality. `Normalized3` returns either exactly zero or a unit vector, so the two comparisons agree.
- `LineCharge.Flight.constructor`: requires that origin and destination differ in the ground plane. The code does not check this. With them equal, the direction is zero and the solve divides by g R = 0.
- `LineCharge.Flight.Valid`: requires the rope's gravity and node count, but not its iteration count (40). That count is stated where the rope is built (`EnsureRopeInit`), and the tick's rope step is stated with `rope.solverIterations`.
- `Rope.VerletRope.Simulate`: requires every node mass to be positive, as do `ApplyTensionConstraints`, `SolverIteration`, `SolveConstraints` and the specification functions from `PairShares` to `Stepped`. The code accepts any masses. With a pair whose masses sum to 0, its shares divide by zero and the float result is NaN, which reals cannot express. Every rope the line charge builds has masses 0.1 and 5.0 (`LineCharge.ChargeMasses`).
