# Asteroids simulation core in Dafny

This project models the simulation core of a small SFML Asteroids clone, and proves
properties of that model. The core consists of:

- the `GameBox` tick, which walks the object list, erases and explodes dead objects,
  updates live ones, runs the pairwise collision pass and appends the spawn list;
- the `GraphObj` motion step, wrap hook and circle collision test;
- the `Ship` controls, thrust clamp, exhaust flame and cannon;
- the `Asteroid` polygon and its break-up into children;
- the `VolatileObj` explosion and throw;
- the `Fragment` and `Bolt` objects;
- the single-player `AsteroidField` and `Player` respawn logic.

How the program maps onto Dafny:

- Every game object is one class, `Objects.GraphObj`. A constant `kind` tags it as a
  plain object, a bolt, a fragment, an asteroid or a ship. It holds the fields of all
  of those classes. Each virtual call (`update`, `onOutOfBounds`, `explodesOnDeath`,
  `disintegrate`) dispatches on `kind`.
- The object lists (`mObjects`, `spawnList`, the collision candidates) are `seq`
  fields that the methods reassign. The shapes of an object are a `seq` of shape
  values. `changeModelToWorld` rewrites an `array` of vertices in place.
- `rand()` is a `Random.RandSource`: a stream of draws, each in `[0, RAND_MAX]`, and a
  position that every call advances. The members that draw for one object name the
  draws they consume and where they leave the stream, so counts and ranges are exact
  statements about the stream. These are the `RandSource` calls, `Fragments.DrawSide`,
  `DrawBodyQuad` and `New`, `Volatile.ThrowObjRand`, `DrawFragmentConfig`, `ExplodeOne`,
  `ThrowFragment`, `Eject` and `Explode`, `Box.BoxRandInt`, `DrawBoxThrow`,
  `DrawFragment`, `Scatter` and `GameBox.Explode`, the `Asteroids` draws from `DrawRimPoint` to `BreakUp`, and the
  `SinglePlayer` draws from `DrawSpot` to `Respawn`, including `NewFieldAsteroid`.
  A method that loops records in a ghost `marks` where each item's draws begin.
  `Asteroids.Explode` states only how many children and fragments there are and where
  they are; the draws of each part are stated by `BreakUp` and `Volatile.Explode`.
  `PopulateField` names only its count draw, and the tick (`GameBox.Update`) only keeps
  the stream valid.
- `sin`, `cos` and `sqrt` are function values in a `Geometry.Math` parameter. Only the
  facts the proofs need are required of them: `sin² + cos² = 1`, and `sqrt` is the
  non-negative root.
- The clock reading (`now`), the frame time `dt`, the key state (`Controls`) and the
  window size are inputs.
- `AsteroidField` derives from `GameBox` in the program. Here it holds a `GameBox` and
  a team index.

Modules:

- `Geometry`: vectors, colours, vertices, shapes, `modelToWorld`, the `Math`
  parameter.
- `Random`: the draw stream and the range helpers of `GraphObj.h`.
- `Objects`: `GraphObj`, `UpdateContext`, the motion step and the collision test.
- `Bolts`: `Bolt.cpp`.
- `Fragments`: `Fragment.cpp`.
- `Volatile`: `VolatileObj`.
- `Asteroids`: `Asteroid`.
- `Ships`: `Ship`.
- `Box`: `GameBox` and its collision pass.
- `SinglePlayer`: `AsteroidField` and `Player`.

Where the code and its description differ, the model follows the code:

- A ship turns left when both rotation keys are held.
- An asteroid's explosion ratio is linear in its radius, while its mass is squared.
- `VolatileObj::explode` throws 15 to 30 fragments, whatever the explosion ratio.
- Break-up speeds are 50 to 250.
- `GameBox.cpp` defines its own `randInt` with an exclusive upper bound, unlike the
  inclusive one of `GraphObj.h`.
- `GameBox::update` explodes a dead object through `GameBox::explode` (15 to 29
  fragments at its position) and not through the object's own `explode`.

Two behaviours of the code are stated as lemmas and kept as written:

- The collision test's wrap correction is one-sided.
  `Objects.CollisionTestIsAsymmetric` exhibits two circles that collide from one side
  only.
- The wrap branch of `disintegrateAround` compares a squared delta with the squared
  window size. When `win.x²` and `win.y²` fit in 32 bits, it never fires for two points
  inside the window, so the blast does not reach across the window edge
  (`SinglePlayer.InBlastInsideWindow`). Whatever the window, the blast covers at least
  the plain disc (`SinglePlayer.InBlast`).

## Model

| member | source | states |
|---|---|---|
| Geometry.Darkened | Asteroid.cpp:68 | each channel of the dark colour is the halved channel rounded down, never brighter than the original |
| Geometry.Direction | GraphObj.h:111-115 | the heading vector (cos a, sin a) has length 1 whenever sin² + cos² = 1 |
| Geometry.ModelToWorld | GraphObj.h:132-140 | the model point is rotated by the angle factors, then translated by the centre; the model origin maps to the centre |
| Geometry.ModelToWorldIsRigid | GraphObj.h:132-135 | the transform preserves the distance of a model point from the origin (given sin² + cos² = 1) |
| Geometry.PolarLength | Asteroid.cpp:62-63 | the point (cos a·len, sin a·len) lies at distance len from the origin |
| Random.Unit | GraphObj.h:43-46 | randFloat() lies in [0, 1]; draw 0 gives 0 and draw RAND_MAX gives 1 |
| Random.RandFloatOf | GraphObj.h:57-60 | randFloat(min, max) lies between min and max, whichever is larger, and reaches both ends |
| Random.RandFloatOfPoint | GraphObj.h:57-60 | randFloat(v, v) is v |
| Random.RandIntOf | GraphObj.h:48-55 | randInt(min, max) is min when max <= min, and otherwise lies in [min, max] inclusive |
| Random.RandIntOfCovers | GraphObj.h:48-55 | every value of [min, max] is produced by some draw |
| Random.RandSource.Rand | GraphObj.h:45 | rand() returns the next draw of the stream, which lies in [0, RAND_MAX], and consumes it |
| Random.RandSource.RandFloat | GraphObj.h:57-60 | randFloat(min, max) consumes one draw and returns RandFloatOf of it |
| Random.RandSource.RandInt | GraphObj.h:48-55 | randInt consumes a draw only when max > min, and returns RandIntOf of it |
| Objects.UpdateContext.constructor | GraphObj.h:66-70 | a context holds the space limits and an empty spawn list |
| Objects.Renormalize | GraphObj.cpp:68-75 | the angle moves by at most one 2π step; angles in [-2π, 2π] are untouched; angles in [-4π, 4π] end in [-2π, 2π] |
| Objects.TurnStaysNormalized | GraphObj.cpp:67-75 | an angle in [-2π, 2π] turned by at most 2π stays in [-2π, 2π] |
| Objects.WrapCoord | GraphObj.cpp:42-57 | one coordinate moves by at most one span; values inside [0, W] are untouched; values in [-W, 2W] end in [0, W] |
| Objects.WrappedDelta | GraphObj.cpp:96-109 | the separation with a field: on each axis the raw delta, or the raw delta less the span; the correction only ever subtracts, and a delta that is not positive is never corrected |
| Objects.Separation | GraphObj.cpp:96-109 | without a context the raw delta; with one, the wrapped delta, with the same one-sided correction |
| Objects.Step | GraphObj.cpp:63-83 | the centre moves by velocity·dt and is wrapped only when it leaves the field; the object dies iff it leaves and its kind dies out of bounds; the angle is renormalised |
| Objects.StepKeepsWrappingObjectsInField | GraphObj.cpp:66-83 | a wrapping object inside the field that moves by at most one span per axis stays in the field |
| Objects.CollisionTestIsAsymmetric | GraphObj.cpp:96-114 | with a 100×100 field, circles at x = 95 and x = 5 collide when tested from the right-hand one, and not from the left-hand one |
| Objects.CloseCirclesOverlapSymmetrically | GraphObj.cpp:96-114 | within half a span on both axes the test is the plain Euclidean one and gives the same answer in both orders |
| Objects.GraphObj.CollidesWith | GraphObj.cpp:90-118 | a collision needs both objects alive, both radii positive, different teams, and a separation whose square is below the squared sum of the radii |
| Objects.Spike | Bolt.cpp:11-18 | the bolt and fire spike is a visible three-vertex triangle |
| Objects.SpikeDeterminesConfig | Bolt.cpp:11-17 | two spikes are equal only when built from the same size and colour |
| Objects.WorldVertices | GraphObj.cpp:17-20 | the transform keeps the vertex count |
| Objects.WorldShapesDrawVisibleOnes | GraphObj.cpp:27-35 | render draws exactly the visible shapes, one world shape each |
| Objects.GraphObj.constructor | GraphObj.h:145-158 | a new object is alive, on team 0, with radius 0, angle 0, no shapes and the dark grey main colour; the other classes' fields take their declared defaults |
| Objects.GraphObj.Kill | GraphObj.h:82 | kill clears the alive flag |
| Objects.GraphObj.Revive | GraphObj.h:83 | revive sets the alive flag |
| Objects.GraphObj.Disintegrate | Asteroid.h:35-39 | disintegrate kills the object and, for an asteroid, forbids children |
| Objects.GraphObj.OnOutOfBounds | GraphObj.cpp:38-59 | bolts and fragments die in place; other objects wrap once per axis when there is a context, and are untouched without one |
| Objects.GraphObj.Update | GraphObj.cpp:61-85 | without a context nothing moves; with one, the centre, angle and alive flag become those of one Step |
| Objects.GraphObj.ChangeModelToWorld | GraphObj.cpp:13-22 | every vertex of a non-null array is replaced by its world position, in place |
| Objects.GraphObj.Render | GraphObj.cpp:24-36 | the drawn shapes are the world copies of the visible model shapes; the model shapes are unchanged |
| Bolts.New | Bolt.cpp:9-20 | a bolt has one spike of the configured size and colour, collision radius equal to the size, and dies out of bounds |
| Bolts.BoltCollidesIffSized | Bolt.cpp:19 | a bolt can collide iff its configured size is positive |
| Fragments.Side | Fragment.cpp:12-15 | a side length lies in [0.25, 0.75]·size |
| Fragments.BodyQuad | Fragment.cpp:30-42 | a body fragment is a visible four-vertex quad in one colour; every coordinate magnitude lies in [0.25, 0.75]·size with signs (+,+), (+,−), (−,−), (−,+) |
| Fragments.DrawSide | Fragment.cpp:12-15 | randSide consumes one draw and returns Side of it |
| Fragments.DrawBodyQuad | Fragment.cpp:33-41 | the quad consumes eight draws, left to right, and is BodyQuad of them |
| Fragments.New | Fragment.cpp:17-47 | a fragment has one shape, the configured lifespan and radius 0, so it never collides; the shape is the fire spike, or a visible quad with all four vertices in the configured colour and every half side in [0.25, 0.75]·size, built from exactly the eight draws taken |
| Fragments.LifeAfter | Fragment.cpp:56-65 | the remaining life is never negative; it stays positive iff it was positive and exceeds dt, in which case it drops by dt |
| Fragments.LifeCountsDown | Fragment.cpp:56-65 | with a fixed positive frame time, after n frames the life is the lifespan minus n·dt, or 0 once used up |
| Fragments.FragmentExpires | Fragment.cpp:56-65 | after frames covering the lifespan the remaining life is 0 |
| Fragments.Update | Fragment.cpp:54-68 | the life counts down, the fragment dies at zero, then the base update runs and kills it out of bounds |
| Volatile.ThrowOf | VolatileObj.cpp:36-52 | a throw has speed and spin within the style's ranges and a heading in [0, 2π]; the spin is negative only when the coin came up odd |
| Volatile.CoinOnlyReversesSpin | VolatileObj.cpp:49-52 | flipping the coin's parity negates the spin and changes nothing else |
| Volatile.ThrownAtDrawnSpeed | VolatileObj.cpp:54-58 | the thrown object's velocity differs from the thrower's by exactly the drawn speed, within the style's bounds |
| Volatile.ThrowObjRand | VolatileObj.cpp:30-59 | four draws are consumed; the object takes the thrower's position, the drawn heading and spin, and the thrower's velocity plus the drawn speed along the heading |
| Volatile.SetExplosionRatio | VolatileObj.h:19-20 | after setExplosionRatio the ratio read back is the one set |
| Volatile.FragmentConfigOf | VolatileObj.cpp:68-82 | an explosion configuration whose lifespan is randFloat(0.5, 2) of the first draw; it is a body quad iff the style is FireAndFragments and the second draw is a multiple of three |
| Volatile.DrawFragmentConfig | VolatileObj.cpp:68-82 | consumes two draws, or three for FireAndFragments, and returns FragmentConfigOf of exactly those draws, an explosion configuration |
| Volatile.ExplodeOne | VolatileObj.cpp:68-87 | one new fragment built from the configuration drawn at the current position (for a body quad: visible, all vertices in the object's main colour, every half side in [0.25, 0.75]·size) and thrown with the Explosion preset by the four draws after the fragment's own, its throw being ThrowOf of exactly those draws; the stream ends exactly past them |
| Volatile.ThrowFragment | VolatileObj.cpp:85 | throwObjRand takes four draws and throws the fragment from the object's position and velocity by ThrowOf(Explosion) of exactly those draws, leaving what the fragment was built as untouched |
| Volatile.Eject | VolatileObj.cpp:66-88 | `count` distinct new fragments, each built and thrown as above: fragment i draws its configuration from marks[i] and its throw is ThrowOf(Explosion) of the four draws just before marks[i + 1], where fragment i + 1 starts |
| Volatile.Explode | VolatileObj.cpp:61-91 | 15 to 30 distinct new fragments, as many as the first draw says and independent of the explosion ratio; after that draw each fragment draws its configuration and its throw in turn as Eject states; the object is killed |
| Asteroids.PointCount | Asteroid.cpp:40 | the rim has 6 to 12 points |
| Asteroids.NominalIsMultiple | Asteroid.cpp:55-65 | the accumulated nominal angle of point i is i times the spacing 2π/pointCount |
| Asteroids.Fan | Asteroid.cpp:51-79 | the fan has pointCount + 2 vertices: the centre in the main colour, the rim points in the dark colour, then the first rim point again |
| Asteroids.Outline | Asteroid.cpp:40-79 | the polygon drawn from the draws: pointCount + 2 vertices, vertex 0 at the origin in full colour, all others darkened, the last equal to vertex 1, the rim points in order |
| Asteroids.LengthWithinBand | Asteroid.cpp:61 | a rim length lies in [0.8, 1.3]·size |
| Asteroids.RimPointWithinBand | Asteroid.cpp:60-64 | a rim point's distance from the centre lies in [0.8, 1.3]·size |
| Asteroids.RimWithinBand | Asteroid.cpp:57-66 | every rim vertex of the drawn outline lies in that band around the drawn size |
| Asteroids.RimAngleNearNominal | Asteroid.cpp:60 | rim angle i lies within a third of the spacing of its nominal angle |
| Asteroids.RimAnglesIncrease | Asteroid.cpp:58-66 | consecutive rim angles increase |
| Asteroids.LastRimAngleShortOfTurn | Asteroid.cpp:58-66 | the last rim angle stays short of a full turn past the first |
| Asteroids.RimAnglesGoRoundOnce | Asteroid.cpp:58-66 | the outline goes round the centre once, counter-clockwise |
| Asteroids.RimPoints | Asteroid.cpp:58-66 | there is one rim point per point count |
| Asteroids.DrawRimPoint | Asteroid.cpp:60-64 | each rim point consumes two draws and is the specified point |
| Asteroids.DrawRim | Asteroid.cpp:58-67 | the loop fills vertices 1 to pointCount with the specified rim points and closes with vertex 1, leaving the centre alone |
| Asteroids.Colour | Asteroid.cpp:69-79 | vertex 0 takes the configured colour and every other vertex the darkened one |
| Asteroids.DrawOutline | Asteroid.cpp:40-67 | the point count and the size are the first two draws; the rim follows |
| Asteroids.DrawBody | Asteroid.cpp:53-79 | the vertex array is the fan of the drawn rim points |
| Asteroids.FromOutline | Asteroid.cpp:80-95 | the radius is the size; with a positive minimum child size, mass = (r/min)² and the explosion ratio = r/min; the style is FireOnly; children are allowed |
| Asteroids.New | Asteroid.cpp:38-96 | a new asteroid: the outline above, a radius drawn in [minSize, maxSize], the configured colour and minimum child size, FireOnly, explodes on death |
| Asteroids.ChildConfig | Asteroid.cpp:107-111 | children are drawn between 0.1 and 0.75 of the radius, in the parent's colour and minimum child size |
| Asteroids.Place | Asteroid.cpp:127-133 | a child is thrown with the Breakup preset, moved half the parent's radius along its heading, its spin scaled by minChildSize/size, and put on the parent's team |
| Asteroids.ScaledSpin | Asteroid.cpp:132 | the scaled spin never reverses the child's spin and, for a child no smaller than the minimum child size, is no faster; a child of exactly that size keeps its spin |
| Asteroids.Settle | Asteroid.cpp:129-133 | a thrown child is moved, has its spin scaled and joins the parent's team |
| Asteroids.NewChild | Asteroid.cpp:115 | each new child is drawn from the child configuration; it takes the point count, size and rim draws, the size being the second draw |
| Asteroids.TryChild | Asteroid.cpp:115-126 | a try is kept iff the child is no smaller than the minimum child size and its squared radius fits the remaining budget; a kept child is then thrown by the next four draws, and a dropped one leaves the stream right after its build |
| Asteroids.BreakUp | Asteroid.cpp:113-135 | at most 15 distinct children, each a placed child of the parent, whose squared radii sum to at most r²; child i draws from marks[i] up to marks[i + 1]; fewer than 15 means the try after the last child was built and dropped |
| Asteroids.Sprouts | Asteroid.cpp:113-135 | the loop of BreakUp; the budget left is r² less the children's squared radii and never negative |
| Asteroids.Explode | Asteroid.cpp:98-141 | the ejecta are the children followed by 15 to 30 fragments; no children once disintegrated; the children's squared radii sum to at most r²; the asteroid dies. The draws of each part are those of BreakUp and Volatile.Explode |
| Asteroids.KnockConfigFor | Asteroid.cpp:24-36 | the knock keeps the linear speed bounds and caps the spin at 6π scaled by minChildSize/radius for a positive radius |
| Asteroids.KnockSpinShrinksWithSize | Asteroid.cpp:30-34 | the knock spin cap is positive, at most 6π for a rock no smaller than its minimum child size, and exactly 6π at that size |
| Ships.Hull | Ship.cpp:41-47 | the hull is a visible triangle whose nose is at (size, 0) and spans [-size/2, size] along x |
| Ships.Window | Ship.cpp:51-59 | the window is a visible quad behind the nose |
| Ships.Base | Ship.cpp:61-69 | the base is a visible quad in the configured base colour behind the nose |
| Ships.Nozzle | Ship.cpp:71-79 | the nozzle is a visible quad behind the nose |
| Ships.Exhaust | Ship.cpp:81-87 | the flame is a triangle, orange at its tip and red elsewhere, wholly behind the wings |
| Ships.ShipShapes | Ship.cpp:89-94 | the ship has five shapes, the hull first and the exhaust last, at the exhaust index |
| Ships.NoseLeadsExhaustTrails | Ship.cpp:38-87 | no vertex lies ahead of the nose, and every exhaust vertex lies behind every hull vertex |
| Ships.FirePeriodFor | Ship.cpp:103-107 | the fire period is 1/3 s, or 1 s exactly in head-to-head mode |
| Ships.New | Ship.cpp:19-108 | a new ship: its shapes, cannon at the nose, maximum speed 10·size, bolt speed 20·size, bolt size 0.33·size, collision radius size, fire wait 0, explodes on death |
| Ships.Equip | Ship.cpp:89-107 | the derived parameters the constructor sets |
| Ships.UpdateControls | Ship.h:37-40 | the latched controls are replaced wholesale |
| Ships.RotationRate | Ship.cpp:118-129 | the spin is negative iff rotateLeft, positive iff rotateRight without rotateLeft, else 0; its size is 1.5π |
| Ships.Thrusted | Ship.cpp:137-143 | thrust adds dt·4·size along the heading vector |
| Ships.ThrustKick | Ship.cpp:137-143 | one frame of thrust changes the velocity by exactly dt·4·size, whatever the heading |
| Ships.Clamp | Ship.cpp:145-151 | a velocity within the cap is unchanged; one over the cap is the same vector scaled by cap/speed |
| Ships.ClampWithinCap | Ship.cpp:145-152 | the clamped velocity is within the cap, parallel to and in the same direction as the input, and unchanged when already within the cap |
| Ships.ClampScaled | Ship.cpp:150-151 | scaling by cap/speed lands on the cap along the same direction |
| Ships.ShipVelocity | Ship.cpp:131-160 | a ship with no maximum speed stands still; without thrust it coasts; with thrust its velocity is the thrusted one, kept within the cap or scaled down to it |
| Ships.ShipVelocityWithinCap | Ship.cpp:131-160 | after the control step the ship's speed never exceeds its maximum |
| Ships.ExhaustShapes | Ship.cpp:131-160 | only the exhaust shape's visibility changes: it follows thrust when the maximum speed is non-zero and is untouched otherwise |
| Ships.FireWaitAfter | Ship.cpp:162-169 | the fire wait counts down only while positive and is floored at 0, so it is never negative |
| Ships.WaitCountsDown | Ship.cpp:162-169 | with a fixed frame time the wait after n frames is the start minus n·dt, or 0 once used up |
| Ships.ReadyAfterFirePeriod | Ship.cpp:162-171 | the cannon is ready after n frames iff n·dt covers the fire period |
| Ships.Thrust | Ship.cpp:137-152 | thrust adds dir·(dt·4·size) to the velocity, then a speed over the cap is scaled down to the cap |
| Ships.Steer | Ship.cpp:117-160 | the spin follows the rotation keys; the velocity follows thrust and the cap (zero when the maximum is zero); the exhaust visibility follows thrust |
| Ships.Fire | Ship.cpp:162-180 | the wait counts down; when fire is held and the wait is over, exactly one new bolt is appended to the spawn list, with the ship's team and angle, at the world cannon point, moving at dir·boltSpeed, and the wait resets to the period; otherwise the spawn list is unchanged |
| Ships.Update | Ship.cpp:115-183 | steering, firing, then the base motion with the new velocity and spin |
| Box.BoxRandIntOf | GameBox.cpp:28-35 | GameBox's randInt gives min when max <= min, and otherwise a value in [min, max − 1] |
| Box.BoxRandIntIsInclusiveOneUp | GameBox.cpp:28-35 | it agrees with the inclusive randInt one higher, and never reaches max |
| Box.BoxRandIntCovers | GameBox.cpp:28-35 | every value of [min, max − 1] is produced by some draw |
| Box.BoxRandInt | GameBox.cpp:28-35 | it consumes a draw only when max > min |
| Box.DrawFragment | GameBox.cpp:161-185 | one new fragment: three draws for speed, spin and heading, then an explosion configuration from the next three, then its sides; built from that configuration (for a body quad: visible, all vertices in the object's main colour, every half side in [0.25, 0.75]·size) and thrown from the dead object's position |
| Box.DrawBoxThrow | GameBox.cpp:161-163 | three draws: speed in [500, 1000], spin in [0, 12π], heading in [0, 2π] |
| Box.PlaceThrown | GameBox.cpp:181-185 | the fragment takes the object's position, the drawn heading and spin, and the object's velocity plus the drawn speed along the heading |
| Box.LiveFlags | GameBox.cpp:109-114 | one alive flag per listed object |
| Box.ExplodeFlags | GameBox.cpp:115-123 | an object is exploded iff it is dead and explodes on death |
| Box.CollidesWithIsHits | GraphObj.cpp:92-114 | between live, collidable objects collidesWith is exactly the team and overlap test on their bodies |
| Box.Hits | GraphObj.cpp:94-115 | team-mates never hit; a hit needs a non-zero radius sum; two bodies of different teams at the same spot with a non-zero radius sum hit |
| Box.Candidates | GameBox.cpp:45-52 | the candidates are live objects of the list with a positive radius |
| Box.EraseAtKeepsOthers | GameBox.cpp:72 | erasing one entry of a duplicate-free list removes exactly that entry |
| Box.FirstHit | GameBox.cpp:59-81 | the inner scan stops at the first other candidate that collides, or at the end |
| Box.Resolve | GameBox.cpp:55-90 | the specification of the collision pass: at most half the candidates pair off |
| Box.RestIsTheOthers | GameBox.cpp:72-85 | after a collision the candidate list holds exactly the others |
| Box.ResolvedPairsCollide | GameBox.cpp:68-76 | every pair the pass finds collides, is on different teams and comes from the candidates |
| Box.ResolvedPartnersDistinct | GameBox.cpp:68-85 | no candidate is a partner in two collisions |
| Box.NoCollisionLeftUnresolved | GameBox.cpp:55-90 | after the pass, no two candidates that were not partners collide, in either order |
| Box.KillPair | GameBox.cpp:68-71 | both partners of a collision die |
| Box.Settled | GameBox.cpp:55-90 | after the pass no two live, collidable objects collide |
| Box.GatherStep | GameBox.cpp:46-52 | an object joins the candidates iff it is alive and can collide |
| Box.Collided | GameBox.cpp:55-90 | the pairs found collide, come from the candidates and have distinct partners |
| Box.FindPartner | GameBox.cpp:59-81 | the inner loop finds the first hit |
| Box.UpdateObject | GameBox.cpp:129 | the virtual update from the state before it: ships steer, fire and move; fragments count down and move; other kinds only move; the object stays alive iff it outlives the move (and a fragment has life left); at most one new bolt, only from a ship, on its team |
| Box.GameBox.constructor | GameBox.h:17 | a new box is empty and has no valid last update time |
| Box.GameBox.Add | GameBox.cpp:146-152 | add ignores null and otherwise appends |
| Box.GameBox.IsPresent | GameBox.cpp:193-203 | isPresent is true iff the object is in the list |
| Box.GameBox.Remove | SinglePlayerGame.cpp:160 | remove erases the object from the list and keeps the others |
| Box.Without | SinglePlayerGame.cpp:160 | the list without x holds exactly the other entries |
| Box.WithoutKeepsOthers | SinglePlayerGame.cpp:160 | removal does not grow the list and keeps it duplicate-free |
| Box.GameBox.Visit | GameBox.cpp:107-133 | one step of the walk keeps its invariant, including that every live object passed has been updated once from its state and the ones ahead are untouched, and that every fragment visited has been updated once from the state its explosion left it in and the ones ahead are as that explosion left them; and it makes progress |
| Box.GameBox.VisitLive | GameBox.cpp:127-132 | a live object is updated once from its state and kept; no other object changes; when it is a fragment, it joins the visited fragments, updated from the state its explosion left it in |
| Box.GameBox.KeepTracked | GameBox.cpp:127-132 | the found-object part of VisitLive: the object is updated from its state, the walk moves past it, and every other found object is untouched |
| Box.GameBox.KeepLive | GameBox.cpp:127-132 | the list part of VisitLive: the object is updated from its own state and the walk moves past it |
| Box.GameBox.VisitDead | GameBox.cpp:115-126 | a dead object is erased, after its fragments are appended when it explodes; no other object changes; the new fragments are recorded, alive, in the states the explosion left them in |
| Box.GameBox.EraseDead | GameBox.cpp:115-126 | the list part of VisitDead: exploded if it explodes on death, then erased; the fragments ahead gain exactly the new ones, all alive |
| Box.GameBox.VisitExploding | GameBox.cpp:115-126 | a dead object that explodes has its fragments appended behind those already ahead, all alive, then is erased |
| Box.FragmentsThrown | GameBox.cpp:115-126 | fragments appended by an explosion join the walk's record with their current states, alive, and the earlier record is kept |
| Box.FragmentVisited | GameBox.cpp:127-132 | once the first fragment ahead is updated from its recorded state, it counts as visited and the record still holds |
| Box.GameBox.Ended | GameBox.cpp:106-133 | at the end the list is the live objects, in order, followed by the fragment groups, and the dead are gone |
| Box.GameBox.UpdateObjects | GameBox.cpp:106-133 | dead objects are erased, exploding ones leave 15 to 29 fragments at the end of the list, and every object found alive has been updated once from its state at the start of the tick; the same pass updates every fragment once, from its alive starting state in `thrown` |
| Box.GameBox.WalkAll | GameBox.cpp:106-133 | the loop of the walk runs to the end of the list and leaves every live object passed, and every fragment, updated once |
| Box.GameBox.AppendAll | GameBox.cpp:137-140 | the spawn list is appended in order |
| Box.GameBox.Update | GameBox.cpp:93-144 | the frame delta is 0 on the first update and now − last afterwards; every object found alive, and every fragment from its alive starting state in `thrown`, has moved once over that delta and is alive exactly when it outlived its update and no collision killed it; the list is the updated objects, then the spawned bolts, which are never collision-tested in their first frame; the timestamp is set |
| Box.GameBox.Stamp | GameBox.cpp:142-143 | the clock reading is kept and marked valid |
| Box.GameBox.Tick | GameBox.cpp:103-140 | the object walk, the collision pass and the spawn append, in that order; every object found alive, and every fragment from its alive starting state in `thrown`, moved once and is alive exactly when it outlived its update and no collision killed it |
| Box.GameBox.UpdateAndCollide | GameBox.cpp:103-135 | the walk, then the collision pass, with the same outcome for the objects found alive and for the fragments |
| Box.GameBox.Collide | GameBox.cpp:135 | the collision pass keeps the motion of each update, of found objects and fragments alike, and kills exactly the partners of the pairs found |
| Box.GameBox.Explode | GameBox.cpp:154-191 | nothing for null; otherwise 15 to 29 distinct new fragments appended, each thrown from the object's position, and the object killed; after the count draw, fragment i draws from marks[i] up to marks[i + 1] |
| Box.GameBox.Scatter | GameBox.cpp:159-188 | the loop of GameBox::explode: `count` fragments appended in turn, each drawing where the previous one stopped |
| Box.GameBox.Gather | GameBox.cpp:45-52 | the candidates are the live, collidable objects, in list order |
| Box.GameBox.Strike | GameBox.cpp:68-85 | both partners die, both leave the candidate list, and the outer scan moves on |
| Box.GameBox.CheckOne | GameBox.cpp:56-89 | one outer step keeps the invariant and shrinks what is left |
| Box.GameBox.Pass | GameBox.cpp:55-90 | the pairs killed are those the specification of the pass resolves, and everyone else is spared |
| Box.GameBox.CheckForCollisions | GameBox.cpp:37-91 | an object dies iff it was dead or was a partner in a found pair; every pair collides with distinct partners; afterwards no two live, collidable objects collide |
| SinglePlayer.AsteroidCount | SinglePlayerGame.cpp:59 | the field holds minAsteroids to maxAsteroids rocks (min when max <= min) |
| SinglePlayer.ChannelAt | SinglePlayerGame.cpp:68-71 | a colour channel lies between the two bounds, and is the low bound at ratio 0 and the high bound at ratio 1 |
| SinglePlayer.FieldColor | SinglePlayerGame.cpp:67-71 | one ratio sets all three channels |
| SinglePlayer.SquareU32 | SinglePlayerGame.cpp:90-91 | the window extent squared in 32-bit unsigned arithmetic equals the true square when that fits |
| SinglePlayer.WrappedSquare | SinglePlayerGame.cpp:103-110 | with a non-negative extent the wrapped square is never negative and never above the raw square; at most the extent, it is the raw square |
| SinglePlayer.InBlast | SinglePlayerGame.cpp:98-112 | nothing is in a blast of radius 0, and every point within the plain distance of the centre is in it |
| SinglePlayer.WrapAxis | SinglePlayerGame.cpp:103-110 | the squared delta loses the squared extent once when it exceeds it |
| SinglePlayer.BlastTest | SinglePlayerGame.cpp:98-112 | the test is the sum of the wrapped squared deltas against radius² |
| SinglePlayer.InBlastInsideWindow | SinglePlayerGame.cpp:100-112 | for points in the window the wrap never fires and the test is the plain distance test |
| SinglePlayer.CenterInBlast | SinglePlayerGame.cpp:111-112 | the blast centre itself is hit iff the radius is non-zero |
| SinglePlayer.TeamCount | SinglePlayerGame.cpp:121-131 | the count is at most the list length, zero iff nobody is on the team, full iff everybody is |
| SinglePlayer.PopulatedCount | SinglePlayerGame.cpp:57-83 | populating adds exactly its new rocks to the team count |
| SinglePlayer.NewFieldAsteroid | SinglePlayerGame.cpp:63-79 | a field rock: configured size range and minimum child size, a colour between the bounds, placed in the window, on the field's team; the colour is the first draw, the size the third, and the two draws after the build place it |
| SinglePlayer.BuildFieldAsteroid | SinglePlayerGame.cpp:65-76 | the colour ratio, then the asteroid built from the field configuration and that colour |
| SinglePlayer.AsteroidField.constructor | SinglePlayerGame.cpp:46-54 | a new field is an empty box with team index 0 |
| SinglePlayer.AsteroidField.PopulateField | SinglePlayerGame.cpp:57-84 | the drawn count of new field rocks is appended and the field records the team index |
| SinglePlayer.AsteroidField.AddAsteroids | SinglePlayerGame.cpp:61-81 | the loop appends that many new field rocks |
| SinglePlayer.AsteroidField.DisintegrateAround | SinglePlayerGame.cpp:86-117 | exactly the objects on the field's team within the blast are disintegrated; others are untouched |
| SinglePlayer.AsteroidField.GetAsteroidTeamCount | SinglePlayerGame.cpp:119-132 | the result is the number of objects on the field's team |
| SinglePlayer.Spot | SinglePlayerGame.cpp:193-198 | the respawn point lies in the window |
| SinglePlayer.Heading | SinglePlayerGame.cpp:201 | the respawn heading lies in [0, 2π] |
| SinglePlayer.DrawSpot | SinglePlayerGame.cpp:193-198 | two draws, x then y, give the spot |
| SinglePlayer.DrawHeading | SinglePlayerGame.cpp:201 | one draw gives the heading |
| SinglePlayer.Respawn | SinglePlayerGame.cpp:192-203 | the ship revives at a random spot, the field is cleared around it by a fifth of the window width, it comes to rest facing a random way and is added |
| SinglePlayer.Place | SinglePlayerGame.cpp:192-198 | the ship revives at the drawn spot |
| SinglePlayer.Settle | SinglePlayerGame.cpp:200-202 | the ship stops, stops spinning and faces the drawn heading |
| SinglePlayer.Player.constructor | SinglePlayerGame.cpp:146-155 | a new player is respawning with its clock started now and no ship |
| SinglePlayer.Player.SetShip | SinglePlayerGame.cpp:149 | the player's ship is the one given |
| SinglePlayer.Player.Restart | SinglePlayerGame.cpp:158-163 | the ship is removed, the clock restarts and the player is respawning |
| SinglePlayer.Player.Update | SinglePlayerGame.cpp:165-215 | a no-op without a field or a ship; otherwise the controls are latched, the ship respawns only when respawning, absent and past the respawn time, and a dead ship otherwise starts the respawn clock; a respawned ship stands at the spot of the next two draws, faces the heading of the third, and is added to the field, whose live objects within the disintegration radius die and whose rocks among them lose their children |

## Left out

- Rendering, the window and the event loops: `win.draw`, `RenderWindow`, and the game
  shells in `Main.cpp`, `Asteroids.cpp`, `MultiPlayerGame.cpp` and
  `SinglePlayerGame.cpp:217-289`. `render` is modelled only as the vertex transform.
  The three whole files are earlier copies of the shell and of the player and field
  logic, and are not part of this model.
- `rand()` and `srand`: the draws are a stream parameter. How they are seeded is not
  modelled.
- `sf::Clock` and the keyboard: the time `now`, the frame time and the key flags are
  inputs. The key bindings and team colour in `Player::Config` play no part.
- Floating-point rounding. All quantities are `real`, and `sin`, `cos` and `sqrt` are
  parameters constrained only by `sin² + cos² = 1` and a non-negative square root.
  The `(int)` casts of the field colour are floors of non-negative reals.
- `shared_ptr` ownership and lifetimes: objects are class references. A null entry in
  `mObjects` cannot occur, because `add` refuses null.
- `knockRand` and `KnockConfig` (the random knock applied by `populateField`): their
  declarations are not part of the shown sources. Only the configuration built by
  `knockAsteriod` is modelled (`Asteroids.KnockConfigFor`).
- SinglePlayer.AsteroidField.PopulateField: field rocks keep the velocity and spin
  they were built with, and the stated number of draws omits those of the knock,
  because the knock is not modelled.
- The base `GraphObj::disintegrate` is not part of the shown sources. The model
  assumes it kills the object, which is what `Asteroid::disintegrate` adds to.
- `GameBox::remove` is not part of the shown sources. The model erases every
  occurrence of the object.
- The order in which C++ evaluates the two `randSide()` or `randFloat()` arguments of
  one vector is unspecified. The model takes them left to right.
- Asteroid children take their radius from a `Config` whose `minSize` and `maxSize`
  are 0.1 and 0.75 of the parent's radius. A child radius of zero would divide by zero
  in `explode`; the model then leaves the spin unscaled (`Asteroids.ScaledSpin`).
- Ships.Clamp / Ships.Thrust: the zero-speed guard is not in `Ship.cpp:146-151`, which
  divides by the speed whenever it exceeds the cap. The two differ only for a zero
  speed over a negative cap (a ship of negative size), where the program computes 0/0.
  Real division by zero is undefined here, so the model leaves that velocity unscaled.
- Asteroids.Explode: does not say where in the stream each child's and each
  fragment's draws begin. `BreakUp` and `Volatile.Explode` state that for their parts,
  but the two are not joined here.
- Box.GameBox.Update / Box.GameBox.Tick: do not state the draws the tick's explosions
  consume. `Box.GameBox.Explode` states them for each explosion.
- Box.GameBox.UpdateObjects / Box.GameBox.Tick / Box.GameBox.Update: the fragments'
  starting states `thrown` are only said to be alive. Inside the walk they are the
  fragments' states as their explosion appended them (`Box.FragmentsTracked`, kept by
  `Box.GameBox.Visit`). The contracts do not join them to the throws
  `Box.GameBox.Explode` states for each explosion.
