/**
  Ship (Ship.h, Ship.cpp): the player's ship. Its size fixes the speed cap,
  the thrust, the bolt speed and size and the collision radius; each update
  applies the latched controls (rotation, thrust with a speed cap, the
  exhaust flame, the rate-limited cannon) before the base motion.
*/
module Ships {
  import opened Geometry
  import opened Objects
  import Bolts
  import Random

  /** 0.75 revolutions per second, in radians per second. */
  const RotationSpeed: real := 0.75 * 2.0 * PI

  /** kBoltColor */
  const BoltColor: Color := Color(0x80, 0xFF, 0xFF)

  /** Index of the exhaust flame among the five ship shapes. */
  const ExhaustIndex: int := 4

  /** The hull triangle; its first vertex is the nose, where the cannon sits. */
  function Hull(size: real): (s: Shape)
    ensures s.primitive == Triangles && s.visible && |s.vertices| == 3
    ensures s.vertices[0].pos == Vec(size, 0.0)
    ensures 0.0 < size ==> forall j :: 0 <= j < 3 ==> -size * 0.5 <= s.vertices[j].pos.x <= size
  {
    var wingEndX, wingEndY := -size * 0.5, size * 0.87;
    Shape(Triangles, [Vertex(Vec(size, 0.0), MediumGray),
                      Vertex(Vec(wingEndX, -wingEndY), MediumGray),
                      Vertex(Vec(wingEndX, wingEndY), MediumGray)], true)
  }

  /**
    The cockpit window, the second of the ship's shapes. With the base and
    the nozzle it fills the places between the hull and the flame, so the
    flame is the fifth shape (ExhaustIndex) that the update toggles.
  */
  function Window(size: real): (s: Shape)
    ensures s.visible && |s.vertices| == 4
    ensures 0.0 < size ==> forall j :: 0 <= j < 4 ==> s.vertices[j].pos.x <= size
  {
    var windowMinY, windowMaxY := size * 0.167, size * 0.333;
    var windowEndX, windowStartX := size * 0.5, size * 0.167;
    Shape(Quads, [Vertex(Vec(windowEndX, windowMinY), Blue),
                  Vertex(Vec(windowEndX, -windowMinY), Blue),
                  Vertex(Vec(windowStartX, -windowMaxY), LightBlue),
                  Vertex(Vec(windowStartX, windowMaxY), LightBlue)], true)
  }

  /** The base across the wing ends, the third shape: the only one in the player's colour. */
  function Base(size: real, baseColor: Color): (s: Shape)
    ensures s.visible && |s.vertices| == 4
    ensures forall j :: 0 <= j < 4 ==> s.vertices[j].color == baseColor
    ensures 0.0 < size ==> forall j :: 0 <= j < 4 ==> s.vertices[j].pos.x <= size
  {
    var wingEndX := -size * 0.5;
    var baseStartX, baseEndX, baseY := wingEndX + size * 0.167, wingEndX, size * 0.45;
    Shape(Quads, [Vertex(Vec(baseStartX, baseY), baseColor),
                  Vertex(Vec(baseStartX, -baseY), baseColor),
                  Vertex(Vec(baseEndX, -baseY), baseColor),
                  Vertex(Vec(baseEndX, baseY), baseColor)], true)
  }

  /** The nozzle behind the base, the fourth shape; the flame starts where it ends. */
  function Nozzle(size: real): (s: Shape)
    ensures s.visible && |s.vertices| == 4
    ensures 0.0 < size ==> forall j :: 0 <= j < 4 ==> s.vertices[j].pos.x <= size
  {
    var nozzleStartX := -size * 0.5;
    var nozzleEndX := nozzleStartX - size * 0.167;
    var nozzleMinY, nozzleMaxY := size * 0.22, size * 0.25;
    Shape(Quads, [Vertex(Vec(nozzleEndX, nozzleMinY), DarkGray),
                  Vertex(Vec(nozzleEndX, -nozzleMinY), DarkGray),
                  Vertex(Vec(nozzleStartX, -nozzleMaxY), DarkGray),
                  Vertex(Vec(nozzleStartX, nozzleMaxY), DarkGray)], true)
  }

  /** The exhaust flame, behind the nozzle. */
  function Exhaust(size: real): (s: Shape)
    ensures s.primitive == Triangles && s.visible && |s.vertices| == 3
    ensures s.vertices[0].color == Orange && s.vertices[1].color == Red && s.vertices[2].color == Red
    ensures 0.0 < size ==> forall j :: 0 <= j < 3 ==> s.vertices[j].pos.x < -size * 0.5
  {
    var nozzleEndX := -size * 0.5 - size * 0.167;
    var thrustStartX, thrustEndX, thrustY := nozzleEndX, nozzleEndX - size * 0.4, size * 0.2;
    Shape(Triangles, [Vertex(Vec(thrustEndX, 0.0), Orange),
                      Vertex(Vec(thrustStartX, -thrustY), Red),
                      Vertex(Vec(thrustStartX, thrustY), Red)], true)
  }

  /** The five model shapes: hull, window, base, nozzle and exhaust, in drawing order. */
  function ShipShapes(size: real, baseColor: Color): (s: seq<Shape>)
    ensures |s| == 5 && ExhaustIndex == |s| - 1
    ensures s[0] == Hull(size) && s[ExhaustIndex] == Exhaust(size)
  {
    [Hull(size), Window(size), Base(size, baseColor), Nozzle(size), Exhaust(size)]
  }

  /**
    For a ship of positive size the cannon at the nose is the forward-most
    model point, and the exhaust flame lies wholly behind the hull.
  */
  lemma {:induction false} NoseLeadsExhaustTrails(size: real, baseColor: Color)
    requires 0.0 < size
    ensures var s := ShipShapes(size, baseColor);
            forall k, j :: 0 <= k < |s| && 0 <= j < |s[k].vertices| ==> s[k].vertices[j].pos.x <= size
    ensures var s := ShipShapes(size, baseColor);
            forall j, i :: 0 <= j < |s[ExhaustIndex].vertices| && 0 <= i < |s[0].vertices| ==>
              s[ExhaustIndex].vertices[j].pos.x < s[0].vertices[i].pos.x
  {
    var s := ShipShapes(size, baseColor);
    assert s == [Hull(size), Window(size), Base(size, baseColor), Nozzle(size), Exhaust(size)];
    forall k, j | 0 <= k < |s| && 0 <= j < |s[k].vertices|
      ensures s[k].vertices[j].pos.x <= size
    {
      assert s[k] in [Hull(size), Window(size), Base(size, baseColor), Nozzle(size), Exhaust(size)];
    }
  }

  /** The fire period: one shot per third of a second, one per second head to head. */
  function FirePeriodFor(headToHead: bool): (p: real)
    ensures 0.0 < p <= 1.0
    ensures headToHead <==> p == 1.0
  {
    if headToHead then 1.0 / 1.0 else 1.0 / 3.0
  }

  /** Ship::Ship */
  method New(config: ShipConfig) returns (s: GraphObj)
    ensures fresh(s) && s.Valid()
    ensures s.kind == ShipKind && ExplodesOnDeath(s.kind) && s.shipConfig == config
    ensures s.shapes == ShipShapes(config.sizeRadius, config.baseColor) && s.exhaustIndex == ExhaustIndex
    ensures s.cannonModelPt == s.shapes[0].vertices[0].pos && s.mainColor == MediumGray
    ensures s.maxVelocity == 10.0 * config.sizeRadius && s.boltSpeed == 20.0 * config.sizeRadius
    ensures s.boltConfig == BoltConfig(BoltColor, 0.33 * config.sizeRadius)
    ensures s.collisionRadius == config.sizeRadius
    ensures s.firePeriod == FirePeriodFor(config.headToHead) && s.fireWaitTime == 0.0
    ensures s.controls == NoControls && s.alive && s.team == 0
    ensures s.center == Origin && s.velocity == Origin && s.angle == 0.0 && s.radialVelocity == 0.0
  {
    s := new GraphObj(ShipKind);
    Equip(s, config);
  }

  /** The fields Ship::Ship sets on top of the GraphObj and VolatileObj defaults. */
  method Equip(s: GraphObj, config: ShipConfig)
    modifies s`shipConfig, s`shapes, s`exhaustIndex, s`cannonModelPt, s`mainColor, s`maxVelocity, s`boltSpeed
    modifies s`boltConfig, s`collisionRadius, s`firePeriod
    ensures s.shipConfig == config
    ensures s.shapes == ShipShapes(config.sizeRadius, config.baseColor) && s.exhaustIndex == ExhaustIndex
    ensures s.cannonModelPt == s.shapes[0].vertices[0].pos && s.mainColor == MediumGray
    ensures s.maxVelocity == 10.0 * config.sizeRadius && s.boltSpeed == 20.0 * config.sizeRadius
    ensures s.boltConfig == BoltConfig(BoltColor, 0.33 * config.sizeRadius)
    ensures s.collisionRadius == config.sizeRadius
    ensures s.firePeriod == FirePeriodFor(config.headToHead)
  {
    var shapes := ShipShapes(config.sizeRadius, config.baseColor);
    var body := shapes[0];
    s.shipConfig := config;
    s.shapes, s.exhaustIndex := shapes, |shapes| - 1;
    s.cannonModelPt, s.mainColor := body.vertices[0].pos, MediumGray;
    s.maxVelocity := 10.0 * config.sizeRadius;
    s.boltSpeed := 20.0 * config.sizeRadius;
    s.boltConfig := BoltConfig(BoltColor, 0.33 * config.sizeRadius);
    s.collisionRadius := config.sizeRadius;
    s.firePeriod := 1.0 / 3.0;
    if config.headToHead {
      s.firePeriod := 1.0 / 1.0;
    }
  }

  /** Ship::updateControls: latch the controls for the next update. */
  method UpdateControls(ship: GraphObj, controls: Controls)
    modifies ship`controls
    ensures ship.controls == controls
  {
    ship.controls := controls;
  }

  /** The spin the controls ask for; rotate-left wins when both are held. */
  function RotationRate(c: Controls): (r: real)
    ensures r < 0.0 <==> c.rotateLeft
    ensures 0.0 < r <==> !c.rotateLeft && c.rotateRight
    ensures r == -RotationSpeed || r == 0.0 || r == RotationSpeed
  {
    if c.rotateLeft then -0.75 * 2.0 * PI
    else if c.rotateRight then 0.75 * 2.0 * PI
    else 0.0
  }

  /** The velocity after one frame of thrust along the heading. */
  function Thrusted(v: Vec, m: Math, angle: real, dt: real, size: real): (t: Vec)
    ensures t == Add(v, Scale(Direction(m, angle), dt * 4.0 * size))
  {
    var thrustDelta := dt * 4.0 * size;
    Vec(v.x + m.cos(angle) * thrustDelta, v.y + m.sin(angle) * thrustDelta)
  }

  /** One frame of thrust changes the velocity by exactly dt * 4 * size, whatever the heading. */
  lemma {:induction false} ThrustKick(v: Vec, m: Math, angle: real, dt: real, size: real)
    requires UnitCircle(m)
    ensures NormSq(Sub(Thrusted(v, m, angle, dt, size), v)) == (dt * 4.0 * size) * (dt * 4.0 * size)
  {
    var k := dt * 4.0 * size;
    assert Sub(Thrusted(v, m, angle, dt, size), v) == Vec(m.cos(angle) * k, m.sin(angle) * k);
    PolarLength(m, angle, k);
  }

  /**
    The speed cap: a velocity whose speed exceeds the cap is scaled down to
    the cap. A zero speed over a negative cap (a ship of negative size) is
    left alone rather than divided by zero.
  */
  function Clamp(v: Vec, speed: real, maxV: real): (c: Vec)
    ensures speed <= maxV || speed == 0.0 ==> c == v
    ensures maxV < speed && speed != 0.0 ==> c == Scale(v, maxV / speed)
  {
    if speed > maxV && speed != 0.0 then Vec(v.x / speed * maxV, v.y / speed * maxV) else v
  }

  /**
    With `speed` the true length of `v` and a non-negative cap, the clamped
    velocity is within the cap, parallel to `v` and pointing the same way,
    and equal to `v` when it was already within the cap.
  */
  lemma {:induction false} ClampWithinCap(v: Vec, speed: real, maxV: real)
    requires 0.0 <= maxV && 0.0 <= speed && speed * speed == NormSq(v)
    ensures var c := Clamp(v, speed, maxV);
            NormSq(c) <= maxV * maxV && c.x * v.y == c.y * v.x && 0.0 <= c.x * v.x + c.y * v.y
    ensures speed <= maxV ==> Clamp(v, speed, maxV) == v
  {
    var c := Clamp(v, speed, maxV);
    if speed > maxV {
      ClampScaled(v.x, v.y, speed, maxV, c.x, c.y);
    } else {
      SelfAligned(c, v);
      Random.SquareMonotone(speed, maxV);
      Random.MulNonNegative(speed, speed);
    }
    assert NormSq(c) <= maxV * maxV && c.x * v.y == c.y * v.x && 0.0 <= c.x * v.x + c.y * v.y;
  }

  /** A velocity left as it was is parallel to itself and points its own way. */
  lemma SelfAligned(c: Vec, v: Vec)
    requires c == v
    ensures c.x * v.y == c.y * v.x && 0.0 <= c.x * v.x + c.y * v.y
  {
    Random.SquareSign(v.x);
    Random.SquareSign(v.y);
  }

  /** The arithmetic of a clamp that scales down: (cx, cy) is (x, y) scaled by maxV / speed. */
  lemma ClampScaled(x: real, y: real, speed: real, maxV: real, cx: real, cy: real)
    requires 0.0 <= maxV < speed && speed * speed == x * x + y * y
    requires cx == x / speed * maxV && cy == y / speed * maxV
    ensures cx * cx + cy * cy <= maxV * maxV && cx * y == cy * x && 0.0 <= cx * x + cy * y
  {
    var k := maxV / speed;
    DivTimes(x, speed, maxV);
    DivTimes(y, speed, maxV);
    Scaled(x, y, k, cx, cy);
    Cancel(speed, maxV);
    MulEqual(x * x + y * y, speed * speed, k * k);
    Random.MulNonNegative(speed, speed);
    Random.MulNonNegative(k, x * x + y * y);
  }

  /** Dividing by s and then multiplying by m is multiplying by m / s. */
  lemma DivTimes(x: real, s: real, m: real)
    requires s != 0.0
    ensures x / s * m == x * (m / s)
  {
  }

  /** Equal reals stay equal when multiplied by the same factor. */
  lemma MulEqual(a: real, b: real, c: real)
    requires a == b
    ensures a * c == b * c
  {
  }

  /** Scaling (x, y) by k scales its squared length by k * k, keeps it parallel and scales its dot product with (x, y) by k. */
  lemma Scaled(x: real, y: real, k: real, cx: real, cy: real)
    requires cx == x * k && cy == y * k
    ensures cx * cx + cy * cy == (x * x + y * y) * (k * k)
    ensures cx * y == cy * x
    ensures cx * x + cy * y == k * (x * x + y * y)
  {
  }

  /** Dividing the cap by a positive speed and scaling the speed by it gives back the cap. */
  lemma Cancel(speed: real, maxV: real)
    requires 0.0 < speed && 0.0 <= maxV
    ensures 0.0 <= maxV / speed
    ensures speed * speed * ((maxV / speed) * (maxV / speed)) == maxV * maxV
  {
    var k := maxV / speed;
    assert speed * k == maxV;
    Random.MulNonNegative(maxV, 1.0 / speed);
    calc {
      speed * speed * (k * k);
      (speed * k) * (speed * k);
      maxV * maxV;
    }
  }

  /** The velocity part of Ship::update. */
  function ShipVelocity(v: Vec, c: Controls, angle: real, dt: real, size: real, maxV: real, m: Math): (r: Vec)
    ensures maxV == 0.0 ==> r == Origin
    ensures maxV != 0.0 && !c.thrust ==> r == v
    ensures maxV != 0.0 && c.thrust ==>
              var t := Thrusted(v, m, angle, dt, size);
              var speed := m.sqrt(NormSq(t));
              (speed <= maxV || speed == 0.0 ==> r == t) &&
              (maxV < speed && speed != 0.0 ==> r == Scale(t, maxV / speed))
  {
    if maxV == 0.0 then Origin
    else if c.thrust then
      var t := Thrusted(v, m, angle, dt, size);
      Clamp(t, m.sqrt(NormSq(t)), maxV)
    else v
  }

  /**
    The speed cap is an invariant of Ship::update: a ship within its cap
    stays within it, whatever the controls and the frame time.
  */
  lemma {:induction false} ShipVelocityWithinCap(v: Vec, c: Controls, angle: real, dt: real,
                                                 size: real, maxV: real, m: Math)
    requires 0.0 <= maxV && NormSq(v) <= maxV * maxV
    requires SqrtAt(m, NormSq(Thrusted(v, m, angle, dt, size)))
    ensures NormSq(ShipVelocity(v, c, angle, dt, size, maxV, m)) <= maxV * maxV
  {
    if maxV != 0.0 && c.thrust {
      var t := Thrusted(v, m, angle, dt, size);
      ClampWithinCap(t, m.sqrt(NormSq(t)), maxV);
    }
  }

  /** The exhaust flame follows the thrust control, unless the ship cannot move. */
  function ExhaustShapes(shapes: seq<Shape>, exhaustIndex: int, maxV: real, thrust: bool): (r: seq<Shape>)
    requires 0 <= exhaustIndex < |shapes|
    ensures |r| == |shapes|
    ensures forall k :: 0 <= k < |r| && k != exhaustIndex ==> r[k] == shapes[k]
    ensures r[exhaustIndex].vertices == shapes[exhaustIndex].vertices
    ensures r[exhaustIndex].primitive == shapes[exhaustIndex].primitive
    ensures r[exhaustIndex].visible == (if maxV == 0.0 then shapes[exhaustIndex].visible else thrust)
  {
    if maxV == 0.0 then shapes else shapes[exhaustIndex := shapes[exhaustIndex].(visible := thrust)]
  }

  /** The cannon cool-down: counts down only while positive and stops at zero. */
  function FireWaitAfter(wait: real, dt: real): (r: real)
    ensures 0.0 <= wait ==> 0.0 <= r
    ensures wait <= 0.0 ==> r == wait
    ensures 0.0 < wait && 0.0 < r ==> r == wait - dt
    ensures 0.0 < wait && 0.0 <= dt ==> r <= wait
  {
    if wait > 0.0 then
      var counted := wait - dt;
      if counted < 0.0 then 0.0 else counted
    else wait
  }

  /** The cannon fires when the trigger is held and the cool-down is over. */
  predicate Fires(c: Controls, wait: real)
  {
    c.fire && wait <= 0.0
  }

  /** The cool-down after `n` frames of length `dt`. */
  function WaitAfterFrames(wait: real, dt: real, n: nat): real
  {
    if n == 0 then wait else FireWaitAfter(WaitAfterFrames(wait, dt, n - 1), dt)
  }

  /** The cool-down after n frames is the period minus the elapsed time, floored at zero. */
  lemma {:induction false} WaitCountsDown(wait: real, dt: real, n: nat)
    requires 0.0 <= wait && 0.0 <= dt
    ensures WaitAfterFrames(wait, dt, n) ==
              (if wait - n as real * dt > 0.0 then wait - n as real * dt else 0.0)
  {
    if n > 0 {
      WaitCountsDown(wait, dt, n - 1);
      assert (n - 1) as real * dt + dt == n as real * dt;
    }
  }

  /**
    The fire rate limit: after a shot, the cannon is ready again exactly
    when the frames since then add up to at least the fire period.
  */
  lemma {:induction false} ReadyAfterFirePeriod(period: real, dt: real, n: nat)
    requires 0.0 < period && 0.0 <= dt
    ensures WaitAfterFrames(period, dt, n) <= 0.0 <==> period <= n as real * dt
  {
    WaitCountsDown(period, dt, n);
  }

  /** The bolt a ship at `center`, turned to `angle`, fires from its cannon. */
  ghost predicate FiredFrom(b: GraphObj, ship: GraphObj, center: Vec, angle: real, m: Math)
    reads b, ship
  {
    b.kind == BoltKind && b.alive && b.Valid() &&
    b.shapes == [Spike(ship.boltConfig.size, ship.boltConfig.color)] &&
    b.collisionRadius == ship.boltConfig.size &&
    b.center == ModelToWorld(center, ship.cannonModelPt, Factors(m, angle)) &&
    b.angle == angle && b.radialVelocity == 0.0 &&
    b.velocity == Scale(Direction(m, angle), ship.boltSpeed) &&
    b.team == ship.team
  }

  /**
    The thrust of Ship::update, on values: the velocity gains the thrust
    along the heading, then a speed over the cap is scaled down to the cap.
  */
  method Thrust(v: Vec, angle: real, dt: real, size: real, maxV: real, m: Math) returns (r: Vec)
    ensures var t := Thrusted(v, m, angle, dt, size); r == Clamp(t, m.sqrt(NormSq(t)), maxV)
  {
    var thrustDelta := dt * 4.0 * size;
    var dx := m.cos(angle) * thrustDelta;
    var dy := m.sin(angle) * thrustDelta;
    r := Vec(v.x + dx, v.y + dy);
    ghost var t := r;
    assert t == Thrusted(v, m, angle, dt, size);
    var speedSq := r.x * r.x + r.y * r.y;
    assert speedSq == NormSq(t);
    var speed := m.sqrt(speedSq);
    if speed > maxV && speed != 0.0 {
      var unit := Vec(r.x / speed, r.y / speed);
      r := Scale(unit, maxV);
    }
    assert r == Clamp(t, speed, maxV);
  }

  /** The controls part of Ship::update: spin, thrust with the speed cap, and the exhaust flame. */
  method Steer(ship: GraphObj, dt: real, m: Math)
    requires ship.kind == ShipKind && ship.Valid()
    modifies ship`radialVelocity, ship`velocity, ship`shapes
    ensures ship.Valid()
    ensures ship.radialVelocity == RotationRate(ship.controls)
    ensures ship.velocity == ShipVelocity(old(ship.velocity), ship.controls, ship.angle, dt,
                                          ship.shipConfig.sizeRadius, ship.maxVelocity, m)
    ensures ship.shapes == ExhaustShapes(old(ship.shapes), ship.exhaustIndex, ship.maxVelocity, ship.controls.thrust)
  {
    if ship.controls.rotateLeft {
      ship.radialVelocity := -0.75 * 2.0 * PI;
    } else if ship.controls.rotateRight {
      ship.radialVelocity := 0.75 * 2.0 * PI;
    } else {
      ship.radialVelocity := 0.0;
    }

    if ship.maxVelocity == 0.0 {
      ship.velocity := Origin;
    } else {
      if ship.controls.thrust {
        ship.velocity := Thrust(ship.velocity, ship.angle, dt, ship.shipConfig.sizeRadius, ship.maxVelocity, m);
        ship.shapes := ship.shapes[ship.exhaustIndex := ship.shapes[ship.exhaustIndex].(visible := true)];
      } else {
        ship.shapes := ship.shapes[ship.exhaustIndex := ship.shapes[ship.exhaustIndex].(visible := false)];
      }
    }
  }

  /** The cannon part of Ship::update: count the cool-down, then fire if the trigger is held and it is over. */
  method Fire(ship: GraphObj, dt: real, context: UpdateContext?, m: Math)
    requires context != null || !Fires(ship.controls, FireWaitAfter(ship.fireWaitTime, dt))
    modifies ship`fireWaitTime, context
    ensures var w := FireWaitAfter(old(ship.fireWaitTime), dt);
            ship.fireWaitTime == if Fires(ship.controls, w) then ship.firePeriod else w
    ensures context != null && !Fires(ship.controls, FireWaitAfter(old(ship.fireWaitTime), dt)) ==>
              context.spawnList == old(context.spawnList)
    ensures context != null && Fires(ship.controls, FireWaitAfter(old(ship.fireWaitTime), dt)) ==>
              |context.spawnList| == |old(context.spawnList)| + 1 &&
              context.spawnList[..|old(context.spawnList)|] == old(context.spawnList) &&
              var b := context.spawnList[|old(context.spawnList)|];
              fresh(b) && FiredFrom(b, ship, ship.center, ship.angle, m)
  {
    if ship.fireWaitTime > 0.0 {
      ship.fireWaitTime := ship.fireWaitTime - dt;
      if ship.fireWaitTime < 0.0 {
        ship.fireWaitTime := 0.0;
      }
    }

    if ship.controls.fire && ship.fireWaitTime <= 0.0 {
      var bolt := Bolts.New(ship.boltConfig);
      bolt.center := ModelToWorld(ship.center, ship.cannonModelPt, Factors(m, ship.angle));
      bolt.angle := ship.angle;
      bolt.velocity := Scale(Direction(m, ship.angle), ship.boltSpeed);
      bolt.team := ship.team;
      context.spawnList := context.spawnList + [bolt];
      ship.fireWaitTime := ship.firePeriod;
    }
  }

  /**
    Ship::update: steer, fire, then the base motion with the new velocity
    and spin. A null context is only dereferenced when the cannon fires, so
    it is allowed whenever it does not.
  */
  method Update(ship: GraphObj, dt: real, context: UpdateContext?, m: Math)
    requires ship.kind == ShipKind && ship.Valid()
    requires context != null || !Fires(ship.controls, FireWaitAfter(ship.fireWaitTime, dt))
    modifies ship`radialVelocity, ship`velocity, ship`shapes, ship`fireWaitTime
    modifies ship`center, ship`angle, ship`alive, context
    ensures ship.Valid()
    ensures ship.radialVelocity == RotationRate(ship.controls)
    ensures ship.velocity == ShipVelocity(old(ship.velocity), ship.controls, old(ship.angle), dt,
                                          ship.shipConfig.sizeRadius, ship.maxVelocity, m)
    ensures ship.shapes == ExhaustShapes(old(ship.shapes), ship.exhaustIndex, ship.maxVelocity, ship.controls.thrust)
    ensures var w := FireWaitAfter(old(ship.fireWaitTime), dt);
            ship.fireWaitTime == if Fires(ship.controls, w) then ship.firePeriod else w
    ensures context != null && !Fires(ship.controls, FireWaitAfter(old(ship.fireWaitTime), dt)) ==>
              context.spawnList == old(context.spawnList)
    ensures context != null && Fires(ship.controls, FireWaitAfter(old(ship.fireWaitTime), dt)) ==>
              |context.spawnList| == |old(context.spawnList)| + 1 &&
              context.spawnList[..|old(context.spawnList)|] == old(context.spawnList) &&
              var b := context.spawnList[|old(context.spawnList)|];
              fresh(b) && FiredFrom(b, ship, old(ship.center), old(ship.angle), m)
    ensures context == null ==>
              ship.center == old(ship.center) && ship.angle == old(ship.angle) && ship.alive == old(ship.alive)
    ensures context != null ==>
              var p := Step(old(ship.center), old(ship.angle), ship.velocity, ship.radialVelocity, dt,
                            ship.kind, context.spaceLimits);
              ship.center == p.center && ship.angle == p.angle && ship.alive == old(ship.alive)
  {
    Steer(ship, dt, m);
    Fire(ship, dt, context, m);
    ship.Update(dt, context);
  }
}
