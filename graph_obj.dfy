/**
  The base game object (GraphObj.h, GraphObj.cpp): position, velocity,
  orientation, spin, team, collision radius, model shapes and the alive flag,
  with motion integration, the toroidal wrap, the collision predicate and the
  model-to-world transform used for rendering.

  The C++ hierarchy GraphObj -> VolatileObj -> Ship / Asteroid and
  GraphObj -> Bolt / Fragment is one class here whose `kind` says which
  variant an object is; the fields of every variant live in the class and
  the overridden virtual functions dispatch on `kind`.
*/
module Objects {
  import opened Geometry

  /** The concrete class of a game object. */
  datatype Kind = Plain | ShipKind | AsteroidKind | BoltKind | FragmentKind

  /** explodesOnDeath: false by default, overridden to true by Ship and Asteroid. */
  predicate ExplodesOnDeath(k: Kind)
  {
    k == ShipKind || k == AsteroidKind
  }

  /** Bolt and Fragment override onOutOfBounds to die instead of wrapping. */
  predicate DiesOutOfBounds(k: Kind)
  {
    k == BoltKind || k == FragmentKind
  }

  /** VolatileObj::ExplodeStyle */
  datatype ExplodeStyle = FireAndFragments | FireOnly

  /** Ship::Controls: the latched key state. */
  datatype Controls = Controls(rotateLeft: bool, rotateRight: bool, thrust: bool, fire: bool)

  /** A default-constructed Ship::Controls. */
  const NoControls: Controls := Controls(false, false, false, false)

  /** Ship::Config */
  datatype ShipConfig = ShipConfig(baseColor: Color, sizeRadius: real, headToHead: bool)

  /** Bolt::Config */
  datatype BoltConfig = BoltConfig(color: Color, size: real)

  /** The window size, an sf::Vector2u. */
  datatype Limits = Limits(x: nat, y: nat)

  /** GraphObj::UpdateContext: the space limits and the list of objects spawned this frame. */
  class UpdateContext {
    const spaceLimits: Limits
    var spawnList: seq<GraphObj>

    constructor (spaceLimits: Limits)
      ensures this.spaceLimits == spaceLimits && spawnList == []
    {
      this.spaceLimits := spaceLimits;
      spawnList := [];
    }
  }

  /**
    The single correction step of GraphObj::update: subtract 2 PI once when
    above 2 PI, then add 2 PI once when below -2 PI.
  */
  function Renormalize(a: real): (r: real)
    ensures r == a || r == a - 2.0 * PI || r == a + 2.0 * PI
    ensures -2.0 * PI <= a <= 2.0 * PI ==> r == a
    ensures -4.0 * PI <= a <= 4.0 * PI ==> -2.0 * PI <= r <= 2.0 * PI
  {
    var stepped := if a > 2.0 * PI then a - 2.0 * PI else a;
    if stepped < -2.0 * PI then stepped + 2.0 * PI else stepped
  }

  /** An angle in [-2 PI, 2 PI] stays there after a turn of at most 2 PI. */
  lemma {:induction false} TurnStaysNormalized(a: real, turn: real)
    requires -2.0 * PI <= a <= 2.0 * PI && -2.0 * PI <= turn <= 2.0 * PI
    ensures -2.0 * PI <= Renormalize(a + turn) <= 2.0 * PI
  {
  }

  /** The position lies in [0, W] x [0, H]. */
  predicate InBounds(p: Vec, limits: Limits)
  {
    0.0 <= p.x <= limits.x as real && 0.0 <= p.y <= limits.y as real
  }

  /** One axis of the default onOutOfBounds: add or subtract the span once. */
  function WrapCoord(v: real, span: nat): (w: real)
    ensures 0.0 <= v <= span as real ==> w == v
    ensures -(span as real) <= v <= 2.0 * span as real ==> 0.0 <= w <= span as real
    ensures w == v || w == v + span as real || w == v - span as real
  {
    if v < 0.0 then v + span as real
    else if v > span as real then v - span as real
    else v
  }

  function Wrap(p: Vec, limits: Limits): Vec
  {
    Vec(WrapCoord(p.x, limits.x), WrapCoord(p.y, limits.y))
  }

  /** The pose of an object after one base update. */
  datatype Pose = Pose(center: Vec, angle: real, dies: bool)

  /**
    GraphObj::update with a context: integrate position and angle, correct the
    angle once, then call onOutOfBounds only when the new position has left
    the field; that hook wraps, or kills bolts and fragments.
  */
  function Step(center: Vec, angle: real, velocity: Vec, radialVelocity: real,
                dt: real, kind: Kind, limits: Limits): (p: Pose)
    ensures InBounds(Integrate(center, velocity, dt), limits) ==>
              p.center == Integrate(center, velocity, dt) && !p.dies
    ensures p.dies <==> !InBounds(Integrate(center, velocity, dt), limits) && DiesOutOfBounds(kind)
    ensures p.angle == Renormalize(angle + radialVelocity * dt)
  {
    var moved := Integrate(center, velocity, dt);
    var turned := Renormalize(angle + radialVelocity * dt);
    if InBounds(moved, limits) then Pose(moved, turned, false)
    else if DiesOutOfBounds(kind) then Pose(moved, turned, true)
    else Pose(Wrap(moved, limits), turned, false)
  }

  function Integrate(p: Vec, v: Vec, dt: real): Vec
  {
    Add(p, Scale(v, dt))
  }

  /**
    An object that wraps and starts inside the field stays inside it as long
    as it moves less than one field extent per axis in a frame.
  */
  lemma {:induction false} StepKeepsWrappingObjectsInField(center: Vec, angle: real, velocity: Vec,
                                                           radialVelocity: real, dt: real, kind: Kind,
                                                           limits: Limits)
    requires !DiesOutOfBounds(kind) && InBounds(center, limits)
    requires -(limits.x as real) <= velocity.x * dt <= limits.x as real
    requires -(limits.y as real) <= velocity.y * dt <= limits.y as real
    ensures InBounds(Step(center, angle, velocity, radialVelocity, dt, kind, limits).center, limits)
  {
    var moved := Integrate(center, velocity, dt);
    var dx, dy := velocity.x * dt, velocity.y * dt;
    assert moved == Vec(center.x + dx, center.y + dy);
    assert -(limits.x as real) <= moved.x <= 2.0 * limits.x as real;
    assert -(limits.y as real) <= moved.y <= 2.0 * limits.y as real;
  }

  /**
    The collision separation: the raw delta between the centres, with the
    span subtracted on an axis only when the delta exceeds half the span
    (the unsigned half, rounded down). Negative deltas are never corrected.
  */
  function Separation(a: Vec, b: Vec, context: UpdateContext?): (d: Vec)
    ensures d.x <= a.x - b.x && d.y <= a.y - b.y
    ensures a.x <= b.x ==> d.x == a.x - b.x
    ensures a.y <= b.y ==> d.y == a.y - b.y
    ensures context == null ==> d == Sub(a, b)
  {
    if context == null then Sub(a, b) else WrappedDelta(a, b, context.spaceLimits)
  }

  /** The separation with a context whose field is `limits`. */
  function WrappedDelta(a: Vec, b: Vec, limits: Limits): (d: Vec)
    ensures d.x <= a.x - b.x && d.y <= a.y - b.y
    ensures a.x <= b.x ==> d.x == a.x - b.x
    ensures a.y <= b.y ==> d.y == a.y - b.y
    ensures d.x == a.x - b.x || d.x == a.x - b.x - limits.x as real
    ensures d.y == a.y - b.y || d.y == a.y - b.y - limits.y as real
  {
    var raw := Sub(a, b);
    Vec(if raw.x > (limits.x / 2) as real then raw.x - limits.x as real else raw.x,
        if raw.y > (limits.y / 2) as real then raw.y - limits.y as real else raw.y)
  }

  /** The circle test of collidesWith: distance squared below the squared sum of the radii. */
  predicate CirclesOverlap(a: Vec, ra: real, b: Vec, rb: real, context: UpdateContext?)
  {
    var d := Separation(a, b, context);
    d.x * d.x + d.y * d.y < (ra + rb) * (ra + rb)
  }

  /**
    The wrap correction is one-sided: two circles near opposite edges overlap
    when tested from the right-hand one but not from the left-hand one.
  */
  lemma {:induction false} CollisionTestIsAsymmetric(context: UpdateContext)
    requires context.spaceLimits == Limits(100, 100)
    ensures CirclesOverlap(Vec(95.0, 50.0), 6.0, Vec(5.0, 50.0), 6.0, context)
    ensures !CirclesOverlap(Vec(5.0, 50.0), 6.0, Vec(95.0, 50.0), 6.0, context)
  {
    assert Separation(Vec(95.0, 50.0), Vec(5.0, 50.0), context) == Vec(-10.0, 0.0);
    assert Separation(Vec(5.0, 50.0), Vec(95.0, 50.0), context) == Vec(-90.0, 0.0);
  }

  /**
    When the centres are within half a span of each other on both axes (and
    the first is not the right/lower one by more than half a span), the test
    is the plain Euclidean one, and therefore symmetric.
  */
  lemma {:induction false} CloseCirclesOverlapSymmetrically(a: Vec, ra: real, b: Vec, rb: real,
                                                            context: UpdateContext)
    requires -((context.spaceLimits.x / 2) as real) <= a.x - b.x <= (context.spaceLimits.x / 2) as real
    requires -((context.spaceLimits.y / 2) as real) <= a.y - b.y <= (context.spaceLimits.y / 2) as real
    ensures CirclesOverlap(a, ra, b, rb, context) <==> NormSq(Sub(a, b)) < (ra + rb) * (ra + rb)
    ensures CirclesOverlap(a, ra, b, rb, context) <==> CirclesOverlap(b, rb, a, ra, context)
  {
    assert Separation(a, b, context) == Sub(a, b);
    assert Separation(b, a, context) == Sub(b, a);
    assert NormSq(Sub(b, a)) == NormSq(Sub(a, b));
  }

  /** The triangle shared by Bolt and the fire Fragment: a white tip at (size/2, 0). */
  function Spike(size: real, color: Color): (s: Shape)
    ensures |s.vertices| == 3 && s.visible && s.primitive == Triangles
  {
    Shape(Triangles,
          [Vertex(Vec(size / 2.0, 0.0), White),
           Vertex(Vec(-size / 2.0, -size / 4.0), color),
           Vertex(Vec(-size / 2.0, size / 4.0), color)],
          true)
  }

  /** The spike determines the size and colour it was built from. */
  lemma {:induction false} SpikeDeterminesConfig(s1: real, c1: Color, s2: real, c2: Color)
    requires Spike(s1, c1) == Spike(s2, c2)
    ensures s1 == s2 && c1 == c2
  {
    assert Spike(s1, c1).vertices[0].pos.x == s1 / 2.0;
    assert Spike(s1, c1).vertices[1].color == c1;
  }

  /** A vertex list mapped through ModelToWorld, colours kept. */
  function WorldVertices(vs: seq<Vertex>, center: Vec, af: AngleFactors): (ws: seq<Vertex>)
    ensures |ws| == |vs|
  {
    seq(|vs|, k requires 0 <= k < |vs| => Vertex(ModelToWorld(center, vs[k].pos, af), vs[k].color))
  }

  /** What render submits: the visible shapes, in order, transformed to world space. */
  function WorldShapes(shapes: seq<Shape>, center: Vec, af: AngleFactors): seq<Shape>
  {
    if shapes == [] then []
    else
      var last := shapes[|shapes| - 1];
      WorldShapes(shapes[..|shapes| - 1], center, af)
        + (if last.visible then [last.(vertices := WorldVertices(last.vertices, center, af))] else [])
  }

  /** The number of visible shapes. */
  function VisibleCount(shapes: seq<Shape>): nat
  {
    if shapes == [] then 0
    else VisibleCount(shapes[..|shapes| - 1]) + (if shapes[|shapes| - 1].visible then 1 else 0)
  }

  /**
    Rendering draws exactly the visible shapes: one world shape per visible
    model shape, each with as many vertices as its model, visible, and with
    the same primitive type.
  */
  lemma {:induction false} WorldShapesDrawVisibleOnes(shapes: seq<Shape>, center: Vec, af: AngleFactors)
    ensures |WorldShapes(shapes, center, af)| == VisibleCount(shapes)
    ensures forall w :: w in WorldShapes(shapes, center, af) ==> w.visible
  {
    if shapes != [] {
      WorldShapesDrawVisibleOnes(shapes[..|shapes| - 1], center, af);
    }
  }

  class GraphObj {
    var center: Vec
    var velocity: Vec
    var angle: real
    var radialVelocity: real
    var shapes: seq<Shape>
    var collisionRadius: real
    var alive: bool
    var mainColor: Color
    var team: int
    const kind: Kind

    // VolatileObj
    var explodeStyle: ExplodeStyle
    var explosionRatio: real

    // Asteroid
    var childrenAllowed: bool
    var minChildSize: real
    var mass: real

    // Ship
    var shipConfig: ShipConfig
    var controls: Controls
    var exhaustIndex: int
    var cannonModelPt: Vec
    var maxVelocity: real
    var boltSpeed: real
    var fireWaitTime: real
    var firePeriod: real
    var boltConfig: BoltConfig

    // Fragment
    var remainingLife: real

    /** The object invariant: a ship's exhaust index names one of its shapes. */
    ghost predicate Valid()
      reads this`exhaustIndex, this`shapes
    {
      kind == ShipKind ==> 0 <= exhaustIndex < |shapes|
    }

    /** The field defaults of GraphObj, VolatileObj, Asteroid, Ship and Fragment. */
    constructor (kind: Kind)
      ensures alive && team == 0 && collisionRadius == 0.0 && angle == 0.0
      ensures center == Origin && velocity == Origin && radialVelocity == 0.0
      ensures shapes == [] && mainColor == DarkGray && this.kind == kind
      ensures explodeStyle == FireAndFragments && explosionRatio == 1.0
      ensures childrenAllowed && minChildSize == 0.0 && mass == 0.0
      ensures controls == NoControls && exhaustIndex == 0 && fireWaitTime == 0.0
      ensures maxVelocity == 0.0 && boltSpeed == 0.0 && firePeriod == 0.0
      ensures remainingLife == 0.0
      ensures kind != ShipKind ==> Valid()
    {
      center, velocity, angle, radialVelocity := Origin, Origin, 0.0, 0.0;
      shapes, collisionRadius, alive, mainColor, team := [], 0.0, true, DarkGray, 0;
      this.kind := kind;
      explodeStyle, explosionRatio := FireAndFragments, 1.0;
      childrenAllowed, minChildSize, mass := true, 0.0, 0.0;
      shipConfig := ShipConfig(Black, 0.0, false);
      controls, exhaustIndex, cannonModelPt := NoControls, 0, Origin;
      maxVelocity, boltSpeed, fireWaitTime, firePeriod := 0.0, 0.0, 0.0, 0.0;
      boltConfig := BoltConfig(Black, 0.0);
      remainingLife := 0.0;
    }

    method Kill()
      modifies this`alive
      ensures !alive
    {
      alive := false;
    }

    method Revive()
      modifies this`alive
      ensures alive
    {
      alive := true;
    }

    /**
      disintegrate: an asteroid forbids its rock children and dies, so that
      its explosion yields only fire; any other object just dies.
    */
    method Disintegrate()
      modifies this`childrenAllowed, this`alive
      ensures !alive
      ensures childrenAllowed == (old(childrenAllowed) && kind != AsteroidKind)
    {
      if kind == AsteroidKind {
        childrenAllowed := false;
      }
      Kill();
    }

    /** canCollide: only a positive collision radius collides. */
    predicate CanCollide()
      reads this`collisionRadius
    {
      collisionRadius > 0.0
    }

    /**
      collidesWith: both alive, both collidable, on different teams, and the
      circles overlap under the one-sided wrap correction.
    */
    predicate CollidesWith(obj: GraphObj, context: UpdateContext?): (r: bool)
      reads this, obj
      ensures r ==> alive && obj.alive && 0.0 < collisionRadius && 0.0 < obj.collisionRadius && team != obj.team
      ensures r ==> NormSq(Separation(center, obj.center, context)) < (collisionRadius + obj.collisionRadius) * (collisionRadius + obj.collisionRadius)
    {
      alive && CanCollide() && obj.alive && obj.CanCollide() && team != obj.team &&
      CirclesOverlap(center, collisionRadius, obj.center, obj.collisionRadius, context)
    }

    /**
      onOutOfBounds: bolts and fragments die; everything else wraps once per
      axis when there is a context.
    */
    method OnOutOfBounds(context: UpdateContext?)
      modifies this`center, this`alive
      ensures DiesOutOfBounds(kind) ==> !alive && center == old(center)
      ensures !DiesOutOfBounds(kind) && context != null ==>
                alive == old(alive) && center == Wrap(old(center), context.spaceLimits)
      ensures !DiesOutOfBounds(kind) && context == null ==> alive == old(alive) && center == old(center)
    {
      if DiesOutOfBounds(kind) {
        alive := false;
      } else if context != null {
        var x, y := center.x, center.y;
        if x < 0.0 {
          x := x + context.spaceLimits.x as real;
        } else if x > context.spaceLimits.x as real {
          x := x - context.spaceLimits.x as real;
        }
        if y < 0.0 {
          y := y + context.spaceLimits.y as real;
        } else if y > context.spaceLimits.y as real {
          y := y - context.spaceLimits.y as real;
        }
        center := Vec(x, y);
      }
    }

    /** GraphObj::update: nothing without a context, otherwise one Step. */
    method Update(dt: real, context: UpdateContext?)
      modifies this`center, this`angle, this`alive
      ensures context == null ==> center == old(center) && angle == old(angle) && alive == old(alive)
      ensures context != null ==>
                var p := Step(old(center), old(angle), velocity, radialVelocity, dt, kind, context.spaceLimits);
                center == p.center && angle == p.angle && alive == (old(alive) && !p.dies)
    {
      if context != null {
        center := Add(center, Scale(velocity, dt));
        angle := angle + radialVelocity * dt;
        if angle > 2.0 * PI {
          angle := angle - 2.0 * PI;
        }
        if angle < -2.0 * PI {
          angle := angle + 2.0 * PI;
        }
        if center.x < 0.0 || center.x > context.spaceLimits.x as real ||
           center.y < 0.0 || center.y > context.spaceLimits.y as real {
          OnOutOfBounds(context);
        }
      }
    }

    /** changeModelToWorld: rewrite every vertex position in place through modelToWorld. */
    method ChangeModelToWorld(va: array?<Vertex>, af: AngleFactors)
      modifies va
      ensures va != null ==> va[..] == WorldVertices(old(va[..]), center, af)
    {
      if va != null {
        for index := 0 to va.Length
          invariant forall k :: 0 <= k < index ==>
                      va[k] == Vertex(ModelToWorld(center, old(va[k]).pos, af), old(va[k]).color)
          invariant forall k :: index <= k < va.Length ==> va[k] == old(va[k])
        {
          va[index] := va[index].(pos := ModelToWorld(center, va[index].pos, af));
        }
      }
    }

    /**
      render, without the draw call: each visible shape is copied and the
      copy transformed; the shapes drawn are returned, the model shapes are
      left as they were.
    */
    method Render(m: Math) returns (drawn: seq<Shape>)
      ensures drawn == WorldShapes(shapes, center, Factors(m, angle))
    {
      var af := Factors(m, angle);
      drawn := [];
      for i := 0 to |shapes|
        invariant drawn == WorldShapes(shapes[..i], center, af)
      {
        var shape := shapes[i];
        assert shapes[..i + 1][..i] == shapes[..i];
        if shape.visible {
          var vs := shape.vertices;
          var worldVertices := new Vertex[|vs|](k requires 0 <= k < |vs| => vs[k]);
          assert worldVertices[..] == vs;
          ChangeModelToWorld(worldVertices, af);
          drawn := drawn + [shape.(vertices := worldVertices[..])];
        }
      }
      assert shapes[..|shapes|] == shapes;
    }
  }

  /** No element of `s` appears twice. */
  predicate Distinct<T(==)>(s: seq<T>)
  {
    forall i, j :: 0 <= i < j < |s| ==> s[i] != s[j]
  }

  /** Two lists without repeats and without a common element join into a list without repeats. */
  lemma DistinctJoin<T>(a: seq<T>, b: seq<T>)
    requires Distinct(a) && Distinct(b) && forall x :: x in a ==> x !in b
    ensures Distinct(a + b)
  {
    forall p, q | 0 <= p < q < |a + b| ensures (a + b)[p] != (a + b)[q] {
      if p < |a| && |a| <= q {
        assert (a + b)[p] in a && (a + b)[q] == b[q - |a|];
      }
    }
  }
}
