/**
  Fragment (Fragment.h, Fragment.cpp): a short-lived piece of an explosion,
  either a fire spike or a randomly sized body quad, that never collides,
  dies when its lifespan runs out and dies instead of wrapping at the edge.
*/
module Fragments {
  import opened Geometry
  import opened Random
  import opened Objects

  /** Fragment::Config */
  datatype Config = Config(color: Color, size: real, isFire: bool, lifespanSeconds: real)

  /** A half side of a body quad lies between a quarter and three quarters of the size. */
  predicate SideWithin(side: real, size: real)
  {
    size * 0.25 <= side <= size * 0.75
  }

  /** randSide for the draw `r`. */
  function Side(size: real, r: int): (s: real)
    requires 0 <= r <= RandMax
    ensures 0.0 <= size ==> SideWithin(s, size)
  {
    RandFloatOf(r, size * 0.25, size * 0.75)
  }

  /**
    A visible quad of four vertices in `color`, one in each quadrant
    (vertex 0 to vertex 3: +x+y, +x-y, -x-y, -x+y), each coordinate's
    magnitude a half side within the bounds of `size`.
  */
  predicate IsBodyQuad(s: Shape, color: Color, size: real)
  {
    s.primitive == Quads && s.visible && |s.vertices| == 4 &&
    (forall k :: 0 <= k < 4 ==> s.vertices[k].color == color) &&
    (0.0 <= size ==>
       SideWithin(s.vertices[0].pos.x, size) && SideWithin(s.vertices[0].pos.y, size) &&
       SideWithin(s.vertices[1].pos.x, size) && SideWithin(-s.vertices[1].pos.y, size) &&
       SideWithin(-s.vertices[2].pos.x, size) && SideWithin(-s.vertices[2].pos.y, size) &&
       SideWithin(-s.vertices[3].pos.x, size) && SideWithin(s.vertices[3].pos.y, size))
  }

  /**
    The body quad built from eight randSide draws, taken in source order
    (x before y, vertex 0 to vertex 3), one vertex in each quadrant.
  */
  function BodyQuad(color: Color, size: real, d: seq<int>): (s: Shape)
    requires |d| == 8 && AllInRange(d)
    ensures IsBodyQuad(s, color, size)
  {
    Shape(Quads,
          [Vertex(Vec(Side(size, d[0]), Side(size, d[1])), color),
           Vertex(Vec(Side(size, d[2]), -Side(size, d[3])), color),
           Vertex(Vec(-Side(size, d[4]), -Side(size, d[5])), color),
           Vertex(Vec(-Side(size, d[6]), Side(size, d[7])), color)],
          true)
  }

  /** How many rand() calls the constructor makes. */
  function SideDraws(config: Config): nat
  {
    if config.isFire then 0 else 8
  }

  /** The model shape of a fragment: a fire spike or a body quad. */
  function ShapeOf(config: Config, d: seq<int>): Shape
    requires |d| == SideDraws(config) && AllInRange(d)
  {
    if config.isFire then Spike(config.size, config.color) else BodyQuad(config.color, config.size, d)
  }

  /** randSide: one half side of a body quad. */
  method DrawSide(size: real, rng: RandSource) returns (s: real)
    requires rng.Valid()
    modifies rng`pos
    ensures rng.pos == old(rng.pos) + 1
    ensures s == Side(size, rng.draws(old(rng.pos)))
  {
    s := rng.RandFloat(size * 0.25, size * 0.75);
  }

  /** The eight randSide calls of the constructor and the quad built from them. */
  method DrawBodyQuad(color: Color, size: real, rng: RandSource) returns (s: Shape)
    requires rng.Valid()
    modifies rng`pos
    ensures rng.pos == old(rng.pos) + 8
    ensures s == BodyQuad(color, size, old(rng.Upcoming(8)))
  {
    var x0 := DrawSide(size, rng);
    var y0 := DrawSide(size, rng);
    var x1 := DrawSide(size, rng);
    var y1 := DrawSide(size, rng);
    var x2 := DrawSide(size, rng);
    var y2 := DrawSide(size, rng);
    var x3 := DrawSide(size, rng);
    var y3 := DrawSide(size, rng);
    ghost var d := old(rng.Upcoming(8));
    assert [x0, y0, x1, y1, x2, y2, x3, y3] == [Side(size, d[0]), Side(size, d[1]), Side(size, d[2]), Side(size, d[3]),
                                                Side(size, d[4]), Side(size, d[5]), Side(size, d[6]), Side(size, d[7])];
    s := Shape(Quads,
               [Vertex(Vec(x0, y0), color),
                Vertex(Vec(x1, -y1), color),
                Vertex(Vec(-x2, -y2), color),
                Vertex(Vec(-x3, y3), color)],
               true);
  }

  /** Fragment::Fragment */
  method New(config: Config, rng: RandSource) returns (f: GraphObj)
    requires rng.Valid()
    modifies rng`pos
    ensures fresh(f)
    ensures rng.pos == old(rng.pos) + SideDraws(config)
    ensures f.shapes == [ShapeOf(config, old(rng.Upcoming(SideDraws(config))))]
    ensures f.kind == FragmentKind && f.remainingLife == config.lifespanSeconds
    ensures f.collisionRadius == 0.0 && !f.CanCollide()
    ensures f.alive && f.team == 0 && f.center == Origin && f.velocity == Origin
    ensures f.angle == 0.0 && f.radialVelocity == 0.0 && f.mainColor == DarkGray
    ensures f.Valid()
    ensures BuiltFrom(f, config)
  {
    var shape: Shape;
    if config.isFire {
      shape := Spike(config.size, config.color);
    } else {
      shape := DrawBodyQuad(config.color, config.size, rng);
    }
    f := new GraphObj(FragmentKind);
    f.shapes := [shape];
    f.remainingLife := config.lifespanSeconds;
    f.collisionRadius := 0.0;
  }

  /**
    The fragment configurations an explosion may draw: a lifespan of half a
    second to two seconds, then either a fire spike of size 5 to 20 in the
    fire colour or, where body fragments are allowed, a body quad of size 5
    to 50 in the exploding object's main colour.
  */
  predicate ExplosionConfig(c: Config, bodyAllowed: bool, mainColor: Color)
  {
    0.5 <= c.lifespanSeconds <= 2.0 &&
    (c.isFire ==> c.color == Orange && 5.0 <= c.size <= 20.0) &&
    (!c.isFire ==> bodyAllowed && c.color == mainColor && 5.0 <= c.size <= 50.0)
  }

  /** A freshly built, not yet updated fragment for `c`. */
  ghost predicate BuiltFrom(f: GraphObj, c: Config)
    reads f
  {
    f.kind == FragmentKind && f.alive && f.Valid() && f.team == 0 &&
    f.collisionRadius == 0.0 && f.remainingLife == c.lifespanSeconds && |f.shapes| == 1 &&
    (c.isFire ==> f.shapes[0] == Spike(c.size, c.color)) &&
    (!c.isFire ==> IsBodyQuad(f.shapes[0], c.color, c.size))
  }

  /**
    The countdown of Fragment::update: the life decreases only while positive
    and is clamped to zero, at which point the fragment dies.
  */
  function LifeAfter(life: real, dt: real): (r: real)
    ensures 0.0 <= r
    ensures 0.0 < r <==> 0.0 < life && 0.0 < life - dt
    ensures 0.0 < r ==> r == life - dt
  {
    var counted := if life > 0.0 then life - dt else life;
    if counted <= 0.0 then 0.0 else counted
  }

  /** The remaining life after `n` frames of length `dt`. */
  function LifeAfterFrames(life: real, dt: real, n: nat): real
  {
    if n == 0 then life else LifeAfter(LifeAfterFrames(life, dt, n - 1), dt)
  }

  /**
    With a fixed positive frame time the remaining life after n >= 1 frames
    is the lifespan minus the elapsed time, or zero once that is used up.
  */
  lemma {:induction false} LifeCountsDown(life: real, dt: real, n: nat)
    requires 0.0 <= life && 0.0 < dt && 1 <= n
    ensures LifeAfterFrames(life, dt, n) ==
              (if life - n as real * dt > 0.0 then life - n as real * dt else 0.0)
  {
    if n > 1 {
      LifeCountsDown(life, dt, n - 1);
      assert (n - 1) as real * dt + dt == n as real * dt;
    }
  }

  /** A fragment is dead after any number of frames covering its lifespan. */
  lemma {:induction false} FragmentExpires(life: real, dt: real, n: nat)
    requires 0.0 <= life && 0.0 < dt && 1 <= n && life <= n as real * dt
    ensures LifeAfterFrames(life, dt, n) == 0.0
  {
    LifeCountsDown(life, dt, n);
  }

  /**
    Fragment::update: count the life down, kill at zero, then the base
    update, whose out-of-bounds hook also kills a fragment.
  */
  method Update(f: GraphObj, dt: real, context: UpdateContext?)
    requires f.kind == FragmentKind
    modifies f`remainingLife, f`alive, f`center, f`angle
    ensures f.remainingLife == LifeAfter(old(f.remainingLife), dt)
    ensures context == null ==>
              f.center == old(f.center) && f.angle == old(f.angle) &&
              f.alive == (old(f.alive) && 0.0 < f.remainingLife)
    ensures context != null ==>
              var p := Step(old(f.center), old(f.angle), f.velocity, f.radialVelocity, dt, f.kind, context.spaceLimits);
              f.center == p.center && f.angle == p.angle &&
              f.alive == (old(f.alive) && 0.0 < f.remainingLife && !p.dies)
  {
    if f.remainingLife > 0.0 {
      f.remainingLife := f.remainingLife - dt;
    }
    if f.remainingLife <= 0.0 {
      f.remainingLife := 0.0;
      f.alive := false;
    }
    f.Update(dt, context);
  }
}
