/**
  Asteroid (Asteroid.h, Asteroid.cpp): a rock with a random outline that
  breaks up into smaller rocks of no more total area when destroyed, unless
  it was disintegrated, and then bursts into fire.
*/
module Asteroids {
  import opened Geometry
  import opened Random
  import opened Objects
  import Fragments
  import Volatile

  /** Asteroid::kDefaultMinChildSize */
  const DefaultMinChildSize: real := 25.0

  /** Asteroid::kDefaultColor */
  const DefaultColor: Color := Color(165, 42, 42)

  /** kMaxChildTries */
  const MaxChildTries: int := 15

  /** kMaxKnockSpeed: three revolutions per second. */
  const MaxKnockSpeed: real := 2.0 * PI * 3.0

  /** Asteroid::Config */
  datatype Config = Config(maxSize: real, minSize: real, minChildSize: real, color: Color)

  /** A default Asteroid::Config (sf::Color defaults to black). */
  const DefaultConfig: Config := Config(0.0, 0.0, DefaultMinChildSize, Black)

  /** The number of rim points for the first draw: randInt(6, 12). */
  function PointCount(r: int): (pc: int)
    requires 0 <= r
    ensures 6 <= pc <= 12
  {
    RandIntOf(r, 6, 12)
  }

  /** The nominal angle between neighbouring rim points. */
  function Spacing(pc: int): real
    requires 0 < pc
  {
    2.0 * PI / pc as real
  }

  /** The angle of rim point `i`: its nominal angle plus a jitter of up to a third of the spacing. */
  function RimAngle(i: nat, pc: int, ra: int): real
    requires 0 < pc && 0 <= ra <= RandMax
  {
    Jittered(Nominal(i, Spacing(pc)), Spacing(pc), ra)
  }

  /** The nominal angle after `i` steps of `spacing`, summed as the constructor does. */
  function Nominal(i: nat, spacing: real): real
  {
    if i == 0 then 0.0 else Nominal(i - 1, spacing) + spacing
  }

  /** Summing `i` steps of the spacing reaches `i` times the spacing. */
  lemma {:induction false} NominalIsMultiple(i: nat, spacing: real)
    ensures Nominal(i, spacing) == i as real * spacing
  {
    if i > 0 {
      NominalIsMultiple(i - 1, spacing);
    }
  }

  /** `nominal` moved by the drawn fraction, between -0.33 and 0.33, of `spacing`. */
  function Jittered(nominal: real, spacing: real, ra: int): real
    requires 0 <= ra <= RandMax
  {
    nominal + RandFloatOf(ra, -0.33, 0.33) * spacing
  }

  /** A rim point at `angle`, at 0.8 to 1.3 times the size from the centre. */
  function RimPoint(m: Math, size: real, angle: real, rs: int): Vec
    requires 0 <= rs <= RandMax
  {
    var len := size * RandFloatOf(rs, 0.8, 1.3);
    Vec(m.cos(angle) * len, m.sin(angle) * len)
  }

  /**
    The draws of the constructor: the point count, the size, then an angle
    jitter and a side ratio per rim point.
  */
  predicate OutlineDraws(d: seq<int>)
  {
    2 <= |d| && AllInRange(d) && |d| == 2 + 2 * PointCount(d[0])
  }

  function Size(config: Config, d: seq<int>): real
    requires OutlineDraws(d)
  {
    RandFloatOf(d[1], config.minSize, config.maxSize)
  }

  /** Rim point `i` for the draws `d`. */
  function Rim(config: Config, d: seq<int>, m: Math, i: nat): Vec
    requires OutlineDraws(d) && i < PointCount(d[0])
  {
    RimPoints(m, Size(config, d), PointCount(d[0]), d[2..])[i]
  }

  /**
    A triangle fan around the origin: the centre in `center`, then the rim
    points and the first rim point again to close the fan, in `rim`.
  */
  function Fan(center: Color, rim: Color, pts: seq<Vec>): (vs: seq<Vertex>)
    requires 0 < |pts|
    ensures |vs| == |pts| + 2
    ensures vs[0] == Vertex(Origin, center)
    ensures forall k :: 1 <= k <= |pts| ==> vs[k] == Vertex(pts[k - 1], rim)
    ensures vs[|pts| + 1] == Vertex(pts[0], rim)
  {
    [Vertex(Origin, center)] + seq(|pts|, k requires 0 <= k < |pts| => Vertex(pts[k], rim)) + [Vertex(pts[0], rim)]
  }

  /**
    The asteroid's outline: a fan whose centre is in the asteroid's colour
    and whose rim, closed on its first point, is darkened.
  */
  function Outline(config: Config, d: seq<int>, m: Math): (vs: seq<Vertex>)
    requires OutlineDraws(d)
    ensures |vs| == PointCount(d[0]) + 2
    ensures vs[0] == Vertex(Origin, config.color)
    ensures vs[|vs| - 1].pos == vs[1].pos
    ensures forall k :: 1 <= k < |vs| ==> vs[k].color == Darkened(config.color)
    ensures forall k :: 1 <= k < |vs| - 1 ==> vs[k].pos == Rim(config, d, m, k - 1)
  {
    Fan(config.color, Darkened(config.color), RimPoints(m, Size(config, d), PointCount(d[0]), d[2..]))
  }

  /** Scaling both sides of a range by a non-negative factor keeps their order. */
  lemma ScaleRange(size: real, lo: real, u: real, hi: real)
    requires 0.0 <= size && lo <= u <= hi
    ensures size * lo <= size * u <= size * hi
  {
    assert size * (u - lo) >= 0.0;
    assert size * (hi - u) >= 0.0;
  }

  /** A length of `size * u` with `u` in [0.8, 1.3] squares into the band of the rim. */
  lemma LengthWithinBand(size: real, u: real, len: real)
    requires 0.0 <= size && 0.8 <= u <= 1.3 && len == size * u
    ensures (0.8 * size) * (0.8 * size) <= len * len
    ensures len * len <= (1.3 * size) * (1.3 * size)
  {
    ScaleRange(size, 0.8, u, 1.3);
    assert 0.8 * size <= len <= 1.3 * size;
    SquareMonotone(0.8 * size, len);
    SquareMonotone(len, 1.3 * size);
  }

  /** A rim point drawn for a non-negative size lies in the band of the rim. */
  lemma RimPointWithinBand(m: Math, size: real, angle: real, rs: int)
    requires 0 <= rs <= RandMax && UnitCircle(m) && 0.0 <= size
    ensures (0.8 * size) * (0.8 * size) <= NormSq(RimPoint(m, size, angle, rs))
    ensures NormSq(RimPoint(m, size, angle, rs)) <= (1.3 * size) * (1.3 * size)
  {
    var u := RandFloatOf(rs, 0.8, 1.3);
    var len := size * u;
    var p := RimPoint(m, size, angle, rs);
    assert p == Vec(m.cos(angle) * len, m.sin(angle) * len);
    PolarLength(m, angle, len);
    assert NormSq(p) == len * len;
    LengthWithinBand(size, u, len);
  }

  /**
    Every rim point lies between 0.8 and 1.3 times the size from the
    centre, for a non-negative size.
  */
  lemma {:induction false} RimWithinBand(config: Config, d: seq<int>, m: Math, i: nat)
    requires OutlineDraws(d) && i < PointCount(d[0]) && UnitCircle(m)
    requires 0.0 <= config.minSize <= config.maxSize
    ensures (0.8 * Size(config, d)) * (0.8 * Size(config, d)) <= NormSq(Rim(config, d, m, i))
    ensures NormSq(Rim(config, d, m, i)) <= (1.3 * Size(config, d)) * (1.3 * Size(config, d))
  {
    assert d[2..][2 * i] == d[2 + 2 * i] && d[2..][2 * i + 1] == d[3 + 2 * i];
    RimPointWithinBand(m, Size(config, d), RimAngle(i, PointCount(d[0]), d[2 + 2 * i]), d[3 + 2 * i]);
  }

  /** The jitter keeps a rim angle within a third of the spacing of its nominal angle. */
  lemma RimAngleNearNominal(i: nat, pc: int, ra: int)
    requires 0 < pc && 0 <= ra <= RandMax
    ensures (i as real - 0.33) * Spacing(pc) <= RimAngle(i, pc, ra) <= (i as real + 0.33) * Spacing(pc)
  {
    var s, u := Spacing(pc), RandFloatOf(ra, -0.33, 0.33);
    NominalIsMultiple(i, s);
    assert 0.0 < s;
    assert u * s <= 0.33 * s && -0.33 * s <= u * s;
  }

  lemma MulLess(a: real, b: real, s: real)
    requires a < b && 0.0 < s
    ensures a * s < b * s
  {
    assert (b - a) * s > 0.0;
  }

  /** Neighbouring rim angles increase: the jitters of two neighbours never meet. */
  lemma RimAnglesIncrease(i: nat, pc: int, ra: int, rb: int)
    requires 0 < pc && 0 <= ra <= RandMax && 0 <= rb <= RandMax
    ensures RimAngle(i, pc, ra) < RimAngle(i + 1, pc, rb)
  {
    RimAngleNearNominal(i, pc, ra);
    RimAngleNearNominal(i + 1, pc, rb);
    MulLess(i as real + 0.33, (i + 1) as real - 0.33, Spacing(pc));
  }

  /** The last rim angle stays short of a full turn past the first. */
  lemma LastRimAngleShortOfTurn(pc: int, ra: int, rb: int)
    requires 0 < pc && 0 <= ra <= RandMax && 0 <= rb <= RandMax
    ensures RimAngle(pc - 1, pc, ra) < RimAngle(0, pc, rb) + 2.0 * PI
  {
    var s := Spacing(pc);
    RimAngleNearNominal(pc - 1, pc, ra);
    RimAngleNearNominal(0, pc, rb);
    assert pc as real * s == 2.0 * PI;
    MulLess((pc - 1) as real + 0.33, pc as real - 0.33, s);
    assert (pc as real - 0.33) * s == (0.0 - 0.33) * s + pc as real * s;
  }

  /**
    The outline goes round once, counter-clockwise: the rim angles increase
    from point to point, and the last one stays short of a full turn past
    the first.
  */
  lemma RimAnglesGoRoundOnce(config: Config, d: seq<int>, i: nat)
    requires OutlineDraws(d) && i + 1 < PointCount(d[0])
    ensures var pc := PointCount(d[0]);
            RimAngle(i, pc, d[2 + 2 * i]) < RimAngle(i + 1, pc, d[4 + 2 * i]) &&
            RimAngle(pc - 1, pc, d[2 * pc]) < RimAngle(0, pc, d[2]) + 2.0 * PI
  {
    var pc := PointCount(d[0]);
    RimAnglesIncrease(i, pc, d[2 + 2 * i], d[4 + 2 * i]);
    LastRimAngleShortOfTurn(pc, d[2 * pc], d[2]);
  }

  /** The rim points for `pc` pairs of draws (an angle jitter and a side ratio each). */
  function RimPoints(m: Math, size: real, pc: int, d: seq<int>): (ps: seq<Vec>)
    requires 0 < pc && |d| == 2 * pc && AllInRange(d)
    ensures |ps| == pc
  {
    seq(pc, k requires 0 <= k < pc => RimPoint(m, size, RimAngle(k, pc, d[2 * k]), d[2 * k + 1]))
  }

  /**
    One step of the rim loop: an angle jitter, then a side ratio, giving rim
    point `i` of the draws `d`, which start at the current position.
  */
  method DrawRimPoint(nextAngle: real, deltaAngle: real, size: real, rng: RandSource, m: Math,
                      ghost pc: int, ghost d: seq<int>, ghost i: nat) returns (point: Vec)
    requires rng.Valid() && 0 < pc && |d| == 2 * pc && AllInRange(d) && i < pc
    requires d[2 * i] == rng.draws(rng.pos) && d[2 * i + 1] == rng.draws(rng.pos + 1)
    requires nextAngle == Nominal(i, deltaAngle) && deltaAngle == Spacing(pc)
    modifies rng`pos
    ensures rng.pos == old(rng.pos) + 2
    ensures point == RimPoints(m, size, pc, d)[i]
  {
    ghost var p0 := rng.pos;
    var angleRatio := rng.RandFloat(-0.33, 0.33);
    var angle := nextAngle + angleRatio * deltaAngle;
    assert angle == RimAngle(i, pc, d[2 * i]);
    var sideRatio := rng.RandFloat(0.8, 1.3);
    assert sideRatio == RandFloatOf(d[2 * i + 1], 0.8, 1.3);
    var len := size * sideRatio;
    var x := m.cos(angle) * len;
    var y := m.sin(angle) * len;
    point := Vec(x, y);
    assert point == RimPoint(m, size, angle, d[2 * i + 1]);
  }

  /**
    The rim loop of the constructor: for each rim point an angle jitter and
    a side ratio, then the first rim point repeated to close the fan.
  */
  method DrawRim(body: array<Vertex>, pointCount: int, size: real, rng: RandSource, m: Math)
    requires body.Length == pointCount + 2 && 0 < pointCount && rng.Valid()
    modifies body, rng`pos
    ensures rng.pos == old(rng.pos) + 2 * pointCount
    ensures body[0].pos == old(body[0].pos)
    ensures forall k :: 1 <= k <= pointCount ==>
              body[k].pos == RimPoints(m, size, pointCount, old(rng.Upcoming(2 * pointCount)))[k - 1]
    ensures body[pointCount + 1].pos == body[1].pos
  {
    ghost var p0 := rng.pos;
    ghost var pts := RimPoints(m, size, pointCount, rng.Upcoming(2 * pointCount));
    ghost var d := rng.Upcoming(2 * pointCount);
    var nextAngle := 0.0;
    var deltaAngle := 2.0 * PI / pointCount as real;
    assert deltaAngle == Spacing(pointCount);
    for i := 0 to pointCount
      invariant rng.pos == p0 + 2 * i && rng.Valid()
      invariant nextAngle == Nominal(i, deltaAngle)
      invariant body[0].pos == old(body[0].pos)
      invariant forall k :: 1 <= k <= i ==> body[k].pos == pts[k - 1]
    {
      assert d[2 * i] == rng.draws(rng.pos) && d[2 * i + 1] == rng.draws(rng.pos + 1);
      var point := DrawRimPoint(nextAngle, deltaAngle, size, rng, m, pointCount, d, i);
      body[i + 1] := Vertex(point, body[i + 1].color);
      nextAngle := nextAngle + deltaAngle;
    }
    body[pointCount + 1] := body[pointCount + 1].(pos := body[1].pos);
  }

  /** The colouring loop of the constructor: the centre in `center`, every other vertex in `rim`. */
  method Colour(body: array<Vertex>, center: Color, rim: Color)
    modifies body
    ensures forall k :: 0 <= k < body.Length ==>
              body[k] == Vertex(old(body[k].pos), if k > 0 then rim else center)
  {
    for i := 0 to body.Length
      invariant forall k :: 0 <= k < body.Length ==> body[k].pos == old(body[k].pos)
      invariant forall k :: 0 <= k < i ==> body[k].color == if k > 0 then rim else center
    {
      if i > 0 {
        body[i] := body[i].(color := rim);
      } else {
        body[i] := body[i].(color := center);
      }
    }
  }

  /**
    The outline part of the constructor: the point count, the size, the rim
    and the colours, in a fan of `pointCount + 2` vertices.
  */
  method DrawOutline(config: Config, rng: RandSource, m: Math) returns (vs: seq<Vertex>, size: real)
    requires rng.Valid()
    modifies rng`pos
    ensures var pc := PointCount(rng.draws(old(rng.pos)));
            rng.pos == old(rng.pos) + 2 + 2 * pc &&
            OutlineDraws(old(rng.Upcoming(2 + 2 * pc))) &&
            vs == Outline(config, old(rng.Upcoming(2 + 2 * pc)), m)
    ensures size == RandFloatOf(rng.draws(old(rng.pos) + 1), config.minSize, config.maxSize)
  {
    var pointCount := rng.RandInt(6, 12);
    size := rng.RandFloat(config.minSize, config.maxSize);
    ghost var draws := old(rng.Upcoming(2 + 2 * pointCount));
    assert draws[2..] == rng.Upcoming(2 * pointCount);
    assert OutlineDraws(draws) && Size(config, draws) == size;
    vs := DrawBody(config.color, pointCount, size, rng, m);
  }

  /** The vertices of the outline, drawn into an array of `pointCount + 2` vertices. */
  method DrawBody(color: Color, pointCount: nat, size: real, rng: RandSource, m: Math) returns (vs: seq<Vertex>)
    requires rng.Valid() && 0 < pointCount
    modifies rng`pos
    ensures rng.pos == old(rng.pos) + 2 * pointCount
    ensures vs == Fan(color, Darkened(color), RimPoints(m, size, pointCount, old(rng.Upcoming(2 * pointCount))))
  {
    var totalPointCount := pointCount + 2;
    var body := new Vertex[totalPointCount](_ => Vertex(Origin, White));
    ghost var pts := RimPoints(m, size, pointCount, rng.Upcoming(2 * pointCount));
    DrawRim(body, pointCount, size, rng, m);
    Colour(body, color, Darkened(color));
    vs := body[..];
    IsFan(vs, color, Darkened(color), pts);
  }

  /** A sequence that agrees with a fan at every position is that fan. */
  lemma IsFan(vs: seq<Vertex>, center: Color, rim: Color, pts: seq<Vec>)
    requires 0 < |pts| && |vs| == |pts| + 2 && vs[0] == Vertex(Origin, center)
    requires forall k :: 1 <= k <= |pts| ==> vs[k] == Vertex(pts[k - 1], rim)
    requires vs[|pts| + 1] == Vertex(pts[0], rim)
    ensures vs == Fan(center, rim, pts)
  {
  }

  /** The rest of the constructor: an asteroid object around a drawn outline of radius `size`. */
  method FromOutline(config: Config, body: seq<Vertex>, size: real) returns (a: GraphObj)
    ensures fresh(a) && a.Valid()
    ensures a.shapes == [Shape(TriangleFan, body, true)] && a.collisionRadius == size
    ensures a.kind == AsteroidKind && a.alive && a.childrenAllowed
    ensures a.team == 0
    ensures a.mainColor == config.color && a.minChildSize == config.minChildSize && a.explodeStyle == FireOnly
    ensures 0.0 < config.minChildSize ==>
              a.explosionRatio == size / config.minChildSize && a.mass == a.explosionRatio * a.explosionRatio
    ensures config.minChildSize <= 0.0 ==> a.explosionRatio == 1.0 && a.mass == 0.0
    ensures a.center == Origin && a.velocity == Origin && a.angle == 0.0 && a.radialVelocity == 0.0
  {
    a := new GraphObj(AsteroidKind);
    a.mainColor := config.color;
    a.shapes := [Shape(TriangleFan, body, true)];
    a.minChildSize := config.minChildSize;
    a.collisionRadius := size;
    if a.minChildSize > 0.0 {
      var sizeRatio := a.collisionRadius / a.minChildSize;
      a.mass := sizeRatio * sizeRatio;
      a.explosionRatio := sizeRatio;
    }
    a.explodeStyle := FireOnly;
  }

  /** Asteroid::Asteroid */
  method New(config: Config, rng: RandSource, m: Math) returns (a: GraphObj)
    requires rng.Valid()
    modifies rng`pos
    ensures fresh(a) && a.Valid()
    ensures var pc := PointCount(rng.draws(old(rng.pos)));
            rng.pos == old(rng.pos) + 2 + 2 * pc &&
            OutlineDraws(old(rng.Upcoming(2 + 2 * pc))) &&
            a.shapes == [Shape(TriangleFan, Outline(config, old(rng.Upcoming(2 + 2 * pc)), m), true)]
    ensures a.collisionRadius == RandFloatOf(rng.draws(old(rng.pos) + 1), config.minSize, config.maxSize)
    ensures a.kind == AsteroidKind && ExplodesOnDeath(a.kind) && a.alive && a.childrenAllowed
    ensures a.team == 0
    ensures a.mainColor == config.color && a.minChildSize == config.minChildSize && a.explodeStyle == FireOnly
    ensures 0.0 < config.minChildSize ==>
              a.explosionRatio == a.collisionRadius / config.minChildSize &&
              a.mass == a.explosionRatio * a.explosionRatio
    ensures config.minChildSize <= 0.0 ==> a.explosionRatio == 1.0 && a.mass == 0.0
    ensures a.center == Origin && a.velocity == Origin && a.angle == 0.0 && a.radialVelocity == 0.0
  {
    var body, size := DrawOutline(config, rng, m);
    a := FromOutline(config, body, size);
  }

  /** kMaxChildSizeRatio and kMinChildSizeRatio: a child is 0.1 to 0.75 times its parent's radius. */
  const MaxChildSizeRatio: real := 0.75
  const MinChildSizeRatio: real := 0.1

  /** The configuration explode builds its children from. */
  function ChildConfig(radius: real, minChildSize: real, color: Color): (c: Config)
    ensures 0.0 <= radius ==> 0.0 <= c.minSize <= c.maxSize <= radius
    ensures c.minChildSize == minChildSize && c.color == color
  {
    Config(radius * MaxChildSizeRatio, radius * MinChildSizeRatio, minChildSize, color)
  }

  /**
    The child's spin scaled by minChildSize / size. A child of radius zero
    (possible only when minChildSize <= 0) would divide by zero in the game;
    the model then leaves the spin unscaled.
  */
  function ScaledSpin(spin: real, minChildSize: real, size: real): (s: real)
    ensures 0.0 < size && 0.0 <= minChildSize ==> 0.0 <= s * spin
    ensures 0.0 < size && 0.0 <= minChildSize <= size ==> s * s <= spin * spin
    ensures minChildSize == size ==> s == spin
  {
    if size == 0.0 then spin else spin * (minChildSize / size)
  }

  /** What a child takes from the asteroid that breaks up. */
  datatype Parent = Parent(center: Vec, velocity: Vec, radius: real, minChildSize: real, color: Color, team: int)

  ghost function ParentOf(a: GraphObj): Parent
    reads a
  {
    Parent(a.center, a.velocity, a.collisionRadius, a.minChildSize, a.mainColor, a.team)
  }

  /** The fields of an asteroid that explode sets or relies on for a child. */
  datatype ChildState = ChildState(
    kind: Kind, alive: bool, childrenAllowed: bool,
    color: Color, minChildSize: real, style: ExplodeStyle,
    radius: real, team: int, angle: real, center: Vec, velocity: Vec, spin: real)

  ghost function StateOf(c: GraphObj): ChildState
    reads c
  {
    ChildState(c.kind, c.alive, c.childrenAllowed, c.mainColor, c.minChildSize,
               c.explodeStyle, c.collisionRadius, c.team, c.angle, c.center, c.velocity, c.radialVelocity)
  }

  /**
    `c` is an asteroid drawn from the child configuration of `p`: unexploded,
    in the parent's colour and minimum child size, and 0.1 to 0.75 times
    the parent's radius.
  */
  predicate Drawn(c: ChildState, p: Parent)
  {
    c.kind == AsteroidKind && c.alive && c.childrenAllowed &&
    c.color == p.color && c.minChildSize == p.minChildSize && c.style == FireOnly &&
    (0.0 <= p.radius ==> p.radius * MinChildSizeRatio <= c.radius <= p.radius * MaxChildSizeRatio)
  }

  ghost predicate DrawnChild(c: GraphObj, p: Parent)
    reads c
  {
    Drawn(StateOf(c), p)
  }

  /** A drawn child that is no smaller than the minimum child size. */
  ghost predicate ChildShape(c: GraphObj, p: Parent)
    reads c
  {
    Drawn(StateOf(c), p) && p.minChildSize <= c.collisionRadius
  }

  /**
    `c` is a child of `p` thrown by `t`: drawn as a child and no smaller
    than the minimum child size, on the parent's team, half the parent's
    radius away from it along the thrown heading and moving at the parent's
    velocity plus the thrown speed along that heading, with the thrown spin
    scaled down by its size.
  */
  predicate Placed(c: ChildState, p: Parent, t: Volatile.Throw, m: Math)
  {
    Drawn(c, p) && p.minChildSize <= c.radius && c.team == p.team &&
    Volatile.ThrowInRange(Volatile.Breakup, t) &&
    c.angle == t.angle &&
    c.center == Add(p.center, Scale(Direction(m, t.angle), p.radius / 2.0)) &&
    c.velocity == Add(p.velocity, Scale(Direction(m, t.angle), t.speed)) &&
    c.spin == ScaledSpin(t.spin, p.minChildSize, c.radius)
  }

  ghost predicate ChildOf(c: GraphObj, p: Parent, t: Volatile.Throw, m: Math)
    reads c
  {
    Placed(StateOf(c), p, t, m)
  }

  /**
    The placement of a child in explode: thrown with the Breakup preset,
    moved half the parent's radius along its heading, its spin reduced by
    its size, and put on the parent's team.
  */
  method Place(a: GraphObj, child: GraphObj, rng: RandSource, m: Math) returns (ghost t: Volatile.Throw)
    requires rng.Valid() && child != a && ChildShape(child, ParentOf(a))
    modifies child`center, child`angle, child`radialVelocity, child`velocity, child`team, rng`pos
    ensures rng.pos == old(rng.pos) + 4
    ensures t == Volatile.ThrowOf(Volatile.Breakup, old(rng.Upcoming(4)))
    ensures ChildOf(child, ParentOf(a), t, m)
  {
    t := Volatile.ThrowOf(Volatile.Breakup, rng.Upcoming(4));
    Volatile.ThrowObjRand(a, child, Volatile.Breakup, rng, m);
    Settle(a, child, t, m);
  }

  /** The rest of the placement, once the child is thrown from the parent's position. */
  method Settle(a: GraphObj, child: GraphObj, ghost t: Volatile.Throw, m: Math)
    requires child != a && ChildShape(child, ParentOf(a)) && Volatile.ThrowInRange(Volatile.Breakup, t)
    requires Volatile.ThrownBy(child, t, a.center, a.velocity, m)
    modifies child`center, child`radialVelocity, child`team
    ensures ChildOf(child, ParentOf(a), t, m)
  {
    var center := Add(child.center, Scale(Direction(m, child.angle), a.collisionRadius / 2.0));
    var spin := ScaledSpin(child.radialVelocity, a.minChildSize, child.collisionRadius);
    child.center, child.radialVelocity, child.team := center, spin, a.team;
  }

  /** The sum of `xs`. */
  function Sum(xs: seq<real>): real
  {
    if |xs| == 0 then 0.0 else Sum(xs[..|xs| - 1]) + xs[|xs| - 1]
  }

  /** A child asteroid as explode's loop sees it, before it is placed. */
  method NewChild(config: Config, rng: RandSource, m: Math, ghost p: Parent) returns (obj: GraphObj)
    requires rng.Valid() && config == ChildConfig(p.radius, p.minChildSize, p.color)
    modifies rng`pos
    ensures fresh(obj) && DrawnChild(obj, p)
    ensures rng.pos == old(rng.pos) + AsteroidDraws(rng.draws(old(rng.pos)))
    ensures Tried(config, rng.draws, old(rng.pos), obj.collisionRadius)
  {
    obj := New(config, rng, m);
  }

  /** The rand() calls of one asteroid whose first draw is `first`: the point count, the size, and two per rim point. */
  function AsteroidDraws(first: int): nat
    requires 0 <= first
  {
    2 + 2 * PointCount(first)
  }

  /** An asteroid drawn from `config` at position `at` of the stream `draws` has radius `r`. */
  ghost predicate Tried(config: Config, draws: nat -> int, at: nat, r: real)
  {
    0 <= draws(at) && 0 <= draws(at + 1) <= RandMax &&
    r == RandFloatOf(draws(at + 1), config.minSize, config.maxSize)
  }

  /** The kept children took their draws one after the other: child i was tried at `marks[i]`. */
  ghost predicate ChildrenInTurn(config: Config, draws: nat -> int, marks: seq<nat>, sizes: seq<real>,
                                 throws: seq<Volatile.Throw>)
  {
    |marks| == |sizes| + 1 && |throws| == |sizes| &&
    forall i :: 0 <= i < |sizes| ==> ChildDrawnAt(config, draws, marks[i], marks[i + 1], sizes[i], throws[i])
  }

  lemma GrownInTurn(config: Config, draws: nat -> int, marks: seq<nat>, sizes: seq<real>, throws: seq<Volatile.Throw>,
                    next: nat, r: real, t: Volatile.Throw)
    requires ChildrenInTurn(config, draws, marks, sizes, throws)
    requires ChildDrawnAt(config, draws, marks[|sizes|], next, r, t)
    ensures ChildrenInTurn(config, draws, marks + [next], sizes + [r], throws + [t])
  {
  }

  /**
    The try at `at` that ends the child loop: its asteroid is smaller than
    the minimum child size or its area overdraws the `left` budget; it is
    dropped, and drawing resumes at `next`, just after its outline.
  */
  ghost predicate Stopped(config: Config, draws: nat -> int, at: nat, next: nat, left: real)
  {
    0 <= draws(at) && 0 <= draws(at + 1) <= RandMax && next == at + AsteroidDraws(draws(at)) &&
    var r := RandFloatOf(draws(at + 1), config.minSize, config.maxSize);
    r < config.minChildSize || left - Square(r) < 0.0
  }

  /**
    A kept child drawn from `config` at `at`: radius `r`, then thrown by the
    four draws after its outline; the next try starts at `next`.
  */
  ghost predicate ChildDrawnAt(config: Config, draws: nat -> int, at: nat, next: nat, r: real, t: Volatile.Throw)
  {
    Tried(config, draws, at, r) &&
    var thrown := at + AsteroidDraws(draws(at));
    next == thrown + 4 && AllInRange(Window(draws, thrown, 4)) &&
    t == Volatile.ThrowOf(Volatile.Breakup, Window(draws, thrown, 4))
  }

  /** The area budget a radius stands for, as explode counts it. */
  function Square(x: real): real
  {
    x * x
  }

  /** The squares of `xs`, in order. */
  function Squares(xs: seq<real>): (r: seq<real>)
    ensures |r| == |xs|
  {
    if |xs| == 0 then [] else Squares(xs[..|xs| - 1]) + [Square(xs[|xs| - 1])]
  }

  lemma SquaresAppend(xs: seq<real>, x: real)
    ensures Squares(xs + [x]) == Squares(xs) + [Square(x)]
  {
    var ys := xs + [x];
    assert ys[..|ys| - 1] == xs;
  }

  lemma SumAppend(xs: seq<real>, x: real)
    ensures Sum(xs + [x]) == Sum(xs) + x
  {
    assert (xs + [x])[..|xs|] == xs;
  }

  /**
    One try of explode's child loop: a new asteroid from the child
    configuration, kept only when it is no smaller than the minimum child
    size and its area fits the remaining budget, and then placed around `a`.
  */
  method TryChild(a: GraphObj, config: Config, remainingVolume: real, rng: RandSource, m: Math, ghost parent: Parent)
    returns (child: GraphObj, volume: real, keep: bool, ghost t: Volatile.Throw)
    requires rng.Valid() && parent == ParentOf(a)
    requires config == ChildConfig(parent.radius, parent.minChildSize, parent.color)
    modifies rng`pos
    ensures fresh(child) && volume == Square(child.collisionRadius)
    ensures keep <==> parent.minChildSize <= child.collisionRadius && volume <= remainingVolume
    ensures keep ==> ChildOf(child, parent, t, m)
    ensures keep ==> ChildDrawnAt(config, rng.draws, old(rng.pos), rng.pos, child.collisionRadius, t)
    ensures !keep ==> Stopped(config, rng.draws, old(rng.pos), rng.pos, remainingVolume)
  {
    child := NewChild(config, rng, m, parent);
    var size := child.collisionRadius;
    volume := size * size;
    assert volume == Square(size);
    keep, t := false, Volatile.Throw(0.0, 0.0, 0.0);
    if size < a.minChildSize {
      return;
    }
    if remainingVolume - volume < 0.0 {
      return;
    }
    keep := true;
    ghost var d := rng.Upcoming(4);
    assert d == Window(rng.draws, rng.pos, 4);
    t := Place(a, child, rng, m);
  }

  /**
    The bookkeeping of the child loop: `areas` are the squares of the kept
    sizes, and what is left of the budget is the budget less their sum;
    the kept children were tried in turn from `marks`.
  */
  ghost predicate Tally(config: Config, draws: nat -> int, budget: real, remaining: real, areas: seq<real>,
                        sizes: seq<real>, throws: seq<Volatile.Throw>, marks: seq<nat>)
  {
    areas == Squares(sizes) && Sum(areas) == budget - remaining && 0.0 <= remaining &&
    ChildrenInTurn(config, draws, marks, sizes, throws)
  }

  lemma TallyStep(config: Config, draws: nat -> int, budget: real, remaining: real, areas: seq<real>,
                  sizes: seq<real>, throws: seq<Volatile.Throw>, marks: seq<nat>,
                  volume: real, r: real, t: Volatile.Throw, next: nat)
    requires Tally(config, draws, budget, remaining, areas, sizes, throws, marks)
    requires volume == Square(r) && volume <= remaining
    requires ChildDrawnAt(config, draws, marks[|sizes|], next, r, t)
    ensures Tally(config, draws, budget, remaining - volume, areas + [volume], sizes + [r], throws + [t], marks + [next])
  {
    SumAppend(areas, volume);
    SquaresAppend(sizes, r);
    GrownInTurn(config, draws, marks, sizes, throws, next, r, t);
  }

  /** Each child placed by its throw, with its size recorded. */
  ghost predicate Brood(children: seq<GraphObj>, sizes: seq<real>, throws: seq<Volatile.Throw>, p: Parent, m: Math)
    reads set c | c in children
  {
    |sizes| == |children| && |throws| == |children| &&
    forall i :: 0 <= i < |children| ==> ChildOf(children[i], p, throws[i], m) && sizes[i] == children[i].collisionRadius
  }

  lemma Grown(children: seq<GraphObj>, sizes: seq<real>, throws: seq<Volatile.Throw>, p: Parent, m: Math,
               c: GraphObj, t: Volatile.Throw)
    requires Brood(children, sizes, throws, p, m) && ChildOf(c, p, t, m)
    ensures Brood(children + [c], sizes + [c.collisionRadius], throws + [t], p, m)
  {
  }

  /**
    The child loop of explode: up to kMaxChildTries asteroids drawn from
    the child configuration; it stops at the first one smaller than the
    minimum child size or the first one that overdraws the area budget,
    which is dropped, and keeps the others, placed around `a`.
    `marks` records where each child's draws begin.
  */
  method BreakUp(a: GraphObj, rng: RandSource, m: Math)
    returns (children: seq<GraphObj>, ghost sizes: seq<real>, ghost throws: seq<Volatile.Throw>, ghost marks: seq<nat>)
    requires rng.Valid()
    modifies rng`pos
    ensures |children| <= MaxChildTries && |sizes| == |children| && |throws| == |children|
    ensures forall i, j :: 0 <= i < j < |children| ==> children[i] != children[j]
    ensures forall i :: 0 <= i < |children| ==>
              fresh(children[i]) && ChildOf(children[i], ParentOf(a), throws[i], m) &&
              sizes[i] == children[i].collisionRadius
    ensures Sum(Squares(sizes)) <= Square(ParentOf(a).radius)
    ensures ChildrenInTurn(ChildConfig(a.collisionRadius, a.minChildSize, a.mainColor), rng.draws, marks, sizes, throws)
    ensures marks[0] == old(rng.pos)
    ensures |children| == MaxChildTries ==> rng.pos == marks[|children|]
    ensures |children| < MaxChildTries ==>
              Stopped(ChildConfig(a.collisionRadius, a.minChildSize, a.mainColor), rng.draws, marks[|children|], rng.pos,
                      Square(a.collisionRadius) - Sum(Squares(sizes)))
  {
    ghost var parent := ParentOf(a);
    var config := ChildConfig(a.collisionRadius, a.minChildSize, a.mainColor);
    ghost var remaining, areas;
    children, sizes, throws, marks, remaining, areas := Sprouts(a, config, rng, m, parent);
  }

  /** The loop of BreakUp, with its budget bookkeeping left as `remaining` and `areas`. */
  method Sprouts(a: GraphObj, config: Config, rng: RandSource, m: Math, ghost parent: Parent)
    returns (children: seq<GraphObj>, ghost sizes: seq<real>, ghost throws: seq<Volatile.Throw>, ghost marks: seq<nat>,
             ghost remaining: real, ghost areas: seq<real>)
    requires rng.Valid() && parent == ParentOf(a)
    requires config == ChildConfig(parent.radius, parent.minChildSize, parent.color)
    modifies rng`pos
    ensures |children| <= MaxChildTries && |sizes| == |children| && |throws| == |children|
    ensures Distinct(children) && forall i :: 0 <= i < |children| ==> fresh(children[i])
    ensures Brood(children, sizes, throws, parent, m)
    ensures Tally(config, rng.draws, Square(parent.radius), remaining, areas, sizes, throws, marks)
    ensures marks[0] == old(rng.pos)
    ensures |children| == MaxChildTries ==> rng.pos == marks[|children|]
    ensures |children| < MaxChildTries ==> Stopped(config, rng.draws, marks[|children|], rng.pos, remaining)
  {
    var remainingVolume := a.collisionRadius * a.collisionRadius;
    ghost var budget := Square(a.collisionRadius);
    assert remainingVolume == budget;
    areas := [];
    ghost var draws := rng.draws;
    children, sizes, throws, marks := [], [], [], [rng.pos];
    assert Brood(children, sizes, throws, parent, m);
    hide Brood;
    for tries := 0 to MaxChildTries
      invariant rng.Valid() && ParentOf(a) == parent && rng.draws == draws
      invariant |children| == tries && |sizes| == tries && |throws| == tries
      invariant Tally(config, draws, budget, remainingVolume, areas, sizes, throws, marks)
      invariant Distinct(children) && forall i :: 0 <= i < |children| ==> fresh(children[i])
      invariant Brood(children, sizes, throws, parent, m)
      invariant marks[0] == old(rng.pos) && rng.pos == marks[tries]
    {
      var obj, volume, keep, t := TryChild(a, config, remainingVolume, rng, m, parent);
      if !keep {
        remaining := remainingVolume;
        return;
      }
      TallyStep(config, draws, budget, remainingVolume, areas, sizes, throws, marks, volume, obj.collisionRadius, t, rng.pos);
      remainingVolume := remainingVolume - volume;
      DistinctJoin(children, [obj]);
      Grown(children, sizes, throws, parent, m, obj, t);
      areas := areas + [volume];
      children, sizes, throws, marks := children + [obj], sizes + [obj.collisionRadius], throws + [t], marks + [rng.pos];
    }
    remaining := remainingVolume;
  }

  /**
    Asteroid::explode: the rock children (none once the asteroid has been
    disintegrated), followed by the fire and fragments of
    VolatileObj::explode, which also kills the asteroid.
  */
  method Explode(a: GraphObj, rng: RandSource, m: Math)
    returns (ejecta: seq<GraphObj>, ghost children: seq<GraphObj>, ghost fragments: seq<GraphObj>,
             ghost sizes: seq<real>, ghost throws: seq<Volatile.Throw>,
             ghost configs: seq<Fragments.Config>, ghost fragThrows: seq<Volatile.Throw>)
    requires rng.Valid()
    modifies a`alive, rng`pos
    ensures !a.alive
    ensures ejecta == children + fragments
    ensures !old(a.childrenAllowed) ==> children == []
    ensures |children| <= MaxChildTries && |sizes| == |children| && |throws| == |children|
    ensures forall i :: 0 <= i < |children| ==>
              fresh(children[i]) && ChildOf(children[i], old(ParentOf(a)), throws[i], m) &&
              sizes[i] == children[i].collisionRadius
    ensures Sum(Squares(sizes)) <= Square(old(a.collisionRadius))
    ensures 15 <= |fragments| <= 30 && |configs| == |fragments| && |fragThrows| == |fragments|
    ensures forall i :: 0 <= i < |fragments| ==>
              fresh(fragments[i]) && Fragments.BuiltFrom(fragments[i], configs[i]) &&
              Fragments.ExplosionConfig(configs[i], a.explodeStyle == FireAndFragments, a.mainColor) &&
              Volatile.ThrownBy(fragments[i], fragThrows[i], a.center, a.velocity, m)
    ensures forall i, j :: 0 <= i < j < |ejecta| ==> ejecta[i] != ejecta[j]
  {
    var rocks: seq<GraphObj> := [];
    sizes, throws := [], [];
    if a.childrenAllowed {
      ghost var marks;
      rocks, sizes, throws, marks := BreakUp(a, rng, m);
    }
    var fire;
    ghost var marks;
    fire, configs, fragThrows, marks := Volatile.Explode(a, rng, m);
    ejecta := rocks + fire;
    children, fragments := rocks, fire;
  }

  /** GraphObj::KnockConfig as knockAsteriod fills it in. */
  datatype KnockConfig = KnockConfig(minLinearSpeed: real, maxLinearSpeed: real, maxRadialSpeed: real)

  /**
    The impulse knockAsteriod asks for: the given speed range and a spin
    limit of three revolutions per second, reduced by minChildSize / radius
    for an asteroid that can collide.
  */
  function KnockConfigFor(minLinearSpeed: real, maxLinearSpeed: real, radius: real, minChildSize: real): (k: KnockConfig)
    ensures k.minLinearSpeed == minLinearSpeed && k.maxLinearSpeed == maxLinearSpeed
    ensures radius <= 0.0 ==> k.maxRadialSpeed == MaxKnockSpeed
    ensures 0.0 < radius ==> k.maxRadialSpeed * radius == MaxKnockSpeed * minChildSize
  {
    var maxRadial := if radius > 0.0 then MaxKnockSpeed * (minChildSize / radius) else MaxKnockSpeed;
    KnockConfig(minLinearSpeed, maxLinearSpeed, maxRadial)
  }

  /**
    The spin limit of a knock never exceeds three revolutions per second for
    an asteroid at least as large as its minimum child size, and the
    smallest such asteroid gets the full limit.
  */
  lemma {:induction false} KnockSpinShrinksWithSize(minLinearSpeed: real, maxLinearSpeed: real, radius: real, minChildSize: real)
    requires 0.0 < minChildSize <= radius
    ensures 0.0 < KnockConfigFor(minLinearSpeed, maxLinearSpeed, radius, minChildSize).maxRadialSpeed <= MaxKnockSpeed
    ensures radius == minChildSize ==>
              KnockConfigFor(minLinearSpeed, maxLinearSpeed, radius, minChildSize).maxRadialSpeed == MaxKnockSpeed
  {
    var k := KnockConfigFor(minLinearSpeed, maxLinearSpeed, radius, minChildSize);
    assert k.maxRadialSpeed * radius == MaxKnockSpeed * minChildSize;
    assert MaxKnockSpeed * minChildSize <= MaxKnockSpeed * radius;
    if k.maxRadialSpeed > MaxKnockSpeed {
      assert k.maxRadialSpeed * radius > MaxKnockSpeed * radius;
    }
  }
}
