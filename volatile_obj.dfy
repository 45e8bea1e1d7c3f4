/**
  VolatileObj (VolatileObj.h, VolatileObj.cpp): an object that can explode
  into display-only fragments, and that can throw another object away from
  itself with a random speed, spin and heading.
*/
module Volatile {
  import opened Geometry
  import opened Random
  import opened Objects
  import Fragments

  /** VolatileObj::ThrowStyle */
  datatype ThrowStyle = Explosion | Breakup

  /** The random part of one throw: speed, spin and heading. */
  datatype Throw = Throw(speed: real, spin: real, angle: real)

  function MinSpeed(style: ThrowStyle): real
  {
    if style == Breakup then 50.0 else 500.0
  }

  function MaxSpeed(style: ThrowStyle): real
  {
    if style == Breakup then 250.0 else 1000.0
  }

  /** Two revolutions per second when breaking up, six when exploding. */
  function MaxSpin(style: ThrowStyle): real
  {
    if style == Breakup then 2.0 * PI * 2.0 else 2.0 * PI * 6.0
  }

  /** The throws a style may produce. */
  predicate ThrowInRange(style: ThrowStyle, t: Throw)
  {
    MinSpeed(style) <= t.speed <= MaxSpeed(style) &&
    -MaxSpin(style) <= t.spin <= MaxSpin(style) &&
    0.0 <= t.angle <= 2.0 * PI
  }

  /**
    The throw drawn by throwObjRand from four rand() results: speed, spin,
    heading, then a coin (randInt(0, 1)) that reverses the spin.
  */
  function ThrowOf(style: ThrowStyle, d: seq<int>): (t: Throw)
    requires |d| == 4 && AllInRange(d)
    ensures ThrowInRange(style, t)
    ensures t.spin < 0.0 ==> d[3] % 2 == 1
    ensures d[3] % 2 == 0 ==> 0.0 <= t.spin
  {
    var speed := RandFloatOf(d[0], MinSpeed(style), MaxSpeed(style));
    var spin := RandFloatOf(d[1], 0.0, MaxSpin(style));
    var angle := RandFloatOf(d[2], 0.0, 2.0 * PI);
    if RandIntOf(d[3], 0, 1) != 0 then Throw(speed, -spin, angle) else Throw(speed, spin, angle)
  }

  /**
    The spin direction is decided by the coin alone: two draw sequences that
    differ only in the parity of the coin throw at the same speed and
    heading with opposite spins.
  */
  lemma {:induction false} CoinOnlyReversesSpin(style: ThrowStyle, d: seq<int>, e: seq<int>)
    requires |d| == 4 && AllInRange(d) && |e| == 4 && AllInRange(e)
    requires d[..3] == e[..3] && d[3] % 2 == 0 && e[3] % 2 == 1
    ensures ThrowOf(style, e) == ThrowOf(style, d).(spin := -ThrowOf(style, d).spin)
  {
    assert d[0] == e[0] && d[1] == e[1] && d[2] == e[2];
  }

  /** `obj` was thrown by `t` from an object at `pos` moving with `vel`. */
  ghost predicate ThrownBy(obj: GraphObj, t: Throw, pos: Vec, vel: Vec, m: Math)
    reads obj
  {
    obj.center == pos && obj.angle == t.angle && obj.radialVelocity == t.spin &&
    obj.velocity == Add(vel, Scale(Direction(m, t.angle), t.speed))
  }

  /**
    Relative to the thrower, a thrown object moves at exactly the drawn
    speed, so within the style's speed range.
  */
  lemma {:induction false} ThrownAtDrawnSpeed(obj: GraphObj, style: ThrowStyle, t: Throw, pos: Vec, vel: Vec, m: Math)
    requires UnitCircle(m) && ThrowInRange(style, t) && ThrownBy(obj, t, pos, vel, m)
    ensures NormSq(Sub(obj.velocity, vel)) == t.speed * t.speed
    ensures MinSpeed(style) * MinSpeed(style) <= NormSq(Sub(obj.velocity, vel)) <= MaxSpeed(style) * MaxSpeed(style)
  {
    assert Sub(obj.velocity, vel) == Vec(m.cos(t.angle) * t.speed, m.sin(t.angle) * t.speed);
    PolarLength(m, t.angle, t.speed);
    SquareMonotone(MinSpeed(style), t.speed);
    SquareMonotone(t.speed, MaxSpeed(style));
  }

  /**
    throwObjRand: place `obj` at the thrower, turn it to the drawn heading,
    give it the drawn spin and the thrower's velocity plus the drawn speed
    along that heading.
  */
  method ThrowObjRand(thrower: GraphObj, obj: GraphObj, style: ThrowStyle, rng: RandSource, m: Math)
    requires rng.Valid()
    modifies obj`center, obj`angle, obj`radialVelocity, obj`velocity, rng`pos
    ensures rng.pos == old(rng.pos) + 4
    ensures ThrownBy(obj, ThrowOf(style, old(rng.Upcoming(4))), old(thrower.center), old(thrower.velocity), m)
  {
    ghost var d := rng.Upcoming(4);
    var fragSpeed, fragRadialSpeed, angle := 0.0, 0.0, 0.0;
    if style == Breakup {
      fragSpeed := rng.RandFloat(50.0, 250.0);
      fragRadialSpeed := rng.RandFloat(0.0, 2.0 * PI * 2.0);
      angle := rng.RandFloat(0.0, 2.0 * PI);
    } else {
      fragSpeed := rng.RandFloat(500.0, 1000.0);
      fragRadialSpeed := rng.RandFloat(0.0, 2.0 * PI * 6.0);
      angle := rng.RandFloat(0.0, 2.0 * PI);
    }
    assert fragSpeed == RandFloatOf(d[0], MinSpeed(style), MaxSpeed(style));
    assert fragRadialSpeed == RandFloatOf(d[1], 0.0, MaxSpin(style));
    assert angle == RandFloatOf(d[2], 0.0, 2.0 * PI);
    var coin := rng.RandInt(0, 1);
    assert coin == RandIntOf(d[3], 0, 1);
    if coin != 0 {
      fragRadialSpeed := fragRadialSpeed * -1.0;
    }
    assert Throw(fragSpeed, fragRadialSpeed, angle) == ThrowOf(style, d);
    var position, velocity := thrower.center, thrower.velocity;
    obj.center := position;
    obj.angle := angle;
    obj.radialVelocity := fragRadialSpeed;
    obj.velocity := Add(velocity, Scale(Direction(m, obj.angle), fragSpeed));
  }

  /** setExplosionRatio */
  method SetExplosionRatio(obj: GraphObj, ratio: real)
    modifies obj`explosionRatio
    ensures obj.explosionRatio == ratio
  {
    obj.explosionRatio := ratio;
  }

  /** getExplosionRatio */
  function ExplosionRatio(obj: GraphObj): real
    reads obj
  {
    obj.explosionRatio
  }

  /** The rand() calls of one fragment configuration: the lifespan, the body draw of the FireAndFragments style, the size. */
  function ConfigDraws(style: ExplodeStyle): nat
  {
    if style == FireAndFragments then 3 else 2
  }

  /**
    The fragment configuration for the draws `d`: a lifespan of half a
    second to two seconds; for the FireAndFragments style, a body quad in
    the main colour when the second draw is a multiple of three; otherwise
    a fire spike in the fire colour; the last draw gives the size.
  */
  function FragmentConfigOf(style: ExplodeStyle, mainColor: Color, d: seq<int>): (c: Fragments.Config)
    requires |d| == ConfigDraws(style) && AllInRange(d)
    ensures Fragments.ExplosionConfig(c, style == FireAndFragments, mainColor)
    ensures c.lifespanSeconds == RandFloatOf(d[0], 0.5, 2.0)
    ensures !c.isFire <==> style == FireAndFragments && d[1] % 3 == 0
  {
    var lifespan := RandFloatOf(d[0], 0.5, 2.0);
    if style == FireAndFragments && d[1] % 3 == 0 then
      Fragments.Config(mainColor, RandFloatOf(d[|d| - 1], 5.0, 50.0), false, lifespan)
    else
      Fragments.Config(Orange, RandFloatOf(d[|d| - 1], 5.0, 20.0), true, lifespan)
  }

  /** The draws a fragment configuration takes from position `at` on. */
  ghost function ConfigWindow(style: ExplodeStyle, draws: nat -> int, at: nat): (d: seq<int>)
    ensures |d| == ConfigDraws(style)
  {
    if style == FireAndFragments then [draws(at), draws(at + 1), draws(at + 2)] else [draws(at), draws(at + 1)]
  }

  /** The fragment configuration drawn for one fragment of VolatileObj::explode. */
  method DrawFragmentConfig(style: ExplodeStyle, mainColor: Color, rng: RandSource) returns (config: Fragments.Config)
    requires rng.Valid()
    modifies rng`pos
    ensures rng.pos == old(rng.pos) + ConfigDraws(style)
    ensures DrawnAt(style, mainColor, rng.draws, old(rng.pos), config)
    ensures Fragments.ExplosionConfig(config, style == FireAndFragments, mainColor)
  {
    ghost var d := ConfigWindow(style, rng.draws, rng.pos);
    var lifespan := rng.RandFloat(0.5, 2.0);
    var body := false;
    if style == FireAndFragments {
      var r := rng.Rand();
      body := r % 3 == 0;
    }
    if body {
      var size := rng.RandFloat(5.0, 50.0);
      config := Fragments.Config(mainColor, size, false, lifespan);
    } else {
      var size := rng.RandFloat(5.0, 20.0);
      config := Fragments.Config(Orange, size, true, lifespan);
    }
  }

  /** The rand() calls of one fragment of VolatileObj::explode built with `config`. */
  function FragmentDraws(style: ExplodeStyle, config: Fragments.Config): nat
  {
    ConfigDraws(style) + Fragments.SideDraws(config) + 4
  }

  /** The configuration `c` is the one drawn from the stream `draws` at position `at`. */
  ghost predicate DrawnAt(style: ExplodeStyle, mainColor: Color, draws: nat -> int, at: nat, c: Fragments.Config)
  {
    var d := ConfigWindow(style, draws, at);
    AllInRange(d) && c == FragmentConfigOf(style, mainColor, d)
  }

  /** A fragment of an explosion of `obj`: built from `c`, an explosion configuration, and thrown from the object by `t`. */
  ghost predicate Ejected(obj: GraphObj, f: GraphObj, c: Fragments.Config, t: Throw, m: Math)
    reads obj, f
  {
    Fragments.BuiltFrom(f, c) &&
    Fragments.ExplosionConfig(c, obj.explodeStyle == FireAndFragments, obj.mainColor) &&
    ThrowInRange(Explosion, t) && ThrownBy(f, t, obj.center, obj.velocity, m)
  }

  /**
    A fragment built with `c` and thrown by `t` drew its configuration at
    `at`, its throw from the last four draws before `next`, and the next
    fragment starts at `next`.
  */
  ghost predicate InTurn(style: ExplodeStyle, mainColor: Color, draws: nat -> int, at: nat, next: nat,
                         c: Fragments.Config, t: Throw)
  {
    next == at + FragmentDraws(style, c) && DrawnAt(style, mainColor, draws, at, c) &&
    AllInRange(Window(draws, next - 4, 4)) && t == ThrowOf(Explosion, Window(draws, next - 4, 4))
  }

  /** One fragment of VolatileObj::explode, thrown with the default explosion style. */
  method ExplodeOne(obj: GraphObj, rng: RandSource, m: Math)
    returns (f: GraphObj, config: Fragments.Config, ghost t: Throw)
    requires rng.Valid()
    modifies rng`pos
    ensures fresh(f)
    ensures InTurn(obj.explodeStyle, obj.mainColor, rng.draws, old(rng.pos), rng.pos, config, t)
    ensures Ejected(obj, f, config, t, m)
  {
    config := DrawFragmentConfig(obj.explodeStyle, obj.mainColor, rng);
    f := Fragments.New(config, rng);
    t := ThrowFragment(obj, f, config, rng, m);
  }

  /** The throw of a fragment built from `c`: four draws, which leave what the fragment was built as untouched. */
  method ThrowFragment(obj: GraphObj, f: GraphObj, ghost c: Fragments.Config, rng: RandSource, m: Math)
    returns (ghost t: Throw)
    requires rng.Valid() && Fragments.BuiltFrom(f, c)
    modifies f`center, f`angle, f`radialVelocity, f`velocity, rng`pos
    ensures rng.pos == old(rng.pos) + 4
    ensures AllInRange(Window(rng.draws, rng.pos - 4, 4)) && t == ThrowOf(Explosion, Window(rng.draws, rng.pos - 4, 4))
    ensures Fragments.BuiltFrom(f, c) && ThrownBy(f, t, old(obj.center), old(obj.velocity), m)
  {
    t := ThrowOf(Explosion, rng.Upcoming(4));
    ThrowObjRand(obj, f, Explosion, rng, m);
  }

  /** The fragment loop of VolatileObj::explode: `count` fragments thrown from the object, one after the other. */
  method Eject(obj: GraphObj, rng: RandSource, m: Math, count: nat)
    returns (ejecta: seq<GraphObj>, ghost configs: seq<Fragments.Config>, ghost throws: seq<Throw>, ghost marks: seq<nat>)
    requires rng.Valid()
    modifies rng`pos
    ensures |ejecta| == count && |configs| == count && |throws| == count && |marks| == count + 1
    ensures marks[0] == old(rng.pos) && rng.pos == marks[count]
    ensures forall i, j :: 0 <= i < j < |ejecta| ==> ejecta[i] != ejecta[j]
    ensures forall i :: 0 <= i < |ejecta| ==>
              fresh(ejecta[i]) && Ejected(obj, ejecta[i], configs[i], throws[i], m) &&
              InTurn(obj.explodeStyle, obj.mainColor, rng.draws, marks[i], marks[i + 1], configs[i], throws[i])
  {
    ejecta, configs, throws, marks := [], [], [], [rng.pos];
    ghost var draws := rng.draws;
    for fragIndex := 0 to count
      invariant |ejecta| == fragIndex && |configs| == fragIndex && |throws| == fragIndex && |marks| == fragIndex + 1
      invariant rng.Valid() && rng.draws == draws && marks[0] == old(rng.pos) && rng.pos == marks[fragIndex]
      invariant forall i, j :: 0 <= i < j < |ejecta| ==> ejecta[i] != ejecta[j]
      invariant forall i :: 0 <= i < |ejecta| ==> fresh(ejecta[i]) && Ejected(obj, ejecta[i], configs[i], throws[i], m)
      invariant forall i :: 0 <= i < |ejecta| ==>
                  InTurn(obj.explodeStyle, obj.mainColor, draws, marks[i], marks[i + 1], configs[i], throws[i])
    {
      var f, config, t := ExplodeOne(obj, rng, m);
      ejecta, configs, throws, marks := ejecta + [f], configs + [config], throws + [t], marks + [rng.pos];
    }
  }

  /**
    VolatileObj::explode: 15 to 30 fragments (an inclusive randInt), each a
    fire spike or, for the FireAndFragments style and one draw in three, a
    body quad, all thrown from the object; the object is killed. The count
    takes one draw; the fragments take theirs one after the other, as
    `marks` records.
  */
  method Explode(obj: GraphObj, rng: RandSource, m: Math)
    returns (ejecta: seq<GraphObj>, ghost configs: seq<Fragments.Config>, ghost throws: seq<Throw>, ghost marks: seq<nat>)
    requires rng.Valid()
    modifies obj`alive, rng`pos
    ensures !obj.alive
    ensures |ejecta| == RandIntOf(rng.draws(old(rng.pos)), 15, 30) && 15 <= |ejecta| <= 30
    ensures |configs| == |ejecta| && |throws| == |ejecta| && |marks| == |ejecta| + 1
    ensures marks[0] == old(rng.pos) + 1 && rng.pos == marks[|ejecta|]
    ensures forall i, j :: 0 <= i < j < |ejecta| ==> ejecta[i] != ejecta[j]
    ensures forall i :: 0 <= i < |ejecta| ==>
              fresh(ejecta[i]) && Ejected(obj, ejecta[i], configs[i], throws[i], m) &&
              InTurn(obj.explodeStyle, obj.mainColor, rng.draws, marks[i], marks[i + 1], configs[i], throws[i])
  {
    var fragments := rng.RandInt(15, 30);
    ejecta, configs, throws, marks := Eject(obj, rng, m, fragments);
    obj.Kill();
  }
}
