/**
  The single-player game of SinglePlayerGame.cpp: the asteroid field (a
  GameBox that knows which team its asteroids play for) and the player who
  owns a ship and respawns it.

  The window is reduced to its size in pixels, an sf::Vector2u; the respawn
  clock is the time it was last restarted, compared against the `now` the
  caller passes in; the keyboard is the Controls value the caller passes in.
*/
module SinglePlayer {
  import opened Geometry
  import opened Random
  import opened Objects
  import opened Box
  import Asteroids
  import Ships

  /** kAsteroidTeamIndex and kPlayerTeamIndex. */
  const AsteroidTeamIndex: int := 2
  const PlayerTeamIndex: int := 0

  /** kDisintegrationRadiusWinRatio: a respawn clears a disc of 0.2 window widths. */
  const DisintegrationRadiusWinRatio: real := 0.2

  /** kDarkBrown and kRedBrown, the two ends of the asteroid colour range. */
  const DarkBrown: Color := Color(128, 64, 0)
  const RedBrown: Color := Color(165, 42, 42)

  /** An unsigned 32-bit integer (sf::Vector2u's coordinates). */
  type U32 = n: int | 0 <= n < 0x1_0000_0000

  /** The size of the render window, sf::RenderWindow::getSize(). */
  datatype WinSize = WinSize(x: U32, y: U32)

  /** AsteroidField::FieldConfig. */
  datatype FieldConfig = FieldConfig(
    minAsteroids: int, maxAsteroids: int,
    minAsteroidSize: real, maxAsteroidSize: real,
    maxLinearSpeed: real, maxRadialSpeed: real,
    minColor: Color, maxColor: Color,
    teamIndex: int)

  /** A default FieldConfig: no asteroids, dark brown, the asteroid team. */
  const DefaultFieldConfig: FieldConfig :=
    FieldConfig(0, 0, 0.0, 0.0, 0.0, 0.0, DarkBrown, DarkBrown, AsteroidTeamIndex)

  /** How many asteroids populateField makes for the draw `r`: a negative count makes none. */
  function AsteroidCount(r: int, config: FieldConfig): (n: nat)
    requires 0 <= r
    ensures config.minAsteroids <= config.maxAsteroids && 0 <= config.minAsteroids ==>
              config.minAsteroids <= n <= config.maxAsteroids
    ensures config.maxAsteroids <= config.minAsteroids ==> n == if config.minAsteroids < 0 then 0 else config.minAsteroids
  {
    var n := RandIntOf(r, config.minAsteroids, config.maxAsteroids);
    if n < 0 then 0 else n
  }

  /**
    One colour channel between `lo` and `hi` at `ratio`: the float
    lo + (hi - lo) * ratio, truncated toward zero by the (int) cast.
  */
  function ChannelAt(lo: Channel, hi: Channel, ratio: real): (c: Channel)
    requires 0.0 <= ratio <= 1.0
    ensures lo <= hi ==> lo <= c <= hi
    ensures hi <= lo ==> hi <= c <= lo
    ensures ratio == 0.0 ==> c == lo
    ensures ratio == 1.0 ==> c == hi
  {
    var d := (hi - lo) as real;
    var f := Scale(ratio, d);
    ShiftWithin(lo, hi, d, f);
    (lo as real + f).Floor
  }

  /** A fraction `ratio` of the span `d`. */
  function Scale(ratio: real, d: real): (f: real)
    requires 0.0 <= ratio <= 1.0
    ensures 0.0 <= d ==> 0.0 <= f <= d
    ensures d <= 0.0 ==> d <= f <= 0.0
    ensures ratio == 0.0 ==> f == 0.0
    ensures ratio == 1.0 ==> f == d
  {
    var f := ratio * d;
    FractionOfSpan(ratio, d);
    assert 0.0 <= d ==> 0.0 <= f <= d;
    assert d <= 0.0 ==> d <= f <= 0.0;
    assert ratio == 1.0 ==> f == d;
    f
  }

  /** Moving `lo` by at most the way to `hi` and truncating stays between the two. */
  lemma ShiftWithin(lo: int, hi: int, d: real, f: real)
    requires d == (hi - lo) as real
    requires 0.0 <= d ==> 0.0 <= f <= d
    requires d <= 0.0 ==> d <= f <= 0.0
    ensures lo <= hi ==> lo <= (lo as real + f).Floor <= hi
    ensures hi <= lo ==> hi <= (lo as real + f).Floor <= lo
    ensures f == 0.0 ==> (lo as real + f).Floor == lo
    ensures f == d ==> (lo as real + f).Floor == hi
  {
  }

  /** The colour of an asteroid at `ratio`: one ratio for all three channels. */
  function FieldColor(config: FieldConfig, ratio: real): (c: Color)
    requires 0.0 <= ratio <= 1.0
    ensures ratio == 0.0 ==> c == config.minColor
    ensures ratio == 1.0 ==> c == config.maxColor
  {
    Color(ChannelAt(config.minColor.r, config.maxColor.r, ratio),
          ChannelAt(config.minColor.g, config.maxColor.g, ratio),
          ChannelAt(config.minColor.b, config.maxColor.b, ratio))
  }

  /** An asteroid as populateField leaves it. */
  ghost predicate FieldAsteroid(o: GraphObj, config: FieldConfig, win: WinSize)
    reads o`exhaustIndex, o`shapes, o`alive, o`childrenAllowed, o`team, o`minChildSize
    reads o`collisionRadius, o`center, o`mainColor
  {
    o.kind == AsteroidKind && o.Valid() && o.alive && o.childrenAllowed &&
    o.team == config.teamIndex &&
    o.minChildSize == config.minAsteroidSize &&
    (config.minAsteroidSize <= config.maxAsteroidSize ==>
       config.minAsteroidSize <= o.collisionRadius <= config.maxAsteroidSize) &&
    0.0 <= o.center.x <= win.x as real && 0.0 <= o.center.y <= win.y as real &&
    exists ratio :: 0.0 <= ratio <= 1.0 && o.mainColor == FieldColor(config, ratio)
  }

  /** Every asteroid of `os` is as populateField leaves it. */
  ghost predicate Populated(os: seq<GraphObj>, config: FieldConfig, win: WinSize)
    reads os`exhaustIndex, os`shapes, os`alive, os`childrenAllowed, os`team, os`minChildSize
    reads os`collisionRadius, os`center, os`mainColor
  {
    forall k :: 0 <= k < |os| ==> os[k].team == config.teamIndex && FieldAsteroid(os[k], config, win)
  }

  /** A list of field asteroids stays one when another is appended. */
  lemma PopulatedGrow(os: seq<GraphObj>, a: GraphObj, config: FieldConfig, win: WinSize)
    requires Populated(os, config, win)
    requires a.team == config.teamIndex && FieldAsteroid(a, config, win)
    ensures Populated(os + [a], config, win)
  {
  }

  /** w * w in unsigned 32-bit arithmetic, which wraps around. */
  function SquareU32(w: U32): (s: U32)
    ensures w * w < 0x1_0000_0000 ==> s == w * w

  {
    (w * w) % 0x1_0000_0000
  }

  /** A squared coordinate difference, less the squared window extent when it exceeds it. */
  function WrappedSquare(d: real, extent: real): (s: real)
    ensures 0.0 <= extent ==> 0.0 <= s <= d * d
    ensures d * d <= extent ==> s == d * d
  {
    if d * d > extent then d * d - extent else d * d
  }

  /** Whether `pt` lies in the disc that disintegrateAround clears around `center`. */
  predicate InBlast(pt: Vec, center: Vec, radius: real, win: WinSize): (r: bool)
    ensures r ==> radius != 0.0
    ensures NormSq(Sub(pt, center)) < radius * radius ==> r
  {
    WrappedSquare(pt.x - center.x, SquareU32(win.x) as real) +
    WrappedSquare(pt.y - center.y, SquareU32(win.y) as real) < radius * radius
  }

  /** Whether disintegrateAround destroys `o`: a member of the field's team inside the disc. */
  predicate Targeted(o: GraphObj, team: int, center: Vec, radius: real, win: WinSize)
    reads o`team, o`center
  {
    o.team == team && InBlast(o.center, center, radius, win)
  }

  /**
    The distance test of disintegrateAround for one position, given the
    squared radius and the squared window extents computed once up front.
  */
  method BlastTest(pt: Vec, center: Vec, radius: real, win: WinSize,
                   doubleRadius: real, doubleWinSizeX: real, doubleWinSizeY: real) returns (inside: bool)
    requires doubleRadius == radius * radius
    requires doubleWinSizeX == SquareU32(win.x) as real && doubleWinSizeY == SquareU32(win.y) as real
    ensures inside == InBlast(pt, center, radius, win)
  {
    var delta := Vec(pt.x - center.x, pt.y - center.y);
    var doubleDeltaX := WrapAxis(delta.x, doubleWinSizeX);
    var doubleDeltaY := WrapAxis(delta.y, doubleWinSizeY);
    var doubleDistance := doubleDeltaX + doubleDeltaY;
    inside := doubleDistance < doubleRadius;
  }

  /** One axis of the test: the squared difference, less the squared extent when it exceeds it. */
  method WrapAxis(d: real, extent: real) returns (dd: real)
    ensures dd == WrappedSquare(d, extent)
  {
    dd := d * d;
    if dd > extent {
      dd := dd - extent;
    }
  }

  /** A difference of two coordinates in [0, w] squares to at most w * w. */
  lemma SquareWithin(d: real, w: real)
    requires 0.0 <= w && -w <= d <= w
    ensures d * d <= w * w
  {
    MulNonNegative(w - d, w + d);
    assert (w - d) * (w + d) == w * w - d * d;
  }

  /**
    For a window whose squared extents fit 32 bits and two points inside it, the
    extent is never subtracted: the disc is the plain Euclidean one and
    does not wrap around the window's edges.
  */
  lemma {:induction false} InBlastInsideWindow(pt: Vec, center: Vec, radius: real, win: WinSize)
    requires win.x * win.x < 0x1_0000_0000 && win.y * win.y < 0x1_0000_0000
    requires 0.0 <= pt.x <= win.x as real && 0.0 <= pt.y <= win.y as real
    requires 0.0 <= center.x <= win.x as real && 0.0 <= center.y <= win.y as real
    ensures InBlast(pt, center, radius, win) <==>
              (pt.x - center.x) * (pt.x - center.x) + (pt.y - center.y) * (pt.y - center.y) < radius * radius
  {
    var w, h := win.x as real, win.y as real;
    SquareWithin(pt.x - center.x, w);
    SquareWithin(pt.y - center.y, h);
    assert SquareU32(win.x) as real == w * w;
    assert SquareU32(win.y) as real == h * h;
  }

  /** The centre itself is destroyed exactly when the radius is not zero. */
  lemma {:induction false} CenterInBlast(center: Vec, radius: real, win: WinSize)
    ensures InBlast(center, center, radius, win) <==> radius != 0.0
  {
    var ex, ey := SquareU32(win.x) as real, SquareU32(win.y) as real;
    var dx, dy := center.x - center.x, center.y - center.y;
    assert dx == 0.0 && dy == 0.0;
    if radius != 0.0 {
      calc {
        WrappedSquare(dx, ex) + WrappedSquare(dy, ey);
      ==
        0.0;
      < { SquareSign(radius); }
        radius * radius;
      }
    }
  }

  /** How many of `os` play for `team`. */
  function TeamCount(os: seq<GraphObj>, team: int): (n: nat)
    reads os`team
    ensures n <= |os|
    ensures n == 0 <==> forall k :: 0 <= k < |os| ==> os[k].team != team
    ensures n == |os| <==> forall k :: 0 <= k < |os| ==> os[k].team == team
  {
    if os == [] then 0
    else TeamCount(os[..|os| - 1], team) + if os[|os| - 1].team == team then 1 else 0
  }

  /** Counting a list in two parts adds the parts' counts. */
  lemma {:induction false} TeamCountAppend(a: seq<GraphObj>, b: seq<GraphObj>, team: int)
    ensures TeamCount(a + b, team) == TeamCount(a, team) + TeamCount(b, team)
    decreases |b|
  {
    if b != [] {
      var b' := b[..|b| - 1];
      assert (a + b)[..|a + b| - 1] == a + b';
      TeamCountAppend(a, b', team);
    } else {
      assert a + b == a;
    }
  }

  /** The ship a player holds, as a set: empty when there is none. */
  function Held(s: GraphObj?): (h: set<GraphObj>)
    ensures s != null <==> s in h
  {
    if s == null then {} else {s}
  }

  /**
    Populating a field raises its team count by the number of asteroids
    added: every one of them plays for the configured team.
  */
  lemma {:induction false} PopulatedCount(os: seq<GraphObj>, added: seq<GraphObj>, config: FieldConfig, win: WinSize)
    requires Populated(added, config, win)
    ensures TeamCount(os + added, config.teamIndex) == TeamCount(os, config.teamIndex) + |added|
  {
    TeamCountAppend(os, added, config.teamIndex);
  }

  /**
    Where a field asteroid lands: its draws begin at `at` with the colour
    ratio, the build takes its own (AsteroidDraws), and the two after those
    are its spot in the window; `next` is where the stream then stands.
  */
  ghost predicate FieldPlaced(win: WinSize, draws: nat -> int, at: nat, next: nat, center: Vec)
  {
    0 <= draws(at + 1) &&
    var placed := at + 1 + Asteroids.AsteroidDraws(draws(at + 1));
    next == placed + 2 && AllInRange(Window(draws, placed, 2)) && center == Spot(win, Window(draws, placed, 2))
  }

  /**
    One asteroid of populateField: its colour ratio is drawn first, then
    the asteroid is built (its point count, its size and its rim), then it
    is placed in the window (two draws) and given the field's team.
  */
  method NewFieldAsteroid(config: FieldConfig, win: WinSize, rng: RandSource, m: Math) returns (asteroid: GraphObj)
    requires rng.Valid()
    modifies rng`pos
    ensures fresh(asteroid) && FieldAsteroid(asteroid, config, win)
    ensures asteroid.team == config.teamIndex
    ensures asteroid.mainColor == FieldColor(config, RandFloatOf(rng.draws(old(rng.pos)), 0.0, 1.0))
    ensures asteroid.collisionRadius ==
              RandFloatOf(rng.draws(old(rng.pos) + 2), config.minAsteroidSize, config.maxAsteroidSize)
    ensures FieldPlaced(win, rng.draws, old(rng.pos), rng.pos, asteroid.center)
  {
    asteroid := BuildFieldAsteroid(config, rng, m);
    ghost var spot := rng.Upcoming(2);
    asteroid.center := DrawSpot(win, rng);
    asteroid.team := config.teamIndex;
  }

  /** The build half of NewFieldAsteroid: the colour ratio, then the asteroid itself. */
  method BuildFieldAsteroid(config: FieldConfig, rng: RandSource, m: Math) returns (asteroid: GraphObj)
    requires rng.Valid()
    modifies rng`pos
    ensures fresh(asteroid) && asteroid.kind == AsteroidKind && asteroid.Valid()
    ensures asteroid.alive && asteroid.childrenAllowed && asteroid.minChildSize == config.minAsteroidSize
    ensures asteroid.mainColor == FieldColor(config, RandFloatOf(rng.draws(old(rng.pos)), 0.0, 1.0))
    ensures asteroid.collisionRadius ==
              RandFloatOf(rng.draws(old(rng.pos) + 2), config.minAsteroidSize, config.maxAsteroidSize)
    ensures 0 <= rng.draws(old(rng.pos) + 1) &&
            rng.pos == old(rng.pos) + 1 + Asteroids.AsteroidDraws(rng.draws(old(rng.pos) + 1))
  {
    var colorRatio := rng.RandFloat(0.0, 1.0);
    var color := FieldColor(config, colorRatio);
    var asteroidConfig := Asteroids.Config(config.maxAsteroidSize, config.minAsteroidSize, config.minAsteroidSize, color);
    asteroid := Asteroids.New(asteroidConfig, rng, m);
  }

  /** AsteroidField: a GameBox whose asteroids play for one team. */
  class AsteroidField {
    const box: GameBox
    var teamIndex: int

    ghost predicate Valid()
      reads box`objects, box.objects`exhaustIndex, box.objects`shapes
    {
      box.Valid()
    }

    constructor ()
      ensures fresh(box) && box.objects == [] && !box.lastUpdateTimeValid
      ensures teamIndex == 0 && Valid()
    {
      box := new GameBox();
      teamIndex := 0;
    }

    /**
      populateField: a random number of asteroids in [minAsteroids,
      maxAsteroids], each of the configured size range and team, coloured
      between the two configured colours and placed anywhere in the window.
    */
    method PopulateField(config: FieldConfig, win: WinSize, rng: RandSource, m: Math)
        returns (ghost added: seq<GraphObj>)
      requires Valid() && rng.Valid()
      modifies box`objects, this`teamIndex, rng`pos
      ensures Valid()
      ensures teamIndex == config.teamIndex
      ensures box.objects == old(box.objects) + added
      ensures |added| == AsteroidCount(rng.draws(old(rng.pos)), config)
      ensures forall k :: 0 <= k < |added| ==> fresh(added[k])
      ensures Populated(added, config, win)
    {
      var numAsteroids := rng.RandInt(config.minAsteroids, config.maxAsteroids);
      added := AddAsteroids(numAsteroids, config, win, rng, m);
      teamIndex := config.teamIndex;
    }

    /** The loop of populateField: `count` new field asteroids, none when `count` is negative. */
    method AddAsteroids(count: int, config: FieldConfig, win: WinSize, rng: RandSource, m: Math)
        returns (ghost added: seq<GraphObj>)
      requires Valid() && rng.Valid()
      modifies box`objects, rng`pos
      ensures Valid()
      ensures box.objects == old(box.objects) + added
      ensures |added| == if count < 0 then 0 else count
      ensures forall k :: 0 <= k < |added| ==> fresh(added[k])
      ensures Populated(added, config, win)
    {
      added := [];
      var index := 0;
      assert Populated(added, config, win);
      hide Populated;
      while index < count
        invariant 0 <= index && |added| == index
        invariant count < 0 ==> index == 0
        invariant 0 <= count ==> index <= count
        invariant rng.Valid() && Valid()
        invariant box.objects == old(box.objects) + added
        invariant forall k :: 0 <= k < |added| ==> fresh(added[k])
        invariant Populated(added, config, win)
      {
        var asteroid := NewFieldAsteroid(config, win, rng, m);
        box.Add(asteroid);
        PopulatedGrow(added, asteroid, config, win);
        added := added + [asteroid];
        index := index + 1;
      }
    }

    /**
      disintegrateAround: every object of the field's team whose centre is
      in the disc disintegrates; nothing else is touched.
    */
    method DisintegrateAround(center: Vec, radius: real, win: WinSize)
      modifies box.objects`alive, box.objects`childrenAllowed
      ensures forall o :: o in box.objects ==>
                o.alive == (old(o.alive) && !Targeted(o, teamIndex, center, radius, win)) &&
                o.childrenAllowed ==
                  (old(o.childrenAllowed) && !(Targeted(o, teamIndex, center, radius, win) && o.kind == AsteroidKind))
    {
      var doubleRadius := radius * radius;
      var doubleWinSizeX := SquareU32(win.x) as real;
      var doubleWinSizeY := SquareU32(win.y) as real;
      for i := 0 to |box.objects|
        invariant forall o :: o in box.objects ==>
                    var hit := o in box.objects[..i] && Targeted(o, teamIndex, center, radius, win);
                    o.alive == (old(o.alive) && !hit) &&
                    o.childrenAllowed == (old(o.childrenAllowed) && !(hit && o.kind == AsteroidKind))
      {
        var obj := box.objects[i];
        assert box.objects[..i + 1] == box.objects[..i] + [obj];
        if obj.team != teamIndex {
          continue;
        }
        var inside := BlastTest(obj.center, center, radius, win, doubleRadius, doubleWinSizeX, doubleWinSizeY);
        if inside {
          obj.Disintegrate();
        }
      }
      assert box.objects[..|box.objects|] == box.objects;
    }

    /** getAsteroidTeamCount: how many objects play for the field's team. */
    method GetAsteroidTeamCount() returns (count: int)
      ensures count == TeamCount(box.objects, teamIndex)
    {
      count := 0;
      for i := 0 to |box.objects|
        invariant count == TeamCount(box.objects[..i], teamIndex)
      {
        assert box.objects[..i + 1][..i] == box.objects[..i];
        if box.objects[i].team == teamIndex {
          count := count + 1;
        }
      }
      assert box.objects[..|box.objects|] == box.objects;
    }
  }

  /** A place in the window for the draws `d`: randFloat(0, width), then randFloat(0, height). */
  function Spot(win: WinSize, d: seq<int>): (v: Vec)
    requires |d| == 2 && AllInRange(d)
    ensures 0.0 <= v.x <= win.x as real && 0.0 <= v.y <= win.y as real
  {
    Vec(RandFloatOf(d[0], 0.0, win.x as real), RandFloatOf(d[1], 0.0, win.y as real))
  }

  /** An orientation for the draw `r`: randFloat(0, 2 PI). */
  function Heading(r: int): (a: real)
    requires 0 <= r <= RandMax
    ensures 0.0 <= a <= 2.0 * PI
  {
    RandFloatOf(r, 0.0, 2.0 * PI)
  }

  /** The two draws of a random place in the window. */
  method DrawSpot(win: WinSize, rng: RandSource) returns (v: Vec)
    requires rng.Valid()
    modifies rng`pos
    ensures rng.pos == old(rng.pos) + 2
    ensures v == Spot(win, old(rng.Upcoming(2)))
  {
    var x := rng.RandFloat(0.0, win.x as real);
    var y := rng.RandFloat(0.0, win.y as real);
    v := Vec(x, y);
  }

  /** The draw of a random orientation. */
  method DrawHeading(rng: RandSource) returns (a: real)
    requires rng.Valid()
    modifies rng`pos
    ensures rng.pos == old(rng.pos) + 1
    ensures a == Heading(rng.draws(old(rng.pos)))
  {
    a := rng.RandFloat(0.0, 2.0 * PI);
  }

  /**
    The respawn: the ship comes back to life at a random place, the field's
    team is cleared from around it, it faces a random way at rest, and it
    goes back into the field.
  */
  method Respawn(ship: GraphObj, field: AsteroidField, win: WinSize, rng: RandSource)
    requires ship !in field.box.objects
    requires field.Valid() && ship.Valid() && rng.Valid()
    modifies ship`alive, ship`center, ship`velocity, ship`angle, ship`radialVelocity
    modifies field.box`objects, field.box.objects`alive, field.box.objects`childrenAllowed, rng`pos
    ensures field.Valid()
    ensures ship.alive && ship.velocity == Origin && ship.radialVelocity == 0.0
    ensures rng.pos == old(rng.pos) + 3
    ensures ship.center == Spot(win, old(rng.Upcoming(2)))
    ensures ship.angle == Heading(rng.draws(old(rng.pos) + 2))
    ensures field.box.objects == old(field.box.objects) + [ship]
    ensures forall o :: o in old(field.box.objects) ==>
              var hit := Targeted(o, field.teamIndex, ship.center, DisintegrationRadiusWinRatio * win.x as real, win);
              o.alive == (old(o.alive) && !hit) &&
              o.childrenAllowed == (old(o.childrenAllowed) && !(hit && o.kind == AsteroidKind))
  {
    Place(ship, win, rng);
    field.DisintegrateAround(ship.center, DisintegrationRadiusWinRatio * win.x as real, win);
    Settle(ship, rng);
    field.box.Add(ship);
  }

  /** The first half of a respawn: the ship revives and is set down at a random place. */
  method Place(ship: GraphObj, win: WinSize, rng: RandSource)
    requires rng.Valid()
    modifies ship`alive, ship`center, rng`pos
    ensures ship.alive && rng.pos == old(rng.pos) + 2
    ensures ship.center == Spot(win, old(rng.Upcoming(2)))
  {
    ship.Revive();
    ship.center := DrawSpot(win, rng);
  }

  /** The second half of a respawn: the ship comes to rest facing a random way. */
  method Settle(ship: GraphObj, rng: RandSource)
    requires rng.Valid()
    modifies ship`velocity, ship`angle, ship`radialVelocity, rng`pos
    ensures ship.velocity == Origin && ship.radialVelocity == 0.0
    ensures rng.pos == old(rng.pos) + 1
    ensures ship.angle == Heading(rng.draws(old(rng.pos)))
  {
    ship.velocity := Origin;
    ship.angle := DrawHeading(rng);
    ship.radialVelocity := 0.0;
  }

  /**
    Player: a ship that respawns. `clockStart` is when the respawn clock was
    last restarted; `respawnSeconds` comes from the player's configuration.
  */
  class Player {
    const respawnSeconds: real
    var respawning: bool
    var clockStart: real
    var ship: GraphObj?

    /** The constructor restarts the clock; a player starts out respawning, with no ship. */
    constructor (respawnSeconds: real, now: real)
      ensures this.respawnSeconds == respawnSeconds
      ensures respawning && clockStart == now && ship == null
    {
      this.respawnSeconds := respawnSeconds;
      respawning := true;
      clockStart := now;
      ship := null;
    }

    /** setShip */
    method SetShip(s: GraphObj?)
      modifies this`ship
      ensures ship == s
    {
      ship := s;
    }

    /** restart: take the ship out of the field, restart the clock and wait to respawn. */
    method Restart(field: AsteroidField, now: real)
      modifies field.box`objects, this`clockStart, this`respawning
      ensures field.box.objects == if ship == null then old(field.box.objects) else Without(old(field.box.objects), ship)
      ensures ship !in field.box.objects
      ensures clockStart == now && respawning
      ensures old(field.Valid()) ==> field.Valid()
    {
      field.box.Remove(ship);
      clockStart := now;
      respawning := true;
    }

    /** Whether a respawn is due: waiting to respawn, the ship out of the field and the time up. */
    ghost predicate Due(field: AsteroidField, now: real)
      reads this, field.box
    {
      respawning && ship !in field.box.objects && now - clockStart > respawnSeconds
    }

    /**
      update: hand the controls to the ship; then respawn it when due, or,
      when it is not waiting to respawn (or is still in the field) and has
      died, start waiting. Nothing happens without a field or a ship.
    */
    method Update(field: AsteroidField?, controls: Controls, now: real, win: WinSize, rng: RandSource)
      requires field != null ==> field.Valid()
      requires ship != null ==> ship.Valid()
      requires rng.Valid()
      modifies this`respawning, this`clockStart
      modifies Held(ship)`controls, Held(ship)`alive, Held(ship)`center
      modifies Held(ship)`velocity, Held(ship)`angle, Held(ship)`radialVelocity
      modifies (if field == null then {} else {field.box})`objects
      modifies (if field == null then [] else field.box.objects)`alive
      modifies (if field == null then [] else field.box.objects)`childrenAllowed
      modifies rng`pos
      ensures old(respawning) ==> respawning
      ensures field != null ==> field.Valid()
      ensures field == null || ship == null ==>
                respawning == old(respawning) && clockStart == old(clockStart) && rng.pos == old(rng.pos) &&
                (ship != null ==> unchanged(ship)) &&
                (field != null ==> field.box.objects == old(field.box.objects) && unchanged(field.box.objects))
      ensures field != null && ship != null ==> ship.controls == controls
      ensures field != null && ship != null && old(Due(field, now)) ==>
                respawning && clockStart == old(clockStart) &&
                ship.alive && ship.velocity == Origin && ship.radialVelocity == 0.0 && rng.pos == old(rng.pos) + 3 &&
                ship.center == Spot(win, old(rng.Upcoming(2))) && ship.angle == Heading(rng.draws(old(rng.pos) + 2)) &&
                field.box.objects == old(field.box.objects) + [ship] &&
                forall o :: o in old(field.box.objects) ==>
                  var hit := Targeted(o, field.teamIndex, ship.center, DisintegrationRadiusWinRatio * win.x as real, win);
                  o.alive == (old(o.alive) && !hit) &&
                  o.childrenAllowed == (old(o.childrenAllowed) && !(hit && o.kind == AsteroidKind))
      ensures field != null && ship != null && !old(Due(field, now)) ==>
                rng.pos == old(rng.pos) && field.box.objects == old(field.box.objects) &&
                (forall o :: o in field.box.objects ==>
                   o.alive == old(o.alive) && o.childrenAllowed == old(o.childrenAllowed)) &&
                ship.alive == old(ship.alive) && ship.center == old(ship.center) &&
                ship.velocity == old(ship.velocity) && ship.angle == old(ship.angle) &&
                ship.radialVelocity == old(ship.radialVelocity)
      ensures field != null && ship != null && !old(respawning && ship !in field.box.objects) ==>
                respawning == (old(respawning) || !ship.alive) &&
                clockStart == if ship.alive then old(clockStart) else now
      ensures field != null && ship != null && old(respawning && ship !in field.box.objects) && !old(Due(field, now)) ==>
                respawning && clockStart == old(clockStart)
    {
      if field != null && ship != null {
        Ships.UpdateControls(ship, controls);
        var present := field.box.IsPresent(ship);
        if respawning && !present {
          if now - clockStart > respawnSeconds {
            Respawn(ship, field, win, rng);
          }
        } else {
          if !ship.alive {
            respawning := true;
            clockStart := now;
          }
        }
      }
    }
  }
}
