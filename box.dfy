/**
  GameBox (GameBox.h, GameBox.cpp): the container of the live objects and
  the per-frame tick. A tick updates every live object in list order,
  removes the dead ones (exploding those that explode on death into
  fragments appended to the same list, which the same pass then visits),
  runs the pairwise collision pass, and finally appends what the updates
  spawned.
*/
module Box {
  import opened Geometry
  import opened Random
  import opened Objects
  import Fragments
  import Volatile
  import Ships

  /** The randInt of GameBox.cpp for the draw `r`: unlike GraphObj.h, the upper bound is exclusive. */
  function BoxRandIntOf(r: int, min: int, max: int): (v: int)
    requires 0 <= r
    ensures max <= min ==> v == min
    ensures min < max ==> min <= v < max
  {
    if max > min then r % (max - min) + min else min
  }

  /**
    The two randInt helpers differ by one at the top: the exclusive one of
    GameBox.cpp, given max + 1, is the inclusive one of GraphObj.h.
  */
  lemma {:induction false} BoxRandIntIsInclusiveOneUp(r: int, min: int, max: int)
    requires 0 <= r && min < max
    ensures BoxRandIntOf(r, min, max + 1) == RandIntOf(r, min, max)
    ensures BoxRandIntOf(r, min, max) != max
  {
  }

  /** Every value of the exclusive range is produced by some draw. */
  lemma {:induction false} BoxRandIntCovers(min: int, max: int, v: int)
    requires min < max && min <= v < max
    ensures BoxRandIntOf(v - min, min, max) == v
  {
    var n := max - min;
    assert 0 <= v - min < n;
    assert (v - min) % n == v - min;
  }

  /** randInt of GameBox.cpp: draws only when max > min. */
  method BoxRandInt(min: int, max: int, rng: RandSource) returns (v: int)
    requires rng.Valid()
    modifies rng`pos
    ensures rng.pos == old(rng.pos) + (if max > min then 1 else 0)
    ensures v == BoxRandIntOf(rng.draws(old(rng.pos)), min, max)
  {
    if max > min {
      var r := rng.Rand();
      v := r % (max - min) + min;
    } else {
      v := min;
    }
  }

  /** kMinExplosionFragments and kMaxExplosionFragments of GameBox.cpp. */
  const MinExplosionFragments: int := 15
  const MaxExplosionFragments: int := 30

  /** The throws of GameBox::explode: the Explosion ranges, and a spin that is never reversed. */
  predicate BoxThrow(t: Volatile.Throw)
  {
    Volatile.ThrowInRange(Volatile.Explosion, t) && 0.0 <= t.spin
  }

  /** A fragment of GameBox::explode of `obj`: built from `c`, an explosion configuration, and thrown from the object by `t`. */
  ghost predicate BoxEjected(obj: GraphObj, f: GraphObj, c: Fragments.Config, t: Volatile.Throw, m: Math)
    reads obj, f
  {
    Fragments.BuiltFrom(f, c) && Fragments.ExplosionConfig(c, true, obj.mainColor) &&
    BoxThrow(t) && Volatile.ThrownBy(f, t, obj.center, obj.velocity, m)
  }

  /** The rand() calls of one fragment of GameBox::explode built with `config`. */
  function BoxFragmentDraws(config: Fragments.Config): nat
  {
    3 + Volatile.ConfigDraws(FireAndFragments) + Fragments.SideDraws(config)
  }

  /**
    A fragment of GameBox::explode that starts drawing at `at`: its throw is
    the first three draws, its configuration the next ones, and the next
    fragment starts at `next`.
  */
  ghost predicate BoxDrawnInTurn(mainColor: Color, draws: nat -> int, at: nat, next: nat,
                                 config: Fragments.Config, t: Volatile.Throw)
  {
    next == at + BoxFragmentDraws(config) &&
    0 <= draws(at) <= RandMax && 0 <= draws(at + 1) <= RandMax && 0 <= draws(at + 2) <= RandMax &&
    t == Volatile.Throw(RandFloatOf(draws(at), 500.0, 1000.0), RandFloatOf(draws(at + 1), 0.0, 2.0 * PI * 6.0),
                        RandFloatOf(draws(at + 2), 0.0, 2.0 * PI)) &&
    Volatile.DrawnAt(FireAndFragments, mainColor, draws, at + 3, config)
  }

  /** The throw GameBox::explode draws for one fragment: a speed, a spin and a heading. */
  method DrawBoxThrow(rng: RandSource) returns (t: Volatile.Throw)
    requires rng.Valid()
    modifies rng`pos
    ensures rng.pos == old(rng.pos) + 3 && BoxThrow(t)
    ensures t == Volatile.Throw(RandFloatOf(rng.draws(old(rng.pos)), 500.0, 1000.0),
                                RandFloatOf(rng.draws(old(rng.pos) + 1), 0.0, 2.0 * PI * 6.0),
                                RandFloatOf(rng.draws(old(rng.pos) + 2), 0.0, 2.0 * PI))
  {
    var fragSpeed := rng.RandFloat(500.0, 1000.0);
    var fragRadialSpeed := rng.RandFloat(0.0, 2.0 * PI * 6.0);
    var angle := rng.RandFloat(0.0, 2.0 * PI);
    t := Volatile.Throw(fragSpeed, fragRadialSpeed, angle);
  }

  /** The placement of a fragment of GameBox::explode: at the exploding object, thrown by `t` on top of its velocity. */
  method PlaceThrown(f: GraphObj, ghost c: Fragments.Config, t: Volatile.Throw, center: Vec, velocity: Vec, m: Math)
    requires Fragments.BuiltFrom(f, c)
    modifies f`center, f`angle, f`radialVelocity, f`velocity
    ensures Fragments.BuiltFrom(f, c) && Volatile.ThrownBy(f, t, center, velocity, m)
  {
    f.center := center;
    f.angle := t.angle;
    f.radialVelocity := t.spin;
    f.velocity := Add(velocity, Scale(Direction(m, f.angle), t.speed));
  }

  /**
    One fragment of GameBox::explode: a speed, a spin and a heading, then
    the lifespan and the one-in-three draw for a body quad (whatever the
    object's explode style), then the size and the fragment itself, placed
    at the object and thrown from it.
  */
  method DrawFragment(obj: GraphObj, rng: RandSource, m: Math)
    returns (f: GraphObj, ghost config: Fragments.Config, ghost t: Volatile.Throw)
    requires rng.Valid()
    modifies rng`pos
    ensures fresh(f)
    ensures BoxEjected(obj, f, config, t, m)
    ensures BoxDrawnInTurn(obj.mainColor, rng.draws, old(rng.pos), rng.pos, config, t)
  {
    var throw := DrawBoxThrow(rng);
    var fragmentConfig := Volatile.DrawFragmentConfig(FireAndFragments, obj.mainColor, rng);
    f := Fragments.New(fragmentConfig, rng);
    PlaceThrown(f, fragmentConfig, throw, obj.center, obj.velocity, m);
    config, t := fragmentConfig, throw;
  }

  /** Which objects of `os` are alive: what a tick keeps of the objects it finds. */
  ghost function LiveFlags(os: seq<GraphObj>): (r: seq<bool>)
    reads set o: GraphObj | o in os
    ensures |r| == |os|
    ensures forall k :: 0 <= k < |os| ==> r[k] == os[k].alive
  {
    if os == [] then [] else LiveFlags(os[..|os| - 1]) + [os[|os| - 1].alive]
  }

  /** Which objects of `os` are dead and explode on death: what a tick explodes. */
  ghost function ExplodeFlags(os: seq<GraphObj>): (r: seq<bool>)
    reads set o: GraphObj | o in os
    ensures |r| == |os|
    ensures forall k :: 0 <= k < |os| ==> r[k] == (!os[k].alive && ExplodesOnDeath(os[k].kind))
  {
    if os == [] then []
    else
      var last := os[|os| - 1];
      ExplodeFlags(os[..|os| - 1]) + [!last.alive && ExplodesOnDeath(last.kind)]
  }

  /** The elements of `os` whose flag is set, in order. */
  function Keep<T(==)>(os: seq<T>, flags: seq<bool>): (r: seq<T>)
    requires |flags| == |os|
    ensures |r| <= |os|
    ensures forall x :: x in r ==> x in os
  {
    if os == [] then []
    else
      var n := |os| - 1;
      Keep(os[..n], flags[..n]) + (if flags[n] then [os[n]] else [])
  }

  /** Keeping one more position of the same list. */
  lemma KeepStep<T>(os: seq<T>, flags: seq<bool>, j: nat)
    requires |flags| == |os| && j < |os|
    ensures Keep(os[..j + 1], flags[..j + 1]) == Keep(os[..j], flags[..j]) + (if flags[j] then [os[j]] else [])
  {
    assert os[..j + 1][..j] == os[..j];
    assert flags[..j + 1][..j] == flags[..j];
  }

  /** An element is kept exactly when it stands at a flagged position. */
  lemma {:induction false} KeepMembers<T>(os: seq<T>, flags: seq<bool>, x: T)
    requires |flags| == |os|
    ensures x in Keep(os, flags) <==> exists k :: 0 <= k < |os| && os[k] == x && flags[k]
  {
    if os != [] {
      var n := |os| - 1;
      KeepMembers(os[..n], flags[..n], x);
      if x in Keep(os[..n], flags[..n]) {
        var k :| 0 <= k < n && os[..n][k] == x && flags[..n][k];
        assert os[k] == x && flags[k];
      }
      if exists k :: 0 <= k < |os| && os[k] == x && flags[k] {
        var k :| 0 <= k < |os| && os[k] == x && flags[k];
        if k < n {
          assert os[..n][k] == x && flags[..n][k];
        }
      }
    }
  }

  /** Keeping from a list without repeats gives a list without repeats. */
  lemma {:induction false} KeepDistinct<T>(os: seq<T>, flags: seq<bool>)
    requires |flags| == |os| && Distinct(os)
    ensures Distinct(Keep(os, flags))
  {
    if os != [] {
      var n := |os| - 1;
      KeepDistinct(os[..n], flags[..n]);
      assert os[n] !in os[..n];
    }
  }

  /** The groups, one after the other. */
  function Flatten<T>(groups: seq<seq<T>>): seq<T>
  {
    if groups == [] then [] else Flatten(groups[..|groups| - 1]) + groups[|groups| - 1]
  }

  lemma FlattenAppend<T>(groups: seq<seq<T>>, g: seq<T>)
    ensures Flatten(groups + [g]) == Flatten(groups) + g
  {
    assert (groups + [g])[..|groups|] == groups;
  }

  /** The facts about a candidate that the collision test reads, with the candidate itself. */
  datatype Body = Body(obj: GraphObj, center: Vec, radius: real, team: int)

  ghost function BodyOf(o: GraphObj): Body
    reads o`center, o`collisionRadius, o`team
  {
    Body(o, o.center, o.collisionRadius, o.team)
  }

  /**
    collidesWith between two live, collidable candidates in a field of
    `limits`: different teams and overlapping circles.
  */
  predicate Hits(a: Body, b: Body, limits: Limits): (r: bool)
    ensures a.team == b.team ==> !r
    ensures r ==> a.radius + b.radius != 0.0
    ensures a.center == b.center && a.team != b.team && a.radius + b.radius != 0.0 ==> r
  {
    var d := WrappedDelta(a.center, b.center, limits);
    Random.SquareSign(d.x);
    Random.SquareSign(d.y);
    Random.SquareSign(a.radius + b.radius);
    assert a.center == b.center ==> d.x * d.x + d.y * d.y == 0.0;
    Random.ZeroBelowSquare(d.x * d.x + d.y * d.y, a.radius + b.radius);
    a.team != b.team && d.x * d.x + d.y * d.y < (a.radius + b.radius) * (a.radius + b.radius)
  }

  /** Between live, collidable objects, collidesWith is exactly Hits. */
  lemma {:induction false} CollidesWithIsHits(a: GraphObj, b: GraphObj, context: UpdateContext)
    requires a.alive && a.CanCollide() && b.alive && b.CanCollide()
    ensures a.CollidesWith(b, context) <==> Hits(BodyOf(a), BodyOf(b), context.spaceLimits)
  {
  }

  /** The candidates of the collision pass: the live objects that can collide, in list order. */
  ghost function Candidates(os: seq<GraphObj>): (r: seq<Body>)
    reads set o: GraphObj | o in os
    ensures forall b :: b in r ==> b.obj in os && b.obj.alive && 0.0 < b.radius
  {
    if os == [] then []
    else
      var last := os[|os| - 1];
      Candidates(os[..|os| - 1]) + (if last.alive && last.CanCollide() then [BodyOf(last)] else [])
  }

  /** The sequence without position k. */
  function EraseAt<T>(s: seq<T>, k: nat): (r: seq<T>)
    requires k < |s|
    ensures |r| == |s| - 1
    ensures forall l :: 0 <= l < |r| ==> r[l] == s[if l < k then l else l + 1]
  {
    s[..k] + s[k + 1..]
  }

  /**
    The first position from `j` on, other than `i`, whose candidate candidate
    `i` collides with; |cs| when there is none.
  */
  function FirstHit(cs: seq<Body>, i: nat, j: nat, limits: Limits): (k: nat)
    requires i < |cs| && j <= |cs|
    ensures j <= k <= |cs|
    ensures k < |cs| ==> k != i && Hits(cs[i], cs[k], limits)
    ensures forall l :: j <= l < k && l != i ==> !Hits(cs[i], cs[l], limits)
    decreases |cs| - j
  {
    if j == |cs| then j
    else if j != i && Hits(cs[i], cs[j], limits) then j
    else FirstHit(cs, i, j + 1, limits)
  }

  /** Where the pass goes on after candidate i hit candidate k: the element that followed i. */
  function Next(i: nat, k: nat): nat
  {
    if k < i then i - 1 else i
  }

  /** The candidate list once the partner k, then i itself, are erased. */
  function Rest<T>(cs: seq<T>, i: nat, k: nat): (r: seq<T>)
    requires i < |cs| && k < |cs| && i != k
    ensures |r| == |cs| - 2
  {
    EraseAt(EraseAt(cs, k), Next(i, k))
  }

  /**
    The collisions the pass finds from position `i` of the candidate list
    on, in order. Candidate i is tested against every other remaining
    candidate from the front; on its first hit, the partner and then i
    itself are erased from the list and the pass goes on at the element
    that followed i; otherwise it moves to the next candidate.
  */
  function Resolve(cs: seq<Body>, i: nat, limits: Limits): (pairs: seq<(Body, Body)>)
    ensures 2 * |pairs| <= |cs|
    decreases |cs| - i
  {
    if i >= |cs| then []
    else
      var k := FirstHit(cs, i, 0, limits);
      if k == |cs| then Resolve(cs, i + 1, limits)
      else [(cs[i], cs[k])] + Resolve(Rest(cs, i, k), Next(i, k), limits)
  }

  /** The candidates of the pairs, pair by pair. */
  function Partners(pairs: seq<(Body, Body)>): (r: seq<Body>)
    ensures |r| == 2 * |pairs|
  {
    if pairs == [] then [] else [pairs[0].0, pairs[0].1] + Partners(pairs[1..])
  }

  lemma PartnersCons(p: (Body, Body), pairs: seq<(Body, Body)>)
    ensures Partners([p] + pairs) == [p.0, p.1] + Partners(pairs)
  {
    assert ([p] + pairs)[1..] == pairs;
  }

  /** The objects the pass kills. */
  function Killed(pairs: seq<(Body, Body)>): set<GraphObj>
  {
    set b | b in Partners(pairs) :: b.obj
  }

  /** Erasing a position of a list without repeats leaves exactly the other elements, still without repeats. */
  lemma {:induction false} EraseAtKeepsOthers<T>(s: seq<T>, k: nat)
    requires Distinct(s) && k < |s|
    ensures Distinct(EraseAt(s, k))
    ensures forall b :: b in EraseAt(s, k) <==> b in s && b != s[k]
  {
    var r := EraseAt(s, k);
    forall p, q | 0 <= p < q < |r| ensures r[p] != r[q] {
      assert r[p] == s[if p < k then p else p + 1];
      assert r[q] == s[if q < k then q else q + 1];
    }
    forall b | b in r ensures b in s && b != s[k] {
      var rb :| 0 <= rb < |r| && r[rb] == b;
      assert r[rb] == s[if rb < k then rb else rb + 1];
    }
    forall b | b in s && b != s[k] ensures b in r {
      var pb :| 0 <= pb < |s| && s[pb] == b;
      assert r[if pb < k then pb else pb - 1] == b;
    }
  }

  /** What is left after a collision is the list without the two partners, still without repeats. */
  lemma {:induction false} RestIsTheOthers(cs: seq<Body>, i: nat, k: nat)
    requires Distinct(cs) && i < |cs| && k < |cs| && i != k
    ensures Distinct(Rest(cs, i, k))
    ensures forall b :: b in Rest(cs, i, k) <==> b in cs && b != cs[i] && b != cs[k]
  {
    var once := EraseAt(cs, k);
    assert once[Next(i, k)] == cs[i];
    EraseAtKeepsOthers(cs, k);
    EraseAtKeepsOthers(once, Next(i, k));
  }

  /** The front of what is left, before where the pass goes on, comes from the front of the list before i. */
  lemma {:induction false} RestFront(cs: seq<Body>, i: nat, k: nat, p: nat)
    requires i < |cs| && k < |cs| && i != k && p < Next(i, k)
    ensures p < |Rest(cs, i, k)|
    ensures var pp := if p < k then p else p + 1; pp < i && Rest(cs, i, k)[p] == cs[pp]
  {
    assert EraseAt(cs, k)[p] == cs[if p < k then p else p + 1];
  }

  /** Every pair the pass finds collides: different teams, overlapping circles, both from the list. */
  lemma {:induction false} ResolvedPairsCollide(cs: seq<Body>, i: nat, limits: Limits)
    ensures forall p :: p in Resolve(cs, i, limits) ==>
              p.0 in cs && p.1 in cs && Hits(p.0, p.1, limits) && p.0.team != p.1.team
    decreases |cs| - i
  {
    if i < |cs| {
      var k := FirstHit(cs, i, 0, limits);
      if k == |cs| {
        ResolvedPairsCollide(cs, i + 1, limits);
      } else {
        var rest := Rest(cs, i, k);
        ResolvedPairsCollide(rest, Next(i, k), limits);
        forall b | b in rest ensures b in cs {
          var rb :| 0 <= rb < |rest| && rest[rb] == b;
          var ob := if rb < Next(i, k) then rb else rb + 1;
          assert rest[rb] == EraseAt(cs, k)[ob];
        }
      }
    }
  }

  /**
    On a list without repeated candidates, no candidate takes part in two
    collisions, and the two partners of a collision are different: the pass
    kills exactly twice as many objects as it finds collisions.
  */
  lemma {:induction false} ResolvedPartnersDistinct(cs: seq<Body>, i: nat, limits: Limits)
    requires Distinct(cs)
    ensures Distinct(Partners(Resolve(cs, i, limits)))
    ensures forall b :: b in Partners(Resolve(cs, i, limits)) ==> b in cs
    decreases |cs| - i
  {
    if i < |cs| {
      var k := FirstHit(cs, i, 0, limits);
      if k == |cs| {
        ResolvedPartnersDistinct(cs, i + 1, limits);
      } else {
        var rest := Rest(cs, i, k);
        RestIsTheOthers(cs, i, k);
        ResolvedPartnersDistinct(rest, Next(i, k), limits);
        var tail := Partners(Resolve(rest, Next(i, k), limits));
        PartnersCons((cs[i], cs[k]), Resolve(rest, Next(i, k), limits));
        var all := [cs[i], cs[k]] + tail;
        assert Partners(Resolve(cs, i, limits)) == all;
        forall p, q | 0 <= p < q < |all| ensures all[p] != all[q] {
          if p >= 2 {
            assert all[p] == tail[p - 2] && all[q] == tail[q - 2];
          } else if q >= 2 {
            assert all[q] == tail[q - 2] && all[q] in tail;
          }
        }
      }
    }
  }

  /**
    The pass is maximal: once it is over, no two candidates that are left
    alive collide, in either order. (The `i` candidates at the front have
    already been tested against the whole list.)
  */
  lemma {:induction false} NoCollisionLeftUnresolved(cs: seq<Body>, i: nat, limits: Limits)
    requires Distinct(cs) && i <= |cs|
    requires forall p, b :: 0 <= p < i && b in cs && b != cs[p] ==> !Hits(cs[p], b, limits)
    ensures forall a, b ::
              (a in cs && b in cs && a != b &&
               a !in Partners(Resolve(cs, i, limits)) && b !in Partners(Resolve(cs, i, limits))) ==>
              !Hits(a, b, limits)
    decreases |cs| - i
  {
    if i == |cs| {
      forall a, b | a in cs && b in cs && a != b ensures !Hits(a, b, limits) {
        var pa :| 0 <= pa < |cs| && cs[pa] == a;
      }
    } else {
      var k := FirstHit(cs, i, 0, limits);
      if k == |cs| {
        forall p, b | 0 <= p < i + 1 && b in cs && b != cs[p] ensures !Hits(cs[p], b, limits) {
          if p == i {
            var pb :| 0 <= pb < |cs| && cs[pb] == b;
          }
        }
        NoCollisionLeftUnresolved(cs, i + 1, limits);
      } else {
        var rest := Rest(cs, i, k);
        RestIsTheOthers(cs, i, k);
        forall p, b | 0 <= p < Next(i, k) && b in rest && b != rest[p] ensures !Hits(rest[p], b, limits) {
          RestFront(cs, i, k, p);
        }
        NoCollisionLeftUnresolved(rest, Next(i, k), limits);
        PartnersCons((cs[i], cs[k]), Resolve(rest, Next(i, k), limits));
      }
    }
  }

  /** A collision found at the end of the pass adds its two partners at the end. */
  lemma {:induction false} PartnersAppend(pairs: seq<(Body, Body)>, p: (Body, Body))
    ensures Partners(pairs + [p]) == Partners(pairs) + [p.0, p.1]
    decreases |pairs|
  {
    if pairs == [] {
      assert Partners([p]) == [p.0, p.1] + Partners([]);
    } else {
      assert (pairs + [p])[1..] == pairs[1..] + [p];
      PartnersAppend(pairs[1..], p);
    }
  }

  /** One more collision kills its two partners as well. */
  lemma KilledAppend(pairs: seq<(Body, Body)>, p: (Body, Body))
    ensures Killed(pairs + [p]) == Killed(pairs) + {p.0.obj, p.1.obj}
  {
    PartnersAppend(pairs, p);
  }

  /** The candidates as the pass holds them: collidable, and described by their bodies. */
  ghost predicate Lined(cands: seq<GraphObj>, cs: seq<Body>)
    reads cands`center, cands`collisionRadius, cands`team
  {
    |cands| == |cs| &&
    forall p :: 0 <= p < |cs| ==> cs[p] == BodyOf(cands[p]) && cands[p].CanCollide()
  }

  /** Where element p of Rest(s, i, k) was in s. */
  function RestIndex(i: nat, k: nat, p: nat): nat
  {
    var l := if p < Next(i, k) then p else p + 1;
    if l < k then l else l + 1
  }

  /** Element p of Rest(s, i, k) is the element of s at RestIndex, which is neither i nor k. */
  lemma RestAt<T>(s: seq<T>, i: nat, k: nat, p: nat)
    requires i < |s| && k < |s| && i != k && p < |s| - 2
    ensures RestIndex(i, k, p) < |s| && RestIndex(i, k, p) != i && RestIndex(i, k, p) != k
    ensures Rest(s, i, k)[p] == s[RestIndex(i, k, p)]
  {
    var once := EraseAt(s, k);
    var l := if p < Next(i, k) then p else p + 1;
    assert Rest(s, i, k)[p] == once[l];
  }

  /**
    After a collision the candidates left are still lined up with their
    bodies, and neither partner is among them.
  */
  lemma {:induction false} LinedRest(cands: seq<GraphObj>, cs: seq<Body>, i: nat, k: nat)
    requires Lined(cands, cs) && Distinct(cs) && i < |cs| && k < |cs| && i != k
    ensures Lined(Rest(cands, i, k), Rest(cs, i, k)) && Distinct(Rest(cs, i, k))
    ensures forall c :: c in Rest(cands, i, k) ==> c in cands && c != cands[i] && c != cands[k]
  {
    var rc, rs := Rest(cands, i, k), Rest(cs, i, k);
    RestIsTheOthers(cs, i, k);
    forall p | 0 <= p < |rs|
      ensures rs[p] == BodyOf(rc[p]) && rc[p].CanCollide() && rc[p] != cands[i] && rc[p] != cands[k]
    {
      RestAt(cands, i, k, p);
      RestAt(cs, i, k, p);
      var q := RestIndex(i, k, p);
      assert cs[q] != cs[i] && cs[q] != cs[k];
    }
    forall c | c in rc ensures c in cands && c != cands[i] && c != cands[k] {
      var p :| 0 <= p < |rc| && rc[p] == c;
      RestAt(cands, i, k, p);
    }
  }

  /**
    Where the collision pass stands on the candidate list `cs0`: the
    collisions found so far, followed by those found from position i of
    the candidates left, are all those of the pass.
  */
  ghost predicate Tally(cs: seq<Body>, i: nat, pairs: seq<(Body, Body)>, cs0: seq<Body>, limits: Limits)
  {
    Distinct(cs) && i <= |cs| && pairs + Resolve(cs, i, limits) == Resolve(cs0, 0, limits)
  }

  /** A round of the pass keeps the tally: a collision adds its pair and leaves the rest; a miss moves on. */
  lemma TallyStep(cs: seq<Body>, i: nat, pairs: seq<(Body, Body)>, cs0: seq<Body>, limits: Limits, k: nat)
    requires Tally(cs, i, pairs, cs0, limits) && i < |cs| && k == FirstHit(cs, i, 0, limits)
    ensures k == |cs| ==> Tally(cs, i + 1, pairs, cs0, limits)
    ensures k < |cs| ==> Tally(Rest(cs, i, k), Next(i, k), pairs + [(cs[i], cs[k])], cs0, limits)
  {
    if k < |cs| {
      RestIsTheOthers(cs, i, k);
      assert (pairs + [(cs[i], cs[k])]) + Resolve(Rest(cs, i, k), Next(i, k), limits) ==
             pairs + ([(cs[i], cs[k])] + Resolve(Rest(cs, i, k), Next(i, k), limits));
    }
  }

  /** The objects alive are those alive at the start of the pass that no collision found so far has killed. */
  ghost predicate Reaped(objects: seq<GraphObj>, alive0: set<GraphObj>, pairs: seq<(Body, Body)>)
    reads objects`alive
  {
    forall o :: o in objects ==> (o.alive <==> o in alive0 && o !in Killed(pairs))
  }

  /** Every live, collidable object is a candidate that no collision found so far has taken as a partner. */
  ghost predicate Spared(objects: seq<GraphObj>, cs0: seq<Body>, pairs: seq<(Body, Body)>)
    reads objects`alive, objects`center, objects`collisionRadius, objects`team
  {
    forall o :: o in objects && o.alive && o.CanCollide() ==> BodyOf(o) in cs0 && BodyOf(o) !in Partners(pairs)
  }

  /** onCollision on both partners of a collision: both die, and the pass's record of the dead grows by them. */
  method KillPair(objects: seq<GraphObj>, oi: GraphObj, oj: GraphObj, ghost cs0: seq<Body>, ghost alive0: set<GraphObj>,
                  ghost pairs: seq<(Body, Body)>, ghost p: (Body, Body))
    requires oi in objects && oj in objects && p == (BodyOf(oi), BodyOf(oj))
    requires Reaped(objects, alive0, pairs) && Spared(objects, cs0, pairs)
    modifies oi`alive, oj`alive
    ensures !oi.alive && !oj.alive
    ensures Reaped(objects, alive0, pairs + [p]) && Spared(objects, cs0, pairs + [p])
  {
    KilledAppend(pairs, p);
    PartnersAppend(pairs, p);
    oi.Kill();
    oj.Kill();
    forall o | o in objects ensures o.alive <==> o in alive0 && o !in Killed(pairs + [p]) {
      if o != oi && o != oj {
        assert o.alive == old(o.alive);
      }
    }
    forall o | o in objects && o.alive && o.CanCollide()
      ensures BodyOf(o) in cs0 && BodyOf(o) !in Partners(pairs + [p])
    {
      assert o != oi && o != oj && BodyOf(o) == old(BodyOf(o));
    }
  }

  /** No two live, collidable objects of `os` collide. */
  ghost predicate Calm(os: seq<GraphObj>, limits: Limits)
    reads os`alive, os`center, os`collisionRadius, os`team
  {
    forall a, b :: a in os && b in os && a != b && a.alive && b.alive && a.CanCollide() && b.CanCollide() ==>
      !Hits(BodyOf(a), BodyOf(b), limits)
  }

  /**
    The collisions `pairs` among the objects `os`: each pair collides and
    both of its partners are objects of `os`, no object is a partner
    twice, and every partner is dead.
  */
  ghost predicate Struck(pairs: seq<(Body, Body)>, os: seq<GraphObj>, limits: Limits)
    reads os`alive
  {
    (forall p :: p in pairs ==> Hits(p.0, p.1, limits) && p.0.obj in os && p.1.obj in os) &&
    Distinct(Partners(pairs)) && forall o :: o in os && o in Killed(pairs) ==> !o.alive
  }

  /** Once the pass is over, no two live, collidable objects of the list collide. */
  lemma Settled(objects: seq<GraphObj>, cs0: seq<Body>, pairs: seq<(Body, Body)>, limits: Limits)
    requires Spared(objects, cs0, pairs) && Distinct(cs0) && pairs == Resolve(cs0, 0, limits)
    ensures Calm(objects, limits)
  {
    NoCollisionLeftUnresolved(cs0, 0, limits);
  }

  /** The candidate list after the first n objects of the list, with what the pass needs of it. */
  ghost predicate Gathered(os: seq<GraphObj>, n: nat, cands: seq<GraphObj>, cs: seq<Body>)
    reads (set o: GraphObj | o in os), (set o: GraphObj | o in cands)
  {
    n <= |os| && cs == Candidates(os[..n]) && Lined(cands, cs) && Distinct(cs) && (forall c :: c in cands ==> c.alive) &&
    forall o :: o in os[..n] && o.alive && o.CanCollide() ==> BodyOf(o) in cs
  }

  /** One more object of the list joins the candidates exactly when it is alive and can collide. */
  lemma GatherStep(os: seq<GraphObj>, n: nat, cands: seq<GraphObj>, cs: seq<Body>)
    requires Distinct(os) && n < |os| && Gathered(os, n, cands, cs)
    ensures os[n].alive && os[n].CanCollide() ==> Gathered(os, n + 1, cands + [os[n]], cs + [BodyOf(os[n])])
    ensures !(os[n].alive && os[n].CanCollide()) ==> Gathered(os, n + 1, cands, cs)
  {
    var obj := os[n];
    assert os[..n + 1][..n] == os[..n] && os[..n + 1] == os[..n] + [obj];
    if obj.alive && obj.CanCollide() {
      DistinctJoin(cs, [BodyOf(obj)]);
    }
  }

  /**
    The collisions of the pass over the candidates `cs`: each pair collides
    and both of its partners come from the candidates, and no candidate is
    a partner twice.
  */
  lemma Collided(cs: seq<Body>, pairs: seq<(Body, Body)>, limits: Limits)
    requires Distinct(cs) && pairs == Resolve(cs, 0, limits)
    ensures forall p :: p in pairs ==> Hits(p.0, p.1, limits) && p.0 in cs && p.1 in cs
    ensures Distinct(Partners(pairs)) && forall b :: b in Partners(pairs) ==> b in cs
  {
    ResolvedPairsCollide(cs, 0, limits);
    ResolvedPartnersDistinct(cs, 0, limits);
  }

  /**
    The inner loop of checkForCollisions: the first candidate from the
    front, other than candidate i itself, that candidate i collides with;
    |cands| when there is none.
  */
  method FindPartner(cands: seq<GraphObj>, i: nat, context: UpdateContext, ghost cs: seq<Body>) returns (k: nat)
    requires Lined(cands, cs) && i < |cands| && forall c :: c in cands ==> c.alive
    ensures k == FirstHit(cs, i, 0, context.spaceLimits)
  {
    k := 0;
    while k < |cands|
      invariant k <= |cands|
      invariant FirstHit(cs, i, k, context.spaceLimits) == FirstHit(cs, i, 0, context.spaceLimits)
    {
      if i != k {
        var oi, oj := cands[i], cands[k];
        CollidesWithIsHits(oi, oj, context);
        if oi.CollidesWith(oj, context) {
          return;
        }
      }
      k := k + 1;
    }
  }

  /**
    Where the walk of a tick stands, in ghost terms: it has passed the first
    `j` of the objects it found; `done` are the fragments it has already
    visited and `tail` those still ahead; `groups` are the fragment groups in
    the order of the explosions that made them and `exploded` the objects
    that exploded; `visited` are the objects it has updated, in order.
  */
  datatype Walk = Walk(j: nat, done: seq<GraphObj>, tail: seq<GraphObj>, groups: seq<seq<GraphObj>>,
                       exploded: seq<GraphObj>, visited: seq<GraphObj>)

  /**
    The list during the walk over the objects `O` found at the start, whose
    liveness flags were `live`: the kept objects already passed, the found
    objects still ahead, then the fragments; `i` is the position of the
    next object to visit, and everything before it has been updated once, in
    order. Fragments are only visited once every found object has been.
  */
  ghost predicate Laid(objects: seq<GraphObj>, i: nat, O: seq<GraphObj>, live: seq<bool>, w: Walk)
  {
    |live| == |O| && w.j <= |O| && (w.j < |O| ==> w.done == []) &&
    objects == Keep(O[..w.j], live[..w.j]) + O[w.j..] + w.done + w.tail &&
    i == |Keep(O[..w.j], live[..w.j])| + |w.done| &&
    w.visited == Keep(O[..w.j], live[..w.j]) + w.done
  }

  /**
    The explosions so far, over the found objects whose explode-on-death
    flags were `boom`: one group of fragments per exploded object, of the
    size GameBox::explode draws, and the fragments are the groups in order.
  */
  ghost predicate Grouped(O: seq<GraphObj>, boom: seq<bool>, w: Walk)
  {
    |boom| == |O| && w.j <= |O| &&
    w.done + w.tail == Flatten(w.groups) &&
    w.exploded == Keep(O[..w.j], boom[..w.j]) && |w.groups| == |w.exploded| &&
    (forall g :: 0 <= g < |w.groups| ==> MinExplosionFragments <= |w.groups[g]| < MaxExplosionFragments)
  }

  /**
    What never changes during the walk: the found objects do not repeat, the
    fragments are not among them, and an object explodes exactly when it
    was found dead and explodes on death.
  */
  ghost predicate Apart(O: seq<GraphObj>, live: seq<bool>, boom: seq<bool>, w: Walk)
  {
    |live| == |O| && |boom| == |O| && Distinct(O) &&
    (forall f :: f in w.done + w.tail ==> f !in O && f.kind == FragmentKind) &&
    (forall k {:trigger boom[k]} :: 0 <= k < |O| ==> boom[k] == (!live[k] && ExplodesOnDeath(O[k].kind)))
  }

  /** `n` times true. */
  function Trues(n: nat): (r: seq<bool>)
    ensures |r| == n && forall k :: 0 <= k < n ==> r[k]
  {
    seq(n, _ => true)
  }

  /**
    Whether each object still ahead of the walk is expected alive: the found
    objects as they were found, the fragments all alive.
  */
  function AheadFlags(live: seq<bool>, w: Walk): (r: seq<bool>)
    requires w.j <= |live|
    ensures |r| == |live| - w.j + |w.tail|
  {
    live[w.j..] + Trues(|w.tail|)
  }

  /** The walk after the live object at its position is updated and kept. */
  function Passing(w: Walk, O: seq<GraphObj>): Walk
    requires w.j < |O| || w.tail != []
  {
    if w.j < |O| then w.(j := w.j + 1, visited := w.visited + [O[w.j]])
    else w.(done := w.done + [w.tail[0]], tail := w.tail[1..], visited := w.visited + [w.tail[0]])
  }

  /** The walk after the dead object `obj` is erased, with the fragments of its explosion when it explodes. */
  function Erasing(w: Walk, obj: GraphObj, explodes: bool, frags: seq<GraphObj>): Walk
  {
    if explodes then
      w.(j := w.j + 1, tail := w.tail + frags, groups := w.groups + [frags], exploded := w.exploded + [obj])
    else w.(j := w.j + 1)
  }

  /** The objects of `os` from position `i` on are alive exactly where `flags` says. */
  ghost predicate AliveAsFlagged(os: seq<GraphObj>, i: nat, flags: seq<bool>)
    reads set o: GraphObj | o in os
  {
    i + |flags| == |os| &&
    forall k {:trigger os[k]} :: i <= k < |os| ==> os[k].alive == flags[k - i]
  }

  /** The expectation for the object at position `i` is whether it is alive, and those for the ones after it follow. */
  lemma AliveAt(os: seq<GraphObj>, i: nat, flags: seq<bool>)
    requires AliveAsFlagged(os, i, flags) && i < |os|
    ensures os[i].alive == flags[0] && AliveAsFlagged(os, i + 1, flags[1..])
  {
  }

  /**
    Erasing the object at position `i`, after live fragments were appended,
    leaves the objects after it in its place and the fragments at the end,
    alive.
  */
  lemma ErasedAlive(os: seq<GraphObj>, i: nat, flags: seq<bool>, frags: seq<GraphObj>)
    requires i < |os| && AliveAsFlagged(os, i + 1, flags) && forall f :: f in frags ==> f.alive
    ensures AliveAsFlagged(EraseAt(os + frags, i), i, flags + Trues(|frags|))
  {
    var r := EraseAt(os + frags, i);
    forall k | i <= k < |r| ensures r[k].alive == (flags + Trues(|frags|))[k - i] {
      assert r[k] == (os + frags)[k + 1];
      if k + 1 >= |os| {
        assert r[k] in frags;
      }
    }
  }

  /** The object at the walk's position: the next found object, or the first fragment ahead once they are all passed. */
  lemma Target(objects: seq<GraphObj>, i: nat, O: seq<GraphObj>, live: seq<bool>, w: Walk)
    requires Laid(objects, i, O, live, w) && i < |objects|
    ensures |objects| - i == |AheadFlags(live, w)|
    ensures w.j < |O| ==> objects[i] == O[w.j] && AheadFlags(live, w)[0] == live[w.j]
    ensures w.j == |O| ==> w.tail != [] && objects[i] == w.tail[0] && AheadFlags(live, w)[0]
  {
    if w.j < |O| {
      assert O[w.j..][0] == O[w.j];
    }
  }

  /** The fragments of the walk, visited or ahead, are distinct when the list is. */
  lemma FragmentsDistinct(objects: seq<GraphObj>, i: nat, O: seq<GraphObj>, live: seq<bool>, w: Walk)
    requires Laid(objects, i, O, live, w) && Distinct(objects)
    ensures Distinct(w.done + w.tail)
  {
    var F := w.done + w.tail;
    var p := |objects| - |F|;
    assert forall k :: 0 <= k < |F| ==> F[k] == objects[p + k];
  }

  /** Keeping a live found object moves the walk one object on. */
  lemma KeptFound(objects: seq<GraphObj>, i: nat, O: seq<GraphObj>, live: seq<bool>, boom: seq<bool>, w: Walk)
    requires Laid(objects, i, O, live, w) && Grouped(O, boom, w) && w.j < |O| && live[w.j] && !boom[w.j]
    ensures Laid(objects, i + 1, O, live, Passing(w, O)) && Grouped(O, boom, Passing(w, O))
  {
    assert O[w.j..] == [O[w.j]] + O[w.j + 1..];
    KeepStep(O, live, w.j);
    KeepStep(O, boom, w.j);
  }

  /** Keeping a live fragment moves it from ahead of the walk to behind it. */
  lemma KeptFragment(objects: seq<GraphObj>, i: nat, O: seq<GraphObj>, live: seq<bool>, boom: seq<bool>, w: Walk)
    requires Laid(objects, i, O, live, w) && Grouped(O, boom, w) && w.j == |O| && w.tail != []
    ensures Laid(objects, i + 1, O, live, Passing(w, O)) && Grouped(O, boom, Passing(w, O))
    ensures Passing(w, O).done + Passing(w, O).tail == w.done + w.tail
  {
    assert w.tail == [w.tail[0]] + w.tail[1..];
  }

  /**
    Keeping the live object at the walk's position, whichever kind it is:
    it is the one now visited, and the expectations for the objects ahead
    move on by one.
  */
  lemma Kept(objects: seq<GraphObj>, i: nat, O: seq<GraphObj>, live: seq<bool>, boom: seq<bool>, w: Walk)
    requires Laid(objects, i, O, live, w) && Grouped(O, boom, w) && Apart(O, live, boom, w)
    requires i < |objects| && AheadFlags(live, w)[0]
    ensures w.j < |O| || w.tail != []
    ensures var w' := Passing(w, O);
            Laid(objects, i + 1, O, live, w') && Grouped(O, boom, w') && Apart(O, live, boom, w') &&
            w'.visited == w.visited + [objects[i]] &&
            AheadFlags(live, w') == AheadFlags(live, w)[1..] &&
            (w'.j > w.j || (w'.j == w.j && w'.done + w'.tail == w.done + w.tail))
  {
    Target(objects, i, O, live, w);
    var w' := Passing(w, O);
    if w.j < |O| {
      KeptFound(objects, i, O, live, boom, w);
      assert live[w.j..] == [live[w.j]] + live[w.j + 1..];
    } else {
      KeptFragment(objects, i, O, live, boom, w);
    }
  }

  /** The dead object at the walk's position is a found object that was found dead. */
  lemma DeadFound(objects: seq<GraphObj>, i: nat, O: seq<GraphObj>, live: seq<bool>, w: Walk)
    requires Laid(objects, i, O, live, w) && i < |objects| && !AheadFlags(live, w)[0]
    ensures w.j < |O| && objects[i] == O[w.j] && !live[w.j] && w.done == []
  {
    Target(objects, i, O, live, w);
  }

  /** Taking the element at position |a| out of a + [x] + b leaves a + b. */
  lemma EraseMiddle<T>(a: seq<T>, x: T, b: seq<T>)
    ensures EraseAt(a + [x] + b, |a|) == a + b
  {
    var s := a + [x] + b;
    assert s[..|a|] == a;
    assert s[|a| + 1..] == b;
  }

  /**
    Erasing a dead found object, after its explosion (if it explodes on
    death) appended its fragments, leaves the walk at the same position.
  */
  lemma ErasedLaid(objects: seq<GraphObj>, i: nat, O: seq<GraphObj>, live: seq<bool>, w: Walk,
                   explodes: bool, frags: seq<GraphObj>)
    requires Laid(objects, i, O, live, w) && w.j < |O| && !live[w.j] && (!explodes ==> frags == [])
    ensures i < |objects + frags|
    ensures Laid(EraseAt(objects + frags, i), i, O, live, Erasing(w, O[w.j], explodes, frags))
  {
    var K := Keep(O[..w.j], live[..w.j]);
    var w' := Erasing(w, O[w.j], explodes, frags);
    assert w'.j == w.j + 1 && w'.done == [] && w'.tail == w.tail + frags && w'.visited == w.visited by {
      assert w.tail + [] == w.tail;
    }
    KeepStep(O, live, w.j);
    assert Keep(O[..w'.j], live[..w'.j]) == K by {
      assert K + [] == K;
    }
    assert O[w.j..][1..] == O[w'.j..];
    EraseFront(K, O[w.j..], w.done, w.tail, frags);
  }

  /** Erasing the front of the second part of a list made of five parts. */
  lemma EraseFront<T>(a: seq<T>, s: seq<T>, b: seq<T>, c: seq<T>, d: seq<T>)
    requires s != []
    ensures EraseAt(a + s + b + c + d, |a|) == a + s[1..] + b + (c + d)
  {
    assert a + s + b + c + d == a + [s[0]] + (s[1..] + b + c + d);
    EraseMiddle(a, s[0], s[1..] + b + c + d);
  }

  /** The same step, for the explosions: the object's group is added when it explodes. */
  lemma ErasedGrouped(O: seq<GraphObj>, boom: seq<bool>, w: Walk, frags: seq<GraphObj>)
    requires Grouped(O, boom, w) && w.j < |O| && w.done == []
    requires boom[w.j] ==> MinExplosionFragments <= |frags| < MaxExplosionFragments
    requires !boom[w.j] ==> frags == []
    ensures Grouped(O, boom, Erasing(w, O[w.j], boom[w.j], frags))
  {
    KeepStep(O, boom, w.j);
    if boom[w.j] {
      FlattenAppend(w.groups, frags);
    } else {
      assert w.tail + frags == w.tail;
    }
  }

  /** The same step, for what never changes, and for what is expected of the objects ahead. */
  lemma ErasedApart(O: seq<GraphObj>, live: seq<bool>, boom: seq<bool>, w: Walk, explodes: bool, frags: seq<GraphObj>)
    requires Apart(O, live, boom, w) && w.j < |O| && (!explodes ==> frags == [])
    requires forall f :: f in frags ==> f !in O && f.kind == FragmentKind
    ensures var w' := Erasing(w, O[w.j], explodes, frags);
            Apart(O, live, boom, w') && AheadFlags(live, w') == AheadFlags(live, w)[1..] + Trues(|frags|)
  {
    var w' := Erasing(w, O[w.j], explodes, frags);
    assert w'.done + w'.tail == w.done + w.tail + frags;
    assert live[w.j..] == [live[w.j]] + live[w.j + 1..];
    assert Trues(|w.tail|) + Trues(|frags|) == Trues(|w.tail| + |frags|);
  }

  /** At the end of the walk every found object is passed and every fragment visited. */
  lemma Finished(objects: seq<GraphObj>, i: nat, O: seq<GraphObj>, live: seq<bool>, boom: seq<bool>, w: Walk)
    requires Laid(objects, i, O, live, w) && Grouped(O, boom, w) && |objects| <= i
    ensures w.j == |O| && w.tail == [] && w.done == Flatten(w.groups)
    ensures objects == Keep(O, live) + w.done && w.exploded == Keep(O, boom) && w.visited == objects
  {
    assert O[..|O|] == O && live[..|O|] == live && boom[..|O|] == boom;
    assert w.done + [] == w.done;
  }

  /** What the update of one object reads and changes, as it was before the update. */
  datatype Snapshot = Snapshot(center: Vec, angle: real, velocity: Vec, radialVelocity: real,
                               alive: bool, remainingLife: real, fireWaitTime: real)

  ghost function SnapshotOf(o: GraphObj): Snapshot
    reads o`center, o`angle, o`velocity, o`radialVelocity, o`alive, o`remainingLife, o`fireWaitTime
  {
    Snapshot(o.center, o.angle, o.velocity, o.radialVelocity, o.alive, o.remainingLife, o.fireWaitTime)
  }

  /** The states of the objects of a list, in list order. */
  ghost function Snapshots(os: seq<GraphObj>): (r: seq<Snapshot>)
    reads set o: GraphObj | o in os
    ensures |r| == |os| && forall k :: 0 <= k < |os| ==> r[k] == SnapshotOf(os[k])
  {
    if os == [] then [] else Snapshots(os[..|os| - 1]) + [SnapshotOf(os[|os| - 1])]
  }

  /**
    The motion part of obj->update over `dt` from the state `s`: a ship's
    spin follows the rotate keys, its velocity the thrust with the speed
    cap, and its cannon cool-down counts down or restarts on a shot; a
    fragment's life counts down; any other kind keeps its velocity and
    spin; then the base update moves and turns the object with its new
    velocity and spin, wrapping it where it leaves the field.
  */
  ghost predicate Moved(o: GraphObj, s: Snapshot, dt: real, limits: Limits, m: Math)
    reads o`center, o`angle, o`velocity, o`radialVelocity, o`remainingLife, o`fireWaitTime,
          o`controls, o`shipConfig, o`maxVelocity, o`firePeriod
  {
    (o.kind == ShipKind ==>
       o.radialVelocity == Ships.RotationRate(o.controls) &&
       o.velocity == Ships.ShipVelocity(s.velocity, o.controls, s.angle, dt, o.shipConfig.sizeRadius, o.maxVelocity, m) &&
       o.fireWaitTime == (if Ships.Fires(o.controls, Ships.FireWaitAfter(s.fireWaitTime, dt)) then o.firePeriod
                          else Ships.FireWaitAfter(s.fireWaitTime, dt))) &&
    (o.kind != ShipKind ==> o.velocity == s.velocity && o.radialVelocity == s.radialVelocity) &&
    (o.kind == FragmentKind ==> o.remainingLife == Fragments.LifeAfter(s.remainingLife, dt)) &&
    Placed(o, Step(s.center, s.angle, o.velocity, o.radialVelocity, dt, o.kind, limits))
  }

  /** The object stands at the pose `p`. */
  ghost predicate Placed(o: GraphObj, p: Pose)
    reads o`center, o`angle
  {
    o.center == p.center && o.angle == p.angle
  }

  /**
    Whether the object is alive after that update: it was before, the base
    update did not kill it outside the field, and a fragment has life left.
  */
  ghost predicate Outlives(o: GraphObj, s: Snapshot, dt: real, limits: Limits)
    reads o`velocity, o`radialVelocity, o`remainingLife
  {
    s.alive && !Step(s.center, s.angle, o.velocity, o.radialVelocity, dt, o.kind, limits).dies &&
    (o.kind == FragmentKind ==> 0.0 < o.remainingLife)
  }

  /** One obj->update over `dt` from the state `s`: the motion, and the liveness it leaves. */
  ghost predicate Updated(o: GraphObj, s: Snapshot, dt: real, limits: Limits, m: Math)
    reads o`center, o`angle, o`velocity, o`radialVelocity, o`remainingLife, o`fireWaitTime,
          o`controls, o`shipConfig, o`maxVelocity, o`firePeriod, o`alive
  {
    Moved(o, s, dt, limits, m) && o.alive == Outlives(o, s, dt, limits)
  }

  /**
    obj->update(deltaTime, &context), the virtual call of the tick: a ship
    steers, fires and moves (Ship::update), a fragment counts its life down
    and moves (Fragment::update), every other kind only moves
    (GraphObj::update). Only a ship spawns, one bolt at most.
  */
  method UpdateObject(obj: GraphObj, dt: real, context: UpdateContext, m: Math)
    returns (ghost spawned: seq<GraphObj>)
    requires obj.Valid()
    modifies obj`center, obj`angle, obj`alive, obj`velocity, obj`radialVelocity, obj`shapes
    modifies obj`fireWaitTime, obj`remainingLife, context
    ensures obj.Valid()
    ensures Updated(obj, old(SnapshotOf(obj)), dt, context.spaceLimits, m)
    ensures context.spawnList == old(context.spawnList) + spawned
    ensures |spawned| <= 1 && (obj.kind != ShipKind ==> spawned == [])
    ensures forall b :: b in spawned ==>
              fresh(b) && b.kind == BoltKind && b.alive && b.Valid() && b.team == obj.team
  {
    ghost var before := context.spawnList;
    match obj.kind
    case ShipKind =>
      Ships.Update(obj, dt, context, m);
      spawned := context.spawnList[|before|..];
    case FragmentKind =>
      Fragments.Update(obj, dt, context);
      spawned := [];
    case _ =>
      obj.Update(dt, context);
      spawned := [];
  }

  /**
    The updates of the walk so far, over the objects `O` found at the start
    of the tick in the states `S`, alive where `live` says: each live one
    the walk has passed has been updated once from its state, and those
    still ahead are as they were found.
  */
  ghost predicate Tracked(O: seq<GraphObj>, live: seq<bool>, S: seq<Snapshot>, j: nat, dt: real, limits: Limits, m: Math)
    reads set o: GraphObj | o in O
  {
    |S| == |O| && |live| == |O| && j <= |O| &&
    (forall k :: 0 <= k < j && live[k] ==> Updated(O[k], S[k], dt, limits, m)) &&
    (forall k :: j <= k < |O| ==> SnapshotOf(O[k]) == S[k])
  }

  /**
    The updates of the walk so far over the fragments of its explosions, in
    the states `FS` their explosions left them in: each fragment the walk
    has visited has been updated once from its state, and those still
    ahead are as their explosion left them. Fragments start alive.
  */
  ghost predicate FragmentsTracked(w: Walk, FS: seq<Snapshot>, dt: real, limits: Limits, m: Math)
    reads set o: GraphObj | o in w.done + w.tail
  {
    |FS| == |w.done| + |w.tail| &&
    (forall k :: 0 <= k < |FS| ==> FS[k].alive) &&
    (forall k :: 0 <= k < |w.done| ==> Updated(w.done[k], FS[k], dt, limits, m)) &&
    (forall k :: 0 <= k < |w.tail| ==> SnapshotOf(w.tail[k]) == FS[|w.done| + k])
  }

  /**
    The walk's fragments other than the first one ahead, which differ from
    it, are as `FragmentsTracked` says; the first one ahead is left out.
  */
  ghost predicate RestTracked(w: Walk, FS: seq<Snapshot>, dt: real, limits: Limits, m: Math)
    reads (set k | 0 <= k < |w.done| :: w.done[k]), (set k | 1 <= k < |w.tail| :: w.tail[k])
  {
    w.tail != [] && |FS| == |w.done| + |w.tail| &&
    (forall k :: 0 <= k < |FS| ==> FS[k].alive) &&
    (forall k :: 0 <= k < |w.done| ==> w.done[k] != w.tail[0] && Updated(w.done[k], FS[k], dt, limits, m)) &&
    (forall k :: 1 <= k < |w.tail| ==> w.tail[k] != w.tail[0] && SnapshotOf(w.tail[k]) == FS[|w.done| + k])
  }

  /** Before the first fragment ahead is updated: the others are tracked, and it is as its explosion left it. */
  lemma FragmentAhead(w: Walk, FS: seq<Snapshot>, dt: real, limits: Limits, m: Math)
    requires FragmentsTracked(w, FS, dt, limits, m) && Distinct(w.done + w.tail) && w.tail != []
    ensures RestTracked(w, FS, dt, limits, m) && SnapshotOf(w.tail[0]) == FS[|w.done|]
  {
    var F, d := w.done + w.tail, |w.done|;
    assert F[d] == w.tail[0];
    forall k | 0 <= k < d ensures w.done[k] != w.tail[0] {
      assert w.done[k] == F[k];
    }
    forall k | 1 <= k < |w.tail| ensures w.tail[k] != w.tail[0] {
      assert w.tail[k] == F[d + k];
    }
  }

  /** Once the first fragment ahead is updated from its state, the walk has visited it. */
  lemma FragmentVisited(w: Walk, w': Walk, FS: seq<Snapshot>, dt: real, limits: Limits, m: Math)
    requires RestTracked(w, FS, dt, limits, m) && Updated(w.tail[0], FS[|w.done|], dt, limits, m)
    requires w'.done == w.done + [w.tail[0]] && w'.tail == w.tail[1..]
    ensures FragmentsTracked(w', FS, dt, limits, m)
  {
  }

  /** The fragments an explosion appends start tracked from the states it left them in. */
  lemma FragmentsThrown(w: Walk, w': Walk, FS: seq<Snapshot>, added: seq<GraphObj>, dt: real, limits: Limits, m: Math)
    requires FragmentsTracked(w, FS, dt, limits, m)
    requires w'.done == w.done && w'.tail == w.tail + added && forall f :: f in added ==> f.alive
    ensures FragmentsTracked(w', FS + Snapshots(added), dt, limits, m)
  {
    var FS' := FS + Snapshots(added);
    forall k | 0 <= k < |w'.tail| ensures SnapshotOf(w'.tail[k]) == FS'[|w'.done| + k] {
      if |w.tail| <= k {
        assert w'.tail[k] == added[k - |w.tail|];
      }
    }
    forall k | 0 <= k < |FS'| ensures FS'[k].alive {
      if |FS| <= k {
        assert added[k - |FS|] in added;
      }
    }
  }

  /** Once the walk has visited every fragment, each one has been updated from the state its explosion left it in. */
  lemma FragmentsAllTracked(w: Walk, FS: seq<Snapshot>, dt: real, limits: Limits, m: Math)
    requires FragmentsTracked(w, FS, dt, limits, m) && w.tail == []
    ensures AllUpdated(w.done, FS, dt, limits, m) && forall k :: 0 <= k < |FS| ==> FS[k].alive
  {
  }

  /** Once the walk has passed every found object, each one found alive has been updated. */
  lemma TrackedAll(O: seq<GraphObj>, live: seq<bool>, S: seq<Snapshot>, j: nat, dt: real, limits: Limits, m: Math)
    requires Tracked(O, live, S, j, dt, limits, m) && j == |O|
    requires forall k :: 0 <= k < |O| ==> S[k].alive == live[k]
    ensures AllUpdated(O, S, dt, limits, m)
  {
  }

  /** Every object of `O` that was alive in its state in `S` has been updated once from it. */
  ghost predicate AllUpdated(O: seq<GraphObj>, S: seq<Snapshot>, dt: real, limits: Limits, m: Math)
    reads set o: GraphObj | o in O
  {
    |S| == |O| && forall k :: 0 <= k < |O| && S[k].alive ==> Updated(O[k], S[k], dt, limits, m)
  }

  /**
    What a tick leaves of the objects `O` found in the states `S`: each one
    found alive has moved once, and is alive exactly when it outlived its
    update and no collision of `pairs` killed it.
  */
  ghost predicate Ticked(O: seq<GraphObj>, S: seq<Snapshot>, dt: real, limits: Limits, m: Math,
                         pairs: seq<(Body, Body)>)
    reads set o: GraphObj | o in O
  {
    |S| == |O| &&
    forall k :: 0 <= k < |O| && S[k].alive ==>
      Moved(O[k], S[k], dt, limits, m) && (O[k].alive <==> Outlives(O[k], S[k], dt, limits) && O[k] !in Killed(pairs))
  }

  class GameBox {
    var objects: seq<GraphObj>
    var lastUpdateTime: real
    var lastUpdateTimeValid: bool

    /**
      Every object is in the list at most once and keeps its own invariant.
      The game never adds an object twice (a player re-adds its ship only
      when the ship is absent).
    */
    ghost predicate Valid()
      reads this`objects, objects`exhaustIndex, objects`shapes
    {
      Distinct(objects) &&
      (forall o: GraphObj :: o in objects ==> o.Valid())
    }

    constructor ()
      ensures objects == [] && !lastUpdateTimeValid && Valid()
    {
      objects, lastUpdateTime, lastUpdateTimeValid := [], 0.0, false;
    }

    /** add: a null object is ignored, anything else goes to the end of the list. */
    method Add(obj: GraphObj?)
      modifies this`objects
      ensures objects == if obj == null then old(objects) else old(objects) + [obj]
      ensures old(Valid()) && (obj == null || (obj !in old(objects) && obj.Valid())) ==> Valid()
    {
      if obj != null {
        objects := objects + [obj];
      }
    }

    /** isPresent: whether this very object is in the list. */
    method IsPresent(obj: GraphObj?) returns (present: bool)
      ensures present <==> obj in objects
    {
      for i := 0 to |objects|
        invariant obj !in objects[..i]
      {
        if objects[i] == obj {
          assert objects[i] in objects[..i + 1];
          return true;
        }
      }
      assert objects[..|objects|] == objects;
      return false;
    }

    /**
      remove (std::list::remove): every occurrence of the object leaves the
      list, the rest keep their order; the list never holds null, so
      removing null changes nothing.
    */
    method Remove(obj: GraphObj?)
      modifies this`objects
      ensures obj == null ==> objects == old(objects)
      ensures obj != null ==> objects == Without(old(objects), obj)
      ensures obj !in objects
      ensures old(Valid()) ==> Valid()
    {
      if obj != null {
        WithoutKeepsOthers(objects, obj);
        objects := Without(objects, obj);
      }
    }

    /**
      What the walk keeps true: the list as the walk lays it out, the
      explosions so far, the list's own invariant, the liveness expected of
      every object still ahead, and the spawn list holding the live bolts
      the updates have spawned, none of them in the list.
    */
    ghost predicate Walking(i: nat, O: seq<GraphObj>, live: seq<bool>, boom: seq<bool>, w: Walk,
                            spawned: seq<GraphObj>, context: UpdateContext)
      reads this, (set o: GraphObj | o in objects), (set b: GraphObj | b in spawned), context
    {
      Laid(objects, i, O, live, w) && Grouped(O, boom, w) && Apart(O, live, boom, w) && Valid() &&
      AliveAsFlagged(objects, i, AheadFlags(live, w)) &&
      Distinct(spawned) && context.spawnList == spawned &&
      (forall b :: b in spawned ==> b !in objects && b !in O && b.alive && b.kind == BoltKind && b.Valid())
    }

    /**
      One step of the walk of GameBox::update: a live object is updated and
      kept; a dead one is erased, after GameBox::explode has appended the
      fragments of one that explodes on death.
    */
    method Visit(i: nat, dt: real, context: UpdateContext, rng: RandSource, m: Math,
                 ghost O: seq<GraphObj>, ghost live: seq<bool>, ghost boom: seq<bool>, ghost w: Walk,
                 ghost spawned: seq<GraphObj>, ghost S: seq<Snapshot>, ghost FS: seq<Snapshot>)
      returns (i': nat, ghost w': Walk, ghost spawned': seq<GraphObj>, ghost FS': seq<Snapshot>)
      requires Walking(i, O, live, boom, w, spawned, context) && i < |objects| && rng.Valid()
      requires Tracked(O, live, S, w.j, dt, context.spaceLimits, m)
      requires FragmentsTracked(w, FS, dt, context.spaceLimits, m)
      modifies this`objects, (set o: GraphObj | o in objects), rng`pos, context
      ensures Walking(i', O, live, boom, w', spawned', context) && rng.Valid()
      ensures Tracked(O, live, S, w'.j, dt, context.spaceLimits, m)
      ensures FragmentsTracked(w', FS', dt, context.spaceLimits, m)
      ensures w'.j > w.j || (w'.j == w.j && |objects| - i' < old(|objects|) - i)
      ensures forall o :: o in objects || o in spawned' ==> o in old(objects) || o in spawned || fresh(o)
    {
      AliveAt(objects, i, AheadFlags(live, w));
      if objects[i].alive {
        w', spawned' := VisitLive(i, dt, context, m, O, live, boom, w, spawned, S, FS);
        i', FS' := i + 1, FS;
      } else {
        w', FS' := VisitDead(i, dt, rng, m, O, live, boom, w, spawned, context, S, FS);
        i', spawned' := i, spawned;
      }
    }

    /**
      A live object, found at the start of the tick or a fragment of one of
      its explosions: updated and kept.
    */
    method VisitLive(i: nat, dt: real, context: UpdateContext, m: Math,
                     ghost O: seq<GraphObj>, ghost live: seq<bool>, ghost boom: seq<bool>, ghost w: Walk,
                     ghost spawned: seq<GraphObj>, ghost S: seq<Snapshot>, ghost FS: seq<Snapshot>)
      returns (ghost w': Walk, ghost spawned': seq<GraphObj>)
      requires Walking(i, O, live, boom, w, spawned, context) && i < |objects| && AheadFlags(live, w)[0]
      requires Tracked(O, live, S, w.j, dt, context.spaceLimits, m)
      requires FragmentsTracked(w, FS, dt, context.spaceLimits, m)
      modifies objects[i], context
      ensures Walking(i + 1, O, live, boom, w', spawned', context) && objects == old(objects)
      ensures Tracked(O, live, S, w'.j, dt, context.spaceLimits, m)
      ensures FragmentsTracked(w', FS, dt, context.spaceLimits, m)
      ensures w'.j >= w.j && w'.done + w'.tail == w.done + w.tail
      ensures forall b :: b in spawned' ==> b in spawned || fresh(b)
    {
      Target(objects, i, O, live, w);
      FragmentsDistinct(objects, i, O, live, w);
      if w.j == |O| {
        FragmentAhead(w, FS, dt, context.spaceLimits, m);
      } else {
        assert objects[i] !in w.done + w.tail;
      }
      w', spawned' := KeepTracked(i, dt, context, m, O, live, boom, w, spawned, S);
      if w.j == |O| {
        FragmentVisited(w, w', FS, dt, context.spaceLimits, m);
      }
    }

    /** Visiting a live object as far as the found objects go: it is updated and kept, the others are untouched. */
    method KeepTracked(i: nat, dt: real, context: UpdateContext, m: Math,
                       ghost O: seq<GraphObj>, ghost live: seq<bool>, ghost boom: seq<bool>, ghost w: Walk,
                       ghost spawned: seq<GraphObj>, ghost S: seq<Snapshot>)
      returns (ghost w': Walk, ghost spawned': seq<GraphObj>)
      requires Walking(i, O, live, boom, w, spawned, context) && i < |objects| && AheadFlags(live, w)[0]
      requires Tracked(O, live, S, w.j, dt, context.spaceLimits, m)
      modifies objects[i], context
      ensures Walking(i + 1, O, live, boom, w', spawned', context) && objects == old(objects) && w' == Passing(w, O)
      ensures Updated(objects[i], old(SnapshotOf(objects[i])), dt, context.spaceLimits, m)
      ensures Tracked(O, live, S, w'.j, dt, context.spaceLimits, m)
      ensures w'.j >= w.j && w'.done + w'.tail == w.done + w.tail
      ensures forall b :: b in spawned' ==> b in spawned || fresh(b)
    {
      Target(objects, i, O, live, w);
      ghost var obj := objects[i];
      assert w.j == |O| ==> obj in w.tail;
      w', spawned' := KeepLive(i, dt, context, m, O, live, boom, w, spawned);
      forall k | 0 <= k < |O| && O[k] != obj
        ensures SnapshotOf(O[k]) == old(SnapshotOf(O[k]))
        ensures Updated(O[k], S[k], dt, context.spaceLimits, m) == old(Updated(O[k], S[k], dt, context.spaceLimits, m))
      {
      }
    }

    /** The list part of visiting a live object: it is updated from its state, kept, and the walk moves past it. */
    method KeepLive(i: nat, dt: real, context: UpdateContext, m: Math,
                    ghost O: seq<GraphObj>, ghost live: seq<bool>, ghost boom: seq<bool>, ghost w: Walk,
                    ghost spawned: seq<GraphObj>)
      returns (ghost w': Walk, ghost spawned': seq<GraphObj>)
      requires Walking(i, O, live, boom, w, spawned, context) && i < |objects| && AheadFlags(live, w)[0]
      modifies objects[i], context
      ensures Walking(i + 1, O, live, boom, w', spawned', context) && w' == Passing(w, O)
      ensures Updated(objects[i], old(SnapshotOf(objects[i])), dt, context.spaceLimits, m)
      ensures w'.j >= w.j && w'.done + w'.tail == w.done + w.tail
      ensures forall b :: b in spawned' ==> b in spawned || fresh(b)
    {
      var obj := objects[i];
      AliveAt(objects, i, AheadFlags(live, w));
      Kept(objects, i, O, live, boom, w);
      ghost var s := UpdateObject(obj, dt, context, m);
      DistinctJoin(spawned, s);
      w', spawned' := Passing(w, O), spawned + s;
      forall k | i + 1 <= k < |objects| ensures objects[k].alive == old(objects[k].alive) {
        assert objects[k] != objects[i];
      }
      forall o | o in objects ensures o.Valid() {
        if o != obj {
          assert old(o.Valid());
        }
      }
      forall b | b in spawned' ensures b !in objects && b !in O && b.alive && b.kind == BoltKind && b.Valid() {
        if b in spawned {
          assert b != obj;
        }
      }
    }

    /** A dead object found at the start of the tick: exploded if it explodes on death, then erased. */
    method VisitDead(i: nat, ghost dt: real, rng: RandSource, m: Math,
                     ghost O: seq<GraphObj>, ghost live: seq<bool>, ghost boom: seq<bool>, ghost w: Walk,
                     ghost spawned: seq<GraphObj>, ghost context: UpdateContext, ghost S: seq<Snapshot>,
                     ghost FS: seq<Snapshot>)
      returns (ghost w': Walk, ghost FS': seq<Snapshot>)
      requires Walking(i, O, live, boom, w, spawned, context) && i < |objects| && !AheadFlags(live, w)[0]
      requires rng.Valid() && Tracked(O, live, S, w.j, dt, context.spaceLimits, m)
      requires FragmentsTracked(w, FS, dt, context.spaceLimits, m)
      modifies this`objects, {objects[i]}`alive, rng`pos
      ensures Walking(i, O, live, boom, w', spawned, context) && rng.Valid()
      ensures w'.j == w.j + 1 && Tracked(O, live, S, w'.j, dt, context.spaceLimits, m)
      ensures FragmentsTracked(w', FS', dt, context.spaceLimits, m)
      ensures forall o :: o in objects ==> o in old(objects) || fresh(o)
    {
      DeadFound(objects, i, O, live, w);
      ghost var dead := objects[i];
      assert dead !in w.done + w.tail;
      ghost var added;
      w', added := EraseDead(i, rng, m, O, live, boom, w, spawned, context);
      forall k | 0 <= k < |O| && k != w.j
        ensures SnapshotOf(O[k]) == old(SnapshotOf(O[k]))
        ensures Updated(O[k], S[k], dt, context.spaceLimits, m) == old(Updated(O[k], S[k], dt, context.spaceLimits, m))
      {
        assert O[k] != dead;
      }
      FS' := FS + Snapshots(added);
      FragmentsThrown(w, w', FS, added, dt, context.spaceLimits, m);
    }

    /** The list part of visiting a dead object: exploded if it explodes on death, then erased. */
    method EraseDead(i: nat, rng: RandSource, m: Math,
                     ghost O: seq<GraphObj>, ghost live: seq<bool>, ghost boom: seq<bool>, ghost w: Walk,
                     ghost spawned: seq<GraphObj>, ghost context: UpdateContext)
      returns (ghost w': Walk, ghost frags: seq<GraphObj>)
      requires Walking(i, O, live, boom, w, spawned, context) && i < |objects| && !AheadFlags(live, w)[0]
      requires rng.Valid()
      modifies this`objects, {objects[i]}`alive, rng`pos
      ensures Walking(i, O, live, boom, w', spawned, context) && rng.Valid()
      ensures w'.j == w.j + 1
      ensures w'.done == w.done && w'.tail == w.tail + frags && forall f :: f in frags ==> f.alive
      ensures forall o :: o in objects ==> o in old(objects) || fresh(o)
    {
      DeadFound(objects, i, O, live, w);
      if ExplodesOnDeath(objects[i].kind) {
        w', frags := VisitExploding(i, rng, m, O, live, boom, w, spawned, context);
      } else {
        ErasedLaid(objects, i, O, live, w, false, []);
        ErasedGrouped(O, boom, w, []);
        ErasedApart(O, live, boom, w, false, []);
        AliveAt(objects, i, AheadFlags(live, w));
        ErasedAlive(objects, i, AheadFlags(live, w)[1..], []);
        EraseAtKeepsOthers(objects, i);
        assert objects + [] == objects;
        objects := EraseAt(objects, i);
        w', frags := Erasing(w, O[w.j], false, []), [];
        assert w.tail + [] == w.tail;
      }
    }

    /** A dead object that explodes on death: GameBox::explode appends its fragments, then it is erased. */
    method VisitExploding(i: nat, rng: RandSource, m: Math,
                          ghost O: seq<GraphObj>, ghost live: seq<bool>, ghost boom: seq<bool>, ghost w: Walk,
                          ghost spawned: seq<GraphObj>, ghost context: UpdateContext)
      returns (ghost w': Walk, ghost frags: seq<GraphObj>)
      requires Walking(i, O, live, boom, w, spawned, context) && w.j < |O| && i < |objects| && objects[i] == O[w.j]
      requires !live[w.j] && w.done == [] && ExplodesOnDeath(O[w.j].kind) && rng.Valid()
      modifies this`objects, {objects[i]}`alive, rng`pos
      ensures Walking(i, O, live, boom, w', spawned, context) && rng.Valid()
      ensures w'.j == w.j + 1
      ensures w'.done == w.done && w'.tail == w.tail + frags && forall f :: f in frags ==> f.alive
      ensures forall o :: o in objects ==> o in old(objects) || fresh(o)
    {
      var obj := objects[i];
      ghost var before := objects;
      AliveAt(objects, i, AheadFlags(live, w));
      ghost var configs, throws, marks;
      frags, configs, throws, marks := Explode(obj, rng, m);
      forall k | i + 1 <= k < |before| ensures before[k].alive == old(before[k].alive) {
        assert before[k] != obj;
      }
      forall f | f in frags ensures f !in before && f.kind == FragmentKind && f.alive && f.Valid() {
        var p :| 0 <= p < |frags| && frags[p] == f;
        assert Fragments.BuiltFrom(frags[p], configs[p]);
      }
      ErasedLaid(before, i, O, live, w, true, frags);
      ErasedGrouped(O, boom, w, frags);
      ErasedApart(O, live, boom, w, true, frags);
      ErasedAlive(before, i, AheadFlags(live, w)[1..], frags);
      DistinctJoin(before, frags);
      EraseAtKeepsOthers(objects, i);
      objects := EraseAt(objects, i);
      w' := Erasing(w, obj, true, frags);
    }

    /**
      The walk of GameBox::update over the list. A dead object is erased,
      after GameBox::explode has appended the fragments of one that explodes
      on death; a live object is updated and kept. The fragments sit at the
      end of the list, so the same walk reaches and updates them. An object
      that dies during its own update stays until the next tick. `visited`
      are the objects updated, in the order of the updates; `thrown` are the
      fragments' states as their explosions appended them, in list order.
    */
    method UpdateObjects(dt: real, context: UpdateContext, rng: RandSource, m: Math)
      returns (ghost visited: seq<GraphObj>, ghost exploded: seq<GraphObj>, ghost groups: seq<seq<GraphObj>>,
               ghost spawned: seq<GraphObj>, ghost before: seq<Snapshot>, ghost thrown: seq<Snapshot>)
      requires Valid() && rng.Valid() && context.spawnList == []
      modifies this`objects, (set o: GraphObj | o in objects), rng`pos, context
      ensures Valid() && rng.Valid()
      ensures before == old(Snapshots(objects)) && AllUpdated(old(objects), before, dt, context.spaceLimits, m)
      ensures AllUpdated(Flatten(groups), thrown, dt, context.spaceLimits, m)
      ensures forall k :: 0 <= k < |thrown| ==> thrown[k].alive
      ensures objects == Keep(old(objects), old(LiveFlags(objects))) + Flatten(groups)
      ensures visited == objects
      ensures forall k :: 0 <= k < |old(objects)| && !old(LiveFlags(objects))[k] ==> old(objects[k]) !in objects
      ensures forall k :: 0 <= k < |old(objects)| && old(LiveFlags(objects))[k] ==> old(objects[k]) in objects
      ensures exploded == Keep(old(objects), old(ExplodeFlags(objects))) && |groups| == |exploded|
      ensures forall g :: 0 <= g < |groups| ==> MinExplosionFragments <= |groups[g]| < MaxExplosionFragments
      ensures forall f :: f in Flatten(groups) ==> fresh(f) && f.kind == FragmentKind
      ensures context.spawnList == spawned && Distinct(spawned)
      ensures forall b :: b in spawned ==> fresh(b) && b.kind == BoltKind && b.alive && b.Valid() && b !in objects
      ensures forall o :: o in objects ==> o in old(objects) || fresh(o)
    {
      ghost var O := objects;
      ghost var live, boom := LiveFlags(objects), ExplodeFlags(objects);
      before := Snapshots(objects);
      assert forall k :: 0 <= k < |O| ==> before[k].alive == live[k];
      Started(O, live, boom, context);
      var i; ghost var w;
      i, w, spawned, thrown := WalkAll(dt, context, rng, m, O, live, boom, before);
      Ended(i, O, live, boom, w, spawned, context);
      visited, exploded, groups := w.visited, w.exploded, w.groups;
      TrackedAll(O, live, before, w.j, dt, context.spaceLimits, m);
      FragmentsAllTracked(w, thrown, dt, context.spaceLimits, m);
    }

    /** The loop of the walk, from the front of the list to its end. */
    method WalkAll(dt: real, context: UpdateContext, rng: RandSource, m: Math,
                   ghost O: seq<GraphObj>, ghost live: seq<bool>, ghost boom: seq<bool>, ghost S: seq<Snapshot>)
      returns (i: nat, ghost w: Walk, ghost spawned: seq<GraphObj>, ghost FS: seq<Snapshot>)
      requires Walking(0, O, live, boom, Walk(0, [], [], [], [], []), [], context) && rng.Valid()
      requires Tracked(O, live, S, 0, dt, context.spaceLimits, m) && O == objects
      modifies this`objects, (set o: GraphObj | o in objects), rng`pos, context
      ensures Walking(i, O, live, boom, w, spawned, context) && rng.Valid() && |objects| <= i
      ensures Tracked(O, live, S, w.j, dt, context.spaceLimits, m)
      ensures FragmentsTracked(w, FS, dt, context.spaceLimits, m)
      ensures forall o :: o in objects || o in spawned ==> o in O || fresh(o)
    {
      w, spawned, FS := Walk(0, [], [], [], [], []), [], [];
      i := 0;
      while i < |objects|
        invariant Walking(i, O, live, boom, w, spawned, context) && rng.Valid()
        invariant Tracked(O, live, S, w.j, dt, context.spaceLimits, m)
        invariant FragmentsTracked(w, FS, dt, context.spaceLimits, m)
        invariant forall o :: o in objects || o in spawned ==> o in O || fresh(o)
        decreases |O| - w.j, |objects| - i
      {
        i, w, spawned, FS := Visit(i, dt, context, rng, m, O, live, boom, w, spawned, S, FS);
      }
    }

    /** The last loop of GameBox::update: every object of the spawn list pushed to the back, in order. */
    method AppendAll(spawnList: seq<GraphObj>)
      modifies this`objects
      ensures objects == old(objects) + spawnList
    {
      for k := 0 to |spawnList|
        invariant objects == old(objects) + spawnList[..k]
      {
        assert spawnList[..k + 1] == spawnList[..k] + [spawnList[k]];
        objects := objects + [spawnList[k]];
      }
      assert spawnList[..|spawnList|] == spawnList;
    }

    /**
      GameBox::update at the clock reading `now`, in a window of size
      `limits`: the time since the previous tick (zero on the first), then
      the tick itself, then the clock reading kept for the next tick.
    */
    method Update(now: real, limits: Limits, rng: RandSource, m: Math)
      returns (deltaTime: real, ghost visited: seq<GraphObj>, ghost groups: seq<seq<GraphObj>>,
               ghost spawned: seq<GraphObj>, ghost pairs: seq<(Body, Body)>, ghost before: seq<Snapshot>,
               ghost thrown: seq<Snapshot>)
      requires Valid() && rng.Valid()
      modifies this`objects, this`lastUpdateTimeValid, this`lastUpdateTime, (set o: GraphObj | o in objects), rng`pos
      ensures deltaTime == if old(lastUpdateTimeValid) then now - old(lastUpdateTime) else 0.0
      ensures before == old(Snapshots(objects)) && Ticked(old(objects), before, deltaTime, limits, m, pairs)
      ensures Ticked(Flatten(groups), thrown, deltaTime, limits, m, pairs) && forall k :: 0 <= k < |thrown| ==> thrown[k].alive
      ensures lastUpdateTimeValid && lastUpdateTime == now
      ensures Valid() && rng.Valid()
      ensures visited == Keep(old(objects), old(LiveFlags(objects))) + Flatten(groups)
      ensures objects == visited + spawned
      ensures forall k :: 0 <= k < |old(objects)| && !old(LiveFlags(objects))[k] ==> old(objects[k]) !in objects
      ensures forall f :: f in Flatten(groups) ==> fresh(f) && f.kind == FragmentKind
      ensures forall b :: b in spawned ==> fresh(b) && b.kind == BoltKind && b.alive
      ensures Struck(pairs, visited, limits) && Calm(visited, limits)
    {
      hide *;
      var currentTime := now;
      deltaTime := 0.0;
      if lastUpdateTimeValid {
        deltaTime := currentTime - lastUpdateTime;
      }
      visited, groups, spawned, pairs, before, thrown := Tick(deltaTime, limits, rng, m);
      assert Ticked(Flatten(groups), thrown, deltaTime, limits, m, pairs);
      Stamp(currentTime);
    }

    /** The end of GameBox::update: the clock reading is kept for the next tick. */
    method Stamp(now: real)
      modifies this`lastUpdateTimeValid, this`lastUpdateTime
      ensures lastUpdateTimeValid && lastUpdateTime == now
    {
      lastUpdateTimeValid := true;
      lastUpdateTime := now;
    }

    /**
      The body of GameBox::update: a fresh update context for the window;
      the walk that updates the live objects and explodes and erases the
      dead ones; the collision pass; then the bolts spawned during the tick
      appended to the list. The objects found dead are gone; the partners
      of every collision the pass finds are dead, each object takes part
      in one collision at most, and no two live objects the pass saw still
      collide.
    */
    method Tick(deltaTime: real, limits: Limits, rng: RandSource, m: Math)
      returns (ghost visited: seq<GraphObj>, ghost groups: seq<seq<GraphObj>>,
               ghost spawned: seq<GraphObj>, ghost pairs: seq<(Body, Body)>, ghost before: seq<Snapshot>,
               ghost thrown: seq<Snapshot>)
      requires Valid() && rng.Valid()
      modifies this`objects, (set o: GraphObj | o in objects), rng`pos
      ensures Valid() && rng.Valid()
      ensures before == old(Snapshots(objects)) && Ticked(old(objects), before, deltaTime, limits, m, pairs)
      ensures Ticked(Flatten(groups), thrown, deltaTime, limits, m, pairs) && forall k :: 0 <= k < |thrown| ==> thrown[k].alive
      ensures visited == Keep(old(objects), old(LiveFlags(objects))) + Flatten(groups)
      ensures objects == visited + spawned
      ensures forall k :: 0 <= k < |old(objects)| && !old(LiveFlags(objects))[k] ==> old(objects[k]) !in objects
      ensures forall f :: f in Flatten(groups) ==> fresh(f) && f.kind == FragmentKind
      ensures forall b :: b in spawned ==> fresh(b) && b.kind == BoltKind && b.alive
      ensures Struck(pairs, visited, limits) && Calm(visited, limits)
    {
      hide Ticked, Struck, Calm, Snapshots, Flatten, Keep, LiveFlags;
      var context := new UpdateContext(limits);
      visited, groups, spawned, pairs, before, thrown := UpdateAndCollide(deltaTime, context, rng, m);
      assert Ticked(Flatten(groups), thrown, deltaTime, limits, m, pairs);
      DistinctJoin(visited, spawned);
      AppendAll(context.spawnList);
    }

    /** The tick up to the spawn list: the walk over the list, then the collision pass. */
    method UpdateAndCollide(dt: real, context: UpdateContext, rng: RandSource, m: Math)
      returns (ghost visited: seq<GraphObj>, ghost groups: seq<seq<GraphObj>>,
               ghost spawned: seq<GraphObj>, ghost pairs: seq<(Body, Body)>, ghost before: seq<Snapshot>,
               ghost thrown: seq<Snapshot>)
      requires Valid() && rng.Valid() && context.spawnList == []
      modifies this`objects, (set o: GraphObj | o in objects), rng`pos, context
      ensures Valid() && rng.Valid() && visited == objects
      ensures before == old(Snapshots(objects)) && Ticked(old(objects), before, dt, context.spaceLimits, m, pairs)
      ensures Ticked(Flatten(groups), thrown, dt, context.spaceLimits, m, pairs) && forall k :: 0 <= k < |thrown| ==> thrown[k].alive
      ensures objects == Keep(old(objects), old(LiveFlags(objects))) + Flatten(groups)
      ensures forall k :: 0 <= k < |old(objects)| && !old(LiveFlags(objects))[k] ==> old(objects[k]) !in objects
      ensures forall f :: f in Flatten(groups) ==> fresh(f) && f.kind == FragmentKind
      ensures context.spawnList == spawned && Distinct(spawned)
      ensures forall b :: b in spawned ==> fresh(b) && b.kind == BoltKind && b.alive && b !in objects
      ensures Struck(pairs, objects, context.spaceLimits) && Calm(objects, context.spaceLimits)
    {
      ghost var exploded;
      visited, exploded, groups, spawned, before, thrown := UpdateObjects(dt, context, rng, m);
      pairs := Collide(context, old(objects), before, Flatten(groups), thrown, dt, m);
    }

    /**
      The collision pass of the tick, after the walk has updated the objects
      `O` found alive in the states `S`, and the fragments `F` from the
      states `FS` their explosions left them in: they keep the motion of
      that update, and stay alive exactly when they outlived it and no
      collision killed them.
    */
    method Collide(context: UpdateContext, ghost O: seq<GraphObj>, ghost S: seq<Snapshot>,
                   ghost F: seq<GraphObj>, ghost FS: seq<Snapshot>, ghost dt: real, ghost m: Math)
      returns (ghost pairs: seq<(Body, Body)>)
      requires Valid() && AllUpdated(O, S, dt, context.spaceLimits, m) && AllUpdated(F, FS, dt, context.spaceLimits, m)
      requires forall k :: 0 <= k < |O| && S[k].alive ==> O[k] in objects
      requires forall k :: 0 <= k < |F| ==> F[k] in objects
      modifies objects`alive
      ensures Valid()
      ensures pairs == old(Resolve(Candidates(objects), 0, context.spaceLimits))
      ensures Struck(pairs, objects, context.spaceLimits) && Calm(objects, context.spaceLimits)
      ensures Ticked(O, S, dt, context.spaceLimits, m, pairs) && Ticked(F, FS, dt, context.spaceLimits, m, pairs)
    {
      pairs := CheckForCollisions(context);
      forall k | 0 <= k < |O| && S[k].alive
        ensures Moved(O[k], S[k], dt, context.spaceLimits, m)
        ensures O[k].alive <==> Outlives(O[k], S[k], dt, context.spaceLimits) && O[k] !in Killed(pairs)
      {
        assert old(Updated(O[k], S[k], dt, context.spaceLimits, m));
      }
      forall k | 0 <= k < |F| && FS[k].alive
        ensures Moved(F[k], FS[k], dt, context.spaceLimits, m)
        ensures F[k].alive <==> Outlives(F[k], FS[k], dt, context.spaceLimits) && F[k] !in Killed(pairs)
      {
        assert old(Updated(F[k], FS[k], dt, context.spaceLimits, m));
      }
    }

    /** At the start of the tick the walk is at the front of the list, with nothing done and nothing spawned. */
    lemma Started(O: seq<GraphObj>, live: seq<bool>, boom: seq<bool>, context: UpdateContext)
      requires Valid() && O == objects && live == LiveFlags(objects) && boom == ExplodeFlags(objects)
      requires context.spawnList == []
      ensures Walking(0, O, live, boom, Walk(0, [], [], [], [], []), [], context)
    {
      var w := Walk(0, [], [], [], [], []);
      assert O[..0] == [] && O[0..] == O && live[..0] == [] && boom[..0] == [];
      assert AheadFlags(live, w) == live;
    }

    /**
      At the end of the walk the list is the found objects that were alive,
      in order, then the fragments in the order of the explosions; the
      objects found dead are gone.
    */
    lemma Ended(i: nat, O: seq<GraphObj>, live: seq<bool>, boom: seq<bool>, w: Walk, spawned: seq<GraphObj>,
                context: UpdateContext)
      requires Walking(i, O, live, boom, w, spawned, context) && |objects| <= i
      ensures objects == Keep(O, live) + Flatten(w.groups) && w.visited == objects
      ensures w.exploded == Keep(O, boom)
      ensures forall k :: 0 <= k < |O| && !live[k] ==> O[k] !in objects
      ensures forall k :: 0 <= k < |O| && live[k] ==> O[k] in objects
      ensures forall f :: f in Flatten(w.groups) ==> f in objects && f !in O && f.kind == FragmentKind
      ensures w.j == |O| && w.tail == [] && w.done == Flatten(w.groups)
    {
      Finished(objects, i, O, live, boom, w);
      forall k | 0 <= k < |O| && !live[k] ensures O[k] !in objects {
        KeepMembers(O, live, O[k]);
        assert O[k] !in w.done;
      }
      forall k | 0 <= k < |O| && live[k] ensures O[k] in objects {
        KeepMembers(O, live, O[k]);
      }
    }

    /** The fragment loop of GameBox::explode: `count` fragments appended to the object list, one after the other. */
    method Scatter(obj: GraphObj, rng: RandSource, m: Math, count: nat)
      returns (ghost frags: seq<GraphObj>, ghost configs: seq<Fragments.Config>, ghost throws: seq<Volatile.Throw>,
               ghost marks: seq<nat>)
      requires rng.Valid()
      modifies this`objects, rng`pos
      ensures objects == old(objects) + frags && Distinct(frags)
      ensures |frags| == count && |configs| == count && |throws| == count && |marks| == count + 1
      ensures marks[0] == old(rng.pos) && rng.pos == marks[count]
      ensures forall i :: 0 <= i < |frags| ==>
                fresh(frags[i]) && BoxEjected(obj, frags[i], configs[i], throws[i], m) &&
                BoxDrawnInTurn(obj.mainColor, rng.draws, marks[i], marks[i + 1], configs[i], throws[i])
    {
      hide BoxEjected, BoxDrawnInTurn;
      frags, configs, throws, marks := [], [], [], [rng.pos];
      ghost var draws := rng.draws;
      for fragIndex := 0 to count
        invariant rng.Valid() && rng.draws == draws && objects == old(objects) + frags
        invariant |frags| == fragIndex && |configs| == fragIndex && |throws| == fragIndex && |marks| == fragIndex + 1
        invariant marks[0] == old(rng.pos) && rng.pos == marks[fragIndex]
        invariant Distinct(frags)
        invariant forall i :: 0 <= i < |frags| ==> fresh(frags[i]) && BoxEjected(obj, frags[i], configs[i], throws[i], m)
        invariant forall i :: 0 <= i < |frags| ==>
                    BoxDrawnInTurn(obj.mainColor, draws, marks[i], marks[i + 1], configs[i], throws[i])
      {
        var fragment, config, t := AddFragment(obj, rng, m);
        frags, configs, throws, marks := frags + [fragment], configs + [config], throws + [t], marks + [rng.pos];
      }
    }

    /** One fragment of `Scatter`, drawn and appended to the list. */
    method AddFragment(obj: GraphObj, rng: RandSource, m: Math)
      returns (f: GraphObj, ghost config: Fragments.Config, ghost t: Volatile.Throw)
      requires rng.Valid()
      modifies this`objects, rng`pos
      ensures objects == old(objects) + [f] && fresh(f) && BoxEjected(obj, f, config, t, m)
      ensures BoxDrawnInTurn(obj.mainColor, rng.draws, old(rng.pos), rng.pos, config, t)
    {
      f, config, t := DrawFragment(obj, rng, m);
      objects := objects + [f];
    }

    /**
      GameBox::explode: nothing for a null object; otherwise 15 to 29
      fragments (GameBox.cpp's exclusive randInt) appended to the list, each
      built and thrown from the object's position, and the object killed. The count takes one draw; the fragments
      take theirs one after the other, as `marks` records.
    */
    method Explode(obj: GraphObj?, rng: RandSource, m: Math)
      returns (ghost frags: seq<GraphObj>, ghost configs: seq<Fragments.Config>, ghost throws: seq<Volatile.Throw>,
               ghost marks: seq<nat>)
      requires rng.Valid()
      modifies this`objects, {obj}`alive, rng`pos
      ensures obj == null ==> objects == old(objects) && frags == [] && rng.pos == old(rng.pos)
      ensures objects == old(objects) + frags
      ensures obj != null ==>
                !obj.alive && |frags| == BoxRandIntOf(old(rng.draws(rng.pos)), MinExplosionFragments, MaxExplosionFragments)
      ensures MinExplosionFragments <= |frags| < MaxExplosionFragments || frags == []
      ensures |configs| == |frags| && |throws| == |frags| && Distinct(frags)
      ensures |marks| == |frags| + 1 && rng.pos == marks[|frags|]
      ensures obj != null ==> marks[0] == old(rng.pos) + 1
      ensures forall i :: 0 <= i < |frags| ==>
                fresh(frags[i]) && BoxEjected(obj, frags[i], configs[i], throws[i], m) &&
                BoxDrawnInTurn(obj.mainColor, rng.draws, marks[i], marks[i + 1], configs[i], throws[i])
    {
      frags, configs, throws, marks := [], [], [], [rng.pos];
      if obj != null {
        var fragments := BoxRandInt(MinExplosionFragments, MaxExplosionFragments, rng);
        frags, configs, throws, marks := Scatter(obj, rng, m, fragments);
        obj.Kill();
      }
    }

    /**
      The first loop of checkForCollisions: the live objects that can
      collide, in list order, as the candidate list.
    */
    method Gather() returns (cands: seq<GraphObj>, ghost cs: seq<Body>)
      requires Valid()
      ensures cs == Candidates(objects) && Lined(cands, cs) && Distinct(cs) && forall c :: c in cands ==> c.alive
      ensures forall o :: o in objects && o.alive && o.CanCollide() ==> BodyOf(o) in cs
    {
      cands, cs := [], [];
      for n := 0 to |objects|
        invariant Gathered(objects, n, cands, cs)
      {
        var obj := objects[n];
        GatherStep(objects, n, cands, cs);
        if obj.alive && obj.CanCollide() {
          cands, cs := cands + [obj], cs + [BodyOf(obj)];
        }
      }
      assert objects[..|objects|] == objects;
    }

    /**
      What the collision pass keeps true: the candidates left are lined up
      with their bodies `cs` and come from the list; the collisions found
      so far, followed by those Resolve finds from position i of what is
      left, are those it finds on the whole candidate list `cs0`; the
      objects alive are those alive at the start (`alive0`) that no
      collision has killed, and each of them that can collide is a
      candidate that is not a partner of any collision.
    */
    ghost predicate Checking(cands: seq<GraphObj>, cs: seq<Body>, i: nat, pairs: seq<(Body, Body)>,
                             cs0: seq<Body>, alive0: set<GraphObj>, limits: Limits)
      reads this, set o: GraphObj | o in objects, set o: GraphObj | o in cands
    {
      Lined(cands, cs) && Tally(cs, i, pairs, cs0, limits) && (forall c :: c in cands ==> c in objects && c.alive) &&
      Reaped(objects, alive0, pairs) && Spared(objects, cs0, pairs) && Valid()
    }

    /**
      A hit between candidates i and k: both are killed (onCollision), then
      the partner and candidate i are erased from the candidate list, and
      the pass goes on at the candidate that followed i.
    */
    method Strike(cands: seq<GraphObj>, i: nat, k: nat, ghost cs: seq<Body>, ghost pairs: seq<(Body, Body)>,
                  ghost cs0: seq<Body>, ghost alive0: set<GraphObj>)
      returns (cands': seq<GraphObj>, i': nat)
      requires Lined(cands, cs) && Distinct(cs) && i < |cs| && k < |cs| && i != k
      requires (forall c :: c in cands ==> c in objects && c.alive) && Valid()
      requires Reaped(objects, alive0, pairs) && Spared(objects, cs0, pairs)
      modifies objects`alive
      ensures cands' == Rest(cands, i, k) && i' == Next(i, k)
      ensures Lined(cands', Rest(cs, i, k)) && forall c :: c in cands' ==> c in objects && c.alive
      ensures Reaped(objects, alive0, pairs + [(cs[i], cs[k])]) && Spared(objects, cs0, pairs + [(cs[i], cs[k])])
      ensures Valid()
    {
      ghost var ci, ck, rc := cands[i], cands[k], Rest(cands, i, k);
      LinedRest(cands, cs, i, k);
      assert ci in cands && ck in cands;
      KillPair(objects, cands[i], cands[k], cs0, alive0, pairs, (cs[i], cs[k]));
      forall c | c in rc ensures c in objects && c.alive {
        assert c in cands && c != ci && c != ck;
      }
      cands' := EraseAt(cands, k);
      cands', i' := EraseAt(cands', Next(i, k)), Next(i, k);
    }

    /**
      One round of the outer loop of checkForCollisions: candidate i is
      tested against the others; on a hit both partners are killed and
      erased, the partner first, and the pass goes on at the candidate that
      followed i; otherwise it moves on to the next candidate.
    */
    method CheckOne(context: UpdateContext, cands: seq<GraphObj>, i: nat, ghost cs: seq<Body>,
                    ghost pairs: seq<(Body, Body)>, ghost cs0: seq<Body>, ghost alive0: set<GraphObj>)
      returns (cands': seq<GraphObj>, i': nat, ghost cs': seq<Body>, ghost pairs': seq<(Body, Body)>)
      requires Checking(cands, cs, i, pairs, cs0, alive0, context.spaceLimits) && i < |cands|
      modifies objects`alive
      ensures Checking(cands', cs', i', pairs', cs0, alive0, context.spaceLimits)
      ensures |cs'| - i' < |cs| - i
    {
      ghost var limits := context.spaceLimits;
      var k := FindPartner(cands, i, context, cs);
      TallyStep(cs, i, pairs, cs0, limits, k);
      if k < |cands| {
        cands', i' := Strike(cands, i, k, cs, pairs, cs0, alive0);
        pairs', cs' := pairs + [(cs[i], cs[k])], Rest(cs, i, k);
      } else {
        cands', i', cs', pairs' := cands, i + 1, cs, pairs;
      }
    }

    /** The outer loop of checkForCollisions, over the candidate list `cands` described by `cs0`. */
    method Pass(context: UpdateContext, cands: seq<GraphObj>, ghost cs0: seq<Body>, ghost alive0: set<GraphObj>)
      returns (ghost pairs: seq<(Body, Body)>)
      requires Checking(cands, cs0, 0, [], cs0, alive0, context.spaceLimits)
      modifies objects`alive
      ensures pairs == Resolve(cs0, 0, context.spaceLimits) && Distinct(cs0)
      ensures Reaped(objects, alive0, pairs) && Spared(objects, cs0, pairs) && Valid()
    {
      ghost var cs := cs0;
      var cands := cands;
      pairs := [];
      var i: nat := 0;
      while i < |cands|
        invariant Checking(cands, cs, i, pairs, cs0, alive0, context.spaceLimits)
        decreases |cs| - i
      {
        cands, i, cs, pairs := CheckOne(context, cands, i, cs, pairs, cs0, alive0);
      }
    }

    /**
      checkForCollisions: the live, collidable objects become the candidate
      list, in list order; then each candidate in turn is tested against the
      others from the front, and on its first hit both partners are killed
      (onCollision) and erased from the candidate list, so that each takes
      part in one collision at most. The pass finds the collisions Resolve
      describes, kills exactly their partners, and leaves no two live,
      collidable objects of the list that collide.
    */
    method CheckForCollisions(context: UpdateContext) returns (ghost pairs: seq<(Body, Body)>)
      requires Valid()
      modifies objects`alive
      ensures Valid()
      ensures pairs == old(Resolve(Candidates(objects), 0, context.spaceLimits))
      ensures forall o :: o in objects ==> (o.alive <==> old(o.alive) && o !in Killed(pairs))
      ensures Struck(pairs, objects, context.spaceLimits) && Calm(objects, context.spaceLimits)
    {
      ghost var alive0 := set o | o in objects && o.alive;
      assert forall o :: o in objects ==> (o in alive0 <==> old(o.alive));
      var cands, cs := Gather();
      pairs := Pass(context, cands, cs, alive0);
      assert forall o :: o in objects ==> (o.alive <==> o in alive0 && o !in Killed(pairs));
      Settled(objects, cs, pairs, context.spaceLimits);
      Collided(cs, pairs, context.spaceLimits);
    }
  }

  /** The sequence with every occurrence of `x` left out. */
  function Without<T(==)>(s: seq<T>, x: T): (r: seq<T>)
    ensures x !in r
    ensures forall k :: 0 <= k < |r| ==> r[k] in s && r[k] != x
    ensures forall k :: 0 <= k < |s| && s[k] != x ==> s[k] in r
  {
    if s == [] then []
    else Without(s[..|s| - 1], x) + (if s[|s| - 1] == x then [] else [s[|s| - 1]])
  }

  /** Leaving out an element keeps the others distinct. */
  lemma {:induction false} WithoutKeepsOthers<T>(s: seq<T>, x: T)
    ensures |Without(s, x)| <= |s|
    ensures Distinct(s) ==> Distinct(Without(s, x))
  {
    if s != [] {
      WithoutKeepsOthers(s[..|s| - 1], x);
    }
  }
}
