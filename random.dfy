/**
  The C library's rand() and the range helpers built on it (GraphObj.h).

  rand() is modelled as a source of draws: an infinite stream of integers in
  [0, RandMax] and a position in it. Every method that needs randomness takes
  the source and advances it by exactly the number of rand() calls the C++
  code makes.
*/
module Random {
  import opened Geometry

  /** RAND_MAX of the GNU C library. */
  const RandMax: int := 2147483647

  /** randFloat(): rand() / RAND_MAX, a value in [0, 1]. */
  function Unit(r: int): (u: real)
    requires 0 <= r <= RandMax
    ensures 0.0 <= u <= 1.0
    ensures r == 0 ==> u == 0.0
    ensures r == RandMax ==> u == 1.0
  {
    r as real / RandMax as real
  }

  /** randFloat(min, max) for the draw `r`: min + randFloat() * (max - min). */
  function RandFloatOf(r: int, min: real, max: real): (v: real)
    requires 0 <= r <= RandMax
    ensures min <= max ==> min <= v <= max
    ensures max <= min ==> max <= v <= min
    ensures r == 0 ==> v == min
    ensures r == RandMax ==> v == max
  {
    var u, d := Unit(r), max - min;
    FractionOfSpan(u, d);
    assert min <= max ==> u * d <= d;
    assert max <= min ==> d <= u * d;
    assert r == RandMax ==> u * d == d;
    min + u * d
  }

  /** The product of two non-negative reals is non-negative. */
  lemma MulNonNegative(a: real, b: real)
    requires 0.0 <= a && 0.0 <= b
    ensures 0.0 <= a * b
  {
  }

  /** A square is never negative, and positive unless the number is zero. */
  lemma SquareSign(a: real)
    ensures 0.0 <= a * a
    ensures a != 0.0 ==> 0.0 < a * a
  {
    if a < 0.0 {
      MulNonNegative(-a, -a);
    }
  }

  /** A zero quantity lies below the square of any non-zero number. */
  lemma ZeroBelowSquare(z: real, s: real)
    ensures z == 0.0 && s != 0.0 ==> z < s * s
  {
    if z == 0.0 && s != 0.0 {
      calc {
        z;
      ==
        0.0;
      < { SquareSign(s); }
        s * s;
      }
    }
  }

  /** Squaring is monotone on the non-negative reals. */
  lemma SquareMonotone(a: real, b: real)
    requires 0.0 <= a <= b
    ensures a * a <= b * b
  {
    MulNonNegative(a, b - a);
    MulNonNegative(b, b - a);
    assert a * (b - a) == a * b - a * a;
    assert b * (b - a) == b * b - a * b;
  }

  /** A fraction in [0, 1] of a span lies between 0 and the span. */
  lemma FractionOfSpan(u: real, d: real)
    requires 0.0 <= u <= 1.0
    ensures 0.0 <= d ==> 0.0 <= u * d <= d
    ensures d <= 0.0 ==> d <= u * d <= 0.0
  {
    if 0.0 <= d {
      MulNonNegative(u, d);
      MulNonNegative(1.0 - u, d);
      assert (1.0 - u) * d == d - u * d;
    } else {
      MulNonNegative(u, -d);
      MulNonNegative(1.0 - u, -d);
      assert (1.0 - u) * (-d) == u * d - d;
      assert u * (-d) == -(u * d);
    }
  }

  /** The degenerate range always yields its single value. */
  lemma {:induction false} RandFloatOfPoint(r: int, v: real)
    requires 0 <= r <= RandMax
    ensures RandFloatOf(r, v, v) == v
  {
  }

  /**
    randInt(min, max) of GraphObj.h for the draw `r`: the lower bound when the
    range is empty or a single point, otherwise rand() % (max - min + 1) + min.
  */
  function RandIntOf(r: int, min: int, max: int): (v: int)
    requires 0 <= r
    ensures max <= min ==> v == min
    ensures min < max ==> min <= v <= max
  {
    if max > min then r % (max - min + 1) + min else min
  }

  /** Every value of the inclusive range is produced by some draw. */
  lemma {:induction false} RandIntOfCovers(min: int, max: int, v: int)
    requires min < max && min <= v <= max
    ensures RandIntOf(v - min, min, max) == v
  {
    var n := max - min + 1;
    assert 0 <= v - min < n;
    assert (v - min) % n == v - min;
  }

  /** Every element is a possible rand() result. */
  predicate AllInRange(d: seq<int>)
  {
    forall k :: 0 <= k < |d| ==> 0 <= d[k] <= RandMax
  }

  /** The `n` draws of `draws` from position `start` on. */
  function Window(draws: nat -> int, start: nat, n: nat): (d: seq<int>)
    ensures |d| == n
    ensures forall k :: 0 <= k < n ==> d[k] == draws(start + k)
  {
    if n == 0 then [] else Window(draws, start, n - 1) + [draws(start + n - 1)]
  }

  /** The stream of rand() results. */
  class RandSource {
    const draws: nat -> int
    var pos: nat

    /** Every draw lies in [0, RandMax], as rand() guarantees. */
    ghost predicate Valid()
    {
      forall k: nat :: 0 <= draws(k) <= RandMax
    }

    /** The next `n` draws, in the order rand() returns them. */
    function Upcoming(n: nat): (d: seq<int>)
      reads this
      ensures |d| == n
      ensures forall k :: 0 <= k < n ==> d[k] == draws(pos + k)
      ensures Valid() ==> AllInRange(d)
    {
      Window(draws, pos, n)
    }

    constructor (draws: nat -> int)
      ensures this.draws == draws && pos == 0
    {
      this.draws := draws;
      pos := 0;
    }

    /** rand(): the next draw. */
    method Rand() returns (r: int)
      requires Valid()
      modifies this`pos
      ensures r == draws(old(pos)) && pos == old(pos) + 1
      ensures 0 <= r <= RandMax
    {
      r := draws(pos);
      pos := pos + 1;
    }

    /** randFloat(min, max): one draw, scaled into the range. */
    method RandFloat(min: real, max: real) returns (v: real)
      requires Valid()
      modifies this`pos
      ensures pos == old(pos) + 1
      ensures v == RandFloatOf(draws(old(pos)), min, max)
    {
      var r := Rand();
      v := RandFloatOf(r, min, max);
    }

    /** randInt(min, max) of GraphObj.h: draws only when max > min. */
    method RandInt(min: int, max: int) returns (v: int)
      requires Valid()
      modifies this`pos
      ensures pos == old(pos) + (if max > min then 1 else 0)
      ensures v == RandIntOf(draws(old(pos)), min, max)
    {
      if max > min {
        var r := Rand();
        v := r % (max - min + 1) + min;
      } else {
        v := min;
      }
    }
  }
}
