/**
  Vectors, colours, vertex arrays and the trigonometric helpers the game
  objects use (sf::Vector2f, sf::Color, sf::VertexArray and AngleFactors).

  Floating point is modelled by `real`. `sin`, `cos` and `sqrt` are not
  computed: they come in as the function values of a `Math` record, and the
  facts a proof needs about them are stated as predicates on that record.
*/
module Geometry {

  /** sf::Vector2f */
  datatype Vec = Vec(x: real, y: real)

  function Add(a: Vec, b: Vec): Vec { Vec(a.x + b.x, a.y + b.y) }

  function Sub(a: Vec, b: Vec): Vec { Vec(a.x - b.x, a.y - b.y) }

  function Scale(a: Vec, k: real): Vec { Vec(a.x * k, a.y * k) }

  /** Squared Euclidean length. */
  function NormSq(a: Vec): real { a.x * a.x + a.y * a.y }

  const Origin: Vec := Vec(0.0, 0.0)

  /** One 8-bit colour channel of sf::Color. */
  type Channel = c: int | 0 <= c < 256

  /** sf::Color (the alpha channel is always opaque here and is left out). */
  datatype Color = Color(r: Channel, g: Channel, b: Channel)

  const Black: Color := Color(0, 0, 0)
  const White: Color := Color(255, 255, 255)
  const Red: Color := Color(255, 0, 0)
  const Blue: Color := Color(0, 0, 255)
  const LightBlue: Color := Color(0x80, 0x80, 0xFF)
  const Orange: Color := Color(255, 145, 0)
  const LightGray: Color := Color(224, 224, 224)
  const MediumGray: Color := Color(0x80, 0x80, 0x80)
  const DarkGray: Color := Color(0x60, 0x60, 0x60)

  /** The half-intensity shade `sf::Color(c.r / 2, c.g / 2, c.b / 2)`. */
  function Darkened(c: Color): (d: Color)
    ensures d.r <= c.r && d.g <= c.g && d.b <= c.b
    ensures 2 * d.r <= c.r <= 2 * d.r + 1 && 2 * d.g <= c.g <= 2 * d.g + 1 && 2 * d.b <= c.b <= 2 * d.b + 1
  {
    Color(c.r / 2, c.g / 2, c.b / 2)
  }

  /** The primitive type an sf::VertexArray is drawn with. */
  datatype Primitive = Triangles | Quads | TriangleFan

  /** sf::Vertex: a position and a colour. */
  datatype Vertex = Vertex(pos: Vec, color: Color)

  /** GraphObj::Shape: a vertex array and a visibility flag. */
  datatype Shape = Shape(primitive: Primitive, vertices: seq<Vertex>, visible: bool)

  /** The single-precision constant PI of GraphObj.h. */
  const PI: real := 3.1415927

  /** The trigonometric and root functions the game calls, passed in. */
  datatype Math = Math(sin: real -> real, cos: real -> real, sqrt: real -> real)

  /** sin^2 + cos^2 = 1 at every angle. */
  ghost predicate UnitCircle(m: Math)
  {
    forall a :: m.sin(a) * m.sin(a) + m.cos(a) * m.cos(a) == 1.0
  }

  /** `m.sqrt` is the non-negative square root at `x`. */
  predicate SqrtAt(m: Math, x: real)
  {
    0.0 <= m.sqrt(x) && m.sqrt(x) * m.sqrt(x) == x
  }

  /** AngleFactors: the sine and cosine of an angle, computed once. */
  datatype AngleFactors = AngleFactors(sinFactor: real, cosFactor: real)

  function Factors(m: Math, angleRadians: real): AngleFactors
  {
    AngleFactors(m.sin(angleRadians), m.cos(angleRadians))
  }

  /** GraphObj::getDirectionVector: the unit heading (cos a, sin a). */
  function Direction(m: Math, angleRadians: real): (d: Vec)
    ensures UnitCircle(m) ==> NormSq(d) == 1.0
  {
    Vec(m.cos(angleRadians), m.sin(angleRadians))
  }

  /**
    GraphObj::modelToWorld: rotate a model-space point by the angle whose
    factors are given, then translate it by the centre.
  */
  function ModelToWorld(center: Vec, pt: Vec, af: AngleFactors): (w: Vec)
    ensures pt == Origin ==> w == center
    ensures Sub(w, center) == Vec(pt.x * af.cosFactor - pt.y * af.sinFactor,
                                  pt.x * af.sinFactor + pt.y * af.cosFactor)
  {
    Add(center, Vec(pt.x * af.cosFactor - pt.y * af.sinFactor,
                    pt.x * af.sinFactor + pt.y * af.cosFactor))
  }

  /**
    With genuine sine and cosine factors the model-to-world map is rigid:
    the world point lies as far from the centre as the model point lies
    from the model origin.
  */
  lemma {:induction false} ModelToWorldIsRigid(center: Vec, pt: Vec, af: AngleFactors)
    requires af.sinFactor * af.sinFactor + af.cosFactor * af.cosFactor == 1.0
    ensures NormSq(Sub(ModelToWorld(center, pt, af), center)) == NormSq(pt)
  {
    var s, c := af.sinFactor, af.cosFactor;
    var d := Sub(ModelToWorld(center, pt, af), center);
    calc {
      NormSq(d);
      (pt.x * c - pt.y * s) * (pt.x * c - pt.y * s) + (pt.x * s + pt.y * c) * (pt.x * s + pt.y * c);
      pt.x * pt.x * (c * c + s * s) + pt.y * pt.y * (s * s + c * c);
      { assert c * c + s * s == 1.0; }
      pt.x * pt.x + pt.y * pt.y;
    }
  }

  /** A vector scaled by the polar factors of `m` has squared length len^2. */
  lemma {:induction false} PolarLength(m: Math, a: real, len: real)
    requires UnitCircle(m)
    ensures NormSq(Vec(m.cos(a) * len, m.sin(a) * len)) == len * len
  {
    var c, s := m.cos(a), m.sin(a);
    assert s * s + c * c == 1.0;
    calc {
      NormSq(Vec(c * len, s * len));
      (c * len) * (c * len) + (s * len) * (s * len);
      len * len * (s * s + c * c);
      len * len;
    }
  }
}
