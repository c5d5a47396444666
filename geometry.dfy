// Screen geometry shared by all entities: vectors, rectangles, the viewport,
// screen wrap, rotation and the radius collision test.

module Geometry {
  import opened Numerics

  /** XNA Vector2, over the reals. */
  datatype Vec = Vec(x: real, y: real)
  {
    function Plus(d: Vec): Vec {
      Vec(x + d.x, y + d.y)
    }
    function Negated(): Vec {
      Vec(-x, -y)
    }
  }

  const Zero: Vec := Vec(0.0, 0.0)

  /** XNA Rectangle: integer corner and size. */
  datatype Rect = Rect(x: int, y: int, width: int, height: int)

  /** The graphics viewport together with its title-safe area. */
  datatype Viewport = Viewport(x: int, y: int, width: int, height: int, titleSafeArea: Rect)

  /** A viewport of a real display, which always has at least one pixel in each direction. */
  type Screen = v: Viewport | v.width >= 1 && v.height >= 1
    witness Viewport(0, 0, 1, 1, Rect(0, 0, 1, 1))

  // ---------------------------------------------------------------- wrap

  /**
   * One coordinate of the screen wrap: a value at or below zero is first moved
   * to the far edge (extent - 1), then the value is reduced modulo the extent,
   * which always lands in [0, extent).
   */
  function WrapAxis(v: real, extent: int): (w: real)
    requires extent >= 1
    ensures 0.0 <= w < extent as real
  {
    var start := if v <= 0.0 then (extent - 1) as real else v;
    FloatRem(start, extent)
  }

  /** The screen wrap of both coordinates, which always lands on the screen. */
  function WrapPosition(p: Vec, screen: Screen): (q: Vec)
    ensures 0.0 <= q.x < screen.width as real && 0.0 <= q.y < screen.height as real
  {
    Vec(WrapAxis(p.x, screen.width), WrapAxis(p.y, screen.height))
  }

  /** A coordinate at or below zero reappears at the far edge, extent - 1. */
  lemma WrapAxisNonPositive(v: real, extent: int)
    requires extent >= 1 && v <= 0.0
    ensures WrapAxis(v, extent) == (extent - 1) as real
  {
    FloatRemBelow((extent - 1) as real, extent);
  }

  /** A positive coordinate keeps its place modulo the extent. */
  lemma WrapAxisPositive(v: real, extent: int)
    requires extent >= 1 && v > 0.0
    ensures v == ((v.Floor / extent) * extent) as real + WrapAxis(v, extent)
  {
    FloatRemSpec(v, extent);
  }

  /**
   * Wrapping leaves a coordinate unchanged exactly when it lies strictly inside
   * (0, extent), or it is 0 on a one-pixel-wide screen (where extent - 1 is 0 again).
   */
  lemma WrapAxisFixed(v: real, extent: int)
    requires extent >= 1
    ensures WrapAxis(v, extent) == v <==> (0.0 < v < extent as real) || (v == 0.0 && extent == 1)
  {
    if v <= 0.0 {
      WrapAxisNonPositive(v, extent);
    } else if v < extent as real {
      FloatRemBelow(v, extent);
    }
  }

  /** A position strictly inside the screen is left where it is. */
  lemma WrapPositionInside(p: Vec, screen: Screen)
    requires 0.0 < p.x < screen.width as real && 0.0 < p.y < screen.height as real
    ensures WrapPosition(p, screen) == p
  {
    WrapAxisFixed(p.x, screen.width);
    WrapAxisFixed(p.y, screen.height);
  }

  // ------------------------------------------------------------ rotation

  /**
   * Entity.Rotate: a positive sum is reduced modulo 360; otherwise the result is
   * 360 + angle, whatever the old rotation was.
   */
  function RotateAngle(rotation: real, angle: real): (r: real)
    ensures rotation + angle > 0.0 ==> 0.0 <= r < 360.0
  {
    var next := rotation + angle;
    if next > 0.0 then FloatRem(next, 360) else 360.0 + angle
  }

  /** A positive sum is reduced into [0, 360) and keeps its value modulo 360. */
  lemma RotatePositive(rotation: real, angle: real)
    requires rotation + angle > 0.0
    ensures var r := RotateAngle(rotation, angle);
      0.0 <= r < 360.0 &&
      rotation + angle == (((rotation + angle).Floor / 360) * 360) as real + r
  {
    FloatRemSpec(rotation + angle, 360);
  }

  /** A non-positive sum ignores the old rotation: 3 + (-5) gives 355, not 358. */
  lemma RotateNonPositive(rotation: real, angle: real)
    requires rotation + angle <= 0.0
    ensures RotateAngle(rotation, angle) == 360.0 + angle
    ensures RotateAngle(3.0, -5.0) == 355.0
  {
  }

  /**
   * From a rotation in [0, 360) and a turn of less than a full circle, the result
   * lies in [0, 360], and it is 360 exactly when rotating a zero rotation by zero.
   */
  lemma RotateRange(rotation: real, angle: real)
    requires 0.0 <= rotation < 360.0 && -360.0 < angle < 360.0
    ensures 0.0 <= RotateAngle(rotation, angle) <= 360.0
    ensures RotateAngle(rotation, angle) == 360.0 <==> rotation == 0.0 && angle == 0.0
  {
    if rotation + angle > 0.0 {
      RotatePositive(rotation, angle);
    }
  }

  // ------------------------------------------------------------ collision

  /** `Radius`: half the larger side, by integer division. */
  function Radius(width: int, height: int): (r: int)
    ensures width >= 0 && height >= 0 ==>
      var side := if width > height then width else height;
      0 <= 2 * r <= side < 2 * r + 2
  {
    if width > height then Div(width, 2) else Div(height, 2)
  }

  /** A 5x5 bullet has radius 2 and a 75x30 ship radius 37. */
  lemma RadiusExamples()
    ensures Radius(5, 5) == 2 && Radius(75, 30) == 37
  {
  }

  /** `CenterPosition`: the position shifted back by the integer half-sizes. */
  function Center(p: Vec, width: int, height: int): Vec {
    Vec(p.x - Div(width, 2) as real, p.y - Div(height, 2) as real)
  }

  /** `Bounds`: the position truncated to ints, with the frame size. */
  function Bounds(p: Vec, width: int, height: int): (b: Rect)
    ensures b.width == width && b.height == height
    ensures p.x >= 0.0 && p.y >= 0.0 ==>
      b.x as real <= p.x < b.x as real + 1.0 && b.y as real <= p.y < b.y as real + 1.0
  {
    Rect(Truncate(p.x), Truncate(p.y), width, height)
  }

  /** The squared distance between two points. */
  function DistSq(a: Vec, b: Vec): real {
    (a.x - b.x) * (a.x - b.x) + (a.y - b.y) * (a.y - b.y)
  }

  lemma DistSqSymmetric(a: Vec, b: Vec)
    ensures DistSq(a, b) == DistSq(b, a)
  {
    assert (a.x - b.x) * (a.x - b.x) == (b.x - a.x) * (b.x - a.x);
    assert (a.y - b.y) * (a.y - b.y) == (b.y - a.y) * (b.y - a.y);
  }

  /**
   * `distance < ra || distance < rb`, stated on the squared distance so that no
   * square root is needed.
   */
  predicate Collides(distSq: real, ra: int, rb: int): (hit: bool)
    ensures ra <= 0 && rb <= 0 ==> !hit
  {
    (ra > 0 && distSq < (ra * ra) as real) || (rb > 0 && distSq < (rb * rb) as real)
  }

  lemma ScaleBelow(m: real, a: real, b: real)
    requires m > 0.0 && a < b
    ensures m * a < m * b
  {
    assert m * b - m * a == m * (b - a);
  }

  lemma ScaleAtMost(m: real, a: real, b: real)
    requires m >= 0.0 && a <= b
    ensures m * a <= m * b
  {
    assert m * b - m * a == m * (b - a);
  }

  /** For a distance d >= 0: d < r iff r is positive and d * d < r * r. */
  lemma BelowRadius(d: real, r: int)
    requires d >= 0.0
    ensures d < r as real <==> r > 0 && d * d < (r * r) as real
  {
    var rr := r as real;
    assert (r * r) as real == rr * rr;
    if d < rr {
      ScaleAtMost(d, d, rr);
      ScaleBelow(rr, d, rr);
    } else if r > 0 {
      ScaleAtMost(d, rr, d);
      ScaleAtMost(rr, rr, d);
    }
  }

  /**
   * The squared test agrees with the source's test on the distance itself: for
   * any d >= 0 whose square is the squared distance, the pair collides iff
   * d < ra or d < rb.
   */
  lemma CollidesIffWithinRadius(d: real, ra: int, rb: int)
    requires d >= 0.0
    ensures Collides(d * d, ra, rb) <==> d < ra as real || d < rb as real
  {
    BelowRadius(d, ra);
    BelowRadius(d, rb);
  }

  /** The radius test does not depend on which of the two is asked. */
  lemma CollidesSymmetric(distSq: real, ra: int, rb: int)
    ensures Collides(distSq, ra, rb) == Collides(distSq, rb, ra)
  {
  }
}
