/** Plane geometry of the play field: vectors, axis-aligned rectangles and
    their overlap test. Coordinates are exact reals; the canvas origin is the
    top-left corner and y grows downwards. */
module Geometry {

  /** Size of the play field in pixels. */
  const CanvasWidth: int := 480
  const CanvasHeight: int := 720

  datatype Vec2 = Vec2(x: real, y: real)

  /** `position` is the corner with the smallest coordinates, `size` the
      width and height. */
  datatype Rect = Rect(position: Vec2, size: Vec2)

  const Origin := Vec2(0.0, 0.0)

  /** Two open intervals, starting at `a` and `b` with lengths `s` and `t`,
      share a point. */
  predicate SpansOverlap(a: real, s: real, b: real, t: real)
  {
    a < b + t && b < a + s
  }

  /** The overlap test of the game, conjunct for conjunct: the rectangles'
      x-spans overlap and their y-spans overlap, which needs a positive
      combined width and height. */
  function RectOverlap(r1: Rect, r2: Rect): (r: bool)
    ensures r <==> && SpansOverlap(r1.position.x, r1.size.x, r2.position.x, r2.size.x)
                   && SpansOverlap(r1.position.y, r1.size.y, r2.position.y, r2.size.y)
    ensures r ==> r1.size.x + r2.size.x > 0.0 && r1.size.y + r2.size.y > 0.0
  {
    && r1.position.x + r1.size.x > r2.position.x
    && r1.position.x < r2.position.x + r2.size.x
    && r1.position.y + r1.size.y > r2.position.y
    && r1.position.y < r2.size.y + r2.position.y
  }

  /** A point strictly inside a rectangle. */
  predicate Inside(p: Vec2, r: Rect)
  {
    && r.position.x < p.x < r.position.x + r.size.x
    && r.position.y < p.y < r.position.y + r.size.y
  }

  predicate HasPositiveSize(r: Rect)
  {
    r.size.x > 0.0 && r.size.y > 0.0
  }

  function MaxReal(a: real, b: real): real { if a < b then b else a }
  function MinReal(a: real, b: real): real { if a < b then a else b }

  /** The overlap test means what it says: two rectangles of positive size
      overlap exactly when some point lies strictly inside both. */
  lemma OverlapIffCommonPoint(r1: Rect, r2: Rect)
    requires HasPositiveSize(r1) && HasPositiveSize(r2)
    ensures RectOverlap(r1, r2) <==> exists p: Vec2 :: Inside(p, r1) && Inside(p, r2)
  {
    if RectOverlap(r1, r2) {
      var lowX := MaxReal(r1.position.x, r2.position.x);
      var highX := MinReal(r1.position.x + r1.size.x, r2.position.x + r2.size.x);
      var lowY := MaxReal(r1.position.y, r2.position.y);
      var highY := MinReal(r1.position.y + r1.size.y, r2.position.y + r2.size.y);
      var p := Vec2((lowX + highX) / 2.0, (lowY + highY) / 2.0);
      assert Inside(p, r1) && Inside(p, r2);
    }
  }

  /** The four conjuncts swap pairwise, so the test is symmetric. */
  lemma OverlapSymmetric(r1: Rect, r2: Rect)
    ensures RectOverlap(r1, r2) == RectOverlap(r2, r1)
  {
  }

  /** A bird-sized square high above the ground strip does not touch it;
      lowered to y = 645 it does. */
  lemma BirdAgainstGroundExample()
    ensures !RectOverlap(Rect(Vec2(192.0, 21.0), Vec2(21.0, 21.0)), Rect(Vec2(0.0, 660.0), Vec2(480.0, 60.0)))
    ensures RectOverlap(Rect(Vec2(192.0, 645.0), Vec2(21.0, 21.0)), Rect(Vec2(0.0, 660.0), Vec2(480.0, 60.0)))
  {
  }
}
