/** Axis-aligned rectangles and the overlap test used for every collision. */
module Geometry {
  import opened JsMath

  /** A rectangle by its top-left corner and its extent (y grows downwards). */
  datatype Box = Box(x: real, y: real, width: real, height: real)

  /** boxCollision: open-interval overlap on both axes, so boxes that only
      share an edge do not collide. */
  function BoxCollision(a: Box, b: Box): (hit: bool)
    ensures (a.x + a.width == b.x || b.x + b.width == a.x ||
             a.y + a.height == b.y || b.y + b.height == a.y) ==> !hit
  {
    a.x < b.x + b.width &&
    a.x + a.width > b.x &&
    a.y < b.y + b.height &&
    a.y + a.height > b.y
  }

  lemma CollisionSymmetric(a: Box, b: Box)
    ensures BoxCollision(a, b) == BoxCollision(b, a)
  {
  }

  /** A box with a non-empty interior. */
  predicate Proper(b: Box)
  {
    b.width > 0.0 && b.height > 0.0
  }

  /** The point (px, py) lies strictly inside b. */
  predicate Inside(b: Box, px: real, py: real)
  {
    b.x < px < b.x + b.width && b.y < py < b.y + b.height
  }

  /** For boxes with an interior, the overlap test holds exactly when some
      point lies strictly inside both boxes. */
  lemma CollisionIffCommonInterior(a: Box, b: Box)
    requires Proper(a) && Proper(b)
    ensures BoxCollision(a, b) <==> exists px, py :: Inside(a, px, py) && Inside(b, px, py)
  {
    if BoxCollision(a, b) {
      var px := (Max(a.x, b.x) + Min(a.x + a.width, b.x + b.width)) / 2.0;
      var py := (Max(a.y, b.y) + Min(a.y + a.height, b.y + b.height)) / 2.0;
      assert Inside(a, px, py) && Inside(b, px, py);
    }
  }
}
