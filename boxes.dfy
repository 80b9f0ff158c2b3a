/** Axis-aligned bounding boxes and the overlap test every entity of the game shares
    (`Personaje.colisionaCon`). Coordinates are pixels, origin top-left, y growing downwards. */
module Boxes {

  /** A box with its top-left corner at (x, y). */
  datatype Box = Box(x: real, y: real, width: real, height: real)
  {
    /** Every entity of the game has a positive width and height. */
    predicate Proper() {
      width > 0.0 && height > 0.0
    }

    /** The point (px, py) lies in the open interior of the box. */
    predicate Contains(px: real, py: real) {
      x < px < x + width && y < py < y + height
    }
  }

  /** `colisionaCon`: the two boxes overlap on both axes, with strict inequalities. */
  predicate Collides(a: Box, b: Box) {
    a.x < b.x + b.width &&
    a.x + a.width > b.x &&
    a.y < b.y + b.height &&
    a.y + a.height > b.y
  }

  function Max(a: real, b: real): real { if a < b then b else a }
  function Min(a: real, b: real): real { if a < b then a else b }

  /** The test does not depend on which of the two boxes asks. */
  lemma CollidesSymmetric(a: Box, b: Box)
    ensures Collides(a, b) == Collides(b, a)
  {
  }

  /** Boxes that only share an edge (or lie further apart) do not collide. */
  lemma EdgeContactIsNoCollision(a: Box, b: Box)
    requires b.x >= a.x + a.width || b.x + b.width <= a.x ||
             b.y >= a.y + a.height || b.y + b.height <= a.y
    ensures !Collides(a, b) && !Collides(b, a)
  {
  }

  /** Reference meaning of the test: two proper boxes collide exactly when some point lies
      strictly inside both of them. */
  lemma CollidesIffCommonInteriorPoint(a: Box, b: Box)
    requires a.Proper() && b.Proper()
    ensures Collides(a, b) <==> exists px: real, py: real :: a.Contains(px, py) && b.Contains(px, py)
  {
    if Collides(a, b) {
      var px := (Max(a.x, b.x) + Min(a.x + a.width, b.x + b.width)) / 2.0;
      var py := (Max(a.y, b.y) + Min(a.y + a.height, b.y + b.height)) / 2.0;
      assert a.Contains(px, py) && b.Contains(px, py);
    }
    if exists px: real, py: real :: a.Contains(px, py) && b.Contains(px, py) {
      var px: real, py: real :| a.Contains(px, py) && b.Contains(px, py);
      assert a.x < px < b.x + b.width && b.x < px < a.x + a.width;
    }
  }
}
