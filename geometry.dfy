/**
 * Axis-aligned bounding boxes and the entity overlap test
 * (static/js/game.js: checkCollision).
 */
module Geometry {
  import opened Wrappers

  /**
   * A box as checkCollision sees an entity: position, size and an optional render
   * scale. None stands for an entity without a `scale` field.
   */
  datatype Box = Box(x: real, y: real, width: real, height: real, scale: Option<real>)

  /** `(b.scale || 1)`: a missing scale and a scale of 0 both count as 1. */
  function ScaleOf(scale: Option<real>): real {
    match scale
    case None => 1.0
    case Some(s) => if s == 0.0 then 1.0 else s
  }

  function Right(b: Box): real {
    b.x + b.width * ScaleOf(b.scale)
  }

  function Bottom(b: Box): real {
    b.y + b.height * ScaleOf(b.scale)
  }

  /** checkCollision: the scaled boxes overlap, with strict inequalities on both axes. */
  predicate Overlaps(a: Box, b: Box) {
    a.x < Right(b) && Right(a) > b.x && a.y < Bottom(b) && Bottom(a) > b.y
  }

  /** A box whose scaled sides are positive. */
  predicate Proper(b: Box) {
    b.x < Right(b) && b.y < Bottom(b)
  }

  /** A point strictly inside a box. */
  predicate Inside(b: Box, px: real, py: real) {
    b.x < px < Right(b) && b.y < py < Bottom(b)
  }

  /** Overlap does not depend on the order of the arguments. */
  lemma OverlapsSymmetric(a: Box, b: Box)
    ensures Overlaps(a, b) <==> Overlaps(b, a)
  {
  }

  /** Boxes that only share an edge, horizontally or vertically, do not overlap. */
  lemma TouchingBoxesDoNotOverlap(a: Box, b: Box)
    requires Right(a) == b.x || Bottom(a) == b.y || Right(b) == a.x || Bottom(b) == a.y
    ensures !Overlaps(a, b) && !Overlaps(b, a)
  {
  }

  /** For proper boxes the test means what it should: the two boxes share an interior point. */
  lemma {:induction false} OverlapsIffCommonPoint(a: Box, b: Box)
    requires Proper(a) && Proper(b)
    ensures Overlaps(a, b) <==> exists px, py :: Inside(a, px, py) && Inside(b, px, py)
  {
    if Overlaps(a, b) {
      var left := if a.x < b.x then b.x else a.x;
      var right := if Right(a) < Right(b) then Right(a) else Right(b);
      var top := if a.y < b.y then b.y else a.y;
      var bottom := if Bottom(a) < Bottom(b) then Bottom(a) else Bottom(b);
      var px, py := (left + right) / 2.0, (top + bottom) / 2.0;
      assert Inside(a, px, py) && Inside(b, px, py);
    }
  }
}
