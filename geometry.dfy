/**
 * The logical playfield and the one collision test every pass uses:
 * half-open axis-aligned box overlap.
 */
module Geometry {

  /** Logical playfield width and height (`GAME_W`, `GAME_H`). */
  const GameW: real := 500.0
  const GameH: real := 600.0

  /** An axis-aligned box: top-left corner, width and height. */
  datatype Rect = Rect(x: real, y: real, w: real, h: real)

  /** Strict overlap on both axes: boxes that only share an edge do not overlap. */
  predicate Overlaps(a: Rect, b: Rect)
  {
    a.x < b.x + b.w && a.x + a.w > b.x && a.y < b.y + b.h && a.y + a.h > b.y
  }

  lemma OverlapsSymmetric(a: Rect, b: Rect)
    ensures Overlaps(a, b) <==> Overlaps(b, a)
  {
  }

  /** Touching along a vertical or a horizontal edge is not a collision. */
  lemma EdgeContactIsNoOverlap(a: Rect, b: Rect)
    requires a.x + a.w == b.x || b.x + b.w == a.x || a.y + a.h == b.y || b.y + b.h == a.y
    ensures !Overlaps(a, b)
  {
  }
}
