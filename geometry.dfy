/**
 * The playfield of the runner: the canvas, the player's fixed box, the sizes
 * of the three kinds of scrolling entity, and the box-overlap test that the
 * collision pass uses for platforms and obstacles.
 *
 * Positions and speeds are exact reals; the game itself computes with IEEE
 * doubles, whose rounding is not modelled.
 */
module Geometry {

  const CanvasWidth: real := 400.0
  const CanvasHeight: real := 600.0

  /** The player's box: fixed column, square, falling under gravity and jumping with lift. */
  const PlayerX: real := 200.0
  const PlayerSize: real := 20.0
  const StartY: real := 300.0
  const Gravity: real := 0.6
  const Lift: real := -10.0

  const PlatformWidth: real := 80.0
  const PlatformHeight: real := 10.0
  const OrbRadius: real := 10.0
  const ObstacleSize: real := 30.0

  /**
   * One entity of a scrolling pool. For platforms and obstacles (x, y) is the
   * top-left corner of the box; for orbs it is the centre of the circle.
   */
  datatype Body = Body(x: real, y: real)

  /**
   * Two axis-aligned boxes, given by top-left corner, width and height,
   * overlap: on each axis each one starts strictly before the other ends.
   */
  predicate Overlap(x1: real, y1: real, w1: real, h1: real,
                    x2: real, y2: real, w2: real, h2: real)
  {
    x1 < x2 + w2 && x1 + w1 > x2 && y1 + h1 > y2 && y1 < y2 + h2
  }

  /** The point (px, py) lies in the open interior of the box. */
  predicate Inside(px: real, py: real, x: real, y: real, w: real, h: real)
  {
    x < px < x + w && y < py < y + h
  }

  /**
   * The four comparisons of Overlap say exactly that the open interiors of
   * the two boxes share a point.
   */
  lemma OverlapMeansSharedPoint(x1: real, y1: real, w1: real, h1: real,
                                x2: real, y2: real, w2: real, h2: real)
    requires w1 > 0.0 && h1 > 0.0 && w2 > 0.0 && h2 > 0.0
    ensures Overlap(x1, y1, w1, h1, x2, y2, w2, h2) <==>
            exists px, py :: Inside(px, py, x1, y1, w1, h1) && Inside(px, py, x2, y2, w2, h2)
  {
    if Overlap(x1, y1, w1, h1, x2, y2, w2, h2) {
      var left := if x1 < x2 then x2 else x1;
      var right := if x1 + w1 < x2 + w2 then x1 + w1 else x2 + w2;
      var top := if y1 < y2 then y2 else y1;
      var bottom := if y1 + h1 < y2 + h2 then y1 + h1 else y2 + h2;
      var px, py := (left + right) / 2.0, (top + bottom) / 2.0;
      assert Inside(px, py, x1, y1, w1, h1) && Inside(px, py, x2, y2, w2, h2);
    }
  }
}
