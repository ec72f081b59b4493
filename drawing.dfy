/**
 * The corner clamp of draw_bb_on_image: integer pixel corners of a box are
 * reported when they leave the image and are then pulled to its edges, one
 * corner at a time, before the rectangle is drawn.
 */
module Drawing {
  /** Integer pixel corners of a box. */
  datatype Corners = Corners(xmin: int, ymin: int, xmax: int, ymax: int)

  /** The test that prints the "Box out of bounds" diagnostic. */
  predicate OutOfBounds(b: Corners, width: int, height: int) {
    b.xmax >= width || b.ymax >= height || b.xmin < 0 || b.ymin < 0
  }

  /**
   * The corners after clamping. Every corner lands inside the image on the
   * side it is tested against, and moves only inwards; a corner is kept
   * exactly when it passes its own test; the clamped box never fails the
   * diagnostic test, and it equals the input exactly when the input passes it.
   */
  function Clamp(b: Corners, width: int, height: int): (r: Corners)
    ensures r.xmin >= 0 && r.ymin >= 0 && r.xmax <= width - 1 && r.ymax <= height - 1
    ensures r.xmin >= b.xmin && r.ymin >= b.ymin && r.xmax <= b.xmax && r.ymax <= b.ymax
    ensures (r.xmin == b.xmin <==> b.xmin >= 0) && (r.ymin == b.ymin <==> b.ymin >= 0)
    ensures (r.xmax == b.xmax <==> b.xmax < width) && (r.ymax == b.ymax <==> b.ymax < height)
    ensures !OutOfBounds(r, width, height)
    ensures r == b <==> !OutOfBounds(b, width, height)
  {
    Corners(
      if b.xmin < 0 then 0 else b.xmin,
      if b.ymin < 0 then 0 else b.ymin,
      if b.xmax >= width then width - 1 else b.xmax,
      if b.ymax >= height then height - 1 else b.ymax)
  }

  /** The report and the four reassignments, in the order of the script. */
  method ClampCorners(b: Corners, width: int, height: int) returns (r: Corners, outOfBounds: bool)
    ensures outOfBounds == OutOfBounds(b, width, height)
    ensures r == Clamp(b, width, height)
  {
    var xmin, ymin, xmax, ymax := b.xmin, b.ymin, b.xmax, b.ymax;
    outOfBounds := xmax >= width || ymax >= height || xmin < 0 || ymin < 0;
    xmax := if xmax >= width then width - 1 else xmax;
    ymax := if ymax >= height then height - 1 else ymax;
    xmin := if xmin < 0 then 0 else xmin;
    ymin := if ymin < 0 then 0 else ymin;
    r := Corners(xmin, ymin, xmax, ymax);
  }

  /** Clamping twice is clamping once. */
  lemma ClampIdempotent(b: Corners, width: int, height: int)
    ensures Clamp(Clamp(b, width, height), width, height) == Clamp(b, width, height)
  {
    var r := Clamp(b, width, height);
    assert !OutOfBounds(r, width, height);
  }

  /**
   * Scenario: a box lying wholly to the right of and below the image keeps
   * its top-left corner, which stays outside the image, while its
   * bottom-right corner is pulled to the last pixel, so the drawn corners
   * are inverted.
   */
  lemma BoxBeyondImage(b: Corners, width: int, height: int)
    requires 0 <= width <= b.xmin <= b.xmax && 0 <= height <= b.ymin <= b.ymax
    ensures OutOfBounds(b, width, height)
    ensures Clamp(b, width, height) == Corners(b.xmin, b.ymin, width - 1, height - 1)
    ensures Clamp(b, width, height).xmin > Clamp(b, width, height).xmax
  {
  }
}
