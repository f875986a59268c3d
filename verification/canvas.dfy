/** Canvas planning shared by `calculateOutputBounds` and the two `performStitchingDirect`
    variants: a bounding box seeded with the first image's rectangle and widened by the
    projected corners of the second, a translation of its minimum corner to the origin,
    and a padded size. Coordinates are exact reals; the `float` rounding of the source is
    not modelled. */
module Canvas {
  import opened Geometry
  import opened Floats
  import Config

  datatype Box = Box(minX: real, maxX: real, minY: real, maxY: real)

  predicate Contains(b: Box, p: Point)
  {
    b.minX <= p.x <= b.maxX && b.minY <= p.y <= b.maxY
  }

  /** The corners of a `cols` × `rows` image in the order the source lists them:
      (0,0), (cols,0), (cols,rows), (0,rows). */
  function Corners(cols: nat, rows: nat): (c: seq<Point>)
    ensures |c| == 4
    ensures forall k :: 0 <= k < 4 ==> c[k].x in {0.0, cols as real} && c[k].y in {0.0, rows as real}
  {
    [Point(0.0, 0.0), Point(cols as real, 0.0), Point(cols as real, rows as real), Point(0.0, rows as real)]
  }

  /** `std::min` and `std::max` on the running box. */
  function Widen(b: Box, p: Point): Box
  {
    Box(if p.x < b.minX then p.x else b.minX,
        if b.maxX < p.x then p.x else b.maxX,
        if p.y < b.minY then p.y else b.minY,
        if b.maxY < p.y then p.y else b.maxY)
  }

  /** The box seeded with [0, cols] × [0, rows] and widened by every point of `pts` in
      turn. It contains the seed and every point, and each of its sides is either a seed
      side or a coordinate of one of the points, so no smaller box has both properties. */
  function Bound(cols: nat, rows: nat, pts: seq<Point>): (b: Box)
    ensures b.minX <= 0.0 && b.minY <= 0.0 && b.maxX >= cols as real && b.maxY >= rows as real
    ensures forall k :: 0 <= k < |pts| ==> Contains(b, pts[k])
    ensures b.minX == 0.0 || exists k :: 0 <= k < |pts| && pts[k].x == b.minX
    ensures b.maxX == cols as real || exists k :: 0 <= k < |pts| && pts[k].x == b.maxX
    ensures b.minY == 0.0 || exists k :: 0 <= k < |pts| && pts[k].y == b.minY
    ensures b.maxY == rows as real || exists k :: 0 <= k < |pts| && pts[k].y == b.maxY
    decreases |pts|
  {
    if |pts| == 0 then Box(0.0, cols as real, 0.0, rows as real)
    else
      var prev := Bound(cols, rows, pts[..|pts| - 1]);
      assert forall k :: 0 <= k < |pts| - 1 ==> pts[..|pts| - 1][k] == pts[k];
      Widen(prev, pts[|pts| - 1])
  }

  /** The translation matrix `[1 0 -min_x; 0 1 -min_y; 0 0 1]` applied to a point. */
  function Translate(b: Box, p: Point): (q: Point)
    ensures Contains(b, p) ==> 0.0 <= q.x <= b.maxX - b.minX && 0.0 <= q.y <= b.maxY - b.minY
    ensures q.x + b.minX == p.x && q.y + b.minY == p.y
  {
    Point(p.x - b.minX, p.y - b.minY)
  }

  /** `static_cast<int>(extent) + PANORAMA_PADDING * 2`, the canvas side of the stitching
      pipeline. */
  function PaddedSide(extent: real): (side: int)
    requires extent >= 0.0
    ensures side >= 2 * Config.PANORAMA_PADDING
    ensures extent < side as real
  {
    Trunc(extent) + Config.PANORAMA_PADDING * 2
  }

  /** Every point the box contains, once translated, falls on a pixel of the padded
      canvas: translation sends the minimum corner to the origin, and the padding only
      enlarges the size. */
  lemma {:induction false} TranslatedPointsOnCanvas(cols: nat, rows: nat, pts: seq<Point>, p: Point)
    requires Contains(Bound(cols, rows, pts), p)
    ensures var b := Bound(cols, rows, pts);
            var q := Translate(b, p);
            && 0.0 <= q.x < PaddedSide(b.maxX - b.minX) as real
            && 0.0 <= q.y < PaddedSide(b.maxY - b.minY) as real
            && q.x == p.x - b.minX && q.y == p.y - b.minY
  {
    var b := Bound(cols, rows, pts);
    var q := Translate(b, p);
    assert q.x <= b.maxX - b.minX < PaddedSide(b.maxX - b.minX) as real;
    assert q.y <= b.maxY - b.minY < PaddedSide(b.maxY - b.minY) as real;
  }
}
