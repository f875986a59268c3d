/** Points and 3x3 projective matrices (`cv::Point2f`, `cv::Mat` of doubles). */
module Geometry {
  import opened Floats
  import opened Wrappers

  datatype Point = Point(x: real, y: real)

  /** Nine entries in row-major order. */
  type Entries = s: seq<Flt> | |s| == 9
    witness [Fin(1.0), Fin(0.0), Fin(0.0), Fin(0.0), Fin(1.0), Fin(0.0), Fin(0.0), Fin(0.0), Fin(1.0)]

  /** A homography as OpenCV returns it: possibly the empty matrix. */
  datatype Matrix = Empty | Mat(e: Entries)

  /** No entry is NaN or infinite (the `std::isnan || std::isinf` scans). */
  predicate AllFinite(h: Matrix)
    requires h.Mat?
  {
    forall k :: 0 <= k < 9 ==> h.e[k].Fin?
  }

  /** Entry (i, j) of a matrix whose entries are all finite. */
  function At(h: Matrix, i: nat, j: nat): real
    requires h.Mat? && AllFinite(h) && i < 3 && j < 3
  {
    h.e[3 * i + j].v
  }

  function RealDet(h: Matrix): real
    requires h.Mat? && AllFinite(h)
  {
    At(h, 0, 0) * (At(h, 1, 1) * At(h, 2, 2) - At(h, 1, 2) * At(h, 2, 1))
    - At(h, 0, 1) * (At(h, 1, 0) * At(h, 2, 2) - At(h, 1, 2) * At(h, 2, 0))
    + At(h, 0, 2) * (At(h, 1, 0) * At(h, 2, 1) - At(h, 1, 1) * At(h, 2, 0))
  }

  /** `cv::determinant` of a 3x3 matrix: OpenCV's cofactor expansion along the first row,
      evaluated in IEEE arithmetic. A NaN or infinite entry always makes it non-finite. */
  function Det(h: Matrix): (d: Flt)
    requires h.Mat?
    ensures d.Fin? <==> AllFinite(h)
    ensures AllFinite(h) ==> d == Fin(RealDet(h))
  {
    var e := h.e;
    Add(Sub(Mul(e[0], Sub(Mul(e[4], e[8]), Mul(e[5], e[7]))),
            Mul(e[1], Sub(Mul(e[3], e[8]), Mul(e[5], e[6])))),
        Mul(e[2], Sub(Mul(e[3], e[7]), Mul(e[4], e[6]))))
  }

  /** Row `i` of `H * (p.x, p.y, 1)` in IEEE arithmetic. */
  function Row(h: Matrix, i: nat, p: Point): (r: Flt)
    requires h.Mat? && i < 3
    ensures r.Fin? <==> h.e[3 * i].Fin? && h.e[3 * i + 1].Fin? && h.e[3 * i + 2].Fin?
    ensures r.Fin? ==> r.v == h.e[3 * i].v * p.x + h.e[3 * i + 1].v * p.y + h.e[3 * i + 2].v
  {
    Add(Add(Mul(h.e[3 * i], Fin(p.x)), Mul(h.e[3 * i + 1], Fin(p.y))), Mul(h.e[3 * i + 2], Fin(1.0)))
  }

  /** Row `i` of `H * (p.x, p.y, 1)` for a finite matrix, in exact arithmetic. */
  function RealRow(h: Matrix, i: nat, p: Point): real
    requires h.Mat? && AllFinite(h) && i < 3
  {
    At(h, i, 0) * p.x + At(h, i, 1) * p.y + At(h, i, 2)
  }

  function Square(x: real): (r: real)
    ensures r >= 0.0
  {
    x * x
  }

  /** The squared distance between the homogeneous point `(u, v, w)` (after the
      division by `w`) and `p2`, or None when `w` has magnitude below 1e-10. */
  function ProjectedResidual(u: real, v: real, w: real, p2: Point): (r: Option<real>)
    ensures r.None? <==> -0.0000000001 < w < 0.0000000001
    ensures r.Some? ==> r.value >= 0.0
  {
    if (if w < 0.0 then -w else w) < 0.0000000001 then None
    else Some(Square(u / w - p2.x) + Square(v / w - p2.y))
  }

  /** The residual of a finite matrix in exact arithmetic. */
  function RealResidual(h: Matrix, p1: Point, p2: Point): Option<real>
    requires h.Mat? && AllFinite(h)
  {
    ProjectedResidual(RealRow(h, 0, p1), RealRow(h, 1, p1), RealRow(h, 2, p1), p2)
  }

  /** The squared reprojection distance of `findInliers` in IEEE arithmetic, or None
      when the homogeneous weight is below 1e-10 in magnitude (a NaN weight is not).
      On a finite matrix it is the exact residual; otherwise it may be NaN, +infinity,
      or even finite (an infinite weight sends the projection to the origin). */
  function SquaredResidual(h: Matrix, p1: Point, p2: Point): (r: Option<Flt>)
    requires h.Mat?
    ensures r.Some? ==> !r.value.NegInf? && (r.value.Fin? ==> r.value.v >= 0.0)
    ensures Row(h, 2, p1).NaN? ==> r == Some(NaN)
  {
    var w := Row(h, 2, p1);
    if Lt(Abs(w), Fin(0.0000000001)) then None
    else
      var dx := Sub(Div(Row(h, 0, p1), w), Fin(p2.x));
      var dy := Sub(Div(Row(h, 1, p1), w), Fin(p2.y));
      Some(NormSq(dx, dy))
  }

  /** On a finite matrix the IEEE residual is the exact one. */
  lemma FiniteResidualIsExact(h: Matrix, p1: Point, p2: Point)
    requires h.Mat? && AllFinite(h)
    ensures SquaredResidual(h, p1, p2).None? <==> RealResidual(h, p1, p2).None?
    ensures SquaredResidual(h, p1, p2).Some? ==>
              SquaredResidual(h, p1, p2).value == Fin(RealResidual(h, p1, p2).value)
  {
    FiniteRows(h, p1);
    var ur, vr, wr := RealRow(h, 0, p1), RealRow(h, 1, p1), RealRow(h, 2, p1);
    if !((if wr < 0.0 then -wr else wr) < 0.0000000001) {
      var dx, dy := ur / wr - p2.x, vr / wr - p2.y;
      assert SquaredResidual(h, p1, p2) == Some(NormSq(Fin(dx), Fin(dy)));
      assert ProjectedResidual(ur, vr, wr, p2) == Some(Square(dx) + Square(dy));
    }
  }

  /** The IEEE rows of a finite matrix are the exact ones. */
  lemma FiniteRows(h: Matrix, p: Point)
    requires h.Mat? && AllFinite(h)
    ensures Row(h, 0, p) == Fin(RealRow(h, 0, p))
    ensures Row(h, 1, p) == Fin(RealRow(h, 1, p))
    ensures Row(h, 2, p) == Fin(RealRow(h, 2, p))
  {
    assert h.e[0].Fin? && h.e[1].Fin? && h.e[2].Fin? && h.e[3].Fin? && h.e[4].Fin?;
    assert h.e[5].Fin? && h.e[6].Fin? && h.e[7].Fin? && h.e[8].Fin?;
  }
}
