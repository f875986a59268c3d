/** The pieces both `performStitchingDirect` variants share: why a pairwise stitch fails,
    the input checks, the homography checks (in IEEE arithmetic, because one variant lets
    NaN reach them), the canvas plan and checks, and the final warp-and-blend.
    `cv::warpPerspective` is a parameter given pixel by pixel, like the pyramid operations
    of the blender; the shape of a warped image is fixed here. */
module PairStitch {
  import opened Wrappers
  import opened Floats
  import opened Geometry
  import opened Images
  import opened Canvas
  import opened Blending
  import opened DetectorFactory
  import Config

  /** Why a pairwise stitch returned an empty matrix. */
  datatype Reject =
    | EmptyInput | WrongType | TooSmall | TooManyPixels | UnknownDetector
    | NoHomography | NonFiniteHomography | BadDeterminant | SingularH22 | ExtremeScale
    | TooFewInliers | NotInvertible | NonPositiveCanvas | CanvasTooLarge | CanvasTooHeavy
    | BlendFailed

  /** `cv::Mat::empty()` */
  predicate IsEmptyImage(img: Image)
  {
    img.rows == 0 || img.cols == 0
  }

  // ---------------------------------------------------------------------------------
  // Input checks

  /** The three input checks, in order: emptiness, pixel type, minimum side. */
  function InputGate(img1: Image, img2: Image): (r: Option<Reject>)
    ensures r == Some(EmptyInput) <==> IsEmptyImage(img1) || IsEmptyImage(img2)
    ensures r == Some(WrongType) <==>
              !IsEmptyImage(img1) && !IsEmptyImage(img2) && (img1.kind != U8C3 || img2.kind != U8C3)
    ensures r == Some(TooSmall) <==>
              !IsEmptyImage(img1) && !IsEmptyImage(img2) && img1.kind == U8C3 && img2.kind == U8C3
              && (img1.cols < Config.MIN_IMAGE_DIMENSION || img1.rows < Config.MIN_IMAGE_DIMENSION
                  || img2.cols < Config.MIN_IMAGE_DIMENSION || img2.rows < Config.MIN_IMAGE_DIMENSION)
    ensures r.None? <==>
              img1.kind == U8C3 && img2.kind == U8C3
              && img1.cols >= Config.MIN_IMAGE_DIMENSION && img1.rows >= Config.MIN_IMAGE_DIMENSION
              && img2.cols >= Config.MIN_IMAGE_DIMENSION && img2.rows >= Config.MIN_IMAGE_DIMENSION
  {
    if IsEmptyImage(img1) || IsEmptyImage(img2) then Some(EmptyInput)
    else if img1.kind != U8C3 || img2.kind != U8C3 then Some(WrongType)
    else if img1.cols < Config.MIN_IMAGE_DIMENSION || img1.rows < Config.MIN_IMAGE_DIMENSION
         || img2.cols < Config.MIN_IMAGE_DIMENSION || img2.rows < Config.MIN_IMAGE_DIMENSION then Some(TooSmall)
    else None
  }

  // ---------------------------------------------------------------------------------
  // Parameters

  /** A RANSAC threshold outside (0, 50] is replaced by 3.0. */
  function EffectiveThreshold(t: real): (r: real)
    ensures 0.0 < r <= Config.MAX_RANSAC_THRESHOLD
    ensures r == t <==> 0.0 < t <= Config.MAX_RANSAC_THRESHOLD
    ensures r != t ==> r == Config.DEFAULT_RANSAC_THRESHOLD
  {
    if t <= 0.0 || t > Config.MAX_RANSAC_THRESHOLD then Config.DEFAULT_RANSAC_THRESHOLD else t
  }

  /** A feature budget outside [10, 50000] is replaced by `fallback` (50000 in the
      pipeline, 2000 in the driver). */
  function EffectiveMaxFeatures(n: int, fallback: int): (r: int)
    requires Config.MIN_FEATURES <= fallback <= Config.MAX_FEATURES
    ensures Config.MIN_FEATURES <= r <= Config.MAX_FEATURES
    ensures r == n <==> Config.MIN_FEATURES <= n <= Config.MAX_FEATURES
    ensures r != n ==> r == fallback
  {
    if n < Config.MIN_FEATURES || n > Config.MAX_FEATURES then fallback else n
  }

  /** `REFERENCE_IMAGE_HEIGHT * REFERENCE_IMAGE_WIDTH` (1536 × 2048), the pixel count of
      the reference image both variants scale against. */
  const BASE_PIXELS: int := Config.REFERENCE_IMAGE_HEIGHT * Config.REFERENCE_IMAGE_WIDTH

  lemma {:induction false} SquareAtLeast(a: nat)
    ensures a <= a * a
  {
    if a > 0 {
      assert a * a == a * (a - 1) + a;
    }
  }

  /** The largest `r <= n` whose square is at most `x`. */
  function SqrtBelow(x: real, n: nat): (r: nat)
    requires 0.0 <= x < ((n + 1) * (n + 1)) as real
    ensures (r * r) as real <= x < ((r + 1) * (r + 1)) as real
    decreases n
  {
    if (n * n) as real <= x then n else SqrtBelow(x, n - 1)
  }

  /** `static_cast<int>(std::sqrt(x))` in exact arithmetic: the integer square root. */
  function FloorSqrt(x: real): (r: nat)
    requires x >= 0.0
    ensures (r * r) as real <= x < ((r + 1) * (r + 1)) as real
  {
    SquareAtLeast(x.Floor + 1);
    SqrtBelow(x, x.Floor)
  }

  /** Squares of naturals keep the order of the naturals. */
  lemma SquareOrder(a: nat, b: nat)
    requires a * a < b * b
    ensures a < b
  {
  }

  /** The integer square root is monotone in its bound: a square below `x` is at most
      the root's square. */
  lemma FloorSqrtAbove(x: real, k: nat)
    requires x >= 0.0 && (k * k) as real <= x
    ensures k <= FloorSqrt(x)
  {
    var r := FloorSqrt(x);
    SquareOrder(k, r + 1);
  }

  lemma FloorSqrtBelow(x: real, k: nat)
    requires 0.0 <= x < (k * k) as real
    ensures FloorSqrt(x) < k
  {
    var r := FloorSqrt(x);
    SquareOrder(r, k);
  }

  /** The squared scale factor `image_pixels / base_pixels`, capped at 9 (a scale of 3)
      when `capped`. */
  function ScaleSq(pixels: int, capped: bool): (s: real)
    ensures pixels >= 0 ==> s >= 0.0
    ensures capped ==> s <= 9.0
    ensures s == pixels as real / BASE_PIXELS as real || (capped && s == 9.0)
  {
    var q := pixels as real / BASE_PIXELS as real;
    if capped && q > 9.0 then 9.0 else q
  }

  /** `m² · s`, the square of `m * sqrt(s)`. */
  function ScaledSquare(m: int, s: real): (x: real)
    requires s >= 0.0
    ensures x >= 0.0
  {
    MulAtLeast((m * m) as real, 0.0, s);
    (m * m) as real * s
  }

  /** `static_cast<int>(m * std::sqrt(s))` for `s >= 0`: truncation toward zero, so the
      sign is that of `m` and the magnitude is the integer square root of `m² · s`. */
  function TruncScaled(m: int, s: real): (r: int)
    requires s >= 0.0
    ensures m >= 0 ==> r == FloorSqrt(ScaledSquare(m, s))
    ensures m < 0 ==> r == -(FloorSqrt(ScaledSquare(m, s)) as int)
  {
    var a: int := FloorSqrt(ScaledSquare(m, s));
    if m < 0 then -a else a
  }

  /** Feature budget scaled for an image: unchanged up to 1.5 times the reference pixel
      count; above it `static_cast<int>(maxFeatures * sqrt(pixels / base))`, with the
      square root capped at 3 in the pipeline and uncapped in the driver. */
  function AdaptiveFeatures(pixels: int, maxFeatures: int, capped: bool): (r: int)
    ensures pixels as real <= BASE_PIXELS as real * Config.PANORAMA_SCALE_THRESHOLD ==> r == maxFeatures
  {
    if pixels as real > BASE_PIXELS as real * Config.PANORAMA_SCALE_THRESHOLD then
      TruncScaled(maxFeatures, ScaleSq(pixels, capped))
    else maxFeatures
  }

  lemma MulAtLeast(m: real, s: real, t: real)
    requires m >= 0.0 && s <= t
    ensures m * s <= m * t
  {
    assert m * t - m * s == m * (t - s);
  }

  lemma SquareOfTriplePlusOne(m: nat)
    ensures (3 * m + 1) * (3 * m + 1) == 9 * (m * m) + 6 * m + 1
  {
  }

  /** `m² ≤ m² · s ≤ 9 m²` for `1 ≤ s ≤ 9`. */
  lemma ScaledSquareBounds(m: int, s: real)
    requires 1.0 <= s
    ensures (m * m) as real <= ScaledSquare(m, s)
    ensures s <= 9.0 ==> ScaledSquare(m, s) <= 9.0 * (m * m) as real
  {
    var m2 := (m * m) as real;
    assert m2 >= 0.0;
    assert ScaledSquare(m, s) == m2 * s;
    MulAtLeast(m2, 1.0, s);
    if s <= 9.0 {
      MulAtLeast(m2, s, 9.0);
      assert m2 * s <= m2 * 9.0;
      assert ScaledSquare(m, s) <= 9.0 * m2;
    }
  }

  lemma FloorSqrtAtMostTriple(x: real, m: nat)
    requires 0.0 <= x <= 9.0 * (m * m) as real
    ensures FloorSqrt(x) <= 3 * m
  {
    var k := 3 * m + 1;
    SquareOfTriplePlusOne(m);
    assert (k * k) as real == 9.0 * (m * m) as real + (6 * m + 1) as real;
    FloorSqrtBelow(x, k);
  }

  /** Scaling a non-negative budget by a factor between 1 and 3 (a squared factor
      between 1 and 9) keeps it between the budget and three times the budget. */
  lemma TruncScaledBounds(m: nat, s: real)
    requires 1.0 <= s
    ensures m <= TruncScaled(m, s)
    ensures s <= 9.0 ==> TruncScaled(m, s) <= 3 * m
  {
    var x := ScaledSquare(m, s);
    ScaledSquareBounds(m, s);
    FloorSqrtAbove(x, m);
    if s <= 9.0 {
      FloorSqrtAtMostTriple(x, m);
    }
  }

  /** Above the threshold the squared scale factor is at least 1.5. */
  lemma ScaleAboveThreshold(pixels: int, capped: bool)
    requires pixels as real > BASE_PIXELS as real * Config.PANORAMA_SCALE_THRESHOLD
    ensures ScaleSq(pixels, capped) >= 1.5
  {
  }

  /** Above the threshold the budget grows: between `maxFeatures` and, in the pipeline,
      three times `maxFeatures`. */
  lemma AdaptiveFeaturesBounds(pixels: int, maxFeatures: nat, capped: bool)
    requires pixels as real > BASE_PIXELS as real * Config.PANORAMA_SCALE_THRESHOLD
    ensures maxFeatures <= AdaptiveFeatures(pixels, maxFeatures, capped)
    ensures capped ==> AdaptiveFeatures(pixels, maxFeatures, capped) <= 3 * maxFeatures
  {
    ScaleAboveThreshold(pixels, capped);
    TruncScaledBounds(maxFeatures, ScaleSq(pixels, capped));
  }

  /** At nine times the reference pixel count the capped squared scale reaches 9. */
  lemma ScaleSaturates(pixels: int)
    requires pixels as real >= 9.0 * BASE_PIXELS as real
    ensures ScaleSq(pixels, true) == 9.0
  {
    var q := pixels as real / BASE_PIXELS as real;
    assert q * BASE_PIXELS as real == pixels as real;
    assert q >= 9.0;
  }

  lemma NineSquares(m: nat)
    ensures (3 * m) * (3 * m) == 9 * (m * m)
  {
  }

  /** Scaling by a factor of exactly 3 triples a budget. */
  lemma TripledBudget(m: nat)
    ensures TruncScaled(m, 9.0) == 3 * m
  {
    var m2 := m * m;
    var x := ScaledSquare(m, 9.0);
    assert x == 9.0 * m2 as real;
    FloorSqrtAtMostTriple(x, m);
    NineSquares(m);
    assert ((3 * m) * (3 * m)) as real == x;
    FloorSqrtAbove(x, 3 * m);
  }

  /** From nine times the reference pixel count on, the pipeline's budget is exactly
      three times the given one. */
  lemma AdaptiveFeaturesSaturate(pixels: int, maxFeatures: nat)
    requires pixels as real >= 9.0 * BASE_PIXELS as real
    ensures AdaptiveFeatures(pixels, maxFeatures, true) == 3 * maxFeatures
  {
    ScaleSaturates(pixels);
    TripledBudget(maxFeatures);
  }

  /** The cap only matters above nine times the reference pixel count. */
  lemma CapIrrelevantBelowNineFold(pixels: int, maxFeatures: int)
    requires pixels as real <= 9.0 * BASE_PIXELS as real
    ensures AdaptiveFeatures(pixels, maxFeatures, true) == AdaptiveFeatures(pixels, maxFeatures, false)
  {
    assert ScaleSq(pixels, true) == ScaleSq(pixels, false);
  }

  // ---------------------------------------------------------------------------------
  // Homography checks

  /** `std::abs(det) < 0.001 || std::abs(det) > 1000`. A NaN determinant passes. */
  predicate DeterminantOutOfRange(h: Matrix)
    requires h.Mat?
  {
    var d := Abs(Det(h));
    Lt(d, Fin(Config.MIN_HOMOGRAPHY_DETERMINANT)) || Gt(d, Fin(Config.MAX_HOMOGRAPHY_DETERMINANT))
  }

  /** `std::abs(h22) < 1e-10` */
  predicate H22Tiny(h: Matrix)
    requires h.Mat?
  {
    Lt(Abs(h.e[8]), Fin(Config.HOMOGRAPHY_EPSILON))
  }

  /** The squared lengths of the first two columns of `H / h22`. */
  function ScaleXSq(h: Matrix): Flt
    requires h.Mat?
  {
    NormSq(Div(h.e[0], h.e[8]), Div(h.e[3], h.e[8]))
  }

  function ScaleYSq(h: Matrix): Flt
    requires h.Mat?
  {
    NormSq(Div(h.e[1], h.e[8]), Div(h.e[4], h.e[8]))
  }

  /** Either column scale of the normalised matrix outside [0.1, 10]. */
  predicate ScaleOutOfRange(h: Matrix)
    requires h.Mat?
  {
    RootOutside(ScaleXSq(h), Config.MIN_HOMOGRAPHY_SCALE, Config.MAX_HOMOGRAPHY_SCALE)
    || RootOutside(ScaleYSq(h), Config.MIN_HOMOGRAPHY_SCALE, Config.MAX_HOMOGRAPHY_SCALE)
  }

  /** The homography checks of the stitching pipeline, in order: empty, non-finite entry,
      determinant, `h22`, scale, inlier count. */
  function PipelineHomographyGate(h: Matrix, numInliers: int): (r: Option<Reject>)
    ensures r == Some(NoHomography) <==> h.Empty?
    ensures r == Some(NonFiniteHomography) <==> h.Mat? && !AllFinite(h)
    ensures r == Some(BadDeterminant) <==> h.Mat? && AllFinite(h) && DeterminantOutOfRange(h)
    ensures r == Some(SingularH22) <==> h.Mat? && AllFinite(h) && !DeterminantOutOfRange(h) && H22Tiny(h)
    ensures r == Some(ExtremeScale) <==>
              h.Mat? && AllFinite(h) && !DeterminantOutOfRange(h) && !H22Tiny(h) && ScaleOutOfRange(h)
    ensures r.None? <==>
              h.Mat? && AllFinite(h) && !DeterminantOutOfRange(h) && !H22Tiny(h) && !ScaleOutOfRange(h)
              && numInliers >= Config.MIN_INLIERS_REQUIRED
    ensures r.Some? ==> r.value in {NoHomography, NonFiniteHomography, BadDeterminant, SingularH22, ExtremeScale, TooFewInliers}
  {
    if h.Empty? then Some(NoHomography)
    else if !AllFinite(h) then Some(NonFiniteHomography)
    else if DeterminantOutOfRange(h) then Some(BadDeterminant)
    else if H22Tiny(h) then Some(SingularH22)
    else if ScaleOutOfRange(h) then Some(ExtremeScale)
    else if numInliers < Config.MIN_INLIERS_REQUIRED then Some(TooFewInliers)
    else None
  }

  /** The homography checks of the command-line driver: no finiteness or `h22` check. */
  function MainHomographyGate(h: Matrix, numInliers: int): (r: Option<Reject>)
    ensures r == Some(NoHomography) <==> h.Empty?
    ensures r == Some(BadDeterminant) <==> h.Mat? && DeterminantOutOfRange(h)
    ensures r == Some(ExtremeScale) <==> h.Mat? && !DeterminantOutOfRange(h) && ScaleOutOfRange(h)
    ensures r.None? <==>
              h.Mat? && !DeterminantOutOfRange(h) && !ScaleOutOfRange(h)
              && numInliers >= Config.MAIN_MIN_INLIERS_REQUIRED
    ensures r.Some? ==> r.value in {NoHomography, BadDeterminant, ExtremeScale, TooFewInliers}
  {
    if h.Empty? then Some(NoHomography)
    else if DeterminantOutOfRange(h) then Some(BadDeterminant)
    else if ScaleOutOfRange(h) then Some(ExtremeScale)
    else if numInliers < Config.MAIN_MIN_INLIERS_REQUIRED then Some(TooFewInliers)
    else None
  }

  /** Every homography the pipeline accepts, the driver accepts too. */
  lemma PipelineGateStricter(h: Matrix, numInliers: int)
    ensures PipelineHomographyGate(h, numInliers).None? ==> MainHomographyGate(h, numInliers).None?
  {
  }

  /** The all-NaN matrix, which IEEE comparisons cannot reject. */
  function NaNMatrix(): (h: Matrix)
    ensures h.Mat? && forall k :: 0 <= k < 9 ==> h.e[k] == NaN
  {
    Mat([NaN, NaN, NaN, NaN, NaN, NaN, NaN, NaN, NaN])
  }

  /** The strictness is real: a matrix of NaNs with enough inliers passes every check of
      the driver, while the pipeline rejects it as non-finite. */
  lemma DriverAdmitsNaNHomography(numInliers: int)
    requires numInliers >= Config.MIN_INLIERS_REQUIRED
    ensures MainHomographyGate(NaNMatrix(), numInliers).None?
    ensures PipelineHomographyGate(NaNMatrix(), numInliers) == Some(NonFiniteHomography)
  {
    var h := NaNMatrix();
    assert !AllFinite(h) by { assert !h.e[0].Fin?; }
  }

  /** An infinite entry need not give a NaN determinant: an infinite `h02` whose
      cofactor is non-zero, all other entries finite, makes the IEEE expansion infinite,
      which the driver's determinant check rejects (for instance `h02 = +infinity` over
      the bottom row (0.001, 0.001, 1) of the identity gives -infinity). */
  lemma InfiniteEntryFailsDeterminant(h: Matrix, numInliers: int)
    requires h.Mat? && (h.e[2].PosInf? || h.e[2].NegInf?)
    requires forall k :: 0 <= k < 9 && k != 2 ==> h.e[k].Fin?
    requires h.e[3].v * h.e[7].v - h.e[4].v * h.e[6].v != 0.0
    ensures Det(h).PosInf? || Det(h).NegInf?
    ensures MainHomographyGate(h, numInliers) == Some(BadDeterminant)
    ensures PipelineHomographyGate(h, numInliers) == Some(NonFiniteHomography)
  {
    var e := h.e;
    assert e[0].Fin? && e[1].Fin? && e[3].Fin? && e[4].Fin? && e[5].Fin? && e[6].Fin? && e[7].Fin? && e[8].Fin?;
    var cofactor := Floats.Sub(Mul(e[3], e[7]), Mul(e[4], e[6]));
    assert cofactor.Fin? && cofactor.v != 0.0;
    InfinityTimesNonZero(e[2], cofactor);
    InfinityAbsorbsFinite(Floats.Sub(Mul(e[0], Floats.Sub(Mul(e[4], e[8]), Mul(e[5], e[7]))),
                                     Mul(e[1], Floats.Sub(Mul(e[3], e[8]), Mul(e[5], e[6])))),
                          Mul(e[2], cofactor));
    assert Abs(Det(h)) == PosInf;
  }

  /** For a finite matrix with a usable `h22` the scale check is the real one on the
      normalised columns. */
  lemma FiniteScaleCheck(h: Matrix)
    requires h.Mat? && AllFinite(h) && !H22Tiny(h)
    ensures var n00 := At(h, 0, 0) / At(h, 2, 2);
            var n10 := At(h, 1, 0) / At(h, 2, 2);
            ScaleXSq(h) == Fin(n00 * n00 + n10 * n10)
    ensures var n01 := At(h, 0, 1) / At(h, 2, 2);
            var n11 := At(h, 1, 1) / At(h, 2, 2);
            ScaleYSq(h) == Fin(n01 * n01 + n11 * n11)
  {
    assert h.e[8].Fin? && h.e[8].v != 0.0;
  }

  // ---------------------------------------------------------------------------------
  // Canvas

  /** The canvas of a pairwise stitch: the box, and its padded width and height. */
  datatype CanvasPlan = CanvasPlan(box: Box, width: int, height: int)

  /** The four corners of `img2` carried into `img1`'s frame by `transform(hinv, .)`
      (`cv::perspectiveTransform`). */
  function ProjectedCorners(img2: Image, hinv: Matrix, transform: (Matrix, Point) -> Point): (c: seq<Point>)
    ensures |c| == 4
    ensures forall k :: 0 <= k < 4 ==> c[k] == transform(hinv, Corners(img2.cols, img2.rows)[k])
  {
    var c := Corners(img2.cols, img2.rows);
    [transform(hinv, c[0]), transform(hinv, c[1]), transform(hinv, c[2]), transform(hinv, c[3])]
  }

  /** Bounding box of `img1`'s rectangle and the projected corners; the size is the
      truncated extent plus twice the padding. The translation moves the box's minimum
      corner to the origin, so both images' corners land on the canvas, and the canvas is
      never smaller than `img1` plus the padding. */
  function PlanCanvas(img1: Image, img2: Image, hinv: Matrix, transform: (Matrix, Point) -> Point): (p: CanvasPlan)
    ensures p.box == Bound(img1.cols, img1.rows, ProjectedCorners(img2, hinv, transform))
    ensures p.width >= img1.cols + 2 * Config.PANORAMA_PADDING
    ensures p.height >= img1.rows + 2 * Config.PANORAMA_PADDING
    ensures forall k :: 0 <= k < 4 ==>
              var q := Translate(p.box, ProjectedCorners(img2, hinv, transform)[k]);
              0.0 <= q.x < p.width as real && 0.0 <= q.y < p.height as real
    ensures forall k :: 0 <= k < 4 ==>
              var q := Translate(p.box, Corners(img1.cols, img1.rows)[k]);
              0.0 <= q.x < p.width as real && 0.0 <= q.y < p.height as real
  {
    var pts := ProjectedCorners(img2, hinv, transform);
    var b := Bound(img1.cols, img1.rows, pts);
    var p := CanvasPlan(b, PaddedSide(b.maxX - b.minX), PaddedSide(b.maxY - b.minY));
    forall k | 0 <= k < 4
      ensures var q := Translate(b, pts[k]); 0.0 <= q.x < p.width as real && 0.0 <= q.y < p.height as real
    {
      TranslatedPointsOnCanvas(img1.cols, img1.rows, pts, pts[k]);
    }
    forall k | 0 <= k < 4
      ensures var q := Translate(b, Corners(img1.cols, img1.rows)[k]);
              0.0 <= q.x < p.width as real && 0.0 <= q.y < p.height as real
    {
      TranslatedPointsOnCanvas(img1.cols, img1.rows, pts, Corners(img1.cols, img1.rows)[k]);
    }
    assert Trunc(b.maxX - b.minX) >= img1.cols;
    assert Trunc(b.maxY - b.minY) >= img1.rows;
    p
  }

  /** The canvas checks: non-positive size, a side above `maxDim`, and (in the pipeline
      only) `width * height * 3 * 2` bytes above `MAX_PANORAMA_MEMORY`. */
  function CanvasGate(width: int, height: int, maxDim: int, checkMemory: bool): (r: Option<Reject>)
    ensures r == Some(NonPositiveCanvas) <==> width <= 0 || height <= 0
    ensures r == Some(CanvasTooLarge) <==> width > 0 && height > 0 && (width > maxDim || height > maxDim)
    ensures r == Some(CanvasTooHeavy) <==>
              0 < width <= maxDim && 0 < height <= maxDim && checkMemory
              && 6 * Area(width, height) > Config.MAX_PANORAMA_MEMORY
    ensures r.None? <==>
              0 < width <= maxDim && 0 < height <= maxDim
              && (checkMemory ==> 6 * Area(width, height) <= Config.MAX_PANORAMA_MEMORY)
  {
    if width <= 0 || height <= 0 then Some(NonPositiveCanvas)
    else if width > maxDim || height > maxDim then Some(CanvasTooLarge)
    else if checkMemory && 6 * Area(width, height) > Config.MAX_PANORAMA_MEMORY then Some(CanvasTooHeavy)
    else None
  }

  /** A planned canvas is never empty, so the non-positive check cannot fire in exact
      arithmetic. */
  lemma PlannedCanvasPositive(img1: Image, img2: Image, hinv: Matrix, transform: (Matrix, Point) -> Point,
                              maxDim: int, checkMemory: bool)
    ensures var p := PlanCanvas(img1, img2, hinv, transform);
            CanvasGate(p.width, p.height, maxDim, checkMemory) != Some(NonPositiveCanvas)
  {
  }

  /** `Area` is the product it stands for. */
  lemma {:induction false} AreaIsProduct(rows: nat, cols: nat)
    ensures Area(rows, cols) == rows * cols
  {
    if rows > 0 {
      AreaIsProduct(rows - 1, cols);
    }
  }

  /** A larger rectangle has at least the area. */
  lemma {:induction false} AreaMonotone(r1: nat, c1: nat, r2: nat, c2: nat)
    requires r1 <= r2 && c1 <= c2
    ensures Area(r1, c1) <= Area(r2, c2)
    decreases r2
  {
    if r2 > 0 {
      if r1 == r2 {
        AreaMonotone(r1 - 1, c1, r2 - 1, c2);
      } else {
        AreaMonotone(r1, c1, r2 - 1, c2);
      }
    }
  }

  /** With the pipeline's side limit the memory check cannot fire: a 15000 × 15000 canvas
      needs 1.35e9 bytes by the source's estimate, below the 2 GiB limit. */
  lemma MemoryCheckIdleAtDimensionLimit(width: nat, height: nat)
    requires width <= Config.MAX_PANORAMA_DIMENSION && height <= Config.MAX_PANORAMA_DIMENSION
    ensures 6 * Area(width, height) <= Config.MAX_PANORAMA_MEMORY
  {
    AreaMonotone(width, height, 15000, 15000);
    AreaIsProduct(15000, 15000);
  }

  // ---------------------------------------------------------------------------------
  // Warping and blending

  /** The two warps of a pairwise stitch: the translation alone (for `img1`) and the
      translation after the inverse homography (for `img2`). */
  datatype Transform = Translation(box: Box) | TranslatedInverse(box: Box, hinv: Matrix)

  /** `cv::warpPerspective(src, dst, T, Size(cols, rows))` pixel by pixel. */
  datatype Warper = Warper(warpPx: (Image, Transform, nat, nat, nat) -> Rgb)

  /** The warped image: the source's type, the requested size. */
  function Warp(w: Warper, img: Image, t: Transform, rows: nat, cols: nat): (r: Image)
    ensures WellFormed(r) && r.kind == img.kind && r.rows == rows && r.cols == cols
  {
    Image(img.kind, rows, cols, seq(Area(rows, cols), (k: int) requires 0 <= k => w.warpPx(img, t, rows, cols, k)))
  }

  /** `cv::Mat::ones(img.size(), CV_8UC1) * 255` */
  function FullMask(img: Image): (m: Image)
    ensures WellFormed(m) && m.kind == U8C1 && SameSize(m, img)
    ensures forall k :: 0 <= k < |m.px| ==> Value(m.px[k]) == 255.0
  {
    Image(U8C1, img.rows, img.cols, seq(Area(img.rows, img.cols), (k: int) requires 0 <= k => Rgb(255.0, 0.0, 0.0)))
  }

  /** Warp both images and their full masks onto the canvas and blend them. Images of
      the same type always blend: the warps make everything the canvas size. */
  function Compose(w: Warper, ops: ImageOps, blender: Blender, img1: Image, img2: Image, hinv: Matrix,
                   p: CanvasPlan): (r: Option<Image>)
    requires p.width > 0 && p.height > 0
    ensures r.Some? <==> img1.kind == img2.kind
  {
    var rows := p.height as nat;
    var cols := p.width as nat;
    var t1 := Translation(p.box);
    var t2 := TranslatedInverse(p.box, hinv);
    var warped1 := Warp(w, img1, t1, rows, cols);
    var mask1 := Warp(w, FullMask(img1), t1, rows, cols);
    var warped2 := Warp(w, img2, t2, rows, cols);
    var mask2 := Warp(w, FullMask(img2), t2, rows, cols);
    Blend(blender, ops, warped1, warped2, mask1, mask2)
  }

  // ---------------------------------------------------------------------------------
  // The stages both variants delegate

  /** What detection, matching and RANSAC are asked for: the two images, the detector,
      the two feature budgets, the ratio of the ratio test, whether the matcher uses the
      L2 norm (Hamming otherwise), and the threshold the estimator was configured with. */
  datatype MatchRequest = MatchRequest(
    img1: Image, img2: Image, detector: Detector,
    features1: int, features2: int,
    ratio: real, l2Norm: bool, ransacThreshold: real)

  /** What they hand back: the homography (possibly empty) and RANSAC's inlier count. */
  datatype Estimate = Estimate(homography: Matrix, numInliers: int)

  /** The OpenCV work neither variant decides: detection through RANSAC (`estimate`),
      `Mat::inv` (`None` when it throws), `perspectiveTransform`, `warpPerspective` and
      the blender's pyramid and distance operations. */
  datatype Stages = Stages(
    estimate: MatchRequest -> Estimate,
    invert: Matrix -> Option<Matrix>,
    transform: (Matrix, Point) -> Point,
    warper: Warper,
    ops: ImageOps)

  /** A successful pairwise stitch and what led to it. */
  datatype Stitched = Stitched(panorama: Image, request: MatchRequest, canvas: CanvasPlan, blender: Blender)

  /** Everything after the homography checks, common to both variants: invert, plan the
      canvas, check it (the memory estimate only in the pipeline), warp and blend. */
  function Finish(st: Stages, img1: Image, img2: Image, h: Matrix, maxDim: int, checkMemory: bool,
                  blender: Blender): (r: Result<(CanvasPlan, Image), Reject>)
    ensures r == Failure(NotInvertible) <==> st.invert(h).None?
    ensures st.invert(h).Some? ==>
              var plan := PlanCanvas(img1, img2, st.invert(h).value, st.transform);
              var gate := CanvasGate(plan.width, plan.height, maxDim, checkMemory);
              && (gate.Some? ==> r == Failure(gate.value))
              && (gate.None? ==> (r.Success? <==> img1.kind == img2.kind))
              && (r.Success? ==> r.value.0 == plan)
    ensures r.Success? ==>
              && 0 < r.value.0.width <= maxDim && 0 < r.value.0.height <= maxDim
              && (checkMemory ==> 6 * Area(r.value.0.width, r.value.0.height) <= Config.MAX_PANORAMA_MEMORY)
    ensures r.Failure? ==> r.error in {NotInvertible, NonPositiveCanvas, CanvasTooLarge, CanvasTooHeavy, BlendFailed}
  {
    match st.invert(h)
    case None => Failure(NotInvertible)
    case Some(hinv) =>
      var plan := PlanCanvas(img1, img2, hinv, st.transform);
      match CanvasGate(plan.width, plan.height, maxDim, checkMemory)
      case Some(e) => Failure(e)
      case None =>
        match Compose(st.warper, st.ops, blender, img1, img2, hinv, plan)
        case None => Failure(BlendFailed)
        case Some(p) => Success((plan, p))
  }
}
