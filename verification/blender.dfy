/** `Blender`: mode dispatch, direct overwrite, feathered blending, Gaussian and Laplacian
    pyramids and multi-band blending. `cv::pyrDown`, `cv::pyrUp` and
    `cv::distanceTransform` are parameters; only their output shapes are relied upon. */
module Blending {
  import opened Wrappers
  import opened Images

  datatype BlendMode = SimpleOverlay | Feathering | Multiband | ExposureCompensation

  /** The feather radius and band count `blend` passes (the header's default arguments). */
  const FEATHER_RADIUS: int := 30
  const NUM_BANDS: int := 5

  /** The value `sum += (sum == 0)` adds where a weight sum is zero: an OpenCV
      comparison yields 255 for true. The numerators are zero there, so any non-zero
      fill gives the same quotient. */
  const ZERO_SUM_FILL: real := 255.0

  /** The number of rows or columns after `i` halvings by `pyrDown`: (n + 1) / 2 each. */
  function Halved(n: nat, i: nat): nat
  {
    if i == 0 then n else (Halved(n, i - 1) + 1) / 2
  }

  /** A distance-transform value. */
  type Distance = x: real | x >= 0.0

  /** The OpenCV image operations, pixel by pixel: pixel `k` (row-major) of
      `cv::pyrDown(img)`, of `cv::pyrUp(img, dst, Size(cols, rows))`, and of
      `cv::distanceTransform(mask, dist, DIST_L2, 3)`. The shapes of their results are
      fixed by `Down`, `Up` and `Dist`. */
  datatype ImageOps = ImageOps(
    downPx: (Image, nat) -> Rgb,
    upPx: (Image, nat, nat, nat) -> Rgb,
    distPx: (Image, nat) -> Distance)

  /** `cv::pyrDown`: the same type, each side halved rounding up. */
  function Down(ops: ImageOps, img: Image): (d: Image)
    ensures WellFormed(d) && d.kind == img.kind && d.rows == (img.rows + 1) / 2 && d.cols == (img.cols + 1) / 2
  {
    var rows := (img.rows + 1) / 2;
    var cols := (img.cols + 1) / 2;
    Image(img.kind, rows, cols, seq(Area(rows, cols), (k: int) requires 0 <= k => ops.downPx(img, k)))
  }

  /** `cv::pyrUp` to an explicit size: the same type and exactly that size. */
  function Up(ops: ImageOps, img: Image, rows: nat, cols: nat): (u: Image)
    ensures WellFormed(u) && u.kind == img.kind && u.rows == rows && u.cols == cols
  {
    Image(img.kind, rows, cols, seq(Area(rows, cols), (k: int) requires 0 <= k => ops.upPx(img, rows, cols, k)))
  }

  /** `cv::distanceTransform`: one non-negative distance per pixel. */
  function Dist(ops: ImageOps, mask: Image): (d: seq<real>)
    ensures |d| == |mask.px| && forall k :: 0 <= k < |d| ==> d[k] >= 0.0
  {
    var d := seq(|mask.px|, (k: int) requires 0 <= k => ops.distPx(mask, k) as real);
    assert forall k :: 0 <= k < |d| ==> d[k] == ops.distPx(mask, k) as real >= 0.0;
    d
  }


  /** `Blender`: only the mode affects blending. */
  datatype Blender = Blender(mode: BlendMode)

  /** The constructor sets FEATHERING. */
  function NewBlender(): (b: Blender)
    ensures b.mode == Feathering
  {
    Blender(Feathering)
  }

  /** The inputs every variant accepts: same size and same type. */
  predicate Compatible(img1: Image, img2: Image)
  {
    SameSize(img1, img2) && img1.kind == img2.kind
  }

  /** Images and masks well formed, masks the size of the images (OpenCV requires it of
      the masked copy and the per-pixel products). */
  predicate Shaped(img1: Image, img2: Image, mask1: Image, mask2: Image)
  {
    && WellFormed(img1) && WellFormed(img2) && WellFormed(mask1) && WellFormed(mask2)
    && SameSize(mask1, img1) && SameSize(mask2, img1)
  }

  // ---------------------------------------------------------------------------------
  // Dispatch

  /** `blend`: SIMPLE → overwrite, FEATHERING → feather with radius 30, MULTIBAND →
      5 bands, anything else → overwrite. */
  function Blend(b: Blender, ops: ImageOps, img1: Image, img2: Image, mask1: Image, mask2: Image)
    : (r: Option<Image>)
    requires Shaped(img1, img2, mask1, mask2)
    ensures b.mode in {SimpleOverlay, ExposureCompensation} ==> r == Overlay(img1, img2, mask1, mask2)
    ensures b.mode == Feathering ==> r == FeatherBlend(ops, img1, img2, mask1, mask2, FEATHER_RADIUS)
    ensures b.mode == Multiband ==> r == MultibandBlend(ops, img1, img2, mask1, mask2, NUM_BANDS)
    ensures r.None? <==> !Compatible(img1, img2)
  {
    match b.mode
    case SimpleOverlay => Overlay(img1, img2, mask1, mask2)
    case Feathering => FeatherBlend(ops, img1, img2, mask1, mask2, FEATHER_RADIUS)
    case Multiband => MultibandBlend(ops, img1, img2, mask1, mask2, NUM_BANDS)
    case ExposureCompensation => Overlay(img1, img2, mask1, mask2)
  }

  // ---------------------------------------------------------------------------------
  // Direct overwrite

  /** `simpleOverlay`: a copy of img1 with img2 copied in wherever mask2 is non-zero;
      mask1 plays no part. */
  function Overlay(img1: Image, img2: Image, mask1: Image, mask2: Image): (r: Option<Image>)
    requires Shaped(img1, img2, mask1, mask2)
    ensures r.None? <==> !Compatible(img1, img2)
    ensures r.Some? ==> r.value.kind == img1.kind && SameSize(r.value, img1) && WellFormed(r.value)
    ensures r.Some? ==> forall k :: 0 <= k < |img1.px| ==>
              r.value.px[k] == (if Value(mask2.px[k]) != 0.0 then img2.px[k] else img1.px[k])
  {
    if !Compatible(img1, img2) then None
    else
      Some(img1.(px := seq(|img1.px|, k requires 0 <= k < |img1.px| =>
                           if Value(mask2.px[k]) != 0.0 then img2.px[k] else img1.px[k])))
  }

  /** Overwriting with a full mask yields img2; with an empty mask, img1. */
  lemma OverlayExtremes(img1: Image, img2: Image, mask1: Image, mask2: Image)
    requires Shaped(img1, img2, mask1, mask2) && Compatible(img1, img2)
    ensures (forall k :: 0 <= k < |mask2.px| ==> Value(mask2.px[k]) != 0.0) ==>
              Overlay(img1, img2, mask1, mask2).value.px == img2.px
    ensures (forall k :: 0 <= k < |mask2.px| ==> Value(mask2.px[k]) == 0.0) ==>
              Overlay(img1, img2, mask1, mask2) == Some(img1)
  {
    if forall k :: 0 <= k < |mask2.px| ==> Value(mask2.px[k]) == 0.0 {
      assert Overlay(img1, img2, mask1, mask2).value.px == img1.px;
    }
  }

  // ---------------------------------------------------------------------------------
  // Feathering

  /** The weight of one pixel: the clipped distance over the radius, or the mask value
      over 255 when the radius is not positive. */
  function FeatherWeight(radius: int, dist: real, maskValue: real): (w: real)
    requires dist >= 0.0
    ensures radius > 0 ==> 0.0 <= w <= 1.0
    ensures radius > 0 && dist >= radius as real ==> w == 1.0
    ensures radius > 0 && dist == 0.0 ==> w == 0.0
    ensures radius <= 0 ==> w * 255.0 == maskValue
  {
    if radius > 0 then (if dist < radius as real then dist else radius as real) / radius as real
    else maskValue / 255.0
  }

  /** One channel of `(w1·c1 + w2·c2) / sum`, a zero sum replaced. */
  function Mix(w1: real, w2: real, c1: real, c2: real): real
  {
    var s := w1 + w2;
    (w1 * c1 + w2 * c2) / (if s == 0.0 then ZERO_SUM_FILL else s)
  }

  function MixPixel(w1: real, w2: real, p: Rgb, q: Rgb): Rgb
  {
    Rgb(Mix(w1, w2, p.b, q.b), Mix(w1, w2, p.g, q.g), Mix(w1, w2, p.r, q.r))
  }

  /** Mixing with non-negative weights is a convex combination when they do not both
      vanish, and zero when they do. */
  lemma MixConvex(w1: real, w2: real, c1: real, c2: real)
    requires w1 >= 0.0 && w2 >= 0.0
    ensures w1 + w2 > 0.0 ==>
              (if c1 <= c2 then c1 else c2) <= Mix(w1, w2, c1, c2) <= (if c1 <= c2 then c2 else c1)
    ensures w1 + w2 == 0.0 ==> Mix(w1, w2, c1, c2) == 0.0
    ensures w1 > 0.0 && w2 == 0.0 ==> Mix(w1, w2, c1, c2) == c1
    ensures w1 == 0.0 && w2 > 0.0 ==> Mix(w1, w2, c1, c2) == c2
  {
    var s := w1 + w2;
    if s > 0.0 {
      var lo := if c1 <= c2 then c1 else c2;
      var hi := if c1 <= c2 then c2 else c1;
      Between(w1, w2, c1, c2, lo, hi);
      assert Mix(w1, w2, c1, c2) == (w1 * c1 + w2 * c2) / s;
      ScaledBetween(w1 * c1 + w2 * c2, s, lo, hi);
      if w2 == 0.0 {
        assert w1 * c1 + w2 * c2 == w1 * c1;
        assert w1 * c1 / w1 == c1;
      }
      if w1 == 0.0 {
        assert w1 * c1 + w2 * c2 == w2 * c2;
        assert w2 * c2 / w2 == c2;
      }
    } else if s == 0.0 {
      assert w1 == 0.0 && w2 == 0.0;
      assert w1 * c1 + w2 * c2 == 0.0;
    }
  }

  /** The weighted sum lies between the weight total times the smaller value and times
      the larger one. */
  lemma Between(w1: real, w2: real, c1: real, c2: real, lo: real, hi: real)
    requires w1 >= 0.0 && w2 >= 0.0 && lo <= c1 <= hi && lo <= c2 <= hi
    ensures (w1 + w2) * lo <= w1 * c1 + w2 * c2 <= (w1 + w2) * hi
  {
    assert (w1 + w2) * lo == w1 * lo + w2 * lo;
    assert (w1 + w2) * hi == w1 * hi + w2 * hi;
    MulMonotone(w1, lo, c1);
    MulMonotone(w2, lo, c2);
    MulMonotone(w1, c1, hi);
    MulMonotone(w2, c2, hi);
  }

  lemma MulMonotone(w: real, a: real, b: real)
    requires w >= 0.0 && a <= b
    ensures w * a <= w * b
  {
    assert w * b - w * a == w * (b - a);
  }

  lemma ScaledBetween(x: real, s: real, lo: real, hi: real)
    requires s > 0.0 && s * lo <= x <= s * hi
    ensures lo <= x / s <= hi
  {
    assert (s * lo) / s == lo;
    assert (s * hi) / s == hi;
    DivMonotone(s * lo, x, s);
    DivMonotone(x, s * hi, s);
  }

  lemma DivMonotone(a: real, b: real, s: real)
    requires a <= b && s > 0.0
    ensures a / s <= b / s
  {
    assert b / s - a / s == (b - a) / s;
  }

  /** The two weight maps of `featherBlend`. */
  function FeatherWeights(ops: ImageOps, mask: Image, radius: int): (w: seq<real>)
    ensures |w| == |mask.px|
    ensures forall k :: 0 <= k < |w| ==> w[k] == FeatherWeight(radius, Dist(ops, mask)[k], Value(mask.px[k]))
  {
    var d := Dist(ops, mask);
    seq(|mask.px|, k requires 0 <= k < |mask.px| => FeatherWeight(radius, d[k], Value(mask.px[k])))
  }

  /** `featherBlend`: per pixel, the weighted average of the two images under the
      feather weights; the result is 8-bit three-channel. */
  function FeatherBlend(ops: ImageOps, img1: Image, img2: Image, mask1: Image, mask2: Image, radius: int)
    : (r: Option<Image>)
    requires Shaped(img1, img2, mask1, mask2)
    ensures r.None? <==> !Compatible(img1, img2)
    ensures r.Some? ==> r.value.kind == U8C3 && SameSize(r.value, img1) && WellFormed(r.value)
    ensures r.Some? ==>
              var w1 := FeatherWeights(ops, mask1, radius);
              var w2 := FeatherWeights(ops, mask2, radius);
              forall k :: 0 <= k < |img1.px| ==> r.value.px[k] == MixPixel(w1[k], w2[k], img1.px[k], img2.px[k])
  {
    if !Compatible(img1, img2) then None
    else
      var w1 := FeatherWeights(ops, mask1, radius);
      var w2 := FeatherWeights(ops, mask2, radius);
      Some(Image(U8C3, img1.rows, img1.cols,
                 seq(|img1.px|, k requires 0 <= k < |img1.px| => MixPixel(w1[k], w2[k], img1.px[k], img2.px[k]))))
  }

  /** The feather weights lie in [0, 1], each output channel lies between the two input
      channels where some weight is positive, equals the single covering image where
      only one weight is positive, and is 0 where both weights are 0. */
  lemma FeatherIsConvex(ops: ImageOps, img1: Image, img2: Image, mask1: Image, mask2: Image,
                        radius: int, k: nat)
    requires Shaped(img1, img2, mask1, mask2) && Compatible(img1, img2)
    requires ByteMask(mask1) && ByteMask(mask2) && k < |img1.px|
    ensures var w1 := FeatherWeights(ops, mask1, radius)[k];
            var w2 := FeatherWeights(ops, mask2, radius)[k];
            var p := img1.px[k];
            var q := img2.px[k];
            var o := FeatherBlend(ops, img1, img2, mask1, mask2, radius).value.px[k];
            && 0.0 <= w1 <= 1.0 && 0.0 <= w2 <= 1.0
            && (w1 + w2 > 0.0 ==>
                  (if p.b <= q.b then p.b else q.b) <= o.b <= (if p.b <= q.b then q.b else p.b)
                  && (if p.g <= q.g then p.g else q.g) <= o.g <= (if p.g <= q.g then q.g else p.g)
                  && (if p.r <= q.r then p.r else q.r) <= o.r <= (if p.r <= q.r then q.r else p.r))
            && (w1 + w2 == 0.0 ==> o == Rgb(0.0, 0.0, 0.0))
            && (w1 > 0.0 && w2 == 0.0 ==> o == p)
            && (w1 == 0.0 && w2 > 0.0 ==> o == q)
  {
    var w1 := FeatherWeights(ops, mask1, radius)[k];
    var w2 := FeatherWeights(ops, mask2, radius)[k];
    var p := img1.px[k];
    var q := img2.px[k];
    MixConvex(w1, w2, p.b, q.b);
    MixConvex(w1, w2, p.g, q.g);
    MixConvex(w1, w2, p.r, q.r);
  }

  /** With a radius of 0 and binary masks the feathered blend is not an overwrite: where
      both masks are set the pixel is the mean of the two images. */
  lemma ZeroRadiusAveragesOverlap(ops: ImageOps, img1: Image, img2: Image, mask1: Image, mask2: Image, k: nat)
    requires Shaped(img1, img2, mask1, mask2) && Compatible(img1, img2) && k < |img1.px|
    requires Value(mask1.px[k]) == 255.0 && Value(mask2.px[k]) == 255.0
    ensures var o := FeatherBlend(ops, img1, img2, mask1, mask2, 0).value.px[k];
            var p := img1.px[k];
            var q := img2.px[k];
            o == Rgb((p.b + q.b) / 2.0, (p.g + q.g) / 2.0, (p.r + q.r) / 2.0)
  {
    assert FeatherWeights(ops, mask1, 0)[k] == 1.0;
    assert FeatherWeights(ops, mask2, 0)[k] == 1.0;
  }

  // ---------------------------------------------------------------------------------
  // Pyramids

  /** The shape every level of a pyramid of `img` has at position `i`. */
  predicate LevelShape(img: Image, level: Image, i: nat)
  {
    WellFormed(level) && level.rows == Halved(img.rows, i) && level.cols == Halved(img.cols, i)
  }

  /** `createGaussianPyramid`: the input followed by `levels - 1` successive `pyrDown`s
      (just the input when `levels` is at most 1). */
  function GaussianPyramid(ops: ImageOps, img: Image, levels: int): (p: seq<Image>)
    requires WellFormed(img)
    ensures |p| == if levels < 1 then 1 else levels
    ensures p[0] == img
    ensures forall i :: 0 <= i < |p| ==> LevelShape(img, p[i], i) && p[i].kind == img.kind
    decreases levels
  {
    if levels <= 1 then [img]
    else
      var down := Down(ops, img);
      var rest := GaussianPyramid(ops, down, levels - 1);
      var p := [img] + rest;
      PrependLevel(img, down, img, rest);
      p
  }

  /** A level of `current`'s shape followed by a pyramid of `down`, the next coarser
      image, is a pyramid of `current`. */
  lemma PrependLevel(current: Image, down: Image, head: Image, rest: seq<Image>)
    requires LevelShape(current, head, 0) && head.kind == current.kind
    requires down.rows == (current.rows + 1) / 2 && down.cols == (current.cols + 1) / 2 && down.kind == current.kind
    requires forall j :: 0 <= j < |rest| ==> LevelShape(down, rest[j], j) && rest[j].kind == down.kind
    ensures var p := [head] + rest;
            forall i :: 0 <= i < |p| ==> LevelShape(current, p[i], i) && p[i].kind == current.kind
  {
    var p := [head] + rest;
    forall i | 0 < i < |p|
      ensures LevelShape(current, p[i], i) && p[i].kind == current.kind
    {
      assert p[i] == rest[i - 1];
      HalvedShift(current.rows, i);
      HalvedShift(current.cols, i);
    }
  }

  lemma {:induction false} HalvedShift(n: nat, i: nat)
    requires i > 0
    ensures Halved(n, i) == Halved((n + 1) / 2, i - 1)
    decreases i
  {
    if i > 1 {
      HalvedShift(n, i - 1);
    }
  }

  /** The loop of `createLaplacianPyramid` from `current`: `levels - 1` band-pass images
      `current - pyrUp(pyrDown(current))`, then the low-pass residual. */
  function Bands(ops: ImageOps, current: Image, levels: int): (p: seq<Image>)
    requires WellFormed(current)
    ensures |p| == if levels < 1 then 1 else levels
    ensures forall i :: 0 <= i < |p| ==> LevelShape(current, p[i], i) && p[i].kind == current.kind
    ensures p[|p| - 1] == Residual(ops, current, levels)
    decreases levels
  {
    if levels <= 1 then [current]
    else
      var down := Down(ops, current);
      var up := Up(ops, down, current.rows, current.cols);
      var rest := Bands(ops, down, levels - 1);
      var p := [Sub(current, up)] + rest;
      PrependLevel(current, down, Sub(current, up), rest);
      assert p[|p| - 1] == rest[|rest| - 1];
      p
  }

  /** The last entry of the Laplacian pyramid: `levels - 1` successive `pyrDown`s. */
  function Residual(ops: ImageOps, current: Image, levels: int): Image
    decreases levels
  {
    if levels <= 1 then current else Residual(ops, Down(ops, current), levels - 1)
  }

  /** `createLaplacianPyramid`: 8-bit three-channel input is first converted to float. */
  function LaplacianPyramid(ops: ImageOps, img: Image, levels: int): (p: seq<Image>)
    requires WellFormed(img)
    ensures |p| == if levels < 1 then 1 else levels
    ensures forall i :: 0 <= i < |p| ==> LevelShape(img, p[i], i)
    ensures forall i :: 0 <= i < |p| ==> p[i].kind == (if img.kind == U8C3 then F32C3 else img.kind)
  {
    Bands(ops, if img.kind == U8C3 then img.(kind := F32C3) else img, levels)
  }

  /** The loop of `reconstructFromPyramid`: starting from the last entry, upsample to the
      next finer entry's size and add it. */
  function Collapse(ops: ImageOps, pyramid: seq<Image>): (r: Image)
    requires |pyramid| >= 1
    requires forall i :: 0 <= i < |pyramid| ==> WellFormed(pyramid[i])
    ensures WellFormed(r)
    ensures r.rows == pyramid[0].rows && r.cols == pyramid[0].cols
    ensures r.kind == pyramid[|pyramid| - 1].kind
    decreases |pyramid|
  {
    if |pyramid| == 1 then pyramid[0]
    else
      assert forall i :: 0 <= i < |pyramid| - 1 ==> pyramid[1..][i] == pyramid[i + 1];
      var coarse := Collapse(ops, pyramid[1..]);
      var up := Up(ops, coarse, pyramid[0].rows, pyramid[0].cols);
      assert WellFormed(pyramid[0]) && |up.px| == Area(pyramid[0].rows, pyramid[0].cols);
      Add(Up(ops, coarse, pyramid[0].rows, pyramid[0].cols), pyramid[0])
  }

  /** `reconstructFromPyramid`: the collapsed image, converted to 8-bit three-channel. */
  function Reconstruct(ops: ImageOps, pyramid: seq<Image>): (r: Image)
    requires |pyramid| >= 1
    requires forall i :: 0 <= i < |pyramid| ==> WellFormed(pyramid[i])
    ensures r.kind == U8C3 && WellFormed(r) && r.rows == pyramid[0].rows && r.cols == pyramid[0].cols
  {
    Collapse(ops, pyramid).(kind := U8C3)
  }

  /** Collapsing the bands of an image gives the image back: each band stores exactly
      what the upsampled coarser level misses, whatever `pyrDown` and `pyrUp` compute. */
  lemma {:induction false} CollapseBands(ops: ImageOps, current: Image, levels: int)
    requires WellFormed(current)
    ensures Collapse(ops, Bands(ops, current, levels)).px == current.px
    decreases levels
  {
    if levels > 1 {
      var down := Down(ops, current);
      var up := Up(ops, down, current.rows, current.cols);
      var p := Bands(ops, current, levels);
      assert p[1..] == Bands(ops, down, levels - 1);
      CollapseBands(ops, down, levels - 1);
      var coarse := Collapse(ops, p[1..]);
      assert coarse.kind == p[|p| - 1].kind == down.kind;
      assert coarse == down;
      assert p[0] == Sub(current, up);
      assert Collapse(ops, p) == Add(up, Sub(current, up));
      AddUndoesSub(current, up);
    }
  }

  /** Decompose then reconstruct is the identity on pixel values (before the final
      8-bit conversion rounds them). */
  lemma {:induction false} LaplacianRoundTrip(ops: ImageOps, img: Image, levels: int)
    requires WellFormed(img)
    ensures var r := Reconstruct(ops, LaplacianPyramid(ops, img, levels));
            r.px == img.px && r.rows == img.rows && r.cols == img.cols && r.kind == U8C3
  {
    CollapseBands(ops, if img.kind == U8C3 then img.(kind := F32C3) else img, levels);
  }

  // ---------------------------------------------------------------------------------
  // Multi-band blending

  /** The normalised mask weights of one pixel at one level. */
  function LevelWeights(m1: real, m2: real): (w: (real, real))
    ensures m1 >= 0.0 && m2 >= 0.0 && m1 + m2 > 0.0 ==> w.0 + w.1 == 1.0 && w.0 >= 0.0 && w.1 >= 0.0
    ensures m1 >= 0.0 && m2 >= 0.0 && m1 + m2 == 0.0 ==> w.0 == 0.0 && w.1 == 0.0
  {
    var a := m1 / 255.0;
    var b := m2 / 255.0;
    var s := a + b;
    var d := if s == 0.0 then ZERO_SUM_FILL else s;
    assert s != 0.0 ==> a / d + b / d == 1.0 by {
      if s != 0.0 {
        assert a / s + b / s == (a + b) / s;
      }
    }
    assert s > 0.0 && a >= 0.0 && b >= 0.0 ==> a / d >= 0.0 && b / d >= 0.0;
    (a / d, b / d)
  }

  /** `m1'·L1 + m2'·L2` per channel. */
  function WeightedSum(w: (real, real), p: Rgb, q: Rgb): Rgb
  {
    Rgb(w.0 * p.b + w.1 * q.b, w.0 * p.g + w.1 * q.g, w.0 * p.r + w.1 * q.r)
  }

  /** Weights summing to 1 leave a value both bands agree on unchanged. */
  lemma WeightedSumOfEqual(w: (real, real), p: Rgb)
    requires w.0 + w.1 == 1.0
    ensures WeightedSum(w, p, p) == p
  {
    assert w.0 * p.b + w.1 * p.b == (w.0 + w.1) * p.b;
    assert w.0 * p.g + w.1 * p.g == (w.0 + w.1) * p.g;
    assert w.0 * p.r + w.1 * p.r == (w.0 + w.1) * p.r;
  }

  /** One blended pyramid level, pixel by pixel. */
  function BlendLevel(l1: Image, l2: Image, m1: Image, m2: Image): (r: Image)
    requires |l2.px| == |l1.px| == |m1.px| == |m2.px|
    ensures r.kind == l1.kind && r.rows == l1.rows && r.cols == l1.cols && |r.px| == |l1.px|
    ensures forall k :: 0 <= k < |r.px| ==>
              r.px[k] == WeightedSum(LevelWeights(Value(m1.px[k]), Value(m2.px[k])), l1.px[k], l2.px[k])
  {
    Image(l1.kind, l1.rows, l1.cols,
          seq(|l1.px|, k requires 0 <= k < |l1.px| =>
                WeightedSum(LevelWeights(Value(m1.px[k]), Value(m2.px[k])), l1.px[k], l2.px[k])))
  }

  /** Four pyramids with at least `n` levels whose levels agree in pixel count. */
  predicate Aligned(p1: seq<Image>, p2: seq<Image>, g1: seq<Image>, g2: seq<Image>, n: nat)
  {
    && |p1| >= n && |p2| >= n && |g1| >= n && |g2| >= n
    && forall i :: 0 <= i < n ==> |p2[i].px| == |p1[i].px| == |g1[i].px| == |g2[i].px|
  }

  /** The first `n` levels of `p1` and `p2` blended under `g1` and `g2`. */
  function BlendLevels(p1: seq<Image>, p2: seq<Image>, g1: seq<Image>, g2: seq<Image>, n: nat): (p: seq<Image>)
    requires Aligned(p1, p2, g1, g2, n)
    ensures |p| == n
    ensures forall i :: 0 <= i < n ==> p[i] == BlendLevel(p1[i], p2[i], g1[i], g2[i])
  {
    seq(n, i requires 0 <= i < n => BlendLevel(p1[i], p2[i], g1[i], g2[i]))
  }

  /** The loop of `multibandBlend`: level `i` of the two Laplacian pyramids blended
      under level `i` of the two mask pyramids. */
  function BlendedPyramid(ops: ImageOps, img1: Image, img2: Image, mask1: Image, mask2: Image, numBands: int)
    : (p: seq<Image>)
    requires Shaped(img1, img2, mask1, mask2) && Compatible(img1, img2) && numBands >= 1
    ensures |p| == numBands
    ensures forall i :: 0 <= i < numBands ==> LevelShape(img1, p[i], i)
    ensures forall i :: 0 <= i < numBands ==>
              p[i] == BlendLevel(LaplacianPyramid(ops, img1, numBands)[i], LaplacianPyramid(ops, img2, numBands)[i],
                                 GaussianPyramid(ops, mask1, numBands)[i], GaussianPyramid(ops, mask2, numBands)[i])
  {
    var p1 := LaplacianPyramid(ops, img1, numBands);
    var p2 := LaplacianPyramid(ops, img2, numBands);
    var g1 := GaussianPyramid(ops, mask1, numBands);
    var g2 := GaussianPyramid(ops, mask2, numBands);
    assert Aligned(p1, p2, g1, g2, numBands) by {
      forall i | 0 <= i < numBands
        ensures |p2[i].px| == |p1[i].px| == |g1[i].px| == |g2[i].px|
      {
        assert LevelShape(img1, p1[i], i) && LevelShape(img2, p2[i], i);
        assert LevelShape(mask1, g1[i], i) && LevelShape(mask2, g2[i], i);
      }
    }
    var p := BlendLevels(p1, p2, g1, g2, numBands);
    assert forall i :: 0 <= i < numBands ==> LevelShape(img1, p[i], i) by {
      forall i | 0 <= i < numBands
        ensures LevelShape(img1, p[i], i)
      {
        assert LevelShape(img1, p1[i], i);
      }
    }
    p
  }

  /** `pyrDown` keeps a byte mask a byte mask (it averages with non-negative kernel
      weights summing to 1). */
  ghost predicate KeepsRange(ops: ImageOps)
  {
    forall img, k :: ByteMask(img) ==> 0.0 <= Value(ops.downPx(img, k)) <= 255.0
  }

  lemma {:induction false} GaussianOfMaskIsMask(ops: ImageOps, mask: Image, levels: int)
    requires WellFormed(mask) && ByteMask(mask) && KeepsRange(ops)
    ensures forall i :: 0 <= i < |GaussianPyramid(ops, mask, levels)| ==> ByteMask(GaussianPyramid(ops, mask, levels)[i])
    decreases levels
  {
    if levels > 1 {
      GaussianOfMaskIsMask(ops, Down(ops, mask), levels - 1);
    }
  }

  /** At every level and pixel the normalised mask weights sum to 1 where the level's
      masks do not both vanish, and are both 0 where they do; where the two bands agree
      the blended band keeps their value. */
  lemma MultibandWeightsSumToOne(ops: ImageOps, img1: Image, img2: Image, mask1: Image, mask2: Image,
                                 numBands: int, i: nat, k: nat)
    requires Shaped(img1, img2, mask1, mask2) && Compatible(img1, img2) && numBands >= 1
    requires ByteMask(mask1) && ByteMask(mask2) && KeepsRange(ops)
    requires i < numBands && k < |GaussianPyramid(ops, mask1, numBands)[i].px|
    ensures var m1 := Value(GaussianPyramid(ops, mask1, numBands)[i].px[k]);
            var m2 := Value(GaussianPyramid(ops, mask2, numBands)[i].px[k]);
            var w := LevelWeights(m1, m2);
            var l1 := LaplacianPyramid(ops, img1, numBands)[i].px[k];
            var l2 := LaplacianPyramid(ops, img2, numBands)[i].px[k];
            && (m1 + m2 > 0.0 ==> w.0 + w.1 == 1.0 && 0.0 <= w.0 <= 1.0 && 0.0 <= w.1 <= 1.0)
            && (m1 + m2 == 0.0 ==> w == (0.0, 0.0))
            && BlendedPyramid(ops, img1, img2, mask1, mask2, numBands)[i].px[k] == WeightedSum(w, l1, l2)
            && (m1 + m2 > 0.0 && l1 == l2 ==> BlendedPyramid(ops, img1, img2, mask1, mask2, numBands)[i].px[k] == l1)
  {
    GaussianOfMaskIsMask(ops, mask1, numBands);
    GaussianOfMaskIsMask(ops, mask2, numBands);
    var g1 := GaussianPyramid(ops, mask1, numBands)[i];
    var g2 := GaussianPyramid(ops, mask2, numBands)[i];
    assert ByteMask(g1) && ByteMask(g2);
    var m1 := Value(g1.px[k]);
    var m2 := Value(g2.px[k]);
    var w := LevelWeights(m1, m2);
    if m1 + m2 > 0.0 {
      WeightedSumOfEqual(w, LaplacianPyramid(ops, img1, numBands)[i].px[k]);
    }
  }

  /** `multibandBlend`: Laplacian pyramids of the images, Gaussian pyramids of the masks,
      each level blended with its own normalised weights, then reconstructed. */
  function MultibandBlend(ops: ImageOps, img1: Image, img2: Image, mask1: Image, mask2: Image, numBands: int)
    : (r: Option<Image>)
    requires Shaped(img1, img2, mask1, mask2) && numBands >= 1
    ensures r.None? <==> !Compatible(img1, img2)
    ensures r.Some? ==> r.value.kind == U8C3 && SameSize(r.value, img1) && WellFormed(r.value)
    ensures r.Some? ==> r.value == Reconstruct(ops, BlendedPyramid(ops, img1, img2, mask1, mask2, numBands))
  {
    if !Compatible(img1, img2) then None
    else Some(Reconstruct(ops, BlendedPyramid(ops, img1, img2, mask1, mask2, numBands)))
  }
}
