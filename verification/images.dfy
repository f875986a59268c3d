/** `cv::Mat` images as the compositor sees them: a pixel type, a size, and row-major
    pixels of three real channels (blue, green, red). A single-channel image (a mask)
    keeps its value in the first channel. Channel values are exact reals; the 8-bit
    rounding and saturation of `convertTo` are not modelled. */
module Images {
  datatype Rgb = Rgb(b: real, g: real, r: real)

  /** The OpenCV pixel types the code distinguishes. */
  datatype PixelType = U8C1 | U8C3 | F32C1 | F32C3 | OtherType

  datatype Image = Image(kind: PixelType, rows: nat, cols: nat, px: seq<Rgb>)

  /** `rows * cols`, by repeated addition so that shapes stay in linear arithmetic. */
  function Area(rows: nat, cols: nat): nat
  {
    if rows == 0 then 0 else cols + Area(rows - 1, cols)
  }

  predicate WellFormed(img: Image)
  {
    |img.px| == Area(img.rows, img.cols)
  }

  /** `img1.size() == img2.size()` */
  predicate SameSize(a: Image, b: Image)
  {
    a.rows == b.rows && a.cols == b.cols
  }

  /** The value of a single-channel pixel. */
  function Value(p: Rgb): real
  {
    p.b
  }

  /** An 8-bit mask: every value in [0, 255]. */
  predicate ByteMask(m: Image)
  {
    forall k :: 0 <= k < |m.px| ==> 0.0 <= Value(m.px[k]) <= 255.0
  }

  function Plus(p: Rgb, q: Rgb): Rgb
  {
    Rgb(p.b + q.b, p.g + q.g, p.r + q.r)
  }

  function Minus(p: Rgb, q: Rgb): Rgb
  {
    Rgb(p.b - q.b, p.g - q.g, p.r - q.r)
  }

  /** Pixelwise `a + b`, with the size and type of `a`. */
  function Add(a: Image, b: Image): (c: Image)
    requires |a.px| == |b.px|
    ensures c.kind == a.kind && c.rows == a.rows && c.cols == a.cols && |c.px| == |a.px|
    ensures forall k :: 0 <= k < |c.px| ==> c.px[k] == Plus(a.px[k], b.px[k])
  {
    Image(a.kind, a.rows, a.cols, seq(|a.px|, k requires 0 <= k < |a.px| => Plus(a.px[k], b.px[k])))
  }

  /** Pixelwise `a - b`, with the size and type of `a`. */
  function Sub(a: Image, b: Image): (c: Image)
    requires |a.px| == |b.px|
    ensures c.kind == a.kind && c.rows == a.rows && c.cols == a.cols && |c.px| == |a.px|
    ensures forall k :: 0 <= k < |c.px| ==> c.px[k] == Minus(a.px[k], b.px[k])
  {
    Image(a.kind, a.rows, a.cols, seq(|a.px|, k requires 0 <= k < |a.px| => Minus(a.px[k], b.px[k])))
  }

  /** Adding back what was subtracted restores the image. */
  lemma AddUndoesSub(a: Image, u: Image)
    requires |a.px| == |u.px|
    ensures Add(u, Sub(a, u)).px == a.px
  {
    var c := Add(u, Sub(a, u));
    forall k | 0 <= k < |a.px| ensures c.px[k] == a.px[k] {
      assert c.px[k] == Plus(u.px[k], Minus(a.px[k], u.px[k]));
    }
  }
}
