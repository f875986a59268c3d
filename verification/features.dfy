/** The OpenCV value types that flow between detection, matching and estimation. */
module Features {
  import opened Geometry

  /** `cv::KeyPoint`, reduced to its location and detector response. */
  datatype KeyPoint = KeyPoint(pt: Point, response: real)

  /** `cv::DMatch`: an index into the query keypoints, one into the train keypoints,
      and the descriptor distance. */
  datatype DMatch = DMatch(queryIdx: int, trainIdx: int, distance: real)

  /** Number of true entries of a mask (`std::count(mask.begin(), mask.end(), true)`). */
  function Count(mask: seq<bool>): (c: nat)
    ensures c <= |mask|
  {
    if |mask| == 0 then 0 else (if mask[0] then 1 else 0) + Count(mask[1..])
  }

  /** If every true entry of `a` is also true in `b`, `b` has at least as many. */
  lemma {:induction false} CountMonotone(a: seq<bool>, b: seq<bool>)
    requires |a| == |b|
    requires forall i :: 0 <= i < |a| && a[i] ==> b[i]
    ensures Count(a) <= Count(b)
  {
    if |a| > 0 {
      CountMonotone(a[1..], b[1..]);
    }
  }

  /** Counting a prefix one entry further adds that entry. */
  lemma {:induction false} CountExtend(mask: seq<bool>, j: nat)
    requires j < |mask|
    ensures Count(mask[..j + 1]) == Count(mask[..j]) + (if mask[j] then 1 else 0)
    decreases j
  {
    if j > 0 {
      assert mask[..j + 1][1..] == mask[1..][..j];
      assert mask[..j][1..] == mask[1..][..j - 1];
      CountExtend(mask[1..], j - 1);
    }
  }

  /** The entries of `xs` whose mask entry is true, in order. */
  function Select<T>(xs: seq<T>, mask: seq<bool>): (r: seq<T>)
    requires |mask| == |xs|
    ensures |r| == Count(mask)
    ensures forall y :: y in r ==> y in xs
  {
    if |xs| == 0 then []
    else (if mask[0] then [xs[0]] else []) + Select(xs[1..], mask[1..])
  }
}
