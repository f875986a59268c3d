/** `HomographyEstimator`: turning matches into two lockstep point lists, running RANSAC
    on them, mapping the inlier mask back onto the matches, and the output rectangle of
    `calculateOutputBounds`. */
module HomographyEstimator {
  import opened Wrappers
  import opened Floats
  import opened Geometry
  import opened Features
  import opened Ransac
  import opened Canvas
  import Config

  /** The estimator's fields. `ransacThreshold` is written by `setRANSACThreshold` and
      read by nothing; `lastResult` is `None` while it is default-constructed. */
  datatype Estimator = Estimator(ransacThreshold: real, ransacConfidence: real, lastResult: Option<RansacResult>)

  /** The constructor: threshold and confidence from the configuration. */
  function NewEstimator(): (e: Estimator)
    ensures e.ransacThreshold == Config.DEFAULT_RANSAC_THRESHOLD
    ensures e.ransacConfidence == Config.DEFAULT_RANSAC_CONFIDENCE
    ensures e.lastResult.None?
  {
    Estimator(Config.DEFAULT_RANSAC_THRESHOLD, Config.DEFAULT_RANSAC_CONFIDENCE, None)
  }

  function SetRANSACThreshold(e: Estimator, threshold: real): (e': Estimator)
    ensures e'.ransacThreshold == threshold
    ensures e'.ransacConfidence == e.ransacConfidence && e'.lastResult == e.lastResult
  {
    e.(ransacThreshold := threshold)
  }

  // ---------------------------------------------------------------------------------
  // Correspondences

  /** Both indices of the match are in range of their keypoint lists. */
  predicate ValidMatch(kps1: seq<KeyPoint>, kps2: seq<KeyPoint>, m: DMatch)
  {
    0 <= m.queryIdx < |kps1| && 0 <= m.trainIdx < |kps2|
  }

  /** The valid matches among the first `k`, in order. */
  function ValidPrefix(kps1: seq<KeyPoint>, kps2: seq<KeyPoint>, matches: seq<DMatch>, k: nat): (v: seq<DMatch>)
    requires k <= |matches|
    ensures |v| <= k
    ensures forall i :: 0 <= i < |v| ==> ValidMatch(kps1, kps2, v[i])
    decreases k
  {
    if k == 0 then []
    else ValidPrefix(kps1, kps2, matches, k - 1)
         + (if ValidMatch(kps1, kps2, matches[k - 1]) then [matches[k - 1]] else [])
  }

  /** How many valid matches precede position `k`: the index `valid_idx` holds there. */
  function Rank(kps1: seq<KeyPoint>, kps2: seq<KeyPoint>, matches: seq<DMatch>, k: nat): nat
    requires k <= |matches|
  {
    |ValidPrefix(kps1, kps2, matches, k)|
  }

  /** A valid match sits in the list of valid matches at its rank, and a later valid
      match has a larger rank: the mask entry `Rank(j)` is about `matches[j]`. */
  lemma {:induction false} RankLocates(kps1: seq<KeyPoint>, kps2: seq<KeyPoint>, matches: seq<DMatch>, j: nat, k: nat)
    requires j < k <= |matches| && ValidMatch(kps1, kps2, matches[j])
    ensures Rank(kps1, kps2, matches, j) < Rank(kps1, kps2, matches, k)
    ensures ValidPrefix(kps1, kps2, matches, k)[Rank(kps1, kps2, matches, j)] == matches[j]
    decreases k
  {
    if k > j + 1 {
      RankLocates(kps1, kps2, matches, j, k - 1);
    }
  }

  /** The point lists `points1` and `points2`: one entry in each per valid match. */
  function Correspondences(kps1: seq<KeyPoint>, kps2: seq<KeyPoint>, matches: seq<DMatch>)
    : (r: (seq<Point>, seq<Point>))
    ensures |r.0| == |r.1| == Rank(kps1, kps2, matches, |matches|)
    ensures forall j :: 0 <= j < |matches| && ValidMatch(kps1, kps2, matches[j]) ==>
              var i := Rank(kps1, kps2, matches, j);
              i < |r.0| && r.0[i] == kps1[matches[j].queryIdx].pt && r.1[i] == kps2[matches[j].trainIdx].pt
  {
    var v := ValidPrefix(kps1, kps2, matches, |matches|);
    var r := (seq(|v|, i requires 0 <= i < |v| => kps1[v[i].queryIdx].pt),
              seq(|v|, i requires 0 <= i < |v| => kps2[v[i].trainIdx].pt));
    assert forall j :: 0 <= j < |matches| && ValidMatch(kps1, kps2, matches[j]) ==>
             Rank(kps1, kps2, matches, j) < |v| && v[Rank(kps1, kps2, matches, j)] == matches[j] by {
      forall j | 0 <= j < |matches| && ValidMatch(kps1, kps2, matches[j])
        ensures Rank(kps1, kps2, matches, j) < |v| && v[Rank(kps1, kps2, matches, j)] == matches[j]
      {
        RankLocates(kps1, kps2, matches, j, |matches|);
      }
    }
    r
  }

  // ---------------------------------------------------------------------------------
  // Inlier remapping

  /** `matches[j]` goes to `inlier_matches`: it is valid and the mask entry at its rank
      exists and is set. */
  predicate Kept(kps1: seq<KeyPoint>, kps2: seq<KeyPoint>, matches: seq<DMatch>, mask: seq<bool>, j: nat)
    requires j < |matches|
  {
    && ValidMatch(kps1, kps2, matches[j])
    && Rank(kps1, kps2, matches, j) < |mask|
    && mask[Rank(kps1, kps2, matches, j)]
  }

  /** The positions among the first `k` whose match is kept, increasing. */
  function KeptIndices(kps1: seq<KeyPoint>, kps2: seq<KeyPoint>, matches: seq<DMatch>, mask: seq<bool>, k: nat)
    : (idx: seq<nat>)
    requires k <= |matches|
    ensures forall i :: 0 <= i < |idx| ==> idx[i] < k
    ensures forall i, i' :: 0 <= i < i' < |idx| ==> idx[i] < idx[i']
    ensures forall j :: 0 <= j < k ==> (j in idx <==> Kept(kps1, kps2, matches, mask, j))
    decreases k
  {
    if k == 0 then []
    else KeptIndices(kps1, kps2, matches, mask, k - 1)
         + (if Kept(kps1, kps2, matches, mask, k - 1) then [k - 1] else [])
  }

  /** The inlier matches: `matches` at the kept positions, in order. */
  function InlierMatches(kps1: seq<KeyPoint>, kps2: seq<KeyPoint>, matches: seq<DMatch>, mask: seq<bool>)
    : (r: seq<DMatch>)
  {
    var idx := KeptIndices(kps1, kps2, matches, mask, |matches|);
    seq(|idx|, i requires 0 <= i < |idx| => matches[idx[i]])
  }

  /** The remapping loop as written, with its running `valid_idx`; it builds exactly the
      order-preserving selection of kept matches. */
  method RemapInliers(kps1: seq<KeyPoint>, kps2: seq<KeyPoint>, matches: seq<DMatch>, mask: seq<bool>)
    returns (inliers: seq<DMatch>)
    ensures inliers == InlierMatches(kps1, kps2, matches, mask)
    ensures forall m :: m in inliers ==> m in matches && ValidMatch(kps1, kps2, m)
  {
    inliers := [];
    var validIdx := 0;
    var i := 0;
    ghost var idx: seq<nat> := [];
    while i < |matches|
      invariant 0 <= i <= |matches|
      invariant validIdx == Rank(kps1, kps2, matches, i)
      invariant idx == KeptIndices(kps1, kps2, matches, mask, i)
      invariant |inliers| == |idx|
      invariant forall k :: 0 <= k < |idx| ==> inliers[k] == matches[idx[k]]
    {
      var m := matches[i];
      if 0 <= m.queryIdx < |kps1| && 0 <= m.trainIdx < |kps2| {
        if validIdx < |mask| && mask[validIdx] {
          inliers := inliers + [m];
          idx := idx + [i];
        }
        validIdx := validIdx + 1;
      }
      i := i + 1;
    }
    forall m | m in inliers ensures m in matches && ValidMatch(kps1, kps2, m) {
      var k :| 0 <= k < |inliers| && inliers[k] == m;
      assert idx[k] in idx;
    }
  }

  /** When the mask has one entry per valid match (as RANSAC returns it), the kept
      matches are exactly as many as the mask's true entries. */
  lemma {:induction false} KeptCount(kps1: seq<KeyPoint>, kps2: seq<KeyPoint>, matches: seq<DMatch>, mask: seq<bool>, k: nat)
    requires k <= |matches| && Rank(kps1, kps2, matches, |matches|) == |mask|
    ensures Rank(kps1, kps2, matches, k) <= |mask|
    ensures |KeptIndices(kps1, kps2, matches, mask, k)| == Count(mask[..Rank(kps1, kps2, matches, k)])
    decreases k
  {
    RankMonotone(kps1, kps2, matches, k, |matches|);
    if k > 0 {
      KeptCount(kps1, kps2, matches, mask, k - 1);
      var r := Rank(kps1, kps2, matches, k - 1);
      if ValidMatch(kps1, kps2, matches[k - 1]) {
        CountExtend(mask, r);
      }
    }
  }

  lemma {:induction false} RankMonotone(kps1: seq<KeyPoint>, kps2: seq<KeyPoint>, matches: seq<DMatch>, j: nat, k: nat)
    requires j <= k <= |matches|
    ensures Rank(kps1, kps2, matches, j) <= Rank(kps1, kps2, matches, k)
    decreases k
  {
    if j < k {
      RankMonotone(kps1, kps2, matches, j, k - 1);
    }
  }

  // ---------------------------------------------------------------------------------
  // estimateHomography

  datatype Estimation = Estimation(homography: Matrix, inlierMatches: seq<DMatch>, estimator: Estimator)

  /** `estimateHomography` (the five-argument definition): the returned matrix,
      `inlier_matches` and the estimator afterwards. `None` when the injected draws run
      out inside RANSAC. Both early exits leave `inlier_matches` and `last_result_` as
      the caller had them. */
  function EstimateHomography(e: Estimator, num: Numerics, kps1: seq<KeyPoint>, kps2: seq<KeyPoint>,
                              matches: seq<DMatch>, inlierMatches: seq<DMatch>, threshold: real,
                              draws: seq<nat>): (r: Option<Estimation>)
    requires InRange(draws, Rank(kps1, kps2, matches, |matches|))
    ensures |matches| < 4 ==> r == Some(Estimation(Empty, inlierMatches, e))
    ensures Rank(kps1, kps2, matches, |matches|) < 4 ==> r == Some(Estimation(Empty, inlierMatches, e))
    ensures Rank(kps1, kps2, matches, |matches|) >= 4 ==>
              var pts := Correspondences(kps1, kps2, matches);
              var o := FindHomography(num, pts.0, pts.1, threshold, e.ransacConfidence,
                                      Config.DEFAULT_RANSAC_MAX_ITERATIONS, draws);
              && (r.None? <==> o.Exhausted?)
              && (r.Some? ==>
                    && o.Estimated?
                    && r.value.estimator == e.(lastResult := Some(o.result))
                    && r.value.homography == o.result.homography
                    && r.value.inlierMatches == InlierMatches(kps1, kps2, matches, o.result.inlierMask)
                    && |r.value.inlierMatches| == o.result.numInliers)
  {
    if |matches| < 4 then Some(Estimation(Empty, inlierMatches, e))
    else
      var pts := Correspondences(kps1, kps2, matches);
      if |pts.0| < 4 then Some(Estimation(Empty, inlierMatches, e))
      else
        match FindHomography(num, pts.0, pts.1, threshold, e.ransacConfidence,
                             Config.DEFAULT_RANSAC_MAX_ITERATIONS, draws)
        case Estimated(res) =>
          KeptCount(kps1, kps2, matches, res.inlierMask, |matches|);
          assert res.inlierMask[..|res.inlierMask|] == res.inlierMask;
          Some(Estimation(res.homography, InlierMatches(kps1, kps2, matches, res.inlierMask),
                          e.(lastResult := Some(res))))
        case _ => None
  }

  /** The threshold stored by `setRANSACThreshold` has no effect on the estimate: only
      the argument reaches RANSAC. */
  lemma StoredThresholdUnused(e: Estimator, stored: real, num: Numerics, kps1: seq<KeyPoint>, kps2: seq<KeyPoint>,
                              matches: seq<DMatch>, inlierMatches: seq<DMatch>, threshold: real, draws: seq<nat>)
    requires InRange(draws, Rank(kps1, kps2, matches, |matches|))
    ensures var a := EstimateHomography(e, num, kps1, kps2, matches, inlierMatches, threshold, draws);
            var b := EstimateHomography(SetRANSACThreshold(e, stored), num, kps1, kps2, matches, inlierMatches, threshold, draws);
            a.Some? == b.Some?
            && (a.Some? ==> a.value.homography == b.value.homography && a.value.inlierMatches == b.value.inlierMatches)
  {
  }

  // ---------------------------------------------------------------------------------
  // calculateOutputBounds

  datatype Rect = Rect(x: int, y: int, width: int, height: int)

  /** `calculateOutputBounds`: the box of img1's rectangle and img2's projected corners
      (`project` stands for `perspectiveTransform` with H), `ceil` of each extent plus
      twice the padding, each side capped at `MAX_PANORAMA_DIMENSION`, at the origin. */
  function CalculateOutputBounds(cols1: nat, rows1: nat, cols2: nat, rows2: nat, project: Point -> Point)
    : (r: Rect)
    ensures r.x == 0 && r.y == 0
    ensures var b := OutputBox(cols1, rows1, cols2, rows2, project);
            && r.width == Min(Ceil(b.maxX - b.minX) + 2 * Config.PANORAMA_PADDING, Config.MAX_PANORAMA_DIMENSION)
            && r.height == Min(Ceil(b.maxY - b.minY) + 2 * Config.PANORAMA_PADDING, Config.MAX_PANORAMA_DIMENSION)
    ensures r.width <= Config.MAX_PANORAMA_DIMENSION && r.height <= Config.MAX_PANORAMA_DIMENSION
    ensures r.width >= Min(cols1 + 2 * Config.PANORAMA_PADDING, Config.MAX_PANORAMA_DIMENSION)
    ensures r.height >= Min(rows1 + 2 * Config.PANORAMA_PADDING, Config.MAX_PANORAMA_DIMENSION)
  {
    var b := OutputBox(cols1, rows1, cols2, rows2, project);
    var width := Ceil(b.maxX - b.minX) + Config.PANORAMA_PADDING * 2;
    var height := Ceil(b.maxY - b.minY) + Config.PANORAMA_PADDING * 2;
    SideAtLeast(b.maxX - b.minX, cols1);
    SideAtLeast(b.maxY - b.minY, rows1);
    Rect(0, 0, Min(width, Config.MAX_PANORAMA_DIMENSION), Min(height, Config.MAX_PANORAMA_DIMENSION))
  }

  /** The box of img1's rectangle and img2's four projected corners; it spans at least
      img1. */
  function OutputBox(cols1: nat, rows1: nat, cols2: nat, rows2: nat, project: Point -> Point): (b: Box)
    ensures var c := Corners(cols2, rows2);
            b == Bound(cols1, rows1, [project(c[0]), project(c[1]), project(c[2]), project(c[3])])
    ensures b.maxX - b.minX >= cols1 as real && b.maxY - b.minY >= rows1 as real
  {
    var c := Corners(cols2, rows2);
    Bound(cols1, rows1, [project(c[0]), project(c[1]), project(c[2]), project(c[3])])
  }

  /** An extent of at least `side` gives a clamped padded side of at least the clamped
      padded `side`. */
  lemma SideAtLeast(extent: real, side: nat)
    requires extent >= side as real
    ensures Min(Ceil(extent) + Config.PANORAMA_PADDING * 2, Config.MAX_PANORAMA_DIMENSION)
            >= Min(side + 2 * Config.PANORAMA_PADDING, Config.MAX_PANORAMA_DIMENSION)
  {
  }

  /** `std::min` on `int`. */
  function Min(a: int, b: int): (m: int)
    ensures m <= a && m <= b && (m == a || m == b)
  {
    if b < a then b else a
  }
}
